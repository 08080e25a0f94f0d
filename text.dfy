/**
 * The string tests the service relies on: Java's Character.isWhitespace,
 * Spring's StringUtils.hasText, and String.equalsIgnoreCase, the last one
 * with ASCII case folding.
 */
module Text {
  import opened Wrappers

  /** Character.isWhitespace: the ASCII control whitespace, the separators
      U+001C..U+001F, and the Unicode space, line and paragraph separators
      other than the non-breaking ones (U+00A0, U+2007, U+202F). */
  predicate IsWhitespace(c: char) {
    var n := c as int;
    || (0x09 <= n <= 0x0D)
    || (0x1C <= n <= 0x20)
    || n == 0x1680
    || (0x2000 <= n <= 0x2006)
    || (0x2008 <= n <= 0x200A)
    || n == 0x2028
    || n == 0x2029
    || n == 0x205F
    || n == 0x3000
  }

  /** A non-null string is non-blank when some character of it is not whitespace.
      This is both the @NotBlank constraint and the text test of StringUtils.hasText. */
  predicate NonBlank(s: string) {
    exists i :: 0 <= i < |s| && !IsWhitespace(s[i])
  }

  /** StringUtils.hasText on a reference that may be null. */
  predicate HasText(s: Option<string>) {
    s.Some? && NonBlank(s.value)
  }

  predicate IsAsciiUpper(c: char) {
    'A' <= c <= 'Z'
  }

  /** ASCII lower-casing of one character; every other character is kept. */
  function LowerChar(c: char): (r: char)
    ensures !IsAsciiUpper(r)
    ensures r == c || (IsAsciiUpper(c) && r as int == c as int + 32)
  {
    if IsAsciiUpper(c) then (c as int + 32) as char else c
  }

  function Lower(s: string): string {
    seq(|s|, i requires 0 <= i < |s| => LowerChar(s[i]))
  }

  /** String.equalsIgnoreCase, restricted to ASCII case folding. */
  predicate EqualsIgnoreCase(a: string, b: string) {
    Lower(a) == Lower(b)
  }

  /** equalsIgnoreCase compares the two strings character by character:
      same length, and each pair of characters equal after folding. */
  lemma EqualsIgnoreCaseCharwise(a: string, b: string)
    ensures EqualsIgnoreCase(a, b) <==>
              |a| == |b| && forall i :: 0 <= i < |a| ==> LowerChar(a[i]) == LowerChar(b[i])
  {
    if |a| == |b| && forall i :: 0 <= i < |a| ==> LowerChar(a[i]) == LowerChar(b[i]) {
      assert forall i :: 0 <= i < |a| ==> Lower(a)[i] == Lower(b)[i];
    }
    if EqualsIgnoreCase(a, b) {
      assert |Lower(a)| == |a| && |Lower(b)| == |b|;
      forall i | 0 <= i < |a| ensures LowerChar(a[i]) == LowerChar(b[i]) {
        assert Lower(a)[i] == Lower(b)[i];
      }
    }
  }

}
