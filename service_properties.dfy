/**
 * Properties of the vehicle service that relate several calls, or that
 * relate an operation to the uniqueness and validity rules of the entity.
 */
module ServiceProperties {
  import opened Wrappers
  import opened Text
  import opened Model
  import opened Service

  // ---------------------------------------------------------------- uniqueness

  /** addVehicle keeps registration numbers unique. */
  lemma AddPreservesUnique(s: Store, v: Vehicle)
    requires WellFormed(s) && IsValid(v) && UniqueRegistrations(s.table)
    ensures UniqueRegistrations(AddStep(s, v).after.table)
  {
  }

  /** patchVehicle keeps registration numbers unique: a new number is written
      only when no row holds it. */
  lemma PatchPreservesUnique(s: Store, id: Id, p: Patch)
    requires WellFormed(s) && UniqueRegistrations(s.table)
    ensures UniqueRegistrations(PatchStep(s, id, p).after.table)
  {
  }

  /** updateVehicle keeps registration numbers unique provided no other row
      holds a case variant of the registration number of the row updated:
      the lookup is skipped for a case-only change, so nothing else guards it. */
  lemma UpdatePreservesUnique(s: Store, id: Id, v: Vehicle)
    requires WellFormed(s) && IsValid(v) && UniqueRegistrations(s.table)
    requires id in s.table ==>
               forall other :: other in s.table && other != id ==>
                 !EqualsIgnoreCase(s.table[other].registrationNo, s.table[id].registrationNo)
    ensures UniqueRegistrations(UpdateStep(s, id, v).after.table)
  {
  }

  /** A store whose registration numbers are unique ignoring case meets the
      extra condition of UpdatePreservesUnique for every row. */
  lemma UpdatePreservesUniqueIgnoringCase(s: Store, id: Id, v: Vehicle)
    requires WellFormed(s) && IsValid(v) && UniqueIgnoringCase(s.table)
    ensures UniqueRegistrations(UpdateStep(s, id, v).after.table)
  {
  }

  /** Without that condition the full update can give two rows the same
      registration number: row 1 holds "ab", row 2 holds "AB", and row 1 is
      updated to "AB". */
  lemma UpdateCaseOnlyChangeDuplicates()
    ensures exists s: Store, id: Id, v: Vehicle ::
              && WellFormed(s) && IsValid(v) && UniqueRegistrations(s.table)
              && UpdateStep(s, id, v).result.Ok?
              && !UniqueRegistrations(UpdateStep(s, id, v).after.table)
  {
    var v1, v2 := SampleVehicle("ab"), SampleVehicle("AB");
    AsciiSampleWellFormed("AB");
    var s := Store(map[1 := v1, 2 := v2], 3);
    assert "ab"[0] != "AB"[0];
    assert UniqueRegistrations(s.table);
    assert EqualsIgnoreCase("AB", "ab") by {
      assert Lower("AB") == "ab" == Lower("ab");
    }
    var o := UpdateStep(s, 1, v2);
    assert o.result.Ok?;
    assert o.after.table[1] == o.after.table[2];
  }

  /** A sample valid vehicle; only the registration number varies. */
  function SampleVehicle(reg: string): Vehicle {
    Vehicle("Car", "Petrol", reg, "Owner", "Road", "Patna", "Bihar")
  }

  lemma AsciiSampleWellFormed(reg: string)
    requires reg == "ab" || reg == "AB"
    ensures IsValid(SampleVehicle(reg))
  {
    var v := SampleVehicle(reg);
    assert !IsWhitespace(v.name[0]);
    assert !IsWhitespace(v.fuelType[0]);
    assert !IsWhitespace(v.registrationNo[0]);
    assert !IsWhitespace(v.ownerName[0]);
    assert !IsWhitespace(v.ownerAddress[0]);
    assert !IsWhitespace(v.city[0]);
    assert !IsWhitespace(v.state[0]);
  }

  /** addVehicle compares registration numbers exactly, so a case variant of a
      stored number is accepted. */
  lemma AddAcceptsCaseVariant()
    ensures exists a: Vehicle, b: Vehicle ::
              && IsValid(a) && IsValid(b)
              && EqualsIgnoreCase(a.registrationNo, b.registrationNo)
              && AddStep(Empty, a).result.Ok?
              && AddStep(AddStep(Empty, a).after, b).result.Ok?
  {
    var a, b := SampleVehicle("ab"), SampleVehicle("AB");
    AsciiSampleWellFormed("ab");
    AsciiSampleWellFormed("AB");
    EqualsIgnoreCaseCharwise("ab", "AB");
    var first := AddStep(Empty, a);
    assert first.result.Ok? && first.after.table == map[1 := a];
    assert "ab"[0] != "AB"[0];
    assert !RegistrationTaken(first.after.table, "AB");
    assert AddStep(first.after, b).result.Ok?;
  }

  // ---------------------------------------------------------------- ids and lookups

  /** addVehicle then getVehicleById of the returned id gives back the vehicle
      with that id. */
  lemma AddThenGet(s: Store, v: Vehicle)
    requires WellFormed(s) && IsValid(v)
    requires AddStep(s, v).result.Ok?
    ensures var o := AddStep(s, v);
            GetVehicleById(o.after, o.result.value.id) == Some(Record(o.result.value.id, v))
  {
  }

  /** A deleted id is never handed out again. */
  lemma DeletedIdNotReused(s: Store, id: Id, v: Vehicle)
    requires WellFormed(s) && IsValid(v) && id in s.table
    ensures var o := AddStep(DeleteStep(s, id).after, v);
            o.result.Ok? ==> o.result.value.id != id
  {
  }

  /** Deleting an id twice: the first call succeeds, the second finds nothing. */
  lemma DeleteTwice(s: Store, id: Id)
    requires WellFormed(s) && id in s.table
    ensures DeleteStep(s, id).result.Ok?
    ensures var again := DeleteStep(DeleteStep(s, id).after, id);
            again.result.NotFound? && again.after == DeleteStep(s, id).after
  {
  }

  // ---------------------------------------------------------------- partial update

  const EmptyPatch := Patch(None, None, None, None, None, None, None)

  /** A patch with no field present returns the stored row and writes nothing. */
  lemma EmptyPatchIsNoOp(s: Store, id: Id)
    requires WellFormed(s) && id in s.table
    ensures PatchStep(s, id, EmptyPatch) == Step(Ok(Record(id, s.table[id])), s)
  {
  }

  /** Applying a merge twice is the same as applying it once. */
  lemma MergeIdempotent(cur: Vehicle, p: Patch)
    ensures Merge(Merge(cur, p), p) == Merge(cur, p)
    ensures !RegistrationChange(Merge(cur, p), p)
  {
  }

  /** Re-applying a patch that succeeded returns the same row and changes
      nothing further. */
  lemma PatchIdempotent(s: Store, id: Id, p: Patch)
    requires WellFormed(s) && PatchStep(s, id, p).result.Ok?
    ensures var once := PatchStep(s, id, p);
            PatchStep(once.after, id, p) == once
  {
    var once := PatchStep(s, id, p);
    MergeIdempotent(s.table[id], p);
    assert once.after.table[id] == Merge(s.table[id], p);
  }

  /** A partial update of a valid row never writes a blank attribute, and the
      row stays valid exactly when the patch leaves the name alone or gives it
      2 to 100 characters. */
  lemma PatchValidity(cur: Vehicle, p: Patch)
    requires IsValid(cur)
    ensures var m := Merge(cur, p);
            && NonBlank(m.name) && NonBlank(m.fuelType) && NonBlank(m.registrationNo)
            && NonBlank(m.ownerName) && NonBlank(m.ownerAddress) && NonBlank(m.city) && NonBlank(m.state)
    ensures IsValid(Merge(cur, p)) <==>
              !HasText(p.name) || MinNameLength <= |p.name.value| <= MaxNameLength
  {
  }

  /** A one-character name has text but is too short, so a partial update can
      make a valid row invalid. */
  lemma PatchCanInvalidateName()
    ensures exists cur: Vehicle, p: Patch :: IsValid(cur) && !IsValid(Merge(cur, p))
  {
    var cur := SampleVehicle("ab");
    AsciiSampleWellFormed("ab");
    var p := EmptyPatch.(name := Some("X"));
    assert !IsWhitespace("X"[0]);
    assert |Merge(cur, p).name| == 1;
  }

  // ---------------------------------------------------------------- search

  /** A fuel-type filter with text overrides the city and state filters, and a
      city filter with text overrides the state filter. */
  lemma SearchPriority(s: Store, fuel: Option<string>, city: Option<string>, state: Option<string>)
    requires WellFormed(s)
    ensures HasText(fuel) ==> SearchVehicles(s, fuel, city, state) == SearchVehicles(s, fuel, None, None)
    ensures !HasText(fuel) ==> SearchVehicles(s, fuel, city, state) == SearchVehicles(s, None, city, state)
    ensures !HasText(fuel) && HasText(city) ==> SearchVehicles(s, fuel, city, state) == SearchVehicles(s, None, city, None)
  {
  }

  /** Every search result is a row of the store. */
  lemma SearchWithinAll(s: Store, fuel: Option<string>, city: Option<string>, state: Option<string>)
    requires WellFormed(s)
    ensures forall x :: x in SearchVehicles(s, fuel, city, state) ==> x in GetAllVehicles(s)
  {
  }

}
