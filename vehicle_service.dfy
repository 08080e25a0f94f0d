/**
 * The vehicle service: a table of vehicles keyed by a generated id, the
 * uniqueness check on registration numbers, full and partial update,
 * delete and the prioritised search.
 *
 * Each state-changing operation is given twice: as a function from the old
 * store to a Step (the result and the new store), which carries the
 * operation's contract, and as a method of class VehicleService that updates
 * the table the way the service does and is proved equal to that function.
 */
module Service {
  import opened Wrappers
  import opened Text
  import opened Model

  type Table = map<Id, Vehicle>

  /** The repository's state: the rows, and the next value of the identity column. */
  datatype Store = Store(table: Table, nextId: Id)

  /** An operation either returns a value or raises one of the two domain errors
      (ResourceNotFoundException, DuplicateRegistrationException). */
  datatype Result<T> = Ok(value: T) | NotFound | DuplicateRegistration

  /** What a call returns together with the store after the call. */
  datatype Step<T> = Step(result: Result<T>, after: Store)

  const Empty := Store(map[], 1)

  /** Ids are positive and below the next id the store will hand out. */
  predicate WellFormed(s: Store) {
    1 <= s.nextId && forall id :: id in s.table ==> 1 <= id < s.nextId
  }

  /** findByRegistrationNo(reg).isPresent(): an exact, case-sensitive match. */
  predicate RegistrationTaken(t: Table, reg: string) {
    exists id :: id in t && t[id].registrationNo == reg
  }

  /** No two distinct ids hold identical registration numbers. */
  ghost predicate UniqueRegistrations(t: Table) {
    forall i, j :: i in t && j in t && i != j ==> t[i].registrationNo != t[j].registrationNo
  }

  /** No two distinct ids hold registration numbers that are equal ignoring case. */
  ghost predicate UniqueIgnoringCase(t: Table) {
    forall i, j :: i in t && j in t && i != j ==> !EqualsIgnoreCase(t[i].registrationNo, t[j].registrationNo)
  }

  predicate InTable(t: Table, r: Record) {
    r.id in t && t[r.id] == r.vehicle
  }

  predicate AscendingIds(rs: seq<Record>) {
    forall k, l :: 0 <= k < l < |rs| ==> rs[k].id < rs[l].id
  }

  // ---------------------------------------------------------------- create

  /** addVehicle: refuse a registration number some row already holds exactly;
      otherwise insert the vehicle under the next generated id. */
  function AddStep(s: Store, v: Vehicle): (o: Step<Record>)
    requires WellFormed(s) && IsValid(v)
    ensures WellFormed(o.after)
    ensures o.result.DuplicateRegistration? <==> RegistrationTaken(s.table, v.registrationNo)
    ensures !o.result.NotFound?
    ensures o.result.DuplicateRegistration? ==> o.after == s
    ensures o.result.Ok? ==>
              var id := o.result.value.id;
              && o.result.value.vehicle == v
              && id !in s.table
              && (forall other :: other in s.table ==> other < id)
              && o.after.table == s.table[id := v]
              && id < o.after.nextId
  {
    if RegistrationTaken(s.table, v.registrationNo) then
      Step(DuplicateRegistration, s)
    else
      Step(Ok(Record(s.nextId, v)), Store(s.table[s.nextId := v], s.nextId + 1))
  }

  // ---------------------------------------------------------------- full update

  /** updateVehicle: replace all seven attributes of row id. The registration
      number is looked up only when it differs ignoring case from the stored one. */
  function UpdateStep(s: Store, id: Id, v: Vehicle): (o: Step<Record>)
    requires WellFormed(s) && IsValid(v)
    ensures WellFormed(o.after)
    ensures o.result.NotFound? <==> id !in s.table
    ensures o.result.DuplicateRegistration? <==>
              && id in s.table
              && !EqualsIgnoreCase(v.registrationNo, s.table[id].registrationNo)
              && RegistrationTaken(s.table, v.registrationNo)
    ensures o.result.DuplicateRegistration? ==>
              exists other :: other in s.table && other != id && s.table[other].registrationNo == v.registrationNo
    ensures !o.result.Ok? ==> o.after == s
    ensures o.result.Ok? ==>
              && o.result.value == Record(id, v)
              && o.after.table.Keys == s.table.Keys
              && o.after.table[id] == v
              && (forall other :: other in s.table && other != id ==> o.after.table[other] == s.table[other])
              && o.after.nextId == s.nextId
  {
    if id !in s.table then
      Step(NotFound, s)
    else if !EqualsIgnoreCase(v.registrationNo, s.table[id].registrationNo)
         && RegistrationTaken(s.table, v.registrationNo) then
      Step(DuplicateRegistration, s)
    else
      Step(Ok(Record(id, v)), Store(s.table[id := v], s.nextId))
  }

  // ---------------------------------------------------------------- partial update

  /** The patch value of one attribute if it has text, otherwise the stored value. */
  function Pick(patch: Option<string>, current: string): string {
    if HasText(patch) then patch.value else current
  }

  /** The patch asks for a new registration number: it has text and differs
      ignoring case from the stored one. */
  predicate RegistrationChange(cur: Vehicle, p: Patch) {
    HasText(p.registrationNo) && !EqualsIgnoreCase(p.registrationNo.value, cur.registrationNo)
  }

  /** The hasChanges flag of patchVehicle once every attribute has been considered. */
  predicate Changes(cur: Vehicle, p: Patch) {
    || HasText(p.name)
    || HasText(p.fuelType)
    || RegistrationChange(cur, p)
    || HasText(p.ownerName)
    || HasText(p.ownerAddress)
    || HasText(p.city)
    || HasText(p.state)
  }

  /** The stored vehicle with the patch merged in. */
  function Merge(cur: Vehicle, p: Patch): (r: Vehicle)
    ensures HasText(p.name) ==> r.name == p.name.value
    ensures !HasText(p.name) ==> r.name == cur.name
    ensures HasText(p.fuelType) ==> r.fuelType == p.fuelType.value
    ensures !HasText(p.fuelType) ==> r.fuelType == cur.fuelType
    ensures RegistrationChange(cur, p) ==> r.registrationNo == p.registrationNo.value
    ensures !RegistrationChange(cur, p) ==> r.registrationNo == cur.registrationNo
    ensures HasText(p.ownerName) ==> r.ownerName == p.ownerName.value
    ensures !HasText(p.ownerName) ==> r.ownerName == cur.ownerName
    ensures HasText(p.ownerAddress) ==> r.ownerAddress == p.ownerAddress.value
    ensures !HasText(p.ownerAddress) ==> r.ownerAddress == cur.ownerAddress
    ensures HasText(p.city) ==> r.city == p.city.value
    ensures !HasText(p.city) ==> r.city == cur.city
    ensures HasText(p.state) ==> r.state == p.state.value
    ensures !HasText(p.state) ==> r.state == cur.state
    ensures !Changes(cur, p) ==> r == cur
  {
    Vehicle(
      Pick(p.name, cur.name),
      Pick(p.fuelType, cur.fuelType),
      if RegistrationChange(cur, p) then p.registrationNo.value else cur.registrationNo,
      Pick(p.ownerName, cur.ownerName),
      Pick(p.ownerAddress, cur.ownerAddress),
      Pick(p.city, cur.city),
      Pick(p.state, cur.state))
  }

  /** patchVehicle: merge the attributes that have text into row id; a new
      registration number is checked as in the full update. */
  function PatchStep(s: Store, id: Id, p: Patch): (o: Step<Record>)
    requires WellFormed(s)
    ensures WellFormed(o.after)
    ensures o.result.NotFound? <==> id !in s.table
    ensures o.result.DuplicateRegistration? <==>
              && id in s.table
              && RegistrationChange(s.table[id], p)
              && RegistrationTaken(s.table, p.registrationNo.value)
    ensures !o.result.Ok? ==> o.after == s
    ensures o.result.Ok? ==>
              && o.result.value == Record(id, Merge(s.table[id], p))
              && o.after.table == s.table[id := Merge(s.table[id], p)]
              && o.after.nextId == s.nextId
    ensures o.result.Ok? && !Changes(s.table[id], p) ==>
              o.result.value == Record(id, s.table[id]) && o.after == s
  {
    if id !in s.table then
      Step(NotFound, s)
    else
      var cur := s.table[id];
      if RegistrationChange(cur, p) && RegistrationTaken(s.table, p.registrationNo.value) then
        Step(DuplicateRegistration, s)
      else if Changes(cur, p) then
        Step(Ok(Record(id, Merge(cur, p))), Store(s.table[id := Merge(cur, p)], s.nextId))
      else
        Step(Ok(Record(id, cur)), s)
  }

  // ---------------------------------------------------------------- delete

  /** deleteVehicle: remove row id, or report that it does not exist. */
  function DeleteStep(s: Store, id: Id): (o: Step<()>)
    requires WellFormed(s)
    ensures WellFormed(o.after)
    ensures o.result.NotFound? <==> id !in s.table
    ensures !o.result.DuplicateRegistration?
    ensures o.result.NotFound? ==> o.after == s
    ensures o.result.Ok? ==>
              && o.after.table.Keys == s.table.Keys - {id}
              && (forall other :: other in o.after.table ==> o.after.table[other] == s.table[other])
              && o.after.nextId == s.nextId
  {
    if id !in s.table then Step(NotFound, s)
    else Step(Ok(()), Store(s.table - {id}, s.nextId))
  }

  // ---------------------------------------------------------------- queries

  /** getVehicleById. */
  function GetVehicleById(s: Store, id: Id): (r: Option<Record>)
    ensures r.Some? <==> id in s.table
    ensures r.Some? ==> r.value.id == id && InTable(s.table, r.value)
  {
    if id in s.table then Some(Record(id, s.table[id])) else None
  }

  /** The filter a finder applies: none, or one attribute compared ignoring case. */
  datatype Criterion = AnyVehicle | FuelTypeIs(fuel: string) | CityIs(city: string) | StateIs(state: string)

  predicate Matches(c: Criterion, v: Vehicle) {
    match c
    case AnyVehicle => true
    case FuelTypeIs(f) => EqualsIgnoreCase(v.fuelType, f)
    case CityIs(city) => EqualsIgnoreCase(v.city, city)
    case StateIs(state) => EqualsIgnoreCase(v.state, state)
  }

  /** The rows with ids in [lo, hi) that satisfy c, in ascending id order. */
  function Select(t: Table, c: Criterion, lo: Id, hi: Id): (r: seq<Record>)
    decreases hi - lo
    ensures forall k :: 0 <= k < |r| ==> lo <= r[k].id < hi && InTable(t, r[k]) && Matches(c, r[k].vehicle)
    ensures forall id :: lo <= id < hi && id in t && Matches(c, t[id]) ==> Record(id, t[id]) in r
    ensures AscendingIds(r)
  {
    if lo >= hi then []
    else
      var rest := Select(t, c, lo + 1, hi);
      if lo in t && Matches(c, t[lo]) then [Record(lo, t[lo])] + rest else rest
  }

  /** All rows of a well-formed store that satisfy c. */
  function Query(s: Store, c: Criterion): (r: seq<Record>)
    requires WellFormed(s)
    ensures forall x :: x in r <==> InTable(s.table, x) && Matches(c, x.vehicle)
    ensures AscendingIds(r)
  {
    var r := Select(s.table, c, 0, s.nextId);
    assert forall x :: InTable(s.table, x) && Matches(c, x.vehicle) ==> x == Record(x.id, s.table[x.id]);
    r
  }

  /** getAllVehicles. */
  function GetAllVehicles(s: Store): (r: seq<Record>)
    requires WellFormed(s)
    ensures forall x :: x in r <==> InTable(s.table, x)
    ensures AscendingIds(r)
  {
    Query(s, AnyVehicle)
  }

  /** The one filter searchVehicles honours: fuel type, else city, else state. */
  function SearchCriterion(fuel: Option<string>, city: Option<string>, state: Option<string>): Criterion {
    if HasText(fuel) then FuelTypeIs(fuel.value)
    else if HasText(city) then CityIs(city.value)
    else if HasText(state) then StateIs(state.value)
    else AnyVehicle
  }

  /** searchVehicles. */
  function SearchVehicles(s: Store, fuel: Option<string>, city: Option<string>, state: Option<string>): (r: seq<Record>)
    requires WellFormed(s)
    ensures HasText(fuel) ==>
              forall x :: x in r <==> InTable(s.table, x) && EqualsIgnoreCase(x.vehicle.fuelType, fuel.value)
    ensures !HasText(fuel) && HasText(city) ==>
              forall x :: x in r <==> InTable(s.table, x) && EqualsIgnoreCase(x.vehicle.city, city.value)
    ensures !HasText(fuel) && !HasText(city) && HasText(state) ==>
              forall x :: x in r <==> InTable(s.table, x) && EqualsIgnoreCase(x.vehicle.state, state.value)
    ensures !HasText(fuel) && !HasText(city) && !HasText(state) ==> r == GetAllVehicles(s)
    ensures AscendingIds(r)
  {
    Query(s, SearchCriterion(fuel, city, state))
  }

  // ---------------------------------------------------------------- the service object

  /** The service together with the repository it owns: the rows and the
      identity counter, updated in place by the state-changing operations. */
  class VehicleService {
    var vehicles: Table
    var nextId: Id

    function State(): Store
      reads this
    {
      Store(vehicles, nextId)
    }

    ghost predicate Valid()
      reads this
    {
      WellFormed(State())
    }

    constructor ()
      ensures Valid() && State() == Empty
    {
      vehicles := map[];
      nextId := 1;
    }

    method AddVehicle(vehicle: Vehicle) returns (r: Result<Record>)
      requires Valid() && IsValid(vehicle)
      modifies this
      ensures Valid()
      ensures Step(r, State()) == AddStep(old(State()), vehicle)
    {
      if RegistrationTaken(vehicles, vehicle.registrationNo) {
        return DuplicateRegistration;
      }
      var id := nextId;
      vehicles := vehicles[id := vehicle];
      nextId := nextId + 1;
      r := Ok(Record(id, vehicle));
    }

    method UpdateVehicle(id: Id, details: Vehicle) returns (r: Result<Record>)
      requires Valid() && IsValid(details)
      modifies this
      ensures Valid()
      ensures Step(r, State()) == UpdateStep(old(State()), id, details)
    {
      if id !in vehicles {
        return NotFound;
      }
      var vehicle := vehicles[id];
      if !EqualsIgnoreCase(details.registrationNo, vehicle.registrationNo) {
        if RegistrationTaken(vehicles, details.registrationNo) {
          return DuplicateRegistration;
        }
      }
      vehicle := vehicle.(name := details.name);
      vehicle := vehicle.(fuelType := details.fuelType);
      vehicle := vehicle.(registrationNo := details.registrationNo);
      vehicle := vehicle.(ownerName := details.ownerName);
      vehicle := vehicle.(ownerAddress := details.ownerAddress);
      vehicle := vehicle.(city := details.city);
      vehicle := vehicle.(state := details.state);
      vehicles := vehicles[id := vehicle];
      r := Ok(Record(id, vehicle));
    }

    /** The attributes are merged one by one into a copy of the stored row;
        the row is written back only if some attribute was applied, and a
        duplicate registration number abandons the copy, leaving the table as it was. */
    method PatchVehicle(id: Id, patch: Patch) returns (r: Result<Record>)
      requires Valid()
      modifies this
      ensures Valid()
      ensures Step(r, State()) == PatchStep(old(State()), id, patch)
    {
      if id !in vehicles {
        return NotFound;
      }
      var vehicle := vehicles[id];
      ghost var cur := vehicle;
      var hasChanges := false;
      if HasText(patch.name) {
        vehicle := vehicle.(name := patch.name.value);
        hasChanges := true;
      }
      if HasText(patch.fuelType) {
        vehicle := vehicle.(fuelType := patch.fuelType.value);
        hasChanges := true;
      }
      assert vehicle.registrationNo == cur.registrationNo;
      if HasText(patch.registrationNo) && !EqualsIgnoreCase(patch.registrationNo.value, vehicle.registrationNo) {
        if RegistrationTaken(vehicles, patch.registrationNo.value) {
          return DuplicateRegistration;
        }
        vehicle := vehicle.(registrationNo := patch.registrationNo.value);
        hasChanges := true;
      }
      assert vehicle.registrationNo == Merge(cur, patch).registrationNo;
      assert hasChanges == (HasText(patch.name) || HasText(patch.fuelType) || RegistrationChange(cur, patch));
      if HasText(patch.ownerName) {
        vehicle := vehicle.(ownerName := patch.ownerName.value);
        hasChanges := true;
      }
      if HasText(patch.ownerAddress) {
        vehicle := vehicle.(ownerAddress := patch.ownerAddress.value);
        hasChanges := true;
      }
      if HasText(patch.city) {
        vehicle := vehicle.(city := patch.city.value);
        hasChanges := true;
      }
      if HasText(patch.state) {
        vehicle := vehicle.(state := patch.state.value);
        hasChanges := true;
      }
      assert vehicle.name == Merge(cur, patch).name && vehicle.fuelType == Merge(cur, patch).fuelType;
      assert vehicle.ownerName == Merge(cur, patch).ownerName && vehicle.ownerAddress == Merge(cur, patch).ownerAddress;
      assert vehicle.city == Merge(cur, patch).city && vehicle.state == Merge(cur, patch).state;
      assert vehicle == Merge(cur, patch);
      assert hasChanges == Changes(cur, patch);
      if hasChanges {
        vehicles := vehicles[id := vehicle];
      }
      r := Ok(Record(id, vehicle));
    }

    method DeleteVehicle(id: Id) returns (r: Result<()>)
      requires Valid()
      modifies this
      ensures Valid()
      ensures Step(r, State()) == DeleteStep(old(State()), id)
    {
      if id !in vehicles {
        return NotFound;
      }
      vehicles := vehicles - {id};
      r := Ok(());
    }
  }

}
