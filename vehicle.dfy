/** The Vehicle entity: an id assigned by the store and seven required string
    attributes, with the bean-validation constraints declared on them. */
module Model {
  import opened Wrappers
  import opened Text

  /** The store's generated key (a database identity column). */
  type Id = nat

  /** The seven caller-supplied attributes of a vehicle. The id is not among
      them: the store assigns it and never takes it from the caller. */
  datatype Vehicle = Vehicle(
    name: string,
    fuelType: string,
    registrationNo: string,
    ownerName: string,
    ownerAddress: string,
    city: string,
    state: string)

  /** A stored vehicle as the service hands it back: its id and its attributes. */
  datatype Record = Record(id: Id, vehicle: Vehicle)

  /** The body of a partial update: every attribute may be absent (null). */
  datatype Patch = Patch(
    name: Option<string>,
    fuelType: Option<string>,
    registrationNo: Option<string>,
    ownerName: Option<string>,
    ownerAddress: Option<string>,
    city: Option<string>,
    state: Option<string>)

  const MinNameLength: nat := 2
  const MaxNameLength: nat := 100

  /** @NotBlank and @Size(min = 2, max = 100) on the name. */
  predicate ValidName(name: string) {
    NonBlank(name) && MinNameLength <= |name| <= MaxNameLength
  }

  /** All bean-validation constraints of the entity hold. */
  predicate IsValid(v: Vehicle) {
    && ValidName(v.name)
    && NonBlank(v.fuelType)
    && NonBlank(v.registrationNo)
    && NonBlank(v.ownerName)
    && NonBlank(v.ownerAddress)
    && NonBlank(v.city)
    && NonBlank(v.state)
  }

}
