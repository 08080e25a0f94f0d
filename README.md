# Vehicle management service — a Dafny model

This project models the core of a small vehicle record service. That core is
the table of vehicle records with its update rules (`VehicleService`), plus the
`Vehicle` entity and its bean-validation constraints.

The store is a map from a generated id to a vehicle's seven string attributes:
name, fuel type, registration number, owner name, owner address, city and state.
A counter holds the next value of the identity column. The service operations are:

- add, with a check that the registration number is unique;
- full update (PUT), which overwrites all seven attributes;
- partial merge (PATCH);
- delete;
- lookup by id, list all;
- a search that honours one filter, chosen in the order fuel type, city, state.

Each operation returns `Ok(v)`, `NotFound` or `DuplicateRegistration`. The two
errors stand for `ResourceNotFoundException` and `DuplicateRegistrationException`.

Layout:

- `wrappers.dfy` (`Wrappers`): `Option`, standing for a Java reference that may be null.
- `text.dfy` (`Text`): three string tests. `Character.isWhitespace`; `StringUtils.hasText`
  (present and containing a non-whitespace character); `String.equalsIgnoreCase` with ASCII lower-casing.
- `vehicle.dfy` (`Model`): the `Vehicle` attributes, the `Record` (id plus attributes),
  the `Patch` body (every attribute optional) and `IsValid`.
  `@NotBlank` is the same non-whitespace test that `hasText` applies.
- `vehicle_service.dfy` (`Service`): the store value, one function per state-changing
  operation from the old store to a `Step` (result and new store), the read-only queries,
  and the class `VehicleService`. The class holds the table and the counter as fields.
  Its methods update them the way the Java methods do: setters applied one by one to the
  fetched row, a `hasChanges` flag, an early return on error. Each method is proved equal
  to its step function.
- `service_properties.dfy` (`ServiceProperties`): lemmas relating several calls, and
  lemmas relating the service to the entity's uniqueness and validity rules.

The class's read-only operations are functions of its state: `GetVehicleById(svc.State(), id)`.

Where descriptions of this service and its code disagree, the model follows the code:

- Adding a vehicle compares registration numbers exactly (`findByRegistrationNo`),
  not ignoring case. A case variant of a stored number is accepted (`AddAcceptsCaseVariant`).
- There is one full-update behaviour: every attribute is overwritten with the supplied value.
- A full update skips the duplicate lookup when the new number differs from the old one
  only by case. That can leave two rows with identical numbers (`UpdateCaseOnlyChangeDuplicates`).
  So uniqueness is preserved only under an extra condition (`UpdatePreservesUnique`).

## Model

| member | source | states |
|---|---|---|
| `Service.AddStep` | src/main/java/com/example/vehicle_management/service/VehicleService.java:26-33 | Fails with DuplicateRegistration, store unchanged, iff some row holds exactly the same registration number. Otherwise it inserts exactly this vehicle under a fresh id above every existing id. Every other row is unchanged, and the store stays well formed. |
| `Service.UpdateStep` | src/main/java/com/example/vehicle_management/service/VehicleService.java:54-75 | NotFound iff the id is absent. DuplicateRegistration iff the new number differs ignoring case from the stored one and some row holds it exactly; that row is always another row. Both failures leave the store unchanged. On success the row gets all seven supplied attributes, keeps its id, and every other row is unchanged. |
| `Service.Merge` | src/main/java/com/example/vehicle_management/service/VehicleService.java:93-125 | Each attribute takes the patch value iff that value has text, and otherwise keeps the stored value. The registration number is replaced only when it has text and differs ignoring case. A patch with no change yields the stored vehicle. |
| `Service.PatchStep` | src/main/java/com/example/vehicle_management/service/VehicleService.java:86-131 | NotFound iff the id is absent. DuplicateRegistration iff the patch asks for a new registration number that some row holds exactly. Both failures leave the store unchanged. On success only this row becomes the merged vehicle. When nothing changes, the stored row is returned and the store is unchanged. |
| `Service.DeleteStep` | src/main/java/com/example/vehicle_management/service/VehicleService.java:133-139 | NotFound, store unchanged, iff the id is absent. Otherwise exactly that id is removed, every other row is unchanged, and the counter is kept. |
| `Service.GetVehicleById` | src/main/java/com/example/vehicle_management/service/VehicleService.java:40-43 | Returns a row iff the id is present, and the row it returns is the stored one under that id. |
| `Service.Select` | src/main/java/com/example/vehicle_management/repository/VehicleRepository.java:16-20 | Returns exactly the rows in an id range that satisfy a criterion. Fuel type, city and state are compared ignoring case. Rows come in ascending id order. |
| `Service.Query` | src/main/java/com/example/vehicle_management/repository/VehicleRepository.java:16-20 | Returns exactly the rows of a well-formed store that satisfy the criterion, in ascending id order. |
| `Service.GetAllVehicles` | src/main/java/com/example/vehicle_management/service/VehicleService.java:35-38 | Returns exactly the rows of the store, each once, in ascending id order. |
| `Service.SearchVehicles` | src/main/java/com/example/vehicle_management/service/VehicleService.java:141-151 | With a fuel type that has text, returns exactly the rows whose fuel type matches it ignoring case. Failing that, a city with text selects rows the same way, then a state. With no filter that has text, returns every row. |
| `Service.VehicleService.constructor` | src/main/java/com/example/vehicle_management/service/VehicleService.java:21-24 | The service starts with an empty, well-formed table whose first generated id is 1. |
| `Service.VehicleService.AddVehicle` | src/main/java/com/example/vehicle_management/service/VehicleService.java:26-33 | Given a validated vehicle, updates the table and counter in place exactly as `AddStep` describes, and keeps the store well formed. |
| `Service.VehicleService.UpdateVehicle` | src/main/java/com/example/vehicle_management/service/VehicleService.java:54-75 | Given validated details, applies the seven setters to the fetched row and saves it, exactly as `UpdateStep` describes. An error returns before anything is written. |
| `Service.VehicleService.PatchVehicle` | src/main/java/com/example/vehicle_management/service/VehicleService.java:86-131 | Merges the attributes one by one into a copy and tracks `hasChanges`. The row is written only when it is set. A duplicate registration number abandons the copy. The whole effect is exactly `PatchStep`. |
| `Service.VehicleService.DeleteVehicle` | src/main/java/com/example/vehicle_management/service/VehicleService.java:133-139 | Removes the row in place exactly as `DeleteStep` describes. |
| `Text.EqualsIgnoreCaseCharwise` | src/main/java/com/example/vehicle_management/service/VehicleService.java:59 | Two strings are equal ignoring case iff they have the same length and their characters agree pairwise after case folding. |
| `ServiceProperties.AddPreservesUnique` | src/main/java/com/example/vehicle_management/service/VehicleService.java:28-32 | Adding keeps the invariant that no two distinct ids hold identical registration numbers. |
| `ServiceProperties.PatchPreservesUnique` | src/main/java/com/example/vehicle_management/service/VehicleService.java:101-108 | A partial update keeps that invariant. |
| `ServiceProperties.UpdatePreservesUnique` | src/main/java/com/example/vehicle_management/service/VehicleService.java:59-72 | A full update keeps that invariant, provided no other row holds a case variant of the updated row's registration number. |
| `ServiceProperties.UpdatePreservesUniqueIgnoringCase` | src/main/java/com/example/vehicle_management/service/VehicleService.java:59-72 | If registration numbers are unique ignoring case, then after a full update they are still unique exactly. |
| `ServiceProperties.UpdateCaseOnlyChangeDuplicates` | src/main/java/com/example/vehicle_management/service/VehicleService.java:59-68 | Some unique store and valid details exist for which a successful full update leaves two rows with identical registration numbers. |
| `ServiceProperties.AddAcceptsCaseVariant` | src/main/java/com/example/vehicle_management/service/VehicleService.java:28-32 | Two valid vehicles whose numbers are equal ignoring case can both be added to an empty store. |
| `ServiceProperties.AddThenGet` | src/main/java/com/example/vehicle_management/service/VehicleService.java:27-43 | After a successful add, looking up the returned id gives the added vehicle with that id. |
| `ServiceProperties.DeletedIdNotReused` | src/main/java/com/example/vehicle_management/model/Vehicle.java:22-24 | An add after a delete never hands out the deleted id. |
| `ServiceProperties.DeleteTwice` | src/main/java/com/example/vehicle_management/service/VehicleService.java:134-139 | Deleting a present id succeeds. Deleting it again fails with NotFound and changes nothing. |
| `ServiceProperties.EmptyPatchIsNoOp` | src/main/java/com/example/vehicle_management/service/VehicleService.java:91-130 | A patch with every attribute absent returns the stored row and leaves the store unchanged. |
| `ServiceProperties.MergeIdempotent` | src/main/java/com/example/vehicle_management/service/VehicleService.java:93-125 | Merging the same patch twice gives the same vehicle as merging it once. A second application never asks for a registration change. |
| `ServiceProperties.PatchIdempotent` | src/main/java/com/example/vehicle_management/service/VehicleService.java:86-131 | Re-applying a patch that succeeded returns the same row and leaves the store as the first call left it. |
| `ServiceProperties.PatchValidity` | src/main/java/com/example/vehicle_management/model/Vehicle.java:26-53 | Patching a valid row never makes any attribute blank. The result is valid iff the patch leaves the name alone or gives it 2 to 100 characters. |
| `ServiceProperties.PatchCanInvalidateName` | src/main/java/com/example/vehicle_management/model/Vehicle.java:26-29 | Some valid row and patch exist for which the merged row is invalid: a one-character name has text but is too short. |
| `ServiceProperties.SearchPriority` | src/main/java/com/example/vehicle_management/service/VehicleService.java:142-151 | A fuel type with text makes the city and state irrelevant. Without one, the fuel argument is irrelevant. A city with text then makes the state irrelevant. |
| `ServiceProperties.SearchWithinAll` | src/main/java/com/example/vehicle_management/service/VehicleService.java:141-151 | Every search result is among the rows `GetAllVehicles` returns. |

## Left out

- HTTP routing, status codes and the controller's own NotFound for a missing id are not modelled.
  The controller validates POST and PUT bodies but not PATCH bodies. That validation is kept as the
  precondition `IsValid` on adding and on full update; a patch has no precondition.
- The messages built by the two exception classes are not modelled; the errors are the variants
  `NotFound` and `DuplicateRegistration`.
- `getChallansByRegistrationNo` and `getInsuranceExpiryByRegistrationNo` are left out. They only print
  a line and return a fixed placeholder text, so there is nothing to prove about them.
- The persistence library is not modelled: the repository is an in-memory map. Nothing here re-validates
  the entity when it is written, and the database's unique index on `registration_no` is not modelled
  (whether that index ignores case is not visible in the code). The database could reject a write that
  the model accepts, such as the duplicate from a case-only full update. The commented-out query in
  the repository is dead code.
- Transactions and concurrency: each call is atomic. The race between checking and writing a
  registration number with a concurrent writer is not modelled. Rollback on an exception is modelled
  as the call leaving the table unchanged.
- Row order: the finders have no ORDER BY, so the code does not fix the order. The model lists rows
  by ascending id.
- Ids are unbounded naturals, so overflow of the 64-bit `Long` identity is not modelled.
- Text.EqualsIgnoreCase: folds ASCII letters only. Java's `equalsIgnoreCase` and SQL `upper()` also fold
  other letters.
- Model.ValidName: counts a name's length in Unicode characters. Java's `@Size` counts UTF-16 code units.
- Text.NonBlank: `@NotBlank` is modelled with the same non-whitespace test that `hasText` uses. The
  library's implementation instead trims characters up to U+0020, so the two differ on control
  characters and on non-ASCII spaces.
- Service.AddStep: takes the seven attributes and no id. A request body that carries an id, which the
  persistence layer's `save` would merge into that row, is not modelled.
- Service.RegistrationTaken: counts as "present" when two rows hold the same number. The derived
  query would instead fail on a non-unique result. Such rows can arise only from a case-only full update.
- The class's "no write" when a patch changes nothing is visible only in `PatchVehicle`'s body. Its
  contract can state only that the store is unchanged, because a same-value write cannot be observed.
