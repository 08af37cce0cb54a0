/** The rows of the three remote tables, as the application declares them.
    Column names are written in camel case (`airport_code` is `airportCode`);
    timestamps are abstracted to integers, which is all the ordering needs. */
module Schema {
  import opened Wrappers

  /** `VendingMachine.status`. */
  datatype MachineStatus = Active | Maintenance | Inactive

  /** A row of the vending machine table. The floating-point `rating` is not modelled. */
  datatype VendingMachine = VendingMachine(
    id: string,
    airportCode: string,
    airportName: string,
    terminal: string,
    location: string,
    hours: string,
    supplies: seq<string>,
    status: MachineStatus,
    createdAt: int,
    updatedAt: int)

  /** The values the application declares for `LocationRequest.status`. The
      column itself is kept as a string so that the statistics can see any
      other value the table might hold. */
  const Pending: string := "pending"
  const Approved: string := "approved"
  const Rejected: string := "rejected"

  predicate IsDeclaredStatus(status: string) {
    status == Pending || status == Approved || status == Rejected
  }

  /** A row of the location request table. `location` is declared by the
      second copy of the interface only; both optional columns may be absent. */
  datatype LocationRequest = LocationRequest(
    id: string,
    name: string,
    email: string,
    airport: string,
    location: Option<string>,
    message: Option<string>,
    status: string,
    createdAt: int)

  /** A row of the contact information table. */
  datatype ContactInformation = ContactInformation(
    id: string,
    email: string,
    name: string,
    phoneNumber: string)
}
