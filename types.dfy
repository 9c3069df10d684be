/**
 * The participant records the standings engine reads. The record shape follows the fields
 * that components/LandingPage.tsx and components/ParticipantDashboard.tsx use; the
 * repository's own type file is not part of this model.
 */
module Types {

  datatype Option<T> = None | Some(value: T)

  /** Only `Participant` users take part in any public computation. */
  datatype Role = Admin | Participant

  datatype RegistrationStatus = Pending | Active

  /** One entry of a participant's monthly earnings history. */
  datatype MonthlyEarning = MonthlyEarning(month: string, xrpEarned: real)

  /** One collection receipt; passed through unchanged to the receipts table. */
  datatype CollectionRecord = CollectionRecord(
    id: string, date: string, verifiedBy: string, amount: nat, valueBwp: real)

  datatype User = User(
    id: string,
    name: string,
    role: Role,
    registrationStatus: RegistrationStatus,
    registrationPaymentMethod: string,
    totalBottles: nat,
    bottlesThisMonth: nat,
    totalXrp: real,
    history: seq<MonthlyEarning>,
    collectionRecords: Option<seq<CollectionRecord>>)
}
