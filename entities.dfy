// The app's Room entities: plain records, with their enum classes.
module Entities {
  import opened Wrappers

  datatype Worker = Worker(
    id: int,
    name: string,
    phoneNumber: string,
    address: string,
    role: string,
    aadharNumber: string,
    joinDate: string,
    isActive: bool,
    profileImagePath: Option<string>)

  datatype SiteStatus = Active | Completed | OnHold

  datatype Site = Site(
    siteId: int,
    name: string,
    address: string,
    clientName: string,
    clientContact: string,
    startDate: string,
    expectedEndDate: Option<string>,
    status: SiteStatus,
    notes: Option<string>)

  /** A row of worker_site_assignments: worker `workerId` works (or worked) at site `siteId`. */
  datatype Assignment = Assignment(
    assignmentId: int,
    workerId: int,
    siteId: int,
    assignmentDate: string,
    endDate: Option<string>,
    isActive: bool)

  datatype PaymentMode = Cash | BankTransfer | Other

  datatype Payment = Payment(
    paymentId: int,
    workerId: int,
    siteId: int,
    paymentDate: string,
    amount: real,
    description: string,
    paymentMode: PaymentMode,
    referenceNumber: Option<string>,
    forMonth: int,
    forYear: int,
    notes: Option<string>)

  datatype Advance = Advance(
    advanceId: int,
    workerId: int,
    amount: real,
    advanceDate: string,
    reason: string,
    notes: Option<string>,
    paymentMode: PaymentMode,
    referenceNumber: Option<string>,
    isRecovered: bool)

  datatype AttendanceStatus = Present | Absent | HalfDay | Leave

  datatype Attendance = Attendance(
    attendanceId: int,
    workerId: int,
    siteId: int,
    date: string,
    status: AttendanceStatus,
    hoursWorked: Option<real>,
    notes: Option<string>)

  // Primary keys.
  function WorkerKey(w: Worker): int { w.id }
  function SiteKey(s: Site): int { s.siteId }
  function AssignmentKey(a: Assignment): int { a.assignmentId }
  function PaymentKey(p: Payment): int { p.paymentId }
  function AdvanceKey(a: Advance): int { a.advanceId }
  function AttendanceKey(a: Attendance): int { a.attendanceId }

  // Amounts, for sums.
  function PaymentAmount(p: Payment): real { p.amount }
  function AdvanceAmount(a: Advance): real { a.amount }

  /** The constant names Kotlin gives the enum values (Enum.name). */
  function PaymentModeName(m: PaymentMode): string
  {
    match m
    case Cash => "CASH"
    case BankTransfer => "BANK_TRANSFER"
    case Other => "OTHER"
  }

  /** PaymentMode.valueOf(s): None where Kotlin throws IllegalArgumentException. */
  function PaymentModeValueOf(s: string): (r: Option<PaymentMode>)
    ensures r.Some? <==> s in {"CASH", "BANK_TRANSFER", "OTHER"}
  {
    if s == "CASH" then Some(Cash)
    else if s == "BANK_TRANSFER" then Some(BankTransfer)
    else if s == "OTHER" then Some(Other)
    else None
  }

  /** valueOf accepts exactly the constant names, and gives the value of that name. */
  lemma PaymentModeNames(s: string, m: PaymentMode)
    ensures PaymentModeValueOf(s) == Some(m) <==> s == PaymentModeName(m)
  {
  }

  function SiteStatusName(t: SiteStatus): string
  {
    match t
    case Active => "ACTIVE"
    case Completed => "COMPLETED"
    case OnHold => "ON_HOLD"
  }

  /** SiteStatus.valueOf(s): None where Kotlin throws IllegalArgumentException. */
  function SiteStatusValueOf(s: string): (r: Option<SiteStatus>)
    ensures r.Some? <==> s in {"ACTIVE", "COMPLETED", "ON_HOLD"}
  {
    if s == "ACTIVE" then Some(Active)
    else if s == "COMPLETED" then Some(Completed)
    else if s == "ON_HOLD" then Some(OnHold)
    else None
  }

  lemma SiteStatusNames(s: string, t: SiteStatus)
    ensures SiteStatusValueOf(s) == Some(t) <==> s == SiteStatusName(t)
  {
  }
}
