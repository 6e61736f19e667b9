/**
 * The records the dashboard pages work on. Firestore documents become
 * datatype values; amounts are whole rupees (int) rather than JS numbers.
 */
module FundTypes {

  datatype Option<T> = None | Some(value: T) {
    function GetOr(default: T): T {
      match this
      case Some(v) => v
      case None => default
    }
  }

  /** The status union of a transaction: 'Paid' | 'Pending' | 'Failed' | 'Verification Pending'. */
  datatype Status = Paid | Pending | Failed | VerificationPending

  /** How a transaction was paid: 'Razorpay' | 'QR Scan' | 'Cash' | 'N/A'. */
  datatype PaymentMethod = ByRazorpay | ByQrScan | ByCash | NotApplicable

  /** An option an event accepts: 'Razorpay' | 'QR' | 'Cash'. */
  datatype PaymentOption = Razorpay | QR | Cash

  /** The category chosen in the event form: 'Normal' or 'Print'. */
  datatype Category = Normal | Print

  /** A payment document: what the pages read of it is its event, its status and its amount. */
  datatype Payment = Payment(
    id: string,
    studentId: string,
    studentName: string,
    studentRoll: string,
    eventId: string,
    eventName: string,
    amount: int,
    status: Status,
    paymentMethod: PaymentMethod)

  /** An event document; the QR code URL is optional in the record type. */
  datatype Event = Event(
    id: string,
    name: string,
    description: string,
    deadline: string,
    cost: int,
    totalCollected: int,
    totalPending: int,
    paymentOptions: seq<PaymentOption>,
    qrCodeUrl: Option<string>,
    category: Category)

  /** A student; the source's field `class` is a Dafny keyword, hence `className`. */
  datatype Student = Student(id: string, rollNo: string, name: string, email: string, className: string)

  /** One line of the print distribution log, with the student's name and roll copied in. */
  datatype PrintDistribution = PrintDistribution(
    id: string,
    studentId: string,
    studentName: string,
    studentRoll: string,
    eventId: string,
    distributedAt: string)

  /** A payment QR code shown on the settings page. */
  datatype QrCode = QrCode(id: string, name: string, url: string)
}
