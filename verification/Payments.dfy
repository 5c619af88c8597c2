/** What each PaymentService call commits, for every database and every answer of
    the gateway. Everything a call flushed without committing is absent here. */
module Payments {
  import opened Ledger
  import opened Gateway

  /** A validated payment request. */
  datatype PaymentRequest = PaymentRequest(
    reservation: nat, amount: Cents, provider: Provider, requiresCapture: bool, key: string)

  /** The row as first flushed. */
  function NewTransaction(r: PaymentRequest): Transaction {
    Transaction(r.reservation, r.amount, Pending, Some(r.provider), None, r.key, r.requiresCapture, 0, 0, None)
  }

  function ResolvePaymentStatus(status: string, requiresCapture: bool): TransactionStatus {
    if IsFailureText(status) then Failed
    else if requiresCapture then Authorized
    else if IsSuccessText(status) then Succeeded
    else Processing
  }

  function FailureCodeOf(e: GatewayError): string {
    match e
    case Declined => "payment_declined"
    case TimedOut => "gateway_timeout"
    case Unavailable => "gateway_error"
  }

  /** The new row once the gateway's answer has been copied into it. */
  function SettledTransaction(request: PaymentRequest, response: Response): Transaction {
    NewTransaction(request).(
      status := ResolvePaymentStatus(response.status, request.requiresCapture),
      gatewayId := FirstTruthy(response.gatewayId, response.id),
      captured := if response.captured.Reported? then response.captured.cents else 0)
  }

  /** A call to `create` that the service cannot turn into a stored row: an unknown
      exception, an amount that is no number, an identifier some other row has. */
  predicate CreateIsLost(db: Database, reply: Reply) {
    || reply.Crashed?
    || (reply.Answered? && (reply.response.captured.Malformed?
                            || GatewayIdTaken(db.transactions, FirstTruthy(reply.response.gatewayId, reply.response.id))))
  }

  function CreatePayment(db: Database, request: PaymentRequest, methodExists: bool, reply: Reply): (Change, Outcome<Id>)
  {
    var key := request.key;
    var t := |db.transactions|;
    if KeyTaken(db.transactions, key) then (NO_CHANGE, Raised(PaymentAlreadyProcessed))
    else if !methodExists then (NO_CHANGE, Raised(PaymentMethodNotFound))
    else if CreateIsLost(db, reply) then
      (Change(Nothing, Nothing, [CreateFlushed(key), CreateCalled(key), CreateLost(key)]),
       Raised(if reply.Answered? && !reply.response.captured.Malformed? then IntegrityViolation else Unhandled))
    else match reply
      case Refused(e) =>
        var row := NewTransaction(request).(status := Failed, failureCode := Some(FailureCodeOf(e)));
        (Change(Put(t, row), Nothing, [CreateFlushed(key), CreateCalled(key)]), Raised(PaymentFailed))
      case Answered(response) =>
        (Change(Put(t, SettledTransaction(request, response)), Nothing, [CreateFlushed(key), CreateCalled(key)]), Returned(t))
  }

  /** What a successful capture without a captured_amount entry is taken to have
      captured; a requested amount of zero counts as no amount. */
  function RequestedCapture(row: Transaction, amount: Option<int>): int {
    if amount.Some? && amount.value != 0 then amount.value else row.amount
  }

  function CapturePayment(db: Database, t: Id, amount: Option<int>, reply: Reply): (Change, Outcome<Id>)
  {
    if |db.transactions| <= t then (NO_CHANGE, Raised(TransactionNotFound)) else
    var row := db.transactions[t];
    if row.status != Authorized then (NO_CHANGE, Raised(InvalidTransactionState))
    else if !HasGatewayId(row) then (NO_CHANGE, Raised(PaymentFailed))
    else if row.provider.None? then (NO_CHANGE, Raised(UnsupportedProvider))
    else match reply
      case Crashed => (Change(Nothing, Nothing, [CaptureCalled(t), CaptureLost(t)]), Raised(Unhandled))
      case Refused(_) =>
        (Change(Put(t, row.(status := Failed, failureCode := Some("capture_failed"))), Nothing, [CaptureCalled(t)]),
         Raised(PaymentFailed))
      case Answered(response) =>
        if response.captured.Null? || response.captured.Malformed? then
          (Change(Nothing, Nothing, [CaptureCalled(t), CaptureAnswered(t), CaptureLost(t)]), Raised(Unhandled))
        else
          var captured := if response.captured.Reported? then response.captured.cents else RequestedCapture(row, amount);
          (Change(Put(t, row.(status := Succeeded, captured := captured)), Nothing, [CaptureCalled(t), CaptureAnswered(t)]),
           Returned(t))
  }

  predicate IsCancellable(status: TransactionStatus) {
    status in {Pending, Authorized, Processing}
  }

  function CancelPayment(db: Database, t: Id, reply: Reply): (Change, Outcome<Id>)
  {
    if |db.transactions| <= t then (NO_CHANGE, Raised(TransactionNotFound)) else
    var row := db.transactions[t];
    if !IsCancellable(row.status) then (NO_CHANGE, Raised(InvalidTransactionState))
    else if !HasGatewayId(row) then (Change(Put(t, row.(status := Cancelled)), Nothing, []), Returned(t))
    else if row.provider.None? then (NO_CHANGE, Raised(UnsupportedProvider))
    else match reply
      case Crashed => (Change(Nothing, Nothing, [CancelCalled(t)]), Raised(Unhandled))
      case Refused(_) => (Change(Nothing, Nothing, [CancelCalled(t)]), Raised(PaymentFailed))
      case Answered(_) =>
        (Change(Put(t, row.(status := Cancelled)), Nothing, [CancelCalled(t), CancelAnswered(t)]), Returned(t))
  }
}
