/** What RefundService and the refund tasks commit. */
module Refunds {
  import opened Ledger
  import opened Gateway

  datatype RefundRequest = RefundRequest(transaction: Id, amount: Cents, key: string)

  predicate IsRefundable(row: Transaction) {
    row.status in {Succeeded, PartiallyRefunded} && 0 < row.captured
  }

  function ResolveRefundStatus(status: string): RefundStatus {
    if status in {"succeeded", "refunded", "completed", "processed"} then RefundSucceeded
    else if IsFailureText(status) then RefundFailed
    else RefundProcessing
  }

  function NewRefund(request: RefundRequest): Refund {
    Refund(request.transaction, request.amount, RefundPending, None, request.key, None)
  }

  /** The transaction after a succeeded refund of `amount`. */
  function RefundedTransaction(row: Transaction, amount: Cents): Transaction {
    var refunded := row.refunded + amount;
    row.(refunded := refunded, status := if row.amount <= refunded then Refunded else PartiallyRefunded)
  }

  function CreateRefund(db: Database, request: RefundRequest, reply: Reply): (Change, Outcome<Id>)
  {
    var key := request.key;
    var t := request.transaction;
    var r := |db.refunds|;
    if RefundKeyTaken(db.refunds, key) then (NO_CHANGE, Raised(RefundAlreadyProcessed))
    else if |db.transactions| <= t then (NO_CHANGE, Raised(RefundFailure)) else
    var row := db.transactions[t];
    if !IsRefundable(row) then (NO_CHANGE, Raised(RefundNotAllowed))
    else if row.captured - row.refunded < request.amount then (NO_CHANGE, Raised(RefundAmountExceeded))
    else if !HasGatewayId(row) then (Change(Nothing, Nothing, [RefundFlushed(key)]), Raised(RefundFailure))
    else if row.provider.None? then (Change(Nothing, Nothing, [RefundFlushed(key)]), Raised(UnsupportedProvider))
    else match reply
      case Crashed => (Change(Nothing, Nothing, [RefundFlushed(key), RefundCalled(key), RefundLost(key)]), Raised(Unhandled))
      case Refused(_) =>
        var refund := NewRefund(request).(status := RefundFailed, failureCode := Some("gateway_error"));
        (Change(Nothing, Put(r, refund), [RefundFlushed(key), RefundCalled(key)]), Raised(RefundFailure))
      case Answered(response) =>
        var refundId := FirstTruthy(response.gatewayId, response.id);
        if GatewayRefundIdTaken(db.refunds, refundId) then
          (Change(Nothing, Nothing, [RefundFlushed(key), RefundCalled(key), RefundLost(key)]), Raised(IntegrityViolation))
        else
          var status := ResolveRefundStatus(response.status);
          var refund := NewRefund(request).(status := status, gatewayRefundId := refundId);
          (Change(if status == RefundSucceeded then Put(t, RefundedTransaction(row, request.amount)) else Nothing,
                  Put(r, refund), [RefundFlushed(key), RefundCalled(key)]),
           Returned(r))
  }

  datatype RefundTaskResult = RefundTaskResult(status: RefundStatus, processed: bool, error: bool)

  /** The shape the three refund tasks share: leave the refund alone when its status
      is in `settled`, otherwise move it to `to`. */
  function MoveRefund(db: Database, r: Id, settled: set<RefundStatus>, to: RefundStatus): (Change, RefundTaskResult)
  {
    if |db.refunds| <= r then (NO_CHANGE, RefundTaskResult(RefundFailed, false, true)) else
    var refund := db.refunds[r];
    if refund.status in settled then (NO_CHANGE, RefundTaskResult(refund.status, false, false))
    else (Change(Nothing, Put(r, refund.(status := to)), []), RefundTaskResult(to, true, false))
  }

  function ProcessRefund(db: Database, r: Id): (Change, RefundTaskResult) {
    MoveRefund(db, r, {RefundSucceeded, RefundCancelled, RefundFailed}, RefundProcessing)
  }

  function RetryRefund(db: Database, r: Id): (Change, RefundTaskResult) {
    MoveRefund(db, r, {RefundSucceeded}, RefundProcessing)
  }

  function CancelPendingRefund(db: Database, r: Id): (Change, RefundTaskResult) {
    MoveRefund(db, r, {RefundSucceeded, RefundFailed, RefundCancelled}, RefundCancelled)
  }
}
