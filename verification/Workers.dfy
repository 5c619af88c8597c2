/** What the polling and reconciliation workers commit. */
module Workers {
  import opened Ledger
  import opened Gateway

  datatype PaymentTaskResult = PaymentTaskResult(status: TransactionStatus, processed: bool, error: bool)

  /** The statuses `process_payment` does not poll. */
  predicate IsFinalForPolling(status: TransactionStatus) {
    status in {Succeeded, Cancelled, Refunded}
  }

  /** A row after a poll answered with `response`. */
  function PolledTransaction(row: Transaction, response: Response): Transaction {
    if IsSuccessText(response.status) then
      row.(status := Succeeded,
           captured := if response.captured.Reported? then response.captured.cents else row.captured)
    else if IsFailureText(response.status) then row.(status := Failed, failureCode := Some("gateway_failed"))
    else if IsCancelledText(response.status) then row.(status := Cancelled)
    else row.(status := Processing)
  }

  predicate PollIsLost(reply: Reply) {
    !reply.Answered? || (IsSuccessText(reply.response.status) && reply.response.captured.Malformed?)
  }

  function ProcessPayment(db: Database, t: Id, reply: Reply): (Change, PaymentTaskResult)
  {
    if |db.transactions| <= t then (NO_CHANGE, PaymentTaskResult(Failed, false, true)) else
    var row := db.transactions[t];
    if IsFinalForPolling(row.status) then (NO_CHANGE, PaymentTaskResult(row.status, false, false))
    else if row.provider.None? then (NO_CHANGE, PaymentTaskResult(Failed, false, true))
    else if PollIsLost(reply) then
      (Change(Nothing, Nothing, [LookupCalled(t)]), PaymentTaskResult(Failed, false, true))
    else
      var polled := PolledTransaction(row, reply.response);
      (Change(Put(t, polled), Nothing, [LookupCalled(t)]), PaymentTaskResult(polled.status, true, false))
  }

  function NormalizeExternalStatus(status: string): TransactionStatus {
    if IsSuccessText(status) then Succeeded
    else if IsAuthorizedText(status) then Authorized
    else if IsFailureText(status) then Failed
    else if IsCancelledText(status) then Cancelled
    else Processing
  }

  datatype Discrepancy = NoDiscrepancy | TerminalDiverged | NeedsAnalysis | ReconciliationFailed

  function DetectDiscrepancy(internal: TransactionStatus, external: TransactionStatus): Discrepancy {
    if internal == external then NoDiscrepancy
    else if internal in {Succeeded, Failed, Cancelled} then TerminalDiverged
    else if internal == Authorized && external == Succeeded then NoDiscrepancy
    else if internal == Processing && external in {Succeeded, Failed, Cancelled} then NoDiscrepancy
    else NeedsAnalysis
  }

  datatype ReconciliationResult = ReconciliationResult(
    transaction: Id, internal: TransactionStatus, external: string, reconciled: bool, discrepancy: Discrepancy)

  predicate Agrees(row: Transaction, response: Response) {
    DetectDiscrepancy(row.status, NormalizeExternalStatus(response.status)) == NoDiscrepancy
  }

  /** A row after it has been synchronized with `response`. */
  function SynchronizedTransaction(row: Transaction, response: Response): Transaction {
    row.(status := NormalizeExternalStatus(response.status),
         captured := if response.captured.Reported? then response.captured.cents else row.captured)
  }

  /** A row after it has been reconciled with `response`, which may leave it alone. */
  function ReconciledTransaction(row: Transaction, response: Response): Transaction {
    if Agrees(row, response) && !response.captured.Malformed? then SynchronizedTransaction(row, response) else row
  }

  function ReconcileTransaction(db: Database, t: Id, reply: Reply): (Change, Outcome<ReconciliationResult>)
  {
    if |db.transactions| <= t then (NO_CHANGE, Raised(InvalidValue)) else
    var row := db.transactions[t];
    if row.provider.None? || !HasGatewayId(row) then (NO_CHANGE, Raised(InvalidValue)) else
    var looked := Change(Nothing, Nothing, [LookupCalled(t)]);
    match reply
    case Crashed => (looked, Raised(Unhandled))
    case Refused(_) => (looked, Raised(GatewayFailed))
    case Answered(response) =>
      var discrepancy := DetectDiscrepancy(row.status, NormalizeExternalStatus(response.status));
      if discrepancy != NoDiscrepancy then
        (looked, Returned(ReconciliationResult(t, row.status, response.status, false, discrepancy)))
      else if response.captured.Malformed? then (looked, Raised(Unhandled))
      else
        var synced := SynchronizedTransaction(row, response);
        (looked.(transaction := Put(t, synced)),
         Returned(ReconciliationResult(t, synced.status, response.status, true, NoDiscrepancy)))
  }
}
