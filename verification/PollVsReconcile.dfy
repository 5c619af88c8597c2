/** The two workers that ask the gateway about a payment, compared. */
module PollVsReconcile {
  import opened Ledger
  import opened Gateway
  import opened Payments
  import opened Workers
  import opened Runs

  /** A stored row once `process_payment` has been answered with `reply`. */
  function Polled(row: Transaction, reply: Reply): Transaction {
    if IsFinalForPolling(row.status) || row.provider.None? || PollIsLost(reply) then row
    else PolledTransaction(row, reply.response)
  }

  /** The same row once it has been reconciled instead. */
  function Reconciled(row: Transaction, reply: Reply): Transaction {
    if row.provider.None? || !HasGatewayId(row) || !reply.Answered? then row
    else ReconciledTransaction(row, reply.response)
  }

  lemma WorkersWriteTheseRows(w: World, t: Id, reply: Reply)
    requires t < |w.db.transactions|
    ensures Apply(w, Poll(t, reply)).db == w.db.(transactions := w.db.transactions[t := Polled(w.db.transactions[t], reply)])
    ensures Apply(w, Reconcile(t, reply)).db == w.db.(transactions := w.db.transactions[t := Reconciled(w.db.transactions[t], reply)])
  {
  }

  // -- One worker or the other --------------------------------------------------

  /** When the two workers move a row to the same status: decided by its status, what
      it has of provider and identifier, the text, and whether the amount is a number. */
  predicate SameNextStatus(row: Transaction, reply: Reply) {
    if row.provider.None? || !reply.Answered? then true else
    var text, malformed := reply.response.status, reply.response.captured.Malformed?;
    if !HasGatewayId(row) then
      || IsFinalForPolling(row.status)
      || (IsSuccessText(text) && malformed)
      || (row.status == Processing && !IsFinalText(text))
      || (row.status == Failed && IsFailureText(text))
    else match row.status
      case Processing => !malformed || !(IsFailureText(text) || IsCancelledText(text))
      case Authorized => IsSuccessText(text)
      case Failed => IsFailureText(text) || (IsSuccessText(text) && malformed)
      case Pending => IsSuccessText(text) && malformed
      case PartiallyRefunded => IsSuccessText(text) && malformed
      case Succeeded => true
      case Cancelled => true
      case Refunded => true
  }

  lemma NextStatusesAgreeIff(w: World, t: Id, reply: Reply)
    requires t < |w.db.transactions|
    ensures var polled, reconciled := Apply(w, Poll(t, reply)).db.transactions, Apply(w, Reconcile(t, reply)).db.transactions;
      && |polled| == |reconciled| == |w.db.transactions|
      && (polled[t].status == reconciled[t].status <==> SameNextStatus(w.db.transactions[t], reply))
  {
    WorkersWriteTheseRows(w, t, reply);
    if reply.Answered? {
      TextGroupsAreDisjoint(reply.response.status);
    }
  }

  /** The answer brings no amount, or the one the row has. */
  predicate BringsNothing(row: Transaction, response: Response) {
    response.captured.Reported? ==> response.captured.cents == row.captured
  }

  /** On a PROCESSING row with provider and identifier the workers disagree on the
      status only about a failure or a cancellation whose amount is no number. They
      leave the same database after every success; after a failure or a cancellation
      if moreover the amount brings nothing and the failure code is the poll's own. */
  lemma AgreeOnProcessing(w: World, t: Id, reply: Reply)
    requires t < |w.db.transactions| && w.db.transactions[t].status == Processing
    requires w.db.transactions[t].provider.Some? && HasGatewayId(w.db.transactions[t])
    ensures var row, polled, reconciled := w.db.transactions[t], Apply(w, Poll(t, reply)).db, Apply(w, Reconcile(t, reply)).db;
      && |polled.transactions| == |reconciled.transactions| == |w.db.transactions|
      && (polled.transactions[t].status == reconciled.transactions[t].status
          <==> (reply.Answered? && reply.response.captured.Malformed? ==>
                  !IsFailureText(reply.response.status) && !IsCancelledText(reply.response.status)))
      && (polled == reconciled
          <==> (reply.Answered? && !IsSuccessText(reply.response.status) && !IsAuthorizedText(reply.response.status) ==>
                  && BringsNothing(row, reply.response)
                  && (IsFailureText(reply.response.status) || IsCancelledText(reply.response.status) ==>
                        !reply.response.captured.Malformed?)
                  && (IsFailureText(reply.response.status) ==> row.failureCode == Some("gateway_failed"))))
  {
    NextStatusesAgreeIff(w, t, reply);
    WorkersWriteTheseRows(w, t, reply);
    SameWriteIff(w.db.transactions, t, Polled(w.db.transactions[t], reply), Reconciled(w.db.transactions[t], reply));
    if reply.Answered? {
      TextGroupsAreDisjoint(reply.response.status);
    }
  }

  lemma SameWriteIff(transactions: seq<Transaction>, t: Id, a: Transaction, b: Transaction)
    requires t < |transactions|
    ensures transactions[t := a] == transactions[t := b] <==> a == b
  {
    assert transactions[t := a][t] == a && transactions[t := b][t] == b;
  }

  // -- One worker after the other -----------------------------------------------

  /** The order of the workers shows in the captured amount: an answer that is no
      success brings a new one, and only a row the poll has already moved, or for an
      authorized text only a row it has not yet moved, takes it from the reconciliation. */
  predicate OrderShows(row: Transaction, reply: Reply) {
    && row.provider.Some? && HasGatewayId(row) && reply.Answered?
    && row.status in {Pending, Authorized, Failed, PartiallyRefunded}
    && reply.response.captured.Reported? && !BringsNothing(row, reply.response)
    && !IsSuccessText(reply.response.status)
    && (if IsAuthorizedText(reply.response.status) then row.status == Authorized
        else !(row.status == Failed && IsFailureText(reply.response.status)))
  }

  /** Run in either order on one answer, whatever it is, the workers leave every row in
      the same status; and they leave the same database unless the order shows, which
      it never does on a PROCESSING row. */
  lemma OrderDoesNotMatter(w: World, t: Id, reply: Reply)
    requires t < |w.db.transactions|
    ensures var pollFirst := Apply(Apply(w, Poll(t, reply)), Reconcile(t, reply)).db;
      var reconcileFirst := Apply(Apply(w, Reconcile(t, reply)), Poll(t, reply)).db;
      && |pollFirst.transactions| == |reconcileFirst.transactions| == |w.db.transactions|
      && pollFirst.transactions[t].status == reconcileFirst.transactions[t].status
      && (pollFirst == reconcileFirst <==> !OrderShows(w.db.transactions[t], reply))
  {
    var row := w.db.transactions[t];
    WorkersWriteTheseRows(w, t, reply);
    WorkersWriteTheseRows(Apply(w, Poll(t, reply)), t, reply);
    WorkersWriteTheseRows(Apply(w, Reconcile(t, reply)), t, reply);
    var pollFirst, reconcileFirst := Reconciled(Polled(row, reply), reply), Polled(Reconciled(row, reply), reply);
    RowOrder(row, reply);
    SameWriteIff(w.db.transactions, t, pollFirst, reconcileFirst);
    assert w.db.transactions[t := Polled(row, reply)][t := pollFirst] == w.db.transactions[t := pollFirst];
    assert w.db.transactions[t := Reconciled(row, reply)][t := reconcileFirst] == w.db.transactions[t := reconcileFirst];
  }

  lemma RowOrder(row: Transaction, reply: Reply)
    ensures var pollFirst, reconcileFirst := Reconciled(Polled(row, reply), reply), Polled(Reconciled(row, reply), reply);
      && pollFirst.status == reconcileFirst.status
      && (pollFirst == reconcileFirst <==> !OrderShows(row, reply))
  {
    if reply.Answered? {
      TextGroupsAreDisjoint(reply.response.status);
    }
  }

  // -- Creation -----------------------------------------------------------------

  /** `create_payment` reads a status as the other two workers do, with exactly these
      exceptions: it stores a payment that requires capture as AUTHORIZED even when
      the gateway says it is captured, cancelled or still pending, and one that does
      not as PROCESSING when the gateway says authorized or cancelled. */
  lemma CreationReadsAsWorkersDoIff(text: string, requiresCapture: bool, row: Transaction)
    ensures ResolvePaymentStatus(text, requiresCapture) == NormalizeExternalStatus(text)
       <==> IsFailureText(text)
            || (if requiresCapture then IsAuthorizedText(text) else !IsAuthorizedText(text) && !IsCancelledText(text))
    ensures ResolvePaymentStatus(text, requiresCapture) == PolledTransaction(row, Response(text, None, None, Absent)).status
       <==> IsFailureText(text) || (!requiresCapture && !IsCancelledText(text))
  {
    TextGroupsAreDisjoint(text);
  }
}
