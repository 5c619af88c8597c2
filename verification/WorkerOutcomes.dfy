/** What the polling and reconciliation workers report and store, told from the stored
    row and the text and amount of the gateway's answer alone. */
module WorkerOutcomes {
  import opened Ledger
  import opened Gateway
  import opened Runs
  import opened Workers
  import opened PaymentOutcomes

  // -- Polling ------------------------------------------------------------------

  /** The row is polled and the answer can be used. */
  predicate PollCounts(db: Database, t: Id, reply: Reply) {
    && t < |db.transactions| && db.transactions[t].status !in {Succeeded, Cancelled, Refunded}
    && !LacksProvider(db, t) && reply.Answered?
    && (reply.response.captured == Malformed ==> reply.response.status !in {"succeeded", "paid", "captured", "completed"})
  }

  /** What `process_payment` reports, in every case. */
  lemma PollReports(w: World, t: Id, reply: Reply)
    ensures var result := ProcessPayment(w.db, t, reply).1;
      var after := Apply(w, Poll(t, reply)).db;
      var finished := t < |w.db.transactions| && w.db.transactions[t].status in {Succeeded, Cancelled, Refunded};
      && (result.processed <==> PollCounts(w.db, t, reply))
      && (result.error <==> !finished && !PollCounts(w.db, t, reply))
      && |after.transactions| == |w.db.transactions|
      && result.status == (if result.error then Failed else after.transactions[t].status)
      && (!result.processed ==> after == w.db)
  {
  }

  /** What it stores when the answer counts: the status by the text, the amount of a
      success only, the failure code of a failure only. */
  lemma PolledTextIsRead(w: World, t: Id, reply: Reply)
    requires PollCounts(w.db, t, reply)
    ensures var text, reported := reply.response.status, reply.response.captured;
      var after := Apply(w, Poll(t, reply)).db;
      |after.transactions| == |w.db.transactions|
      && var row, now := w.db.transactions[t], after.transactions[t];
      && after == w.db.(transactions := w.db.transactions[t := now])
      && now == row.(status := now.status, captured := now.captured, failureCode := now.failureCode)
      && (now.status == Succeeded <==> text in {"succeeded", "paid", "captured", "completed"})
      && (now.status == Failed <==> text in {"failed", "declined", "rejected"})
      && (now.status == Cancelled <==> text in {"cancelled", "canceled"})
      && now.status in {Succeeded, Failed, Cancelled, Processing}
      && (now.status == Failed ==> now.failureCode == Some("gateway_failed"))
      && (now.status != Failed ==> now.failureCode == row.failureCode)
      && (now.status == Succeeded && reported.Reported? ==> reported == Reported(now.captured))
      && (now.status != Succeeded || !reported.Reported? ==> now.captured == row.captured)
  {
    TextGroupsAreDisjoint(reply.response.status);
  }

  // -- Reconciling --------------------------------------------------------------

  /** The text tells exactly the stored status. */
  predicate TellsSame(status: TransactionStatus, text: string) {
    match status
    case Succeeded => text in {"succeeded", "paid", "captured", "completed"}
    case Authorized => text in {"authorized", "requires_capture"}
    case Failed => text in {"failed", "declined", "rejected"}
    case Cancelled => text in {"cancelled", "canceled"}
    case Processing =>
      text !in {"succeeded", "paid", "captured", "completed", "authorized", "requires_capture",
                "failed", "declined", "rejected", "cancelled", "canceled"}
    case Pending => false
    case PartiallyRefunded => false
    case Refunded => false
  }

  /** The text tells a status that the stored one may move on to. */
  predicate TellsNext(status: TransactionStatus, text: string) {
    || (status == Authorized && text in {"succeeded", "paid", "captured", "completed"})
    || (status == Processing
        && text in {"succeeded", "paid", "captured", "completed", "failed", "declined", "rejected", "cancelled", "canceled"})
  }

  predicate Reconcilable(db: Database, t: Id) {
    t < |db.transactions| && !LacksId(db, t) && !LacksProvider(db, t)
  }

  lemma DiscrepancyByText(internal: TransactionStatus, text: string)
    ensures var d := DetectDiscrepancy(internal, NormalizeExternalStatus(text));
      var fits := TellsSame(internal, text) || TellsNext(internal, text);
      && (d == NoDiscrepancy <==> fits)
      && (d == TerminalDiverged <==> !fits && internal in {Succeeded, Failed, Cancelled})
      && (d == NeedsAnalysis <==> !fits && internal !in {Succeeded, Failed, Cancelled})
  {
    TextGroupsAreDisjoint(text);
  }

  /** What `reconcile_transaction` comes to, in every case: how it ends, what it reports
      and which discrepancy. */
  lemma ReconcileReports(w: World, t: Id, reply: Reply)
    ensures var outcome := ReconcileTransaction(w.db, t, reply).1;
      var after := Apply(w, Reconcile(t, reply)).db;
      && (outcome == Raised(InvalidValue) <==> !Reconcilable(w.db, t))
      && (outcome == Raised(GatewayFailed) <==> Reconcilable(w.db, t) && reply.Refused?)
      && (outcome == Raised(Unhandled) <==>
            Reconcilable(w.db, t)
            && (reply == Crashed || (reply.Answered? && reply.response.captured == Malformed
                                     && (TellsSame(w.db.transactions[t].status, reply.response.status)
                                         || TellsNext(w.db.transactions[t].status, reply.response.status)))))
      && (outcome.Returned? ==>
            && Reconcilable(w.db, t) && reply.Answered? && |after.transactions| == |w.db.transactions|
            && var row, text, result := w.db.transactions[t], reply.response.status, outcome.value;
            var fits := TellsSame(row.status, text) || TellsNext(row.status, text);
            && result.transaction == t && result.external == text && result.internal == after.transactions[t].status
            && (result.reconciled <==> fits)
            && (result.discrepancy == NoDiscrepancy <==> fits)
            && (result.discrepancy == TerminalDiverged <==> !fits && row.status in {Succeeded, Failed, Cancelled})
            && (result.discrepancy == NeedsAnalysis <==> !fits && row.status !in {Succeeded, Failed, Cancelled}))
  {
    if reply.Answered? && t < |w.db.transactions| {
      DiscrepancyByText(w.db.transactions[t].status, reply.response.status);
    }
  }

  /** What it stores: the status the text tells and the reported amount, if the text
      fits the row and the amount is a number or absent; otherwise nothing. */
  lemma ReconciledTextIsRead(w: World, t: Id, reply: Reply)
    ensures var before, after := w.db, Apply(w, Reconcile(t, reply)).db;
      var usable := Reconcilable(before, t) && reply.Answered? && reply.response.captured != Malformed;
      && |after.transactions| == |before.transactions|
      && (after != before ==> usable)
      && (usable ==>
            var row, now, text := before.transactions[t], after.transactions[t], reply.response.status;
            && after == before.(transactions := before.transactions[t := now])
            && (!TellsSame(row.status, text) && !TellsNext(row.status, text) ==> now == row)
            && (TellsSame(row.status, text) || TellsNext(row.status, text) ==>
                  && TellsSame(now.status, text)
                  && now == row.(status := now.status, captured := now.captured)
                  && (if reply.response.captured.Reported? then reply.response.captured == Reported(now.captured)
                      else now.captured == row.captured)))
  {
    if reply.Answered? && t < |w.db.transactions| {
      TextGroupsAreDisjoint(reply.response.status);
      DiscrepancyByText(w.db.transactions[t].status, reply.response.status);
    }
  }
}
