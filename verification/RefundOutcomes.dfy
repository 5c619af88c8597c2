/** What a caller gets from the refund service, its saga and the refund tasks, and what
    is stored, told from the request, the stored rows and the gateway's answer alone. */
module RefundOutcomes {
  import opened Ledger
  import opened Gateway
  import opened Refunds
  import opened Runs
  import opened Sagas
  import opened PaymentOutcomes

  // -- Issuing ------------------------------------------------------------------

  predicate IsFreeForRefund(db: Database, key: string) {
    forall r :: 0 <= r < |db.refunds| ==> db.refunds[r].key != key
  }

  /** The transaction is paid, something of it has been captured, and the request asks
      for no more of that than has not been refunded. */
  predicate Covers(db: Database, request: RefundRequest) {
    && request.transaction < |db.transactions|
    && var row := db.transactions[request.transaction];
    && row.status in {Succeeded, PartiallyRefunded} && 0 < row.captured
    && request.amount + row.refunded <= row.captured
  }

  predicate BringsTakenRefundId(db: Database, response: Response) {
    && IdBrought(response) != None
    && exists r :: 0 <= r < |db.refunds| && db.refunds[r].gatewayRefundId == IdBrought(response)
  }

  /** The gateway is asked for the refund. */
  predicate RefundIsAsked(db: Database, request: RefundRequest) {
    && IsFreeForRefund(db, request.key) && Covers(db, request)
    && !LacksId(db, request.transaction) && !LacksProvider(db, request.transaction)
  }

  /** And its answer can be stored. */
  predicate RefundIsKept(db: Database, request: RefundRequest, reply: Reply) {
    RefundIsAsked(db, request) && reply.Answered? && !BringsTakenRefundId(db, reply.response)
  }

  lemma FreeForRefund(db: Database, key: string)
    ensures RefundKeyTaken(db.refunds, key) <==> !IsFreeForRefund(db, key)
  {
  }

  /** How `create_refund` ends, in every case. */
  lemma RefundOutcome(db: Database, request: RefundRequest, reply: Reply)
    ensures var outcome := CreateRefund(db, request, reply).1;
      var t, free, covered := request.transaction, IsFreeForRefund(db, request.key), Covers(db, request);
      var payable := t < |db.transactions| && db.transactions[t].status in {Succeeded, PartiallyRefunded} && 0 < db.transactions[t].captured;
      && (outcome == Raised(RefundAlreadyProcessed) <==> !free)
      && (outcome == Raised(RefundNotAllowed) <==> free && t < |db.transactions| && !payable)
      && (outcome == Raised(RefundAmountExceeded) <==> free && payable && !covered)
      && (outcome == Raised(UnsupportedProvider) <==> free && covered && !LacksId(db, t) && LacksProvider(db, t))
      && (outcome == Raised(RefundFailure) <==>
            || (free && |db.transactions| <= t) || (free && covered && LacksId(db, t))
            || (RefundIsAsked(db, request) && reply.Refused?))
      && (outcome == Raised(Unhandled) <==> RefundIsAsked(db, request) && reply == Crashed)
      && (outcome == Raised(IntegrityViolation) <==>
            RefundIsAsked(db, request) && reply.Answered? && BringsTakenRefundId(db, reply.response))
      && (outcome == Returned(|db.refunds|) <==> RefundIsKept(db, request, reply))
  {
    FreeForRefund(db, request.key);
  }

  /** Nothing is stored unless the answer is kept or the gateway refused. */
  lemma RefundStoresOnlyAnswers(w: World, request: RefundRequest, reply: Reply)
    ensures var before, after := w.db, Apply(w, IssueRefund(request, reply)).db;
      && (after != before <==> RefundIsKept(before, request, reply) || (RefundIsAsked(before, request) && reply.Refused?))
      && (after != before ==>
            && |after.refunds| == |before.refunds| + 1 && after.refunds[..|before.refunds|] == before.refunds
            && var refund := after.refunds[|before.refunds|];
            && refund.transaction == request.transaction && refund.amount == request.amount && refund.key == request.key)
  {
    FreeForRefund(w.db, request.key);
  }

  /** A kept answer is read from its text alone. The refund is SUCCEEDED and its amount
      booked on the transaction for exactly four texts; FAILED for exactly three;
      PROCESSING for any other; and only a success touches the transaction. */
  lemma RefundAnswerIsRead(w: World, request: RefundRequest, reply: Reply)
    requires RefundIsKept(w.db, request, reply)
    ensures var t, text := request.transaction, reply.response.status;
      var before, after := w.db, Apply(w, IssueRefund(request, reply)).db;
      && |after.refunds| == |before.refunds| + 1
      && var refund, row := after.refunds[|before.refunds|], before.transactions[t];
      && refund.gatewayRefundId == IdBrought(reply.response) && refund.failureCode == None
      && (refund.status == RefundSucceeded <==> text in {"succeeded", "refunded", "completed", "processed"})
      && (refund.status == RefundFailed <==> text in {"failed", "declined", "rejected"})
      && (refund.status == RefundProcessing <==>
            text !in {"succeeded", "refunded", "completed", "processed", "failed", "declined", "rejected"})
      && (after.transactions == before.transactions
          <==> text !in {"succeeded", "refunded", "completed", "processed"})
      && (text in {"succeeded", "refunded", "completed", "processed"} ==>
            after.transactions == before.transactions
              [t := row.(refunded := row.refunded + request.amount,
                         status := if row.refunded + request.amount < row.amount then PartiallyRefunded else Refunded)])
  {
    FreeForRefund(w.db, request.key);
    var t, row := request.transaction, w.db.transactions[request.transaction];
    var booked := RefundedTransaction(row, request.amount);
    assert booked != row;
    assert w.db.transactions[t := booked][t] == booked;
  }

  lemma RefusedRefundIsStored(w: World, request: RefundRequest, error: GatewayError)
    requires RefundIsAsked(w.db, request)
    ensures var after := Apply(w, IssueRefund(request, Refused(error))).db;
      && after.transactions == w.db.transactions
      && |after.refunds| == |w.db.refunds| + 1
      && var refund := after.refunds[|w.db.refunds|];
      && refund.status == RefundFailed && refund.failureCode == Some("gateway_error") && refund.gatewayRefundId == None
  {
    FreeForRefund(w.db, request.key);
  }

  // -- The saga -----------------------------------------------------------------

  /** How the refund saga ends. Under a taken key it returns the refund that holds it;
      under a fresh one it returns the new refund exactly when the answer is kept and
      tells no failure. */
  lemma RefundSagaEnds(db: Database, request: RefundRequest, reply: Reply)
    ensures var outcome := ExecuteRefund(db, request, reply).1;
      var t, free, covered := request.transaction, IsFreeForRefund(db, request.key), Covers(db, request);
      && (!free ==> outcome.Returned? && outcome.value < |db.refunds| && db.refunds[outcome.value].key == request.key)
      && (outcome == Returned(|db.refunds|) <==>
            RefundIsKept(db, request, reply) && reply.response.status !in {"failed", "declined", "rejected"})
      && (outcome == Raised(RefundSagaFailed) <==>
            free && (|| !covered || LacksId(db, t)
                     || (RefundIsAsked(db, request) && reply.Refused?)
                     || (RefundIsKept(db, request, reply) && reply.response.status in {"failed", "declined", "rejected"})))
      && (outcome == Raised(UnsupportedProvider) <==> free && covered && !LacksId(db, t) && LacksProvider(db, t))
      && (outcome == Raised(Unhandled) <==> RefundIsAsked(db, request) && reply == Crashed)
      && (outcome == Raised(IntegrityViolation) <==>
            RefundIsAsked(db, request) && reply.Answered? && BringsTakenRefundId(db, reply.response))
  {
    FreeForRefund(db, request.key);
    RefundOutcome(db, request, reply);
    if RefundIsKept(db, request, reply) {
      RefundAnswerIsRead(World(db, []), request, reply);
    }
  }

  // -- The tasks ----------------------------------------------------------------

  /** `after` is `before` with refund `r` moved to `to` when it is stored and its status
      is one of `from`, and otherwise the same. */
  predicate IsMoved(before: Database, after: Database, r: Id, from: set<RefundStatus>, to: RefundStatus) {
    after == if r < |before.refunds| && before.refunds[r].status in from
             then before.(refunds := before.refunds[r := before.refunds[r].(status := to)])
             else before
  }

  /** A task reports what it did. */
  predicate IsReported(db: Database, r: Id, from: set<RefundStatus>, to: RefundStatus, result: RefundTaskResult) {
    && (result.error <==> |db.refunds| <= r)
    && (result.processed <==> r < |db.refunds| && db.refunds[r].status in from)
    && result.status == if |db.refunds| <= r then RefundFailed else if db.refunds[r].status in from then to else db.refunds[r].status
  }

  /** Which refunds each task moves: `process_refund` the unfinished ones, to PROCESSING;
      `retry_refund` also the failed and cancelled ones; the cancelling task turns the
      unfinished ones, PROCESSING included, into CANCELLED. */
  lemma TasksMove(w: World, r: Id)
    ensures IsMoved(w.db, Apply(w, MarkProcessing(r)).db, r, {RefundPending, RefundProcessing}, RefundProcessing)
    ensures IsMoved(w.db, Apply(w, MarkRetried(r)).db, r,
                    {RefundPending, RefundProcessing, RefundFailed, RefundCancelled}, RefundProcessing)
    ensures IsMoved(w.db, Apply(w, MarkCancelled(r)).db, r, {RefundPending, RefundProcessing}, RefundCancelled)
  {
    if r < |w.db.refunds| {
      EachStatus(w.db.refunds[r].status);
    }
  }

  lemma EachStatus(status: RefundStatus)
    ensures status in {RefundPending, RefundProcessing, RefundFailed, RefundCancelled} <==> status != RefundSucceeded
    ensures status in {RefundPending, RefundProcessing} <==> status !in {RefundSucceeded, RefundFailed, RefundCancelled}
  {
    match status {
      case RefundPending =>
      case RefundProcessing =>
      case RefundSucceeded =>
      case RefundFailed =>
      case RefundCancelled =>
    }
  }

  lemma TasksReport(db: Database, r: Id)
    ensures IsReported(db, r, {RefundPending, RefundProcessing}, RefundProcessing, ProcessRefund(db, r).1)
    ensures IsReported(db, r, {RefundPending, RefundProcessing, RefundFailed, RefundCancelled}, RefundProcessing, RetryRefund(db, r).1)
    ensures IsReported(db, r, {RefundPending, RefundProcessing}, RefundCancelled, CancelPendingRefund(db, r).1)
  {
    if r < |db.refunds| {
      EachStatus(db.refunds[r].status);
    }
  }
}
