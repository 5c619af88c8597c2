/** What a caller gets from the payment service and its saga, and what is stored, told
    from the request, the stored rows and the gateway's answer alone. */
module PaymentOutcomes {
  import opened Ledger
  import opened Gateway
  import opened Payments
  import opened Runs
  import opened Sagas

  // -- Creating -----------------------------------------------------------------

  predicate IsFree(db: Database, key: string) {
    forall t :: 0 <= t < |db.transactions| ==> db.transactions[t].key != key
  }

  /** The identifier an answer brings: gateway_transaction_id unless it is missing or
      empty, and id then. */
  function IdBrought(response: Response): Option<string> {
    if response.gatewayId == None || response.gatewayId.value == "" then response.id else response.gatewayId
  }

  predicate BringsTakenId(db: Database, response: Response) {
    && IdBrought(response) != None
    && exists t :: 0 <= t < |db.transactions| && db.transactions[t].gatewayId == IdBrought(response)
  }

  /** The gateway is asked, and its answer can be stored. */
  predicate CreateIsKept(db: Database, request: PaymentRequest, methodExists: bool, reply: Reply) {
    && IsFree(db, request.key) && methodExists && reply.Answered?
    && reply.response.captured != Malformed && !BringsTakenId(db, reply.response)
  }

  /** How `create_payment` ends, in every case. */
  lemma CreateOutcome(db: Database, request: PaymentRequest, methodExists: bool, reply: Reply)
    ensures var outcome := CreatePayment(db, request, methodExists, reply).1;
      var free := IsFree(db, request.key);
      && (outcome == Raised(PaymentAlreadyProcessed) <==> !free)
      && (outcome == Raised(PaymentMethodNotFound) <==> free && !methodExists)
      && (outcome == Raised(PaymentFailed) <==> free && methodExists && reply.Refused?)
      && (outcome == Raised(Unhandled) <==>
            free && methodExists && (reply == Crashed || (reply.Answered? && reply.response.captured == Malformed)))
      && (outcome == Raised(IntegrityViolation) <==>
            && free && methodExists && reply.Answered?
            && reply.response.captured != Malformed && BringsTakenId(db, reply.response))
      && (outcome == Returned(|db.transactions|) <==> CreateIsKept(db, request, methodExists, reply))
  {
    assert KeyTaken(db.transactions, request.key) <==> !IsFree(db, request.key);
  }

  /** What is stored then: a row whose status is read from the text of the answer, a
      FAILED row when the gateway refuses, and nothing in any other case. */
  lemma CreateStoresWhatWasAnswered(w: World, request: PaymentRequest, methodExists: bool, reply: Reply)
    ensures var before, after := w.db, Apply(w, Create(request, methodExists, reply)).db;
      && after.refunds == before.refunds
      && (after != before <==>
            || CreateIsKept(before, request, methodExists, reply)
            || (IsFree(before, request.key) && methodExists && reply.Refused?))
      && (after != before ==>
            && |after.transactions| == |before.transactions| + 1
            && after.transactions[..|before.transactions|] == before.transactions
            && var row := after.transactions[|before.transactions|];
            && row.reservation == request.reservation && row.amount == request.amount
            && row.provider == Some(request.provider) && row.key == request.key
            && row.requiresCapture == request.requiresCapture && row.refunded == 0)
  {
    assert KeyTaken(w.db.transactions, request.key) <==> !IsFree(w.db, request.key);
  }

  lemma KeptAnswerIsRead(w: World, request: PaymentRequest, methodExists: bool, reply: Reply)
    requires CreateIsKept(w.db, request, methodExists, reply)
    ensures var after := Apply(w, Create(request, methodExists, reply)).db.transactions;
      |after| == |w.db.transactions| + 1
      && var row, response := after[|w.db.transactions|], reply.response;
      && row.gatewayId == IdBrought(response) && row.failureCode == None
      && row.captured == (if response.captured.Reported? then response.captured.cents else 0)
      && (row.status == Failed <==> response.status in {"failed", "declined", "rejected"})
      && (row.status == Authorized <==>
            request.requiresCapture && response.status !in {"failed", "declined", "rejected"})
      && (row.status == Succeeded <==>
            !request.requiresCapture && response.status in {"succeeded", "paid", "captured", "completed"})
      && row.status in {Failed, Authorized, Succeeded, Processing}
  {
    assert !KeyTaken(w.db.transactions, request.key);
    TextGroupsAreDisjoint(reply.response.status);
  }

  lemma RefusedCreateIsStored(w: World, request: PaymentRequest, error: GatewayError)
    requires IsFree(w.db, request.key)
    ensures var after := Apply(w, Create(request, true, Refused(error))).db.transactions;
      |after| == |w.db.transactions| + 1
      && var row := after[|w.db.transactions|];
      && row.status == Failed && row.gatewayId == None && row.captured == 0
      && (row.failureCode == Some("payment_declined") <==> error == Declined)
      && (row.failureCode == Some("gateway_timeout") <==> error == TimedOut)
      && (row.failureCode == Some("gateway_error") <==> error == Unavailable)
  {
    assert !KeyTaken(w.db.transactions, request.key);
  }

  // -- Capturing and cancelling -------------------------------------------------

  predicate IsAuthorized(db: Database, t: Id) {
    t < |db.transactions| && db.transactions[t].status == Authorized
  }

  predicate MayBeCancelled(db: Database, t: Id) {
    t < |db.transactions| && db.transactions[t].status in {Pending, Authorized, Processing}
  }

  predicate LacksId(db: Database, t: Id) {
    t < |db.transactions| && (db.transactions[t].gatewayId == None || db.transactions[t].gatewayId.value == "")
  }

  predicate LacksProvider(db: Database, t: Id) {
    t < |db.transactions| && db.transactions[t].provider == None
  }

  /** The amount of an answer to a capture can be used. */
  predicate IsUsable(reply: Reply) {
    reply.Answered? && reply.response.captured !in {Null, Malformed}
  }

  /** How `capture_payment` ends, in every case. */
  lemma CaptureOutcome(db: Database, t: Id, amount: Option<int>, reply: Reply)
    ensures var outcome := CapturePayment(db, t, amount, reply).1;
      var called := IsAuthorized(db, t) && !LacksId(db, t) && !LacksProvider(db, t);
      && (outcome == Raised(TransactionNotFound) <==> |db.transactions| <= t)
      && (outcome == Raised(InvalidTransactionState) <==> t < |db.transactions| && !IsAuthorized(db, t))
      && (outcome == Raised(PaymentFailed) <==> (IsAuthorized(db, t) && LacksId(db, t)) || (called && reply.Refused?))
      && (outcome == Raised(UnsupportedProvider) <==> IsAuthorized(db, t) && !LacksId(db, t) && LacksProvider(db, t))
      && (outcome == Raised(Unhandled) <==> called && !reply.Refused? && !IsUsable(reply))
      && (outcome == Returned(t) <==> called && IsUsable(reply))
  {
  }

  /** What `capture_payment` stores: the reported amount, or the requested one, or all
      of it, when it returns; the failure when the gateway refuses; nothing otherwise. */
  lemma CaptureStoresWhatWasAnswered(w: World, t: Id, amount: Option<int>, reply: Reply)
    ensures var before, after := w.db, Apply(w, Capture(t, amount, reply)).db;
      var called := IsAuthorized(before, t) && !LacksId(before, t) && !LacksProvider(before, t);
      && after.refunds == before.refunds && |after.transactions| == |before.transactions|
      && (forall u :: 0 <= u < |before.transactions| && u != t ==> after.transactions[u] == before.transactions[u])
      && (t < |before.transactions| ==>
            var row, now := before.transactions[t], after.transactions[t];
            && (called ==> (now.status == Succeeded <==> IsUsable(reply)))
            && (called && IsUsable(reply) ==>
                  && now == row.(status := Succeeded, captured := now.captured)
                  && (reply.response.captured.Reported? ==> reply.response.captured == Reported(now.captured))
                  && (reply.response.captured == Absent && amount !in {None, Some(0)} ==> amount == Some(now.captured))
                  && (reply.response.captured == Absent && amount in {None, Some(0)} ==> now.captured == row.amount))
            && (called && reply.Refused? ==> now == row.(status := Failed, failureCode := Some("capture_failed")))
            && (now != row ==> called && (IsUsable(reply) || reply.Refused?)))
  {
  }

  /** How `cancel_payment` ends, and that it cancels the row exactly when it returns. */
  lemma CancelOutcome(w: World, t: Id, reply: Reply)
    ensures var outcome := CancelPayment(w.db, t, reply).1;
      var called := MayBeCancelled(w.db, t) && !LacksId(w.db, t) && !LacksProvider(w.db, t);
      && (outcome == Raised(TransactionNotFound) <==> |w.db.transactions| <= t)
      && (outcome == Raised(InvalidTransactionState) <==> t < |w.db.transactions| && !MayBeCancelled(w.db, t))
      && (outcome == Raised(UnsupportedProvider) <==>
            MayBeCancelled(w.db, t) && !LacksId(w.db, t) && LacksProvider(w.db, t))
      && (outcome == Raised(PaymentFailed) <==> called && reply.Refused?)
      && (outcome == Raised(Unhandled) <==> called && reply == Crashed)
      && (outcome == Returned(t) <==> (MayBeCancelled(w.db, t) && LacksId(w.db, t)) || (called && reply.Answered?))
      && (outcome.Returned? ==>
            t < |w.db.transactions|
            && Apply(w, Cancel(t, reply)).db
               == w.db.(transactions := w.db.transactions[t := w.db.transactions[t].(status := Cancelled)]))
      && (outcome.Raised? ==> Apply(w, Cancel(t, reply)).db == w.db)
  {
  }

  // -- The saga -----------------------------------------------------------------

  /** `execute` returns exactly when it has stored a row that is SUCCEEDED, AUTHORIZED
      or PROCESSING; it ends in PaymentSagaError exactly when the key is taken, the
      method is missing, the gateway refused or the stored row is FAILED; in any other
      case the exception escapes as it is and nothing is stored. */
  lemma ExecuteOutcome(w: World, request: PaymentRequest, methodExists: bool, reply: Reply)
    ensures var (change, outcome) := ExecutePayment(w.db, request, methodExists, reply);
      var t, after := |w.db.transactions|, Commit(w, change).db;
      var kept := CreateIsKept(w.db, request, methodExists, reply);
      && (outcome == Returned(t) <==> kept && reply.response.status !in {"failed", "declined", "rejected"})
      && (outcome == Returned(t) <==>
            t < |after.transactions| && after.transactions[t].status in {Succeeded, Authorized, Processing})
      && (outcome == Raised(PaymentSagaFailed) <==>
            || !IsFree(w.db, request.key) || !methodExists || reply.Refused?
            || (kept && reply.response.status in {"failed", "declined", "rejected"}))
      && (outcome == Returned(t) || outcome == Raised(PaymentSagaFailed)
          || (outcome == CreatePayment(w.db, request, methodExists, reply).1
              && outcome in {Raised(Unhandled), Raised(IntegrityViolation)} && after == w.db))
  {
    CreateOutcome(w.db, request, methodExists, reply);
    CreateStoresWhatWasAnswered(w, request, methodExists, reply);
    if CreateIsKept(w.db, request, methodExists, reply) {
      KeptAnswerIsRead(w, request, methodExists, reply);
    } else if reply.Refused? && methodExists && IsFree(w.db, request.key) {
      RefusedCreateIsStored(w, request, reply.error);
    }
  }

  /** How the capture saga ends, in every case; and it does to the database what the
      capture would, except that it cancels an authorization without identifier. */
  lemma CaptureSagaEnds(w: World, t: Id, amount: Option<int>, reply: Reply)
    ensures var (change, outcome) := CapturePaymentSaga(w.db, t, amount, reply);
      var called := IsAuthorized(w.db, t) && !LacksId(w.db, t) && !LacksProvider(w.db, t);
      && (outcome == Raised(TransactionNotFound) <==> |w.db.transactions| <= t)
      && (outcome == Raised(InvalidTransactionState) <==> t < |w.db.transactions| && !IsAuthorized(w.db, t))
      && (outcome == Raised(PaymentSagaFailed) <==>
            (IsAuthorized(w.db, t) && LacksId(w.db, t)) || (called && reply.Refused?))
      && (outcome == Raised(UnsupportedProvider) <==>
            IsAuthorized(w.db, t) && !LacksId(w.db, t) && LacksProvider(w.db, t))
      && (outcome == Raised(Unhandled) <==> called && !reply.Refused? && !IsUsable(reply))
      && (outcome == Returned(t) <==> called && IsUsable(reply))
      && Commit(w, change).db
         == if IsAuthorized(w.db, t) && LacksId(w.db, t)
            then w.db.(transactions := w.db.transactions[t := w.db.transactions[t].(status := Cancelled)])
            else Apply(w, Capture(t, amount, reply)).db
  {
    CaptureOutcome(w.db, t, amount, reply);
  }

  lemma CancelSagaEnds(db: Database, t: Id, reply: Reply)
    ensures var outcome := CancelPaymentSaga(db, t, reply).1;
      var called := MayBeCancelled(db, t) && !LacksId(db, t) && !LacksProvider(db, t);
      && (outcome == Raised(PaymentSagaFailed) <==> !MayBeCancelled(db, t) || (called && reply.Refused?))
      && (outcome == Raised(UnsupportedProvider) <==> MayBeCancelled(db, t) && !LacksId(db, t) && LacksProvider(db, t))
      && (outcome == Raised(Unhandled) <==> called && reply == Crashed)
      && (outcome == Returned(t) <==> (MayBeCancelled(db, t) && LacksId(db, t)) || (called && reply.Answered?))
  {
    CancelOutcome(World(db, []), t, reply);
  }

  /** The create was kept and calls for a capture that can be made. */
  predicate LeadsToCapture(db: Database, request: PaymentRequest, methodExists: bool, reply: Reply) {
    && CreateIsKept(db, request, methodExists, reply) && request.requiresCapture
    && reply.response.status !in {"failed", "declined", "rejected"}
    && IdBrought(reply.response) != None && IdBrought(reply.response).value != ""
  }

  /** How `execute_with_capture` ends, in every case. */
  lemma ExecuteWithCaptureEnds(w: World, request: PaymentRequest, methodExists: bool, reply: Reply, captureReply: Reply)
    ensures var outcome := ExecuteWithCapture(w, request, methodExists, reply, captureReply).1;
      var kept, captures := CreateIsKept(w.db, request, methodExists, reply), LeadsToCapture(w.db, request, methodExists, reply);
      var paid := kept && !request.requiresCapture && reply.response.status in {"succeeded", "paid", "captured", "completed"};
      var refused := IsFree(w.db, request.key) && methodExists && reply.Refused?;
      && (outcome == Returned(|w.db.transactions|) <==> paid || (captures && IsUsable(captureReply)))
      && (outcome == Raised(PaymentSagaFailed) <==>
            || !IsFree(w.db, request.key) || !methodExists || refused
            || (kept && !paid && !captures) || (captures && captureReply.Refused?))
      && (outcome == Raised(IntegrityViolation) <==> CreatePayment(w.db, request, methodExists, reply).1 == Raised(IntegrityViolation))
      && (outcome == Raised(Unhandled) <==>
            || CreatePayment(w.db, request, methodExists, reply).1 == Raised(Unhandled)
            || (captures && !captureReply.Refused? && !IsUsable(captureReply)))
  {
    var created := Apply(w, Create(request, methodExists, reply));
    CreateOutcome(w.db, request, methodExists, reply);
    if CreateIsKept(w.db, request, methodExists, reply) {
      CreateStoresWhatWasAnswered(w, request, methodExists, reply);
      KeptAnswerIsRead(w, request, methodExists, reply);
      CaptureSagaEnds(created, |w.db.transactions|, None, captureReply);
    }
  }
}
