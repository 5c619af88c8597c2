/** What the payment and refund sagas come to, in closed form: no exception is
    caught here and no compensation runs, so each lemma and each saga method proved
    against these functions says what catching and compensating amounts to. */
module Sagas {
  import opened Ledger
  import opened Gateway
  import opened Payments
  import opened Refunds
  import opened Runs
  import opened Conservation
  import opened Calls

  function AsSagaError<T>(o: Outcome<T>): Outcome<T> {
    if o.Raised? && IsPaymentServiceError(o.error) then Raised(PaymentSagaFailed) else o
  }

  // -- PaymentSaga --------------------------------------------------------------

  function ExecutePayment(db: Database, request: PaymentRequest, methodExists: bool, reply: Reply): (Change, Outcome<Id>)
  {
    var (change, outcome) := CreatePayment(db, request, methodExists, reply);
    (change,
     if outcome.Returned? && change.transaction.Put? && change.transaction.row.status == Failed then Raised(PaymentSagaFailed)
     else AsSagaError(outcome))
  }

  /** An AUTHORIZED payment without an identifier is cancelled locally; any other is
      captured, and a refused capture has already left it FAILED. */
  function CapturePaymentSaga(db: Database, t: Id, amount: Option<int>, reply: Reply): (Change, Outcome<Id>)
  {
    if |db.transactions| <= t then (NO_CHANGE, Raised(TransactionNotFound)) else
    var row := db.transactions[t];
    if row.status != Authorized then (NO_CHANGE, Raised(InvalidTransactionState))
    else if !HasGatewayId(row) then
      (Change(Put(t, row.(status := Cancelled)), Nothing, []), Raised(PaymentSagaFailed))
    else
      var (change, outcome) := CapturePayment(db, t, amount, reply);
      (change, AsSagaError(outcome))
  }

  function CancelPaymentSaga(db: Database, t: Id, reply: Reply): (Change, Outcome<Id>) {
    var (change, outcome) := CancelPayment(db, t, reply);
    (change, AsSagaError(outcome))
  }

  function ExecuteWithCapture(w: World, request: PaymentRequest, methodExists: bool, createReply: Reply, captureReply: Reply)
    : (World, Outcome<Id>)
  {
    var (created, outcome) := CreatePayment(w.db, request, methodExists, createReply);
    var after := Commit(w, created);
    if outcome.Raised? || created.transaction.Nothing? then (after, AsSagaError(outcome))
    else if created.transaction.row.status == Succeeded then (after, outcome)
    else if created.transaction.row.status != Authorized then (after, Raised(PaymentSagaFailed))
    else
      var (captured, end) := CapturePaymentSaga(after.db, outcome.value, None, captureReply);
      (Commit(after, captured), end)
  }

  /** The outcome of the capture saga on a stored row. It ends in PaymentSagaError
      exactly when the row has just become FAILED or CANCELLED; the row stays
      AUTHORIZED exactly when an exception outside the service's family escaped;
      compensation cancels exactly the rows without identifier, and so the gateway's
      cancel is never called. */
  lemma CaptureSagaOutcome(db: Database, t: Id, amount: Option<int>, reply: Reply)
    requires t < |db.transactions| && db.transactions[t].status == Authorized
    ensures var (change, outcome) := CapturePaymentSaga(db, t, amount, reply);
      var after := Store(db.transactions, change.transaction)[t];
      && (outcome == Raised(PaymentSagaFailed) <==> after.status in {Failed, Cancelled})
      && (outcome == Returned(t) <==> after.status == Succeeded)
      && (after.status == Authorized <==> outcome in {Raised(Unhandled), Raised(UnsupportedProvider)})
      && (after.status == Cancelled <==> !HasGatewayId(db.transactions[t]))
      && (forall e :: e in change.events ==> e.CaptureCalled? || e.CaptureAnswered? || e.CaptureLost?)
  {
  }

  /** When `execute_with_capture` ends in PaymentSagaError, either it stored nothing
      or the one row it stored is FAILED, CANCELLED or PROCESSING, never AUTHORIZED. */
  lemma ExecuteWithCaptureOutcome(w: World, request: PaymentRequest, methodExists: bool, createReply: Reply, captureReply: Reply)
    ensures var (after, outcome) := ExecuteWithCapture(w, request, methodExists, createReply, captureReply);
      var t := |w.db.transactions|;
      && w.db.transactions <= after.db.transactions && |after.db.transactions| <= t + 1 && after.db.refunds == w.db.refunds
      && (outcome == Raised(PaymentSagaFailed) ==>
            after.db == w.db || (|after.db.transactions| == t + 1 && after.db.transactions[t].status in {Failed, Cancelled, Processing}))
      && (outcome.Returned? ==> |after.db.transactions| == t + 1 && after.db.transactions[t].status == Succeeded)
  {
    var (created, outcome) := CreatePayment(w.db, request, methodExists, createReply);
    CreateStores(w.db, request, methodExists, createReply);
    if outcome.Returned? && created.transaction.row.status == Authorized {
      CaptureSagaOutcome(Commit(w, created).db, |w.db.transactions|, None, captureReply);
    }
  }

  /** `create_payment` returns the row it appended; when it raises it has appended a
      FAILED row or none. It calls nothing but the gateway's create. */
  lemma CreateStores(db: Database, request: PaymentRequest, methodExists: bool, reply: Reply)
    ensures var (change, outcome) := CreatePayment(db, request, methodExists, reply);
      && change.refund.Nothing?
      && (change.transaction.Put? ==> change.transaction.index == |db.transactions|)
      && (outcome.Returned? ==> change.transaction.Put? && outcome.value == |db.transactions|)
      && (outcome.Raised? && change.transaction.Put? ==> change.transaction.row.status == Failed)
      && (outcome == Raised(PaymentFailed) ==> change.transaction.Put?)
      && (forall e :: e in change.events ==> e.CreateFlushed? || e.CreateCalled? || e.CreateLost?)
  {
  }

  /** Nor does the composed saga ever ask the gateway to cancel. */
  lemma ExecuteWithCaptureNeverCancels(w: World, request: PaymentRequest, methodExists: bool, createReply: Reply, captureReply: Reply)
    ensures var after := ExecuteWithCapture(w, request, methodExists, createReply, captureReply).0;
      w.trace <= after.trace && forall e :: e in after.trace[|w.trace|..] ==> !e.CancelCalled?
  {
    var (created, outcome) := CreatePayment(w.db, request, methodExists, createReply);
    CreateStores(w.db, request, methodExists, createReply);
    if outcome.Returned? && created.transaction.row.status == Authorized {
      CaptureSagaOutcome(Commit(w, created).db, |w.db.transactions|, None, captureReply);
    }
  }

  /** The one call of the payment service that the capture saga comes to. */
  function CaptureSagaStep(db: Database, t: Id, amount: Option<int>, reply: Reply): Step {
    if t < |db.transactions| && db.transactions[t].status == Authorized && !HasGatewayId(db.transactions[t])
    then Cancel(t, reply)
    else Capture(t, amount, reply)
  }

  lemma CaptureSagaIsStep(db: Database, t: Id, amount: Option<int>, reply: Reply)
    ensures CapturePaymentSaga(db, t, amount, reply).0 == Plan(db, CaptureSagaStep(db, t, amount, reply))
  {
  }

  function ExecuteWithCaptureSteps(w: World, request: PaymentRequest, methodExists: bool, createReply: Reply, captureReply: Reply)
    : seq<Step>
  {
    var create := Create(request, methodExists, createReply);
    [create, CaptureSagaStep(Apply(w, create).db, |w.db.transactions|, None, captureReply)]
  }

  /** Creating and then capturing commits what those two calls of the service commit;
      where the saga does not capture, the second call would change nothing. */
  lemma ExecuteWithCaptureIsRun(w: World, request: PaymentRequest, methodExists: bool, createReply: Reply, captureReply: Reply)
    ensures ExecuteWithCapture(w, request, methodExists, createReply, captureReply).0
         == Run(w, ExecuteWithCaptureSteps(w, request, methodExists, createReply, captureReply))
  {
    var steps := ExecuteWithCaptureSteps(w, request, methodExists, createReply, captureReply);
    var t := |w.db.transactions|;
    var created := Apply(w, steps[0]);
    RunTwo(w, steps[0], steps[1]);
    CreateStores(w.db, request, methodExists, createReply);
    CaptureSagaIsStep(created.db, t, None, captureReply);
    OnlyAuthorizedIsCaptured(created, t, captureReply);
  }

  lemma OnlyAuthorizedIsCaptured(w: World, t: Id, reply: Reply)
    ensures (t < |w.db.transactions| ==> w.db.transactions[t].status != Authorized) ==>
      Apply(w, CaptureSagaStep(w.db, t, None, reply)) == w
  {
  }

  // -- RefundSaga ---------------------------------------------------------------

  function FindRefund(refunds: seq<Refund>, key: string): (found: Option<Id>)
    ensures found.None? <==> !RefundKeyTaken(refunds, key)
    ensures found.Some? ==> found.value < |refunds| && refunds[found.value].key == key
  {
    if refunds == [] then None
    else if refunds[|refunds| - 1].key == key then Some(|refunds| - 1)
    else
      var found := FindRefund(refunds[..|refunds| - 1], key);
      assert RefundKeyTaken(refunds, key) ==> RefundKeyTaken(refunds[..|refunds| - 1], key) by {
        if r: nat :| r < |refunds| && refunds[r].key == key {
          assert refunds[..|refunds| - 1][r].key == key;
        }
      }
      found
  }

  /** `create_refund` returns the refund it appended. */
  lemma RefundStores(db: Database, request: RefundRequest, reply: Reply)
    ensures var (change, outcome) := CreateRefund(db, request, reply);
      outcome.Returned? ==> change.refund.Put? && change.refund.index == outcome.value == |db.refunds|
  {
  }

  /** Both `execute` and `retry`: an existing refund is returned as it is. */
  function ExecuteRefund(db: Database, request: RefundRequest, reply: Reply): (Change, Outcome<Id>)
  {
    var found := FindRefund(db.refunds, request.key);
    if found.Some? then (NO_CHANGE, Returned(found.value)) else
    var (change, outcome) := CreateRefund(db, request, reply);
    (change,
     if outcome.Raised? then (if IsRefundServiceError(outcome.error) then Raised(RefundSagaFailed) else outcome)
     else if change.refund.Put? && change.refund.row.status == RefundFailed then Raised(RefundSagaFailed)
     else outcome)
  }

  /** A key is held by the refund found under it and by no other. */
  lemma FoundRefundIsUnique(db: Database, r: Id)
    requires UniqueKeys(db) && r < |db.refunds|
    ensures FindRefund(db.refunds, db.refunds[r].key) == Some(r)
  {
    var found := FindRefund(db.refunds, db.refunds[r].key);
    assert RefundKeyTaken(db.refunds, db.refunds[r].key);
    assert db.refunds[found.value].key == db.refunds[r].key;
  }

  /** Once a key has a stored refund, whatever its status and whatever run follows,
      every later saga call with that key returns that same row, changes nothing and
      calls no gateway: a failed refund is never attempted again under its key. */
  lemma StoredRefundAnswersForever(w: World, steps: seq<Step>, r: Id, request: RefundRequest, reply: Reply)
    requires Sound(w.db) && r < |w.db.refunds| && w.db.refunds[r].key == request.key
    ensures ExecuteRefund(Run(w, steps).db, request, reply) == (NO_CHANGE, Returned(r))
    ensures Count(Run(w, steps), RefundCalled(request.key)) == Count(w, RefundCalled(request.key))
  {
    RunContinues(w, steps);
    RunsStaySound(w, steps);
    assert RefundKeyTaken(w.db.refunds, request.key);
    TakenRefundKeyIsNotCalledAgain(w, steps, request.key);
    FoundRefundIsUnique(Run(w, steps).db, r);
  }

  /** A refund saga call commits what one call of the refund service commits, which
      finds the key taken when the saga has found its refund. */
  lemma RefundSagaIsStep(db: Database, request: RefundRequest, reply: Reply)
    ensures ExecuteRefund(db, request, reply).0 == Plan(db, IssueRefund(request, reply))
  {
  }
}
