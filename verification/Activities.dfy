/** Everything that can be asked of the system, mixed: single calls, sagas, workers,
    batches and event deliveries. Each makes calls of the services one after the
    other; what is proved of runs of such calls is carried over to them here, the
    contract with the gateway included. */
module Activities {
  import opened Ledger
  import opened Gateway
  import opened Payments
  import opened Refunds
  import opened Runs
  import opened Conservation
  import opened Contract
  import opened Sagas
  import opened Deliveries
  import opened Batch

  datatype Activity =
    | Call(step: Step)
    | ExecuteSaga(request: PaymentRequest, methodExists: bool, reply: Reply)
    | CaptureSaga(transaction: Id, amount: Option<int>, reply: Reply)
    | CancelSaga(transaction: Id, reply: Reply)
    | CompleteSaga(request: PaymentRequest, methodExists: bool, reply: Reply, captureReply: Reply)
    | RefundSaga(refundRequest: RefundRequest, reply: Reply)
    | ReconcileBatch(limit: int, replies: Id -> Reply)
    | HandleEvent(delivery: Delivery)

  /** What the activity commits. */
  function Perform(w: World, a: Activity): World {
    match a
    case Call(s) => Apply(w, s)
    case ExecuteSaga(request, methodExists, reply) => Commit(w, ExecutePayment(w.db, request, methodExists, reply).0)
    case CaptureSaga(t, amount, reply) => Commit(w, CapturePaymentSaga(w.db, t, amount, reply).0)
    case CancelSaga(t, reply) => Commit(w, CancelPaymentSaga(w.db, t, reply).0)
    case CompleteSaga(request, methodExists, reply, captureReply) =>
      ExecuteWithCapture(w, request, methodExists, reply, captureReply).0
    case RefundSaga(request, reply) => Commit(w, ExecuteRefund(w.db, request, reply).0)
    case ReconcileBatch(limit, replies) => ReconcilePending(w, limit, replies).0
    case HandleEvent(d) => Deliver(w, d).0
  }

  function BatchSteps(ids: seq<Id>, replies: Id -> Reply): seq<Step> {
    if ids == [] then []
    else BatchSteps(ids[..|ids| - 1], replies) + [Reconcile(ids[|ids| - 1], replies(ids[|ids| - 1]))]
  }

  /** The calls it makes, each with the answer that the activity gets for it. */
  function StepsOf(w: World, a: Activity): seq<Step> {
    match a
    case Call(s) => [s]
    case ExecuteSaga(request, methodExists, reply) => [Create(request, methodExists, reply)]
    case CaptureSaga(t, amount, reply) => [CaptureSagaStep(w.db, t, amount, reply)]
    case CancelSaga(t, reply) => [Cancel(t, reply)]
    case CompleteSaga(request, methodExists, reply, captureReply) =>
      ExecuteWithCaptureSteps(w, request, methodExists, reply, captureReply)
    case RefundSaga(request, reply) => [IssueRefund(request, reply)]
    case ReconcileBatch(limit, replies) =>
      if limit < 1 || MAX_BATCH < limit then [] else BatchSteps(SelectedRows(w.db.transactions, limit), replies)
    case HandleEvent(d) => DeliverySteps(w, d)
  }

  lemma {:induction false} BatchIsRun(w: World, ids: seq<Id>, selected: seq<Transaction>, replies: Id -> Reply)
    requires forall i :: 0 <= i < |ids| ==> ids[i] < |selected|
    ensures ReconcileAll(w, ids, selected, replies).0 == Run(w, BatchSteps(ids, replies))
    decreases |ids|
  {
    if ids != [] {
      var first, t := ids[..|ids| - 1], ids[|ids| - 1];
      BatchIsRun(w, first, selected, replies);
      RunAppend(w, BatchSteps(first, replies), [Reconcile(t, replies(t))]);
      RunOne(Run(w, BatchSteps(first, replies)), Reconcile(t, replies(t)));
    }
  }

  /** An activity commits what its calls commit, one after the other. */
  lemma ActivityIsRun(w: World, a: Activity)
    ensures Perform(w, a) == Run(w, StepsOf(w, a))
  {
    match a {
      case Call(s) => RunOne(w, s);
      case ExecuteSaga(request, methodExists, reply) => RunOne(w, Create(request, methodExists, reply));
      case CaptureSaga(t, amount, reply) =>
        CaptureSagaIsStep(w.db, t, amount, reply);
        RunOne(w, CaptureSagaStep(w.db, t, amount, reply));
      case CancelSaga(t, reply) => RunOne(w, Cancel(t, reply));
      case CompleteSaga(request, methodExists, reply, captureReply) =>
        ExecuteWithCaptureIsRun(w, request, methodExists, reply, captureReply);
      case RefundSaga(request, reply) =>
        RefundSagaIsStep(w.db, request, reply);
        RunOne(w, IssueRefund(request, reply));
      case ReconcileBatch(limit, replies) =>
        if 1 <= limit <= MAX_BATCH {
          BatchIsRun(w, SelectedRows(w.db.transactions, limit), w.db.transactions, replies);
        }
      case HandleEvent(d) => DeliverIsRun(w, d);
    }
  }

  // -- Under the contract -------------------------------------------------------

  /** The calls, and the truth at the gateway after each of them. */
  function Moves(steps: seq<Step>, truths: seq<seq<External>>): seq<Move>
    requires |steps| == |truths|
  {
    if steps == [] then [] else [Move(steps[0], truths[0])] + Moves(steps[1..], truths[1..])
  }

  lemma {:induction false} MovesRun(w: World, steps: seq<Step>, truths: seq<seq<External>>)
    requires |steps| == |truths|
    ensures FinalWorld(w, Moves(steps, truths)) == Run(w, steps)
    decreases |steps|
  {
    if steps != [] {
      MovesRun(Apply(w, steps[0]), steps[1..], truths[1..]);
    }
  }

  /** An activity, and the truth at the gateway after each of its calls. */
  datatype Deed = Deed(activity: Activity, truths: seq<seq<External>>)

  /** Every answer the activity gets is true when it gets it. */
  predicate IsHonest(w: World, truth: seq<External>, d: Deed) {
    var steps := StepsOf(w, d.activity);
    |steps| == |d.truths| && HonestRun(w, truth, Moves(steps, d.truths))
  }

  function TruthAfter(truth: seq<External>, d: Deed): seq<External> {
    if d.truths == [] then truth else d.truths[|d.truths| - 1]
  }

  lemma {:induction false} TruthAfterMoves(truth: seq<External>, steps: seq<Step>, truths: seq<seq<External>>)
    requires |steps| == |truths|
    ensures FinalTruth(truth, Moves(steps, truths)) == if truths == [] then truth else truths[|truths| - 1]
    decreases |steps|
  {
    if steps != [] {
      TruthAfterMoves(truths[0], steps[1..], truths[1..]);
      var moves := Moves(steps, truths);
      assert moves[1..] == Moves(steps[1..], truths[1..]);
      assert FinalTruth(truth, moves) == FinalTruth(truths[0], moves[1..]);
    }
  }

  /** Any activity whose answers keep the contract is a run under the contract. */
  lemma HonestActivityIsRun(w: World, truth: seq<External>, d: Deed)
    requires IsHonest(w, truth, d)
    ensures HonestReaches(w, truth, Perform(w, d.activity), TruthAfter(truth, d))
  {
    var steps := StepsOf(w, d.activity);
    var moves := Moves(steps, d.truths);
    ActivityIsRun(w, d.activity);
    MovesRun(w, steps, d.truths);
    TruthAfterMoves(truth, steps, d.truths);
    assert HonestRun(w, truth, moves) && Perform(w, d.activity) == FinalWorld(w, moves);
  }

  predicate AllHonest(w: World, truth: seq<External>, deeds: seq<Deed>)
    decreases |deeds|
  {
    deeds == [] ||
    (IsHonest(w, truth, deeds[0]) && AllHonest(Perform(w, deeds[0].activity), TruthAfter(truth, deeds[0]), deeds[1..]))
  }

  function PerformAll(w: World, deeds: seq<Deed>): World
    decreases |deeds|
  {
    if deeds == [] then w else PerformAll(Perform(w, deeds[0].activity), deeds[1..])
  }

  function TruthAfterAll(truth: seq<External>, deeds: seq<Deed>): seq<External>
    decreases |deeds|
  {
    if deeds == [] then truth else TruthAfterAll(TruthAfter(truth, deeds[0]), deeds[1..])
  }

  /** So is any mixture of them. */
  lemma {:induction false} HonestActivitiesAreRuns(w: World, truth: seq<External>, deeds: seq<Deed>)
    requires AllHonest(w, truth, deeds)
    ensures HonestReaches(w, truth, PerformAll(w, deeds), TruthAfterAll(truth, deeds))
    decreases |deeds|
  {
    if deeds == [] {
      HonestReachesItself(w, truth);
    } else {
      var mid, between := Perform(w, deeds[0].activity), TruthAfter(truth, deeds[0]);
      HonestActivityIsRun(w, truth, deeds[0]);
      HonestActivitiesAreRuns(mid, between, deeds[1..]);
      HonestReachesIsTransitive(w, truth, mid, between, PerformAll(w, deeds), TruthAfterAll(truth, deeds));
    }
  }

  /** After any mixture of calls, sagas, workers, batches and event deliveries from an
      empty database, under the contract: rows claim no more than the gateway has done,
      amounts are in order, the books balance, and no transaction has had both a
      successful capture and a successful cancel. */
  lemma HonestActivitiesStayFaithful(deeds: seq<Deed>)
    requires AllHonest(EMPTY_WORLD, [], deeds)
    ensures var w := PerformAll(EMPTY_WORLD, deeds);
      && Faithful(w, TruthAfterAll([], deeds))
      && Sound(w.db)
      && forall t :: Count(w, CaptureAnswered(t)) == 0 || Count(w, CancelAnswered(t)) == 0
  {
    var w := PerformAll(EMPTY_WORLD, deeds);
    HonestActivitiesAreRuns(EMPTY_WORLD, [], deeds);
    HonestlyReachedIsFaithful(w, TruthAfterAll([], deeds));
    forall t ensures Count(w, CaptureAnswered(t)) == 0 || Count(w, CancelAnswered(t)) == 0 {
      assert AnswersShow(w, t);
    }
  }

  // -- What the contract asks of a composed activity ----------------------------

  lemma CaptureSagaAsksAsCapture(w: World, t: Id, amount: Option<int>, reply: Reply, after: seq<External>)
    ensures Honest(w.db, CaptureSagaStep(w.db, t, amount, reply), after) <==> Honest(w.db, Capture(t, amount, reply), after)
  {
  }

  lemma OneMove(w: World, truth: seq<External>, s: Step, after: seq<External>)
    ensures HonestRun(w, truth, Moves([s], [after]))
       <==> Evolves(truth, after, Apply(w, s).db.transactions) && Honest(w.db, s, after)
  {
    NextMove(w, truth, s, [], after, []);
    assert [s] + [] == [s] && [after] + [] == [after];
    assert HonestRun(Apply(w, s), after, Moves([], []));
  }

  lemma NextMove(w: World, truth: seq<External>, s: Step, rest: seq<Step>, after: seq<External>, truths: seq<seq<External>>)
    requires |rest| == |truths|
    ensures HonestRun(w, truth, Moves([s] + rest, [after] + truths))
       <==> Evolves(truth, after, Apply(w, s).db.transactions) && Honest(w.db, s, after)
            && HonestRun(Apply(w, s), after, Moves(rest, truths))
  {
    assert ([s] + rest)[1..] == rest && ([after] + truths)[1..] == truths;
    HonestRunNext(w, truth, Move(s, after), Moves(rest, truths));
  }

  /** Of the capture saga it asks what it asks of the capture itself: where the saga
      cancels instead, it asks nothing. */
  lemma CaptureSagaIsHonestIff(w: World, truth: seq<External>, t: Id, amount: Option<int>, reply: Reply, after: seq<External>)
    ensures IsHonest(w, truth, Deed(CaptureSaga(t, amount, reply), [after]))
       <==> Evolves(truth, after, Commit(w, CapturePaymentSaga(w.db, t, amount, reply).0).db.transactions)
            && Honest(w.db, Capture(t, amount, reply), after)
  {
    CaptureSagaIsStep(w.db, t, amount, reply);
    CaptureSagaAsksAsCapture(w, t, amount, reply, after);
    OneMove(w, truth, CaptureSagaStep(w.db, t, amount, reply), after);
  }

  /** Of creating and capturing in one call, what it asks of the two. */
  lemma CompleteSagaIsHonestIff(w: World, truth: seq<External>, request: PaymentRequest, methodExists: bool,
                                reply: Reply, captureReply: Reply, mid: seq<External>, end: seq<External>)
    ensures var created := Commit(w, CreatePayment(w.db, request, methodExists, reply).0);
      IsHonest(w, truth, Deed(CompleteSaga(request, methodExists, reply, captureReply), [mid, end]))
      <==>
      && Evolves(truth, mid, created.db.transactions) && Honest(w.db, Create(request, methodExists, reply), mid)
      && Evolves(mid, end, ExecuteWithCapture(w, request, methodExists, reply, captureReply).0.db.transactions)
      && Honest(created.db, Capture(|w.db.transactions|, None, captureReply), end)
  {
    var steps := ExecuteWithCaptureSteps(w, request, methodExists, reply, captureReply);
    var created := Apply(w, steps[0]);
    assert steps == [steps[0]] + [steps[1]] && [mid, end] == [mid] + [end];
    NextMove(w, truth, steps[0], [steps[1]], mid, [end]);
    OneMove(created, mid, steps[1], end);
    CaptureSagaAsksAsCapture(created, |w.db.transactions|, None, captureReply, end);
    ExecuteWithCaptureIsRun(w, request, methodExists, reply, captureReply);
    RunTwo(w, steps[0], steps[1]);
  }

  /** Each answered cancel of a payment that could be voided has voided it. */
  predicate AnswersVoid(transactions: seq<Transaction>, steps: seq<Step>, after: seq<External>) {
    forall i :: 0 <= i < |steps| ==>
      && steps[i].Cancel?
      && (steps[i].transaction < |transactions| && steps[i].transaction < |after|
          && CanBeVoided(transactions[steps[i].transaction]) && steps[i].reply.Answered?
          ==> after[steps[i].transaction].voided)
  }

  lemma {:induction false} LoopMakesCancels(w: World, ids: seq<Id>, replies: Id -> Reply)
    ensures forall s :: s in CancelSteps(w, ids, replies) ==>
      s.Cancel? && s.transaction in ids && s.reply == replies(s.transaction)
  {
    if ids != [] {
      LoopMakesCancels(w, ids[..|ids| - 1], replies);
    }
  }

  lemma CancelStaysVoided(w: World, s: Step, rest: seq<Step>, after: seq<External>)
    requires AnswersVoid(w.db.transactions, [s] + rest, after)
    ensures s.Cancel? && Honest(w.db, s, after)
    ensures AnswersVoid(Apply(w, s).db.transactions, rest, after)
  {
    var steps := [s] + rest;
    assert steps[0] == s;
    WriterKeepsToTable(w.db, s);
    assert forall i :: 0 <= i < |rest| ==> rest[i] == steps[i + 1];
  }

  /** The truth does not change between the calls. */
  function Steady(after: seq<External>, n: nat): (truths: seq<seq<External>>)
    ensures |truths| == n
  {
    if n == 0 then [] else [after] + Steady(after, n - 1)
  }

  lemma {:induction false} CancelsAreHonest(w: World, truth: seq<External>, steps: seq<Step>, after: seq<External>)
    requires AnswersVoid(w.db.transactions, steps, after)
    requires Evolves(truth, after, w.db.transactions)
    ensures HonestRun(w, truth, Moves(steps, Steady(after, |steps|)))
    decreases |steps|
  {
    if steps != [] {
      var rest := Steady(after, |steps| - 1);
      assert steps == [steps[0]] + steps[1..];
      WriterKeepsToTable(w.db, steps[0]);
      CancelStaysVoided(w, steps[0], steps[1..], after);
      CancelsAreHonest(Apply(w, steps[0]), after, steps[1..], after);
      NextMove(w, truth, steps[0], steps[1..], after, rest);
    }
  }

  /** The same, for the rows the loop goes through and what is answered about them. */
  predicate LoopVoids(transactions: seq<Transaction>, ids: seq<Id>, replies: Id -> Reply, after: seq<External>) {
    forall t :: t in ids && t < |transactions| && t < |after| ==>
      (CanBeVoided(transactions[t]) && replies(t).Answered? ==> after[t].voided)
  }

  lemma LoopAnswersVoid(w: World, ids: seq<Id>, replies: Id -> Reply, after: seq<External>)
    requires LoopVoids(w.db.transactions, ids, replies, after)
    ensures AnswersVoid(w.db.transactions, CancelSteps(w, ids, replies), after)
  {
    var steps := CancelSteps(w, ids, replies);
    LoopMakesCancels(w, ids, replies);
    forall i | 0 <= i < |steps| ensures steps[i].Cancel? && steps[i].transaction in ids && steps[i].reply == replies(steps[i].transaction) {
      assert steps[i] in steps;
    }
  }

  /** Of the cancel loop it is enough that the payments the loop may ask to be voided
      are voided if that is answered; if it asks nothing the truth stays as it was. */
  lemma LoopIsHonest(w: World, truth: seq<External>, ids: seq<Id>, replies: Id -> Reply, after: seq<External>)
    requires Evolves(truth, after, w.db.transactions) && LoopVoids(w.db.transactions, ids, replies, after)
    ensures var end := CancelAll(w, ids, replies).0;
      HonestReaches(w, truth, end, if CancelSteps(w, ids, replies) == [] then truth else after)
  {
    var steps := CancelSteps(w, ids, replies);
    var truths := Steady(after, |steps|);
    LoopAnswersVoid(w, ids, replies, after);
    CancelsAreHonest(w, truth, steps, after);
    CancelAllIsRun(w, ids, replies);
    MovesRun(w, steps, truths);
    TruthAfterMoves(truth, steps, truths);
    SteadyEnds(after, |steps|);
    assert HonestRun(w, truth, Moves(steps, truths)) && Run(w, steps) == FinalWorld(w, Moves(steps, truths));
  }

  lemma {:induction false} SteadyEnds(after: seq<External>, n: nat)
    ensures 0 < n ==> Steady(after, n)[n - 1] == after
  {
    if 1 < n {
      SteadyEnds(after, n - 1);
    }
  }

  /** So a cancelled or expired event, delivered to such a gateway, is a run under the
      contract. */
  lemma CancelledEventIsHonest(w: World, truth: seq<External>, d: Delivery, after: seq<External>)
    requires d.event.kind in {ReservationCancelled, ReservationExpired}
    requires Evolves(truth, after, w.db.transactions)
    requires LoopVoids(w.db.transactions, RowsToCancel(w.db.transactions, d.event.reservation), d.cancelReplies, after)
    ensures HonestReaches(w, truth, Deliver(w, d).0, if DeliverySteps(w, d) == [] then truth else after)
  {
    LoopIsHonest(w, truth, RowsToCancel(w.db.transactions, d.event.reservation), d.cancelReplies, after);
  }
}
