/** How much is asked of the gateway in refunds. The service subtracts only what has
    been paid out, so refunds still in process are not part of any of its bounds. */
module Exposure {
  import opened Ledger
  import opened Gateway
  import opened Payments
  import opened Refunds
  import opened Runs
  import opened Calls
  import opened Conservation
  import opened Contract

  /** What has been asked back of transaction `t`: its PROCESSING and SUCCEEDED refunds. */
  function Asked(db: Database, t: Id): int {
    Credited(db.refunds, ASKED, Some(t))
  }

  // -- Nothing is reserved ------------------------------------------------------

  /** A refund the gateway has not finished reserves nothing: the same amount is asked
      of the gateway again for any other fresh key. */
  lemma UnfinishedRefundReservesNothing(w: World, first: RefundRequest, firstReply: Reply, second: RefundRequest, secondReply: Reply)
    requires CreateRefund(w.db, first, firstReply).1.Returned?
    requires ResolveRefundStatus(firstReply.response.status) == RefundProcessing
    requires second.transaction == first.transaction && second.amount == first.amount
    requires second.key != first.key && !RefundKeyTaken(w.db.refunds, second.key)
    ensures var mid := Apply(w, IssueRefund(first, firstReply));
      && mid.db.transactions == w.db.transactions
      && RefundCalled(second.key) in Plan(mid.db, IssueRefund(second, secondReply)).events
  {
    var mid := Apply(w, IssueRefund(first, firstReply));
    StepKeepsRefundKeys(w, IssueRefund(first, firstReply), second.key);
  }

  /** The row lets a refund of at least a cent through to the gateway. */
  predicate CanBeRefunded(row: Transaction) {
    IsRefundable(row) && row.refunded < row.captured && HasGatewayId(row) && row.provider.Some?
  }

  const PENDING_ANSWER := Answered(Response("pending", None, None, Absent))

  function OneMore(db: Database, t: Id): Step {
    IssueRefund(RefundRequest(t, 1, FreshKey(db.refunds)), PENDING_ANSWER)
  }

  lemma OneMoreIsAccepted(db: Database, t: Id)
    requires t < |db.transactions| && CanBeRefunded(db.transactions[t])
    ensures Plan(db, OneMore(db, t)).transaction.Nothing?
    ensures Plan(db, OneMore(db, t)).refund
         == Put(|db.refunds|, NewRefund(OneMore(db, t).refundRequest).(status := RefundProcessing))
  {
    TextGroupsAreDisjoint("pending");
  }

  lemma OneMoreIsAsked(w: World, truth: seq<External>, t: Id)
    requires Faithful(w, truth) && t < |w.db.transactions| && CanBeRefunded(w.db.transactions[t])
    ensures exists v ::
      && HonestReaches(w, truth, v, truth)
      && v.db.transactions == w.db.transactions && Asked(v.db, t) == Asked(w.db, t) + 1
  {
    var step := OneMore(w.db, t);
    OneMoreIsAccepted(w.db, t);
    CreditedAfterWrite(w.db.refunds, Plan(w.db, step).refund, ASKED, Some(t));
    assert forall i :: 0 <= i < |truth| ==> AmountsInOrder(w.db.transactions[i], truth[i]);
    HonestReachesNext(w, truth, Move(step, truth));
  }

  /** As long as one more cent can be refunded there is no bound on what can be asked
      back: a gateway that keeps the contract and answers every refund as pending is
      asked for any amount. */
  lemma {:induction false} AskedHasNoBound(w: World, truth: seq<External>, t: Id, n: nat)
    requires Faithful(w, truth) && t < |w.db.transactions| && CanBeRefunded(w.db.transactions[t])
    ensures exists v ::
      && HonestReaches(w, truth, v, truth)
      && v.db.transactions == w.db.transactions && Asked(v.db, t) == Asked(w.db, t) + n
    decreases n
  {
    if n == 0 {
      HonestReachesItself(w, truth);
    } else {
      OneMoreIsAsked(w, truth, t);
      var mid :| HonestReaches(w, truth, mid, truth)
        && mid.db.transactions == w.db.transactions && Asked(mid.db, t) == Asked(w.db, t) + 1;
      AskedHasNoBound(mid, truth, t, n - 1);
      var v :| HonestReaches(mid, truth, v, truth)
        && v.db.transactions == mid.db.transactions && Asked(v.db, t) == Asked(mid.db, t) + (n - 1);
      HonestReachesIsTransitive(w, truth, mid, truth, v, truth);
    }
  }

  function PayingStep(): Step {
    Create(PaymentRequest(0, 2, Stripe, false, "k"), true, Answered(Response("succeeded", Some("g"), None, Reported(2))))
  }

  lemma PayingStepPays()
    ensures var w := Apply(EMPTY_WORLD, PayingStep());
      && |w.db.transactions| == 1 && CanBeRefunded(w.db.transactions[0]) && w.db.transactions[0].captured == 2
      && w.db.refunds == [] && HonestReaches(EMPTY_WORLD, [], w, [External(true, 2, false)])
  {
    TextGroupsAreDisjoint("succeeded");
    HonestReachesNext(EMPTY_WORLD, [], Move(PayingStep(), [External(true, 2, false)]));
  }

  /** So the refunds asked of a gateway that keeps the contract can exceed what it has
      captured. */
  lemma AskedExceedsCaptured()
    ensures exists w, truth ::
      && HonestReaches(EMPTY_WORLD, [], w, truth) && Reaches(EMPTY_WORLD, w)
      && |w.db.transactions| == 1 && w.db.transactions[0].captured < Asked(w.db, 0)
  {
    var paid, truth := Apply(EMPTY_WORLD, PayingStep()), [External(true, 2, false)];
    PayingStepPays();
    HonestlyReachedIsFaithful(paid, truth);
    AskedHasNoBound(paid, truth, 0, 3);
    var w :| HonestReaches(paid, truth, w, truth)
      && w.db.transactions == paid.db.transactions && Asked(w.db, 0) == Asked(paid.db, 0) + 3;
    HonestReachesIsTransitive(EMPTY_WORLD, [], paid, truth, w, truth);
    HonestlyReachedIsFaithful(w, truth);
  }

  // -- When the bound is kept ---------------------------------------------------

  predicate WithinAt(db: Database, t: Id) {
    t < |db.transactions| ==> Asked(db, t) <= db.transactions[t].captured
  }

  /** No transaction is asked for more than was captured. */
  predicate Within(db: Database) {
    forall t: Id :: t < |db.transactions| ==> WithinAt(db, t)
  }

  /** The step leaves a new refund that is PROCESSING or SUCCEEDED. */
  predicate Accepts(db: Database, s: Step) {
    s.IssueRefund? && Plan(db, s).refund.Put? && Plan(db, s).refund.row.status in ASKED
  }

  /** For every refund that is accepted and not failed: the bound holds afterwards
      exactly when the request asks for no more than is captured and not yet asked. */
  lemma AcceptedRefundStaysWithinIff(w: World, request: RefundRequest, reply: Reply)
    requires Accepts(w.db, IssueRefund(request, reply))
    ensures request.transaction < |w.db.transactions|
    ensures WithinAt(Apply(w, IssueRefund(request, reply)).db, request.transaction)
       <==> request.amount <= w.db.transactions[request.transaction].captured - Asked(w.db, request.transaction)
  {
    var s := IssueRefund(request, reply);
    RefundWriterKeepsToTable(w.db, s);
    WriterKeepsToTable(w.db, s);
    CreditedAfterWrite(w.db.refunds, Plan(w.db, s).refund, ASKED, Some(request.transaction));
  }

  /** A refund task that turns a refund which is not asked for into one that is. */
  predicate Reopens(db: Database, s: Step) {
    match s
    case MarkRetried(r) => r < |db.refunds| && db.refunds[r].status in {RefundPending, RefundFailed, RefundCancelled}
    case MarkProcessing(r) => r < |db.refunds| && db.refunds[r].status == RefundPending
    case _ => false
  }

  /** What the step asks for fits into what is captured and not yet asked. */
  predicate HasRoom(db: Database, s: Step) {
    match s
    case IssueRefund(request, _) =>
      Accepts(db, s) && request.transaction < |db.transactions| ==>
        request.amount <= db.transactions[request.transaction].captured - Asked(db, request.transaction)
    case MarkRetried(r) => Reopens(db, s) ==> RefundFits(db, r)
    case MarkProcessing(r) => Reopens(db, s) ==> RefundFits(db, r)
    case _ => true
  }

  predicate RefundFits(db: Database, r: Id)
    requires r < |db.refunds|
  {
    var refund := db.refunds[r];
    refund.transaction < |db.transactions| ==>
      refund.amount <= db.transactions[refund.transaction].captured - Asked(db, refund.transaction)
  }

  /** What a step adds to what is asked of `t`: the whole request, the whole reopened
      refund, or at most nothing. */
  lemma StepAsks(db: Database, s: Step, t: Id)
    ensures var delta := CreditDelta(db.refunds, Plan(db, s).refund, ASKED, Some(t));
      if Accepts(db, s) && s.refundRequest.transaction == t then delta == s.refundRequest.amount
      else if Reopens(db, s) && db.refunds[s.refund].transaction == t then delta == db.refunds[s.refund].amount
      else delta <= 0
  {
    RefundWriterKeepsToTable(db, s);
  }

  /** Under the contract captured amounts never fall. */
  lemma HonestCaptureGrows(w: World, truth: seq<External>, m: Move, t: Id)
    requires Faithful(w, truth) && t < |w.db.transactions|
    requires Evolves(truth, m.after, Apply(w, m.step).db.transactions) && Honest(w.db, m.step, m.after)
    ensures t < |Apply(w, m.step).db.transactions|
    ensures w.db.transactions[t].captured <= Apply(w, m.step).db.transactions[t].captured
    ensures m.step.IssueRefund? || m.step.MarkRetried? || m.step.MarkProcessing? ==>
      Apply(w, m.step).db.transactions[t].captured == w.db.transactions[t].captured
  {
    HonestAmountsAreBooked(w, truth, m);
    WriterKeepsToTable(w.db, m.step);
    assert AmountsInOrder(w.db.transactions[t], truth[t]);
  }

  lemma HonestStepStaysWithinAt(w: World, truth: seq<External>, m: Move, t: Id)
    requires Sound(w.db) && Faithful(w, truth) && Within(w.db) && HasRoom(w.db, m.step)
    requires Evolves(truth, m.after, Apply(w, m.step).db.transactions) && Honest(w.db, m.step, m.after)
    ensures WithinAt(Apply(w, m.step).db, t)
  {
    StepAsks(w.db, m.step, t);
    CreditedAfterWrite(w.db.refunds, Plan(w.db, m.step).refund, ASKED, Some(t));
    if t < |w.db.transactions| {
      HonestCaptureGrows(w, truth, m, t);
      assert WithinAt(w.db, t);
    } else if t < |Apply(w, m.step).db.transactions| {
      NewRowIsAskedNothing(w, truth, m, t);
    }
  }

  lemma NewRowIsAskedNothing(w: World, truth: seq<External>, m: Move, t: Id)
    requires Sound(w.db) && Faithful(w, truth)
    requires Evolves(truth, m.after, Apply(w, m.step).db.transactions) && Honest(w.db, m.step, m.after)
    requires |w.db.transactions| <= t < |Apply(w, m.step).db.transactions|
    ensures Asked(Apply(w, m.step).db, t) == 0 <= Apply(w, m.step).db.transactions[t].captured
  {
    WriterKeepsToTable(w.db, m.step);
    RefundWriterKeepsToTable(w.db, m.step);
    HonestStepStaysFaithful(w, truth, m);
    assert AmountsInOrder(Apply(w, m.step).db.transactions[t], m.after[t]);
    assert forall r :: 0 <= r < |w.db.refunds| ==> SoundRefund(w.db.refunds[r], w.db);
    NothingCreditedBeyond(Apply(w, m.step).db.refunds, ASKED, t);
  }

  lemma WithoutRoomExceeds(w: World, truth: seq<External>, m: Move)
    requires Sound(w.db) && Faithful(w, truth) && !HasRoom(w.db, m.step)
    requires Evolves(truth, m.after, Apply(w, m.step).db.transactions) && Honest(w.db, m.step, m.after)
    ensures !Within(Apply(w, m.step).db)
  {
    var t := if m.step.IssueRefund? then m.step.refundRequest.transaction else w.db.refunds[m.step.refund].transaction;
    StepAsks(w.db, m.step, t);
    CreditedAfterWrite(w.db.refunds, Plan(w.db, m.step).refund, ASKED, Some(t));
    HonestCaptureGrows(w, truth, m, t);
    assert !WithinAt(Apply(w, m.step).db, t);
  }

  /** One step under the contract keeps the bound exactly when it has room. */
  lemma HonestStepStaysWithinIff(w: World, truth: seq<External>, m: Move)
    requires Sound(w.db) && Faithful(w, truth) && Within(w.db)
    requires Evolves(truth, m.after, Apply(w, m.step).db.transactions) && Honest(w.db, m.step, m.after)
    ensures Within(Apply(w, m.step).db) <==> HasRoom(w.db, m.step)
  {
    if HasRoom(w.db, m.step) {
      forall t: Id | t < |Apply(w, m.step).db.transactions| ensures WithinAt(Apply(w, m.step).db, t) {
        HonestStepStaysWithinAt(w, truth, m, t);
      }
    } else {
      WithoutRoomExceeds(w, truth, m);
    }
  }

  predicate AlwaysWithin(w: World, moves: seq<Move>)
    decreases |moves|
  {
    Within(w.db) && (moves == [] || AlwaysWithin(Apply(w, moves[0].step), moves[1..]))
  }

  predicate AlwaysHasRoom(w: World, moves: seq<Move>)
    decreases |moves|
  {
    moves == [] || (HasRoom(w.db, moves[0].step) && AlwaysHasRoom(Apply(w, moves[0].step), moves[1..]))
  }

  /** A run under the contract asks no transaction for more than was captured, at any
      time, exactly when every refund it accepts and every refund it reopens has room
      when it comes. */
  lemma {:induction false} HonestRunStaysWithinIff(w: World, truth: seq<External>, moves: seq<Move>)
    requires Sound(w.db) && Faithful(w, truth) && Within(w.db) && HonestRun(w, truth, moves)
    ensures AlwaysWithin(w, moves) <==> AlwaysHasRoom(w, moves)
    decreases |moves|
  {
    if moves != [] {
      var after := Apply(w, moves[0].step);
      HonestStepStaysWithinIff(w, truth, moves[0]);
      StepStaysSound(w, moves[0].step);
      HonestStepStaysFaithful(w, truth, moves[0]);
      if Within(after.db) {
        HonestRunStaysWithinIff(after, moves[0].after, moves[1..]);
      }
    }
  }
}
