/** What holds when the gateway keeps its side of the contract: the stored state
    never runs ahead of the gateway, and the amounts stay in order. */
module Contract {
  import opened Ledger
  import opened Gateway
  import opened Payments
  import opened Refunds
  import opened Workers
  import opened Runs
  import opened Conservation
  import opened Calls

  /** The truth at the gateway about one payment. It may change at any time, not
      only when the service calls. */
  datatype External = External(captured: bool, amount: int, voided: bool)

  /** Captures and voids are for good, captured amounts never decrease and never
      exceed the payment's amount. */
  predicate Evolves(before: seq<External>, after: seq<External>, transactions: seq<Transaction>) {
    && |before| <= |after| == |transactions|
    && (forall t :: 0 <= t < |before| ==>
          && (before[t].captured ==> after[t].captured)
          && before[t].amount <= after[t].amount
          && (before[t].voided ==> after[t].voided))
    && (forall t :: 0 <= t < |after| ==> 0 <= after[t].amount <= transactions[t].amount)
  }

  /** Amounts are reported as they are, or not at all. */
  predicate HonestAmount(reported: Reported, truth: External) {
    !reported.Malformed? && (reported.Reported? ==> reported.cents == truth.amount)
  }

  /** A lookup tells success if and only if the payment is captured, and tells
      cancelled only of a voided payment; without an identifier it tells nothing final. */
  predicate HonestLookup(row: Transaction, response: Response, truth: External) {
    if HasGatewayId(row) then
      && (IsSuccessText(response.status) <==> truth.captured)
      && (IsCancelledText(response.status) ==> truth.voided)
      && HonestAmount(response.captured, truth)
    else !IsFinalText(response.status)
  }

  /** The guards in front of the other calls about a stored payment. */
  predicate CanBeVoided(row: Transaction) {
    IsCancellable(row.status) && HasGatewayId(row) && row.provider.Some?
  }

  predicate CanBePolled(row: Transaction) {
    !IsFinalForPolling(row.status) && row.provider.Some?
  }

  predicate CanBeReconciled(row: Transaction) {
    row.provider.Some? && HasGatewayId(row)
  }

  /** The contract for the answer to one step's call. Only answers to calls that are
      made are constrained: a call that raises may have had its effect at the gateway
      or not, and what would have been answered to a call that is not made is free. */
  predicate Honest(db: Database, s: Step, after: seq<External>) {
    match s
    case Create(_, _, Answered(response)) =>
      var t := |db.transactions|;
      t < |after| ==>
        (IsSuccessText(response.status) ==> after[t].captured) && HonestAmount(response.captured, after[t])
    case Capture(t, amount, Answered(response)) =>
      t < |db.transactions| && t < |after| && CanBeCaptured(db.transactions[t]) ==>
        && after[t].captured && HonestAmount(response.captured, after[t]) && !response.captured.Null?
        && (response.captured.Absent? ==> after[t].amount == RequestedCapture(db.transactions[t], amount))
    case Cancel(t, Answered(_)) =>
      t < |db.transactions| && t < |after| && CanBeVoided(db.transactions[t]) ==> after[t].voided
    case Poll(t, Answered(response)) =>
      t < |db.transactions| && t < |after| && CanBePolled(db.transactions[t]) ==>
        HonestLookup(db.transactions[t], response, after[t])
    case Reconcile(t, Answered(response)) =>
      t < |db.transactions| && t < |after| && CanBeReconciled(db.transactions[t]) ==>
        HonestLookup(db.transactions[t], response, after[t])
    case _ => true
  }

  /** A step that asks the gateway nothing keeps the contract, whatever it would have
      been answered. */
  lemma UnaskedIsHonest(w: World, m: Move)
    requires |m.after| == |Apply(w, m.step).db.transactions|
    requires forall e :: e in Plan(w.db, m.step).events ==> e.CreateFlushed? || e.RefundFlushed?
    ensures Honest(w.db, m.step, m.after)
  {
    var events := Plan(w.db, m.step).events;
    assert events != [] ==> events[0] in events;
    assert |events| > 1 ==> events[1] in events;
  }

  /** One step, and the truth at the gateway once it is done. */
  datatype Move = Move(step: Step, after: seq<External>)

  predicate HonestRun(w: World, truth: seq<External>, moves: seq<Move>)
    decreases |moves|
  {
    moves == [] ||
    (var after := Apply(w, moves[0].step);
     && Evolves(truth, moves[0].after, after.db.transactions)
     && Honest(w.db, moves[0].step, moves[0].after)
     && HonestRun(after, moves[0].after, moves[1..]))
  }

  function FinalWorld(w: World, moves: seq<Move>): World
    decreases |moves|
  {
    if moves == [] then w else FinalWorld(Apply(w, moves[0].step), moves[1..])
  }

  function FinalTruth(truth: seq<External>, moves: seq<Move>): seq<External> {
    if moves == [] then truth else moves[|moves| - 1].after
  }

  lemma HonestRunNext(w: World, truth: seq<External>, m: Move, rest: seq<Move>)
    ensures HonestRun(w, truth, [m] + rest)
       <==> Evolves(truth, m.after, Apply(w, m.step).db.transactions) && Honest(w.db, m.step, m.after)
            && HonestRun(Apply(w, m.step), m.after, rest)
    ensures FinalWorld(w, [m] + rest) == FinalWorld(Apply(w, m.step), rest)
    ensures FinalTruth(truth, [m] + rest) == FinalTruth(m.after, rest)
  {
    assert ([m] + rest)[1..] == rest;
  }

  /** Some run under the contract leads from `w` to `v` while the truth at the gateway
      goes from `truth` to `after`. */
  ghost predicate HonestReaches(w: World, truth: seq<External>, v: World, after: seq<External>) {
    exists moves :: HonestRun(w, truth, moves) && v == FinalWorld(w, moves) && after == FinalTruth(truth, moves)
  }

  lemma HonestReachesItself(w: World, truth: seq<External>)
    ensures HonestReaches(w, truth, w, truth)
  {
    assert HonestRun(w, truth, []) && w == FinalWorld(w, []) && truth == FinalTruth(truth, []);
  }

  lemma HonestReachesAfter(w: World, truth: seq<External>, m: Move, v: World, after: seq<External>)
    requires Evolves(truth, m.after, Apply(w, m.step).db.transactions) && Honest(w.db, m.step, m.after)
    requires HonestReaches(Apply(w, m.step), m.after, v, after)
    ensures HonestReaches(w, truth, v, after)
  {
    var mid := Apply(w, m.step);
    var rest :| HonestRun(mid, m.after, rest) && v == FinalWorld(mid, rest) && after == FinalTruth(m.after, rest);
    HonestRunNext(w, truth, m, rest);
  }

  lemma HonestReachesNext(w: World, truth: seq<External>, m: Move)
    requires Evolves(truth, m.after, Apply(w, m.step).db.transactions) && Honest(w.db, m.step, m.after)
    ensures HonestReaches(w, truth, Apply(w, m.step), m.after)
  {
    HonestReachesItself(Apply(w, m.step), m.after);
    HonestReachesAfter(w, truth, m, Apply(w, m.step), m.after);
  }

  lemma {:induction false} HonestRunThenReaches(w: World, truth: seq<External>, moves: seq<Move>, v: World, after: seq<External>)
    requires HonestRun(w, truth, moves)
    requires HonestReaches(FinalWorld(w, moves), FinalTruth(truth, moves), v, after)
    ensures HonestReaches(w, truth, v, after)
    decreases |moves|
  {
    if moves != [] {
      var m, rest := moves[0], moves[1..];
      assert moves == [m] + rest;
      HonestRunNext(w, truth, m, rest);
      HonestRunThenReaches(Apply(w, m.step), m.after, rest, v, after);
      HonestReachesAfter(w, truth, m, v, after);
    }
  }

  lemma HonestReachesIsTransitive(u: World, a: seq<External>, v: World, b: seq<External>, w: World, c: seq<External>)
    requires HonestReaches(u, a, v, b) && HonestReaches(v, b, w, c)
    ensures HonestReaches(u, a, w, c)
  {
    var first :| HonestRun(u, a, first) && v == FinalWorld(u, first) && b == FinalTruth(a, first);
    HonestRunThenReaches(u, a, first, w, c);
  }

  predicate IsPaid(status: TransactionStatus) {
    status in {Succeeded, PartiallyRefunded, Refunded}
  }

  /** The row claims no more than the gateway has done. */
  predicate NotAhead(row: Transaction, truth: External) {
    && (IsPaid(row.status) ==> truth.captured)
    && (row.status == Cancelled ==> truth.voided || !HasGatewayId(row))
  }

  predicate AmountsInOrder(row: Transaction, truth: External) {
    0 <= row.refunded <= row.captured <= truth.amount <= row.amount
  }

  predicate FaithfulRow(row: Transaction, truth: External) {
    NotAhead(row, truth) && AmountsInOrder(row, truth) && (row.status == PartiallyRefunded ==> HasGatewayId(row))
  }

  predicate Faithful(w: World, truth: seq<External>) {
    && |truth| == |w.db.transactions|
    && (forall t :: 0 <= t < |truth| ==> FaithfulRow(w.db.transactions[t], truth[t]))
  }

  /** A capture the gateway answered left the row paid, a cancel it answered left it
      CANCELLED. */
  predicate AnswersShow(w: World, t: Id) {
    && (Count(w, CaptureAnswered(t)) > 0 ==> t < |w.db.transactions| && IsPaid(w.db.transactions[t].status))
    && (Count(w, CancelAnswered(t)) > 0 ==> t < |w.db.transactions| && w.db.transactions[t].status == Cancelled)
  }

  /** An honest lookup keeps a row faithful, whichever worker asked. */
  lemma HonestLookupIsFaithful(row: Transaction, response: Response, before: External, after: External)
    requires FaithfulRow(row, before) && HonestLookup(row, response, after)
    requires (before.captured ==> after.captured) && before.amount <= after.amount <= row.amount
    requires before.voided ==> after.voided
    ensures !IsFinalForPolling(row.status) ==> FaithfulRow(PolledTransaction(row, response), after)
    ensures !IsFinalForPolling(row.status) && IsPaid(row.status) ==> IsPaid(PolledTransaction(row, response).status)
    ensures HasGatewayId(row) && Agrees(row, response) ==> FaithfulRow(SynchronizedTransaction(row, response), after)
  {
    TextGroupsAreDisjoint(response.status);
  }

  lemma HonestCreateIsFaithful(db: Database, s: Step, after: seq<External>)
    requires s.Create? && Plan(db, s).transaction.Put? && Honest(db, s, after) && |db.transactions| < |after|
    requires 0 <= after[|db.transactions|].amount <= s.request.amount
    ensures FaithfulRow(Plan(db, s).transaction.row, after[|db.transactions|])
  {
    WriterKeepsToTable(db, s);
  }

  /** The writers that change a stored row without looking its payment up. */
  lemma HonestAnswerIsFaithful(w: World, truth: seq<External>, m: Move)
    requires Faithful(w, truth) && (m.step.Capture? || m.step.Cancel? || m.step.IssueRefund?)
    requires Evolves(truth, m.after, Apply(w, m.step).db.transactions) && Honest(w.db, m.step, m.after)
    requires Plan(w.db, m.step).transaction.Put?
    ensures var c := Plan(w.db, m.step).transaction;
      c.index < |w.db.transactions| && c.index < |m.after| && FaithfulRow(c.row, m.after[c.index])
  {
    WriterKeepsToTable(w.db, m.step);
    var t := Plan(w.db, m.step).transaction.index;
    assert FaithfulRow(w.db.transactions[t], truth[t]);
  }

  /** What a step does to the row it writes, under the contract. */
  lemma HonestWriteIsFaithful(w: World, truth: seq<External>, m: Move)
    requires Faithful(w, truth)
    requires Evolves(truth, m.after, Apply(w, m.step).db.transactions) && Honest(w.db, m.step, m.after)
    ensures var c := Plan(w.db, m.step);
      c.transaction.Put? ==>
        && c.transaction.index < |m.after|
        && FaithfulRow(c.transaction.row, m.after[c.transaction.index])
        && (c.transaction.index < |w.db.transactions| && IsPaid(w.db.transactions[c.transaction.index].status)
            ==> IsPaid(c.transaction.row.status))
  {
    var c := Plan(w.db, m.step);
    if c.transaction.Put? {
      WriterKeepsToTable(w.db, m.step);
      match m.step {
        case Create(request, _, reply) => HonestCreateIsFaithful(w.db, m.step, m.after);
        case Poll(t, reply) => HonestLookupIsFaithful(w.db.transactions[t], reply.response, truth[t], m.after[t]);
        case Reconcile(t, reply) => HonestLookupIsFaithful(w.db.transactions[t], reply.response, truth[t], m.after[t]);
        case _ => HonestAnswerIsFaithful(w, truth, m);
      }
    }
  }

  lemma HonestStepStaysFaithful(w: World, truth: seq<External>, m: Move)
    requires Faithful(w, truth)
    requires Evolves(truth, m.after, Apply(w, m.step).db.transactions) && Honest(w.db, m.step, m.after)
    ensures Faithful(Apply(w, m.step), m.after)
  {
    HonestWriteIsFaithful(w, truth, m);
    WriterKeepsToTable(w.db, m.step);
    var after := Apply(w, m.step).db.transactions;
    forall t | 0 <= t < |m.after| ensures FaithfulRow(after[t], m.after[t]) {
      if t < |truth| {
        assert FaithfulRow(w.db.transactions[t], truth[t]);
      }
    }
  }

  /** The amount a step takes from the gateway's answer, if it takes one. */
  predicate TakesAmount(db: Database, s: Step) {
    match s
    case Create(_, _, Answered(response)) => response.captured.Reported?
    case Capture(_, _, Answered(_)) => true
    case Poll(_, Answered(response)) => IsSuccessText(response.status) && response.captured.Reported?
    case Reconcile(_, Answered(response)) => response.captured.Reported?
    case _ => false
  }

  /** Under the contract every amount taken from an answer is booked as the gateway
      has it; every other write leaves the captured amount alone, or at zero. */
  lemma HonestAmountsAreBooked(w: World, truth: seq<External>, m: Move)
    requires Faithful(w, truth)
    requires Evolves(truth, m.after, Apply(w, m.step).db.transactions) && Honest(w.db, m.step, m.after)
    ensures var c := Plan(w.db, m.step);
      c.transaction.Put? ==>
        && c.transaction.index < |m.after|
        && c.transaction.row.captured ==
             if TakesAmount(w.db, m.step) then m.after[c.transaction.index].amount
             else if c.transaction.index < |w.db.transactions| then w.db.transactions[c.transaction.index].captured
             else 0
  {
    WriterKeepsToTable(w.db, m.step);
  }

  lemma HonestCaptureAnswer(w: World, m: Move, t: Id)
    requires |m.after| == |Apply(w, m.step).db.transactions| && Honest(w.db, m.step, m.after)
    requires CaptureAnswered(t) in Plan(w.db, m.step).events
    ensures t < |w.db.transactions| && Plan(w.db, m.step).transaction.Put?
    ensures Plan(w.db, m.step).transaction.index == t && Plan(w.db, m.step).transaction.row.status == Succeeded
  {
    WriterSpeaks(w.db, m.step);
    assert m.step.Capture?;
  }

  lemma CancelAnswer(w: World, s: Step, t: Id)
    requires CancelAnswered(t) in Plan(w.db, s).events
    ensures t < |w.db.transactions| && Plan(w.db, s).transaction.Put?
    ensures Plan(w.db, s).transaction.index == t && Plan(w.db, s).transaction.row.status == Cancelled
  {
    WriterSpeaks(w.db, s);
    assert s.Cancel?;
  }

  lemma HonestStepKeepsAnswers(w: World, truth: seq<External>, m: Move, t: Id)
    requires Faithful(w, truth) && AnswersShow(w, t)
    requires Evolves(truth, m.after, Apply(w, m.step).db.transactions) && Honest(w.db, m.step, m.after)
    ensures AnswersShow(Apply(w, m.step), t)
  {
    if CaptureAnswered(t) in Plan(w.db, m.step).events {
      HonestCaptureAnswer(w, m, t);
    }
    if CancelAnswered(t) in Plan(w.db, m.step).events {
      CancelAnswer(w, m.step, t);
    }
    CountAfterStep(w, m.step, CaptureAnswered(t));
    CountAfterStep(w, m.step, CancelAnswered(t));
    StepContinues(w, m.step);
    HonestWriteIsFaithful(w, truth, m);
  }

  /** Over every run of all writers against a gateway that keeps the contract:
      SUCCEEDED, PARTIALLY_REFUNDED and REFUNDED rows are captured at the gateway,
      CANCELLED rows are voided there or have no identifier, and
      0 <= refunded <= captured <= captured at the gateway <= amount. */
  lemma {:induction false} HonestRunsStayFaithful(w: World, truth: seq<External>, moves: seq<Move>)
    requires Faithful(w, truth) && HonestRun(w, truth, moves)
    ensures Faithful(FinalWorld(w, moves), FinalTruth(truth, moves))
    decreases |moves|
  {
    if moves != [] {
      HonestStepStaysFaithful(w, truth, moves[0]);
      HonestRunsStayFaithful(Apply(w, moves[0].step), moves[0].after, moves[1..]);
      assert FinalTruth(truth, moves) == FinalTruth(moves[0].after, moves[1..]);
    }
  }

  lemma {:induction false} HonestRunsKeepAnswers(w: World, truth: seq<External>, moves: seq<Move>, t: Id)
    requires Faithful(w, truth) && AnswersShow(w, t) && HonestRun(w, truth, moves)
    ensures AnswersShow(FinalWorld(w, moves), t)
    decreases |moves|
  {
    if moves != [] {
      HonestStepStaysFaithful(w, truth, moves[0]);
      HonestStepKeepsAnswers(w, truth, moves[0], t);
      HonestRunsKeepAnswers(Apply(w, moves[0].step), moves[0].after, moves[1..], t);
    }
  }

  /** The same of whatever can be reached. */
  lemma HonestlyReachedIsFaithful(w: World, truth: seq<External>)
    requires HonestReaches(EMPTY_WORLD, [], w, truth)
    ensures Faithful(w, truth) && Sound(w.db) && Reaches(EMPTY_WORLD, w)
    ensures forall t :: AnswersShow(w, t)
  {
    var moves :| HonestRun(EMPTY_WORLD, [], moves) && w == FinalWorld(EMPTY_WORLD, moves) && truth == FinalTruth([], moves);
    HonestRunsStayFaithful(EMPTY_WORLD, [], moves);
    HonestRunIsRun(EMPTY_WORLD, [], moves);
    ReachableIsSound(w);
    forall t ensures AnswersShow(w, t) {
      HonestRunsKeepAnswers(EMPTY_WORLD, [], moves, t);
    }
  }

  /** In no run from an empty database does one transaction get both a successful
      gateway capture and a successful gateway cancel. */
  lemma NeverCapturedAndVoided(moves: seq<Move>, t: Id)
    requires HonestRun(EMPTY_WORLD, [], moves)
    ensures Count(FinalWorld(EMPTY_WORLD, moves), CaptureAnswered(t)) == 0
         || Count(FinalWorld(EMPTY_WORLD, moves), CancelAnswered(t)) == 0
  {
    HonestRunsKeepAnswers(EMPTY_WORLD, [], moves, t);
  }

  /** An AUTHORIZED payment that is captured, partly refunded, then polled by a gateway
      that reports it as pending, and cancelled. */
  lemma CaptureThenCancel(w: World, t: Id, key: string, v: World)
    requires t < |w.db.transactions| && CanBeCaptured(w.db.transactions[t]) && 1 < w.db.transactions[t].amount
    requires w.db.transactions[t].refunded == 0 && !RefundKeyTaken(w.db.refunds, key) && Reaches(v, w)
    ensures exists end :: Reaches(v, end) && CaptureAnswered(t) in end.trace && CancelAnswered(t) in end.trace
  {
    var yes := Response("succeeded", None, None, Absent);
    var row := w.db.transactions[t];
    var s1, s2 := Capture(t, None, Answered(yes)), IssueRefund(RefundRequest(t, 1, key), Answered(yes));
    var s3, s4 := Poll(t, Answered(yes.(status := "pending"))), Cancel(t, Answered(yes));
    var w1 := Apply(w, s1);
    assert w1.db.transactions[t] == row.(status := Succeeded, captured := row.amount);
    var w2 := Apply(w1, s2);
    assert w2.db.transactions[t] == w1.db.transactions[t].(status := PartiallyRefunded, refunded := 1);
    var w3 := Apply(w2, s3);
    assert w3.db.transactions[t].status == Processing && HasGatewayId(w3.db.transactions[t]);
    ReachesNext(v, w, s1);
    ReachesNext(v, w1, s2);
    ReachesNext(v, w2, s3);
    ReachesNext(v, w3, s4);
    assert CaptureAnswered(t) in w1.trace;
    assert CancelAnswered(t) in Apply(w3, s4).trace;
  }

  function AuthorizingStep(): Step {
    Create(PaymentRequest(0, 2, Stripe, true, "k"), true, Answered(Response("authorized", Some("g"), None, Absent)))
  }

  lemma AuthorizingStepAuthorizes()
    ensures var db := Apply(EMPTY_WORLD, AuthorizingStep()).db;
      && |db.transactions| == 1 && CanBeCaptured(db.transactions[0])
      && db.transactions[0].amount == 2 && db.transactions[0].refunded == 0 && db.refunds == []
  {
    TextGroupsAreDisjoint("authorized");
    assert IsAuthorizedText("authorized");
  }

  /** The contract is needed: a gateway that reports a captured payment as pending
      lets a transaction be captured and then cancelled. */
  lemma BothHappenWithoutContract()
    ensures exists w :: Reaches(EMPTY_WORLD, w) && CaptureAnswered(0) in w.trace && CancelAnswered(0) in w.trace
  {
    AuthorizingStepAuthorizes();
    ReachesItself(EMPTY_WORLD);
    ReachesNext(EMPTY_WORLD, EMPTY_WORLD, AuthorizingStep());
    CaptureThenCancel(Apply(EMPTY_WORLD, AuthorizingStep()), 0, "r", EMPTY_WORLD);
  }

  /** A fully refunded payment was fully captured. */
  lemma RefundedMeansAllCaptured(moves: seq<Move>, t: Id)
    requires HonestRun(EMPTY_WORLD, [], moves)
    requires t < |FinalWorld(EMPTY_WORLD, moves).db.transactions|
    ensures var row := FinalWorld(EMPTY_WORLD, moves).db.transactions[t];
      row.status == Refunded <==> row.refunded == row.captured == row.amount
  {
    HonestRunsStayFaithful(EMPTY_WORLD, [], moves);
    HonestRunIsRun(EMPTY_WORLD, [], moves);
    RunsStaySound(EMPTY_WORLD, StepsOf(moves));
    assert FaithfulRow(FinalWorld(EMPTY_WORLD, moves).db.transactions[t], FinalTruth([], moves)[t]);
    assert SoundTransaction(FinalWorld(EMPTY_WORLD, moves).db.transactions[t]);
  }

  function StepsOf(moves: seq<Move>): seq<Step> {
    if moves == [] then [] else [moves[0].step] + StepsOf(moves[1..])
  }

  lemma {:induction false} HonestRunIsRun(w: World, truth: seq<External>, moves: seq<Move>)
    ensures FinalWorld(w, moves) == Run(w, StepsOf(moves))
    decreases |moves|
  {
    if moves != [] {
      HonestRunIsRun(Apply(w, moves[0].step), moves[0].after, moves[1..]);
    }
  }
}
