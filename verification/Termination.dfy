/** How long a payment can keep changing, and what a poll of a row that is already
    FAILED or PARTIALLY_REFUNDED does to that. */
module Termination {
  import opened Ledger
  import opened Gateway
  import opened Refunds
  import opened Runs
  import opened Conservation
  import opened Calls

  /** A step is effective on `t` when it changes the row's status or books a refund on it. */
  predicate IsEffective(w: World, s: Step, t: Id)
    requires t < |w.db.transactions|
  {
    StepContinues(w, s);
    var before, after := w.db.transactions[t], Apply(w, s).db.transactions[t];
    before.status != after.status || before.refunded != after.refunded
  }

  function EffectiveSteps(w: World, steps: seq<Step>, t: Id): nat
    requires t < |w.db.transactions|
    decreases |steps|
  {
    if steps == [] then 0
    else
      StepContinues(w, steps[0]);
      (if IsEffective(w, steps[0], t) then 1 else 0) + EffectiveSteps(Apply(w, steps[0]), steps[1..], t)
  }

  /** The step polls `t` while its status is one of `statuses`. */
  predicate PollsIn(w: World, s: Step, t: Id, statuses: set<TransactionStatus>) {
    && s.Poll? && s.transaction == t && t < |w.db.transactions|
    && w.db.transactions[t].status in statuses && w.db.transactions[t].provider.Some?
  }

  predicate NeverPollsIn(w: World, steps: seq<Step>, t: Id, statuses: set<TransactionStatus>)
    decreases |steps|
  {
    steps == [] ||
    (!PollsIn(w, steps[0], t, statuses) && NeverPollsIn(Apply(w, steps[0]), steps[1..], t, statuses))
  }

  /** The two statuses that a poll can leave and that no other writer brings back up. */
  const REOPENED: set<TransactionStatus> := {Failed, PartiallyRefunded}

  /** The rank of the status, then the cents that can still be refunded. */
  function Budget(row: Transaction): int {
    match row.status
    case Pending => row.amount + 3
    case Authorized => row.amount + 3
    case Processing => row.amount + 2
    case Succeeded => row.amount - row.refunded + 1
    case PartiallyRefunded => row.amount - row.refunded
    case Failed => 0
    case Cancelled => 0
    case Refunded => 0
  }

  lemma EffectiveStepSpends(w: World, s: Step, t: Id)
    requires Sound(w.db) && t < |w.db.transactions| && !PollsIn(w, s, t, REOPENED)
    ensures t < |Apply(w, s).db.transactions|
    ensures 0 <= Budget(Apply(w, s).db.transactions[t])
         <= Budget(w.db.transactions[t]) - if IsEffective(w, s, t) then 1 else 0
  {
    WriterKeepsToTable(w.db, s);
    StepKeepsRowsSound(w, s);
    assert SoundTransaction(w.db.transactions[t]) && SoundTransaction(Apply(w, s).db.transactions[t]);
    if s.Poll? && s.transaction == t && w.db.transactions[t].status in REOPENED {
      assert Plan(w.db, s).transaction.Nothing?;
    }
  }

  /** In a run that never polls a payment while it is FAILED or PARTIALLY_REFUNDED, the
      effective steps on it never exceed its budget, which is at most its amount in
      cents plus three. */
  lemma {:induction false} EffectiveStepsAreBounded(w: World, steps: seq<Step>, t: Id)
    requires Sound(w.db) && t < |w.db.transactions|
    requires NeverPollsIn(w, steps, t, REOPENED)
    ensures t < |Run(w, steps).db.transactions|
    ensures EffectiveSteps(w, steps, t) + Budget(Run(w, steps).db.transactions[t]) <= Budget(w.db.transactions[t])
    ensures 0 <= EffectiveSteps(w, steps, t) <= Budget(w.db.transactions[t]) <= w.db.transactions[t].amount + 3
    decreases |steps|
  {
    assert SoundTransaction(w.db.transactions[t]);
    if steps != [] {
      EffectiveStepSpends(w, steps[0], t);
      StepStaysSound(w, steps[0]);
      EffectiveStepsAreBounded(Apply(w, steps[0]), steps[1..], t);
    }
  }

  // -- Without a bound ----------------------------------------------------------

  function Says(text: string): Reply {
    Answered(Response(text, None, None, Absent))
  }

  /** Some run has at least `n` effective steps on the payment. */
  ghost predicate CanTake(w: World, t: Id, n: nat)
    requires t < |w.db.transactions|
  {
    exists steps :: n <= EffectiveSteps(w, steps, t)
  }

  lemma EffectiveTwo(w: World, first: Step, second: Step, rest: seq<Step>, t: Id)
    requires t < |w.db.transactions| <= |Apply(w, first).db.transactions| <= |Apply(Apply(w, first), second).db.transactions|
    ensures EffectiveSteps(w, [first, second] + rest, t)
         == (if IsEffective(w, first, t) then 1 else 0) + (if IsEffective(Apply(w, first), second, t) then 1 else 0)
            + EffectiveSteps(Apply(Apply(w, first), second), rest, t)
  {
    var steps := [first, second] + rest;
    assert steps[0] == first && steps[1..] == [second] + rest;
    assert ([second] + rest)[0] == second && ([second] + rest)[1..] == rest;
  }

  lemma TakesTwoMore(w: World, first: Step, second: Step, t: Id, n: nat)
    requires t < |w.db.transactions| <= |Apply(w, first).db.transactions| <= |Apply(Apply(w, first), second).db.transactions|
    requires CanTake(Apply(Apply(w, first), second), t, n)
    ensures CanTake(w, t, n)
    ensures IsEffective(w, first, t) && IsEffective(Apply(w, first), second, t) ==> CanTake(w, t, n + 2)
  {
    var rest :| n <= EffectiveSteps(Apply(Apply(w, first), second), rest, t);
    EffectiveTwo(w, first, second, rest, t);
  }

  /** The gateway reports progress to one poll and failure to the next. */
  lemma FlipTwice(w: World, t: Id)
    requires t < |w.db.transactions|
    requires w.db.transactions[t].provider.Some? && w.db.transactions[t].status in REOPENED
    ensures var resumed := Apply(w, Poll(t, Says("pending")));
      var failed := Apply(resumed, Poll(t, Says("failed")));
      && |failed.db.transactions| == |resumed.db.transactions| == |w.db.transactions|
      && failed.db.transactions[t].status == Failed && failed.db.transactions[t].provider.Some?
      && IsEffective(w, Poll(t, Says("pending")), t) && IsEffective(resumed, Poll(t, Says("failed")), t)
  {
    var resumed := Apply(w, Poll(t, Says("pending")));
    assert resumed.db.transactions[t] == w.db.transactions[t].(status := Processing);
  }

  /** Polled in either of the two statuses, a payment can change for ever: the budget
      above bounds no run that does so. */
  lemma {:induction false} PollingNeverSettles(w: World, t: Id, n: nat)
    requires t < |w.db.transactions|
    requires w.db.transactions[t].provider.Some? && w.db.transactions[t].status in REOPENED
    ensures CanTake(w, t, 2 * n)
    decreases n
  {
    if n == 0 {
      assert 0 <= EffectiveSteps(w, [], t);
    } else {
      var first, second := Poll(t, Says("pending")), Poll(t, Says("failed"));
      FlipTwice(w, t);
      PollingNeverSettles(Apply(Apply(w, first), second), t, n - 1);
      TakesTwoMore(w, first, second, t, 2 * (n - 1));
    }
  }

  /** Some run brings the row to one of those statuses. A SUCCEEDED row gets there by
      a refund of a cent, for which it needs an identifier and more than a cent left. */
  predicate CanBeReopened(row: Transaction) {
    && row.provider.Some?
    && (row.status in {Authorized, Processing, Failed, PartiallyRefunded}
        || (row.status == Succeeded && HasGatewayId(row) && row.refunded + 1 < row.amount))
  }

  lemma StepKeepsUnreopened(w: World, s: Step, t: Id)
    requires Sound(w.db) && t < |w.db.transactions| && !CanBeReopened(w.db.transactions[t])
    ensures !PollsIn(w, s, t, REOPENED)
    ensures t < |Apply(w, s).db.transactions| && !CanBeReopened(Apply(w, s).db.transactions[t])
  {
    StepContinues(w, s);
    WriterKeepsToTable(w.db, s);
    assert SoundTransaction(w.db.transactions[t]);
    WriterNeeds(w.db, s, t);
  }

  /** All but a cancel need a provider, and all but a poll an identifier. */
  lemma WriterNeeds(db: Database, s: Step, t: Id)
    ensures t < |db.transactions| && Plan(db, s).transaction.Put? && Plan(db, s).transaction.index == t ==>
      s.Cancel? || (db.transactions[t].provider.Some? && (s.Poll? || HasGatewayId(db.transactions[t])))
  {
  }

  lemma {:induction false} UnreopenedIsNeverPolled(w: World, steps: seq<Step>, t: Id)
    requires Sound(w.db) && t < |w.db.transactions| && !CanBeReopened(w.db.transactions[t])
    ensures NeverPollsIn(w, steps, t, REOPENED)
    decreases |steps|
  {
    if steps != [] {
      StepKeepsUnreopened(w, steps[0], t);
      StepStaysSound(w, steps[0]);
      UnreopenedIsNeverPolled(Apply(w, steps[0]), steps[1..], t);
    }
  }

  /** Two steps that bring a row that can be reopened to FAILED or PARTIALLY_REFUNDED. */
  function Reopening(db: Database, t: Id): (Step, Step)
    requires t < |db.transactions|
  {
    var row := db.transactions[t];
    if row.status == Succeeded then
      (Reconcile(t, Answered(Response("succeeded", None, None, Reported(row.refunded + 1)))),
       IssueRefund(RefundRequest(t, 1, FreshKey(db.refunds)), Says("succeeded")))
    else if row.status == PartiallyRefunded then
      (Poll(t, Crashed), Poll(t, Crashed))
    else
      (Poll(t, Crashed), Poll(t, Says("failed")))
  }

  lemma ReopeningReopens(w: World, t: Id)
    requires Sound(w.db) && t < |w.db.transactions| && CanBeReopened(w.db.transactions[t])
    ensures var (first, second) := Reopening(w.db, t);
      var after := Apply(Apply(w, first), second).db.transactions;
      t < |after| && after[t].provider.Some? && after[t].status in REOPENED
  {
    var (first, second) := Reopening(w.db, t);
    var row, mid := w.db.transactions[t], Apply(w, first);
    assert SoundTransaction(row);
    if row.status == Succeeded {
      assert mid.db.transactions[t] == row.(captured := row.refunded + 1);
    } else {
      assert mid.db.transactions[t] == row;
    }
  }

  lemma ReopenedTakesAny(w: World, t: Id, n: nat)
    requires Sound(w.db) && t < |w.db.transactions| && CanBeReopened(w.db.transactions[t])
    ensures CanTake(w, t, n)
  {
    var (first, second) := Reopening(w.db, t);
    var mid := Apply(w, first);
    ReopeningReopens(w, t);
    StepContinues(w, first);
    StepContinues(mid, second);
    PollingNeverSettles(Apply(mid, second), t, n);
    TakesTwoMore(w, first, second, t, 2 * n);
  }

  lemma UnreopenedTakesFew(w: World, t: Id, n: nat)
    requires Sound(w.db) && t < |w.db.transactions| && !CanBeReopened(w.db.transactions[t])
    requires CanTake(w, t, n)
    ensures n <= w.db.transactions[t].amount + 3
  {
    var steps :| n <= EffectiveSteps(w, steps, t);
    UnreopenedIsNeverPolled(w, steps, t);
    EffectiveStepsAreBounded(w, steps, t);
  }

  /** The effective steps on a payment have no bound exactly when it has a provider and
      is AUTHORIZED, PROCESSING, FAILED or PARTIALLY_REFUNDED, or SUCCEEDED with an
      identifier and more than a cent not yet refunded. */
  lemma NeverSettlesIff(w: World, t: Id)
    requires Sound(w.db) && t < |w.db.transactions|
    ensures CanBeReopened(w.db.transactions[t])
       <==> forall n: nat :: CanTake(w, t, n)
  {
    if CanBeReopened(w.db.transactions[t]) {
      forall n: nat ensures CanTake(w, t, n) {
        ReopenedTakesAny(w, t, n);
      }
    } else if CanTake(w, t, w.db.transactions[t].amount + 4) {
      UnreopenedTakesFew(w, t, w.db.transactions[t].amount + 4);
    }
  }

  // -- What a status tells about refunds ----------------------------------------

  /** PARTIALLY_REFUNDED holds exactly while some but not all of the amount has been
      refunded. */
  predicate StatusTellsRefunds(row: Transaction) {
    row.status == PartiallyRefunded <==> 0 < row.refunded < row.amount
  }

  predicate TellsRefundsAt(w: World, t: Id) {
    t < |w.db.transactions| ==> StatusTellsRefunds(w.db.transactions[t])
  }

  lemma StepTellsRefunds(w: World, s: Step, t: Id)
    requires Sound(w.db) && TellsRefundsAt(w, t) && !PollsIn(w, s, t, {PartiallyRefunded})
    ensures TellsRefundsAt(Apply(w, s), t)
  {
    WriterKeepsToTable(w.db, s);
    StepKeepsRowsSound(w, s);
    var after := Apply(w, s).db.transactions;
    if t < |after| {
      assert SoundTransaction(after[t]);
    }
    if t < |w.db.transactions| {
      assert SoundTransaction(w.db.transactions[t]);
    }
  }

  /** It keeps doing so over every run that never polls the payment while it is
      PARTIALLY_REFUNDED, whatever happens to it otherwise and to the others. */
  lemma {:induction false} StatusKeepsTellingRefunds(w: World, steps: seq<Step>, t: Id)
    requires Sound(w.db) && TellsRefundsAt(w, t)
    requires NeverPollsIn(w, steps, t, {PartiallyRefunded})
    ensures TellsRefundsAt(Run(w, steps), t)
    decreases |steps|
  {
    if steps != [] {
      StepTellsRefunds(w, steps[0], t);
      StepStaysSound(w, steps[0]);
      StatusKeepsTellingRefunds(Apply(w, steps[0]), steps[1..], t);
    }
  }

  /** And a poll in that status is exactly what it does not survive: a poll is safe,
      whatever the gateway answers, if and only if the row is in another one. */
  lemma PollForgetsRefundsIff(w: World, t: Id)
    requires Sound(w.db) && t < |w.db.transactions| && StatusTellsRefunds(w.db.transactions[t])
    ensures (forall reply :: TellsRefundsAt(Apply(w, Poll(t, reply)), t))
       <==> !(w.db.transactions[t].status == PartiallyRefunded && w.db.transactions[t].provider.Some?)
  {
    var row := w.db.transactions[t];
    if row.status == PartiallyRefunded && row.provider.Some? {
      var after := Apply(w, Poll(t, Says("pending")));
      assert after.db.transactions[t] == row.(status := Processing);
      assert !TellsRefundsAt(after, t);
    } else {
      forall reply ensures TellsRefundsAt(Apply(w, Poll(t, reply)), t) {
        StepTellsRefunds(w, Poll(t, reply), t);
      }
    }
  }
}
