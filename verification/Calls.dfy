/** Which gateway calls a run can make, and which statuses it can come back to. */
module Calls {
  import opened Ledger
  import opened Gateway
  import opened Payments
  import opened Workers
  import opened Runs

  // -- What persists ------------------------------------------------------------

  /** The rows of `after` continue those of `before`. */
  predicate Continues(before: Database, after: Database) {
    && |before.transactions| <= |after.transactions|
    && |before.refunds| <= |after.refunds|
    && (forall t :: 0 <= t < |before.transactions| ==>
          var a, b := before.transactions[t], after.transactions[t];
          && SameIdentity(a, b) && a.refunded <= b.refunded
          && (a.status != Authorized ==> b.status != Authorized)
          && (a.status == Cancelled ==> b.status == Cancelled)
          && (a.status == Refunded ==> a == b))
    && (forall r :: 0 <= r < |before.refunds| ==>
          var a, b := before.refunds[r], after.refunds[r];
          && SameRefundIdentity(a, b)
          && (a.status == RefundSucceeded <==> b.status == RefundSucceeded)
          && (a.status == RefundSucceeded ==> a == b))
  }

  lemma StepContinues(w: World, s: Step)
    ensures Continues(w.db, Apply(w, s).db)
  {
    WriterKeepsToTable(w.db, s);
    RefundWriterKeepsToTable(w.db, s);
  }

  lemma ContinuesIsTransitive(a: Database, b: Database, c: Database)
    requires Continues(a, b) && Continues(b, c)
    ensures Continues(a, c)
  {
  }

  /** Over every run, whatever the gateway answers: rows are never deleted and keep
      their identity; AUTHORIZED is never re-entered; CANCELLED never changes again
      and a REFUNDED row not at all; a refund succeeds at birth or never, and then
      stays as it is. */
  lemma {:induction false} RunContinues(w: World, steps: seq<Step>)
    ensures Continues(w.db, Run(w, steps).db)
    decreases |steps|
  {
    if steps != [] {
      StepContinues(w, steps[0]);
      RunContinues(Apply(w, steps[0]), steps[1..]);
      ContinuesIsTransitive(w.db, Apply(w, steps[0]).db, Run(w, steps).db);
    }
  }

  /** SUCCEEDED is left only by a refund the gateway confirmed, and then for good. */
  lemma SucceededIsLeftByRefundOnly(w: World, s: Step, t: Id)
    requires t < |w.db.transactions| && w.db.transactions[t].status == Succeeded
    requires Apply(w, s).db.transactions[t].status != Succeeded
    ensures s.IssueRefund? && s.refundRequest.transaction == t && s.reply.Answered?
    ensures Apply(w, s).db.transactions[t].status in {Refunded, PartiallyRefunded}
    ensures Apply(w, s).db.transactions[t].refunded == w.db.transactions[t].refunded + s.refundRequest.amount
  {
    WriterKeepsToTable(w.db, s);
  }

  // -- Counting -----------------------------------------------------------------

  /** How often a step makes an event happen. */
  function Adds(w: World, s: Step, e: Event): nat {
    multiset(Plan(w.db, s).events)[e]
  }

  lemma CountAfterStep(w: World, s: Step, e: Event)
    ensures Count(Apply(w, s), e) == Count(w, e) + Adds(w, s, e)
  {
  }

  /** Steps make at most three events happen. */
  lemma CountFew(events: seq<Event>, e: Event)
    requires |events| <= 3
    ensures multiset(events)[e]
         == (if 0 < |events| && events[0] == e then 1 else 0)
          + (if 1 < |events| && events[1] == e then 1 else 0)
          + (if 2 < |events| && events[2] == e then 1 else 0)
  {
    if |events| == 1 {
      assert events == [events[0]];
    } else if |events| == 2 {
      assert events == [events[0], events[1]];
    } else if |events| == 3 {
      assert events == [events[0], events[1], events[2]];
    }
  }

  /** The guards in front of the capture call. */
  predicate CanBeCaptured(row: Transaction) {
    row.status == Authorized && HasGatewayId(row) && row.provider.Some?
  }

  /** The step gets as far as asking the gateway to create something. */
  predicate Asks(db: Database, s: Step) {
    match s
    case Create(request, _, _) => CreateCalled(request.key) in Plan(db, s).events
    case IssueRefund(request, _) => RefundCalled(request.key) in Plan(db, s).events
    case _ => false
  }

  /** What each writer tells and hears from the gateway: an insert is flushed before
      the call, and a row is written exactly when the call it depends on was not lost
      or, for a cancel or a lookup, was answered in a way that can be used. */
  predicate SpeaksAs(s: Step, events: seq<Event>, writes: bool) {
    match s
    case Create(request, _, _) =>
      var flushed, called := CreateFlushed(request.key), CreateCalled(request.key);
      if writes then events == [flushed, called] else events in {[], [flushed, called, CreateLost(request.key)]}
    case Capture(t, _, _) =>
      var called, answered, lost := CaptureCalled(t), CaptureAnswered(t), CaptureLost(t);
      if writes then events in {[called], [called, answered]}
      else events in {[], [called, lost], [called, answered, lost]}
    case Cancel(t, _) =>
      || events == []
      || events == if writes then [CancelCalled(t), CancelAnswered(t)] else [CancelCalled(t)]
    case IssueRefund(request, _) =>
      var flushed, called := RefundFlushed(request.key), RefundCalled(request.key);
      if writes then events == [flushed, called]
      else events in {[], [flushed], [flushed, called, RefundLost(request.key)]}
    case Poll(t, reply) =>
      if writes then events == [LookupCalled(t)] && !PollIsLost(reply)
      else events == [] || (events == [LookupCalled(t)] && PollIsLost(reply))
    case Reconcile(t, reply) =>
      if writes then events == [LookupCalled(t)] && reply.Answered? && !reply.response.captured.Malformed?
      else events in {[], [LookupCalled(t)]}
    case _ => events == []
  }

  predicate Writes(db: Database, s: Step) {
    if s.IssueRefund? then Plan(db, s).refund.Put? else Plan(db, s).transaction.Put?
  }

  lemma WriterSpeaks(db: Database, s: Step)
    ensures SpeaksAs(s, Plan(db, s).events, Writes(db, s))
    ensures s.Create? && Plan(db, s).events != [] ==> !KeyTaken(db.transactions, s.request.key)
    ensures s.IssueRefund? && Plan(db, s).events != [] ==> !RefundKeyTaken(db.refunds, s.refundRequest.key)
    ensures s.Capture? && Plan(db, s).events != [] ==>
      s.transaction < |db.transactions| && CanBeCaptured(db.transactions[s.transaction])
    ensures s.Cancel? && CancelCalled(s.transaction) in Plan(db, s).events ==> (Writes(db, s) <==> s.reply.Answered?)
    ensures s.Create? && Asks(db, s) ==> (Writes(db, s) <==> !CreateIsLost(db, s.reply))
    ensures s.Reconcile? && Plan(db, s).events != [] ==>
      && s.transaction < |db.transactions|
      && (Writes(db, s) <==> s.reply.Answered? && !s.reply.response.captured.Malformed?
                             && Agrees(db.transactions[s.transaction], s.reply.response))
  {
  }

  lemma SpokenCreates(s: Step, events: seq<Event>, writes: bool, key: string)
    requires SpeaksAs(s, events, writes)
    ensures var called := s.Create? && s.request.key == key && CreateCalled(key) in events;
      && multiset(events)[CreateCalled(key)] == (if called then 1 else 0)
      && multiset(events)[CreateLost(key)] == (if called && !writes then 1 else 0)
  {
    CountFew(events, CreateCalled(key));
    CountFew(events, CreateLost(key));
  }

  lemma SpokenRefunds(s: Step, events: seq<Event>, writes: bool, key: string)
    requires SpeaksAs(s, events, writes)
    ensures var called := s.IssueRefund? && s.refundRequest.key == key && RefundCalled(key) in events;
      && multiset(events)[RefundCalled(key)] == (if called then 1 else 0)
      && multiset(events)[RefundLost(key)] == (if called && !writes then 1 else 0)
  {
    CountFew(events, RefundCalled(key));
    CountFew(events, RefundLost(key));
  }

  lemma SpokenCaptures(s: Step, events: seq<Event>, writes: bool, t: Id)
    requires SpeaksAs(s, events, writes)
    ensures multiset(events)[CaptureCalled(t)]
         == multiset(events)[CaptureLost(t)] + if s.Capture? && s.transaction == t && writes then 1 else 0
    ensures multiset(events)[CaptureCalled(t)] != 0 ==> s.Capture? && s.transaction == t
  {
    CountFew(events, CaptureCalled(t));
    CountFew(events, CaptureLost(t));
  }

  /** What a step adds to the create calls of one key. */
  lemma CreateEvents(w: World, s: Step, key: string)
    ensures var called := s.Create? && s.request.key == key && Asks(w.db, s);
      && Adds(w, s, CreateCalled(key)) == (if called then 1 else 0)
      && Adds(w, s, CreateLost(key)) == (if called && !Writes(w.db, s) then 1 else 0)
      && (called ==> !KeyTaken(w.db.transactions, key))
    ensures s.Create? && Writes(w.db, s) ==> Asks(w.db, s)
  {
    WriterSpeaks(w.db, s);
    SpokenCreates(s, Plan(w.db, s).events, Writes(w.db, s), key);
  }

  lemma RefundEvents(w: World, s: Step, key: string)
    ensures var called := s.IssueRefund? && s.refundRequest.key == key && Asks(w.db, s);
      && Adds(w, s, RefundCalled(key)) == (if called then 1 else 0)
      && Adds(w, s, RefundLost(key)) == (if called && !Writes(w.db, s) then 1 else 0)
      && (called ==> !RefundKeyTaken(w.db.refunds, key))
    ensures s.IssueRefund? && Writes(w.db, s) ==> Asks(w.db, s)
  {
    WriterSpeaks(w.db, s);
    SpokenRefunds(s, Plan(w.db, s).events, Writes(w.db, s), key);
  }

  lemma CaptureEvents(w: World, s: Step, t: Id)
    ensures Adds(w, s, CaptureCalled(t))
         == Adds(w, s, CaptureLost(t)) + if s.Capture? && s.transaction == t && Writes(w.db, s) then 1 else 0
    ensures Adds(w, s, CaptureCalled(t)) != 0 ==> t < |w.db.transactions| && CanBeCaptured(w.db.transactions[t])
  {
    WriterSpeaks(w.db, s);
    SpokenCaptures(s, Plan(w.db, s).events, Writes(w.db, s), t);
  }

  // -- Flushing before calling --------------------------------------------------

  /** The event whose flush must come right before `e`, if there is one. */
  function FlushBefore(e: Event): Option<Event> {
    match e
    case CreateCalled(key) => Some(CreateFlushed(key))
    case RefundCalled(key) => Some(RefundFlushed(key))
    case _ => None
  }

  predicate CallsFollowFlushes(trace: seq<Event>) {
    forall i :: 0 <= i < |trace| && FlushBefore(trace[i]).Some? ==> 0 < i && trace[i - 1] == FlushBefore(trace[i]).value
  }

  lemma SpokenFlushes(s: Step, events: seq<Event>, writes: bool)
    requires SpeaksAs(s, events, writes)
    ensures CallsFollowFlushes(events)
  {
  }

  lemma StepFlushesFirst(db: Database, s: Step)
    ensures CallsFollowFlushes(Plan(db, s).events)
  {
    WriterSpeaks(db, s);
    SpokenFlushes(s, Plan(db, s).events, Writes(db, s));
  }

  lemma FlushesAppend(a: seq<Event>, b: seq<Event>)
    requires CallsFollowFlushes(a) && CallsFollowFlushes(b)
    ensures CallsFollowFlushes(a + b)
  {
    forall i | 0 <= i < |a + b| && FlushBefore((a + b)[i]).Some?
      ensures 0 < i && (a + b)[i - 1] == FlushBefore((a + b)[i]).value
    {
      if |a| <= i {
        assert (a + b)[i] == b[i - |a|];
      }
    }
  }

  /** Over every run no create or refund call reaches the gateway unless the row that
      holds its key has been flushed just before, in the same session. */
  lemma {:induction false} CallsAlwaysFollowFlushes(w: World, steps: seq<Step>)
    requires CallsFollowFlushes(w.trace)
    ensures CallsFollowFlushes(Run(w, steps).trace)
    decreases |steps|
  {
    if steps != [] {
      StepFlushesFirst(w.db, steps[0]);
      FlushesAppend(w.trace, Plan(w.db, steps[0]).events);
      CallsAlwaysFollowFlushes(Apply(w, steps[0]), steps[1..]);
    }
  }

  // -- Creating payments --------------------------------------------------------

  /** Every create call for a key either was lost or left the row that holds it. */
  predicate CreateCallsAccounted(w: World, key: string) {
    Count(w, CreateCalled(key)) == Count(w, CreateLost(key)) + if KeyTaken(w.db.transactions, key) then 1 else 0
  }

  lemma StepKeepsKeys(w: World, s: Step, key: string)
    ensures KeyTaken(Apply(w, s).db.transactions, key)
       <==> KeyTaken(w.db.transactions, key)
            || (s.Create? && s.request.key == key && Writes(w.db, s))
  {
    WriterKeepsToTable(w.db, s);
    var before, after := w.db.transactions, Apply(w, s).db.transactions;
    if t: nat :| t < |before| && before[t].key == key {
      assert after[t].key == key;
    }
    if t: nat :| t < |after| && after[t].key == key {
      if t < |before| {
        assert before[t].key == key;
      }
    }
    if s.Create? && s.request.key == key && Writes(w.db, s) {
      assert after[|before|].key == key;
    }
  }

  /** In every reachable state a key's create calls are its lost calls, plus one if
      a row holds the key: at most one call per key ends in a commit, and a key is
      called twice only if a call before was lost. */
  lemma {:induction false} CreateCallsAreAccounted(w: World, steps: seq<Step>, key: string)
    requires CreateCallsAccounted(w, key)
    ensures CreateCallsAccounted(Run(w, steps), key)
    decreases |steps|
  {
    if steps != [] {
      CreateEvents(w, steps[0], key);
      CountAfterStep(w, steps[0], CreateCalled(key));
      CountAfterStep(w, steps[0], CreateLost(key));
      StepKeepsKeys(w, steps[0], key);
      CreateCallsAreAccounted(Apply(w, steps[0]), steps[1..], key);
    }
  }

  lemma {:induction false} TakenKeyIsNotCalledAgain(w: World, steps: seq<Step>, key: string)
    requires KeyTaken(w.db.transactions, key)
    ensures Count(Run(w, steps), CreateCalled(key)) == Count(w, CreateCalled(key))
    decreases |steps|
  {
    if steps != [] {
      CreateEvents(w, steps[0], key);
      CountAfterStep(w, steps[0], CreateCalled(key));
      StepKeepsKeys(w, steps[0], key);
      TakenKeyIsNotCalledAgain(Apply(w, steps[0]), steps[1..], key);
    }
  }

  /** A key is safe from another create call, in every continuation, exactly when a
      row holds it. */
  lemma CreateNeverRepeatsIffStored(w: World, key: string)
    ensures KeyTaken(w.db.transactions, key)
       <==> forall steps :: Count(Run(w, steps), CreateCalled(key)) == Count(w, CreateCalled(key))
  {
    if KeyTaken(w.db.transactions, key) {
      forall steps ensures Count(Run(w, steps), CreateCalled(key)) == Count(w, CreateCalled(key)) {
        TakenKeyIsNotCalledAgain(w, steps, key);
      }
    } else {
      var step := Create(PaymentRequest(0, 1, Stripe, true, key), true, Crashed);
      assert Run(w, [step]) == Apply(w, step);
      assert Count(Run(w, [step]), CreateCalled(key)) == Count(w, CreateCalled(key)) + 1;
    }
  }

  // -- Creating refunds ---------------------------------------------------------

  predicate RefundCallsAccounted(w: World, key: string) {
    Count(w, RefundCalled(key)) == Count(w, RefundLost(key)) + if RefundKeyTaken(w.db.refunds, key) then 1 else 0
  }

  lemma StepKeepsRefundKeys(w: World, s: Step, key: string)
    ensures RefundKeyTaken(Apply(w, s).db.refunds, key)
       <==> RefundKeyTaken(w.db.refunds, key)
            || (s.IssueRefund? && s.refundRequest.key == key && Writes(w.db, s))
  {
    RefundWriterKeepsToTable(w.db, s);
    var before, after := w.db.refunds, Apply(w, s).db.refunds;
    if r: nat :| r < |before| && before[r].key == key {
      assert after[r].key == key;
    }
    if r: nat :| r < |after| && after[r].key == key {
      if r < |before| {
        assert before[r].key == key;
      }
    }
    if s.IssueRefund? && s.refundRequest.key == key && Writes(w.db, s) {
      assert after[|before|].key == key;
    }
  }

  /** The same accounting for refunds. */
  lemma {:induction false} RefundCallsAreAccounted(w: World, steps: seq<Step>, key: string)
    requires RefundCallsAccounted(w, key)
    ensures RefundCallsAccounted(Run(w, steps), key)
    decreases |steps|
  {
    if steps != [] {
      RefundEvents(w, steps[0], key);
      CountAfterStep(w, steps[0], RefundCalled(key));
      CountAfterStep(w, steps[0], RefundLost(key));
      StepKeepsRefundKeys(w, steps[0], key);
      RefundCallsAreAccounted(Apply(w, steps[0]), steps[1..], key);
    }
  }

  /** A refund key longer than every key in use. */
  function FreshKey(refunds: seq<Refund>): (key: string)
    ensures !RefundKeyTaken(refunds, key)
    ensures forall r :: 0 <= r < |refunds| ==> |refunds[r].key| < |key|
  {
    if refunds == [] then ""
    else
      var last := |refunds| - 1;
      var key := FreshKey(refunds[..last]);
      assert forall r :: 0 <= r < last ==> refunds[..last][r] == refunds[r];
      if |refunds[last].key| < |key| then key else refunds[last].key + "+"
  }

  lemma {:induction false} TakenRefundKeyIsNotCalledAgain(w: World, steps: seq<Step>, key: string)
    requires RefundKeyTaken(w.db.refunds, key)
    ensures RefundKeyTaken(Run(w, steps).db.refunds, key)
    ensures Count(Run(w, steps), RefundCalled(key)) == Count(w, RefundCalled(key))
    decreases |steps|
  {
    if steps != [] {
      RefundEvents(w, steps[0], key);
      CountAfterStep(w, steps[0], RefundCalled(key));
      StepKeepsRefundKeys(w, steps[0], key);
      TakenRefundKeyIsNotCalledAgain(Apply(w, steps[0]), steps[1..], key);
    }
  }

  // -- Capturing ----------------------------------------------------------------

  /** At most one capture call per transaction was not lost, and none while the row
      is still AUTHORIZED. */
  predicate CaptureCallsAccounted(w: World, t: Id) {
    var kept := Count(w, CaptureCalled(t)) - Count(w, CaptureLost(t));
    && 0 <= kept <= 1
    && (|w.db.transactions| <= t || w.db.transactions[t].status == Authorized ==> kept == 0)
  }

  lemma StepKeepsCaptureCalls(w: World, s: Step, t: Id)
    requires CaptureCallsAccounted(w, t)
    ensures CaptureCallsAccounted(Apply(w, s), t)
  {
    CaptureEvents(w, s, t);
    CountAfterStep(w, s, CaptureCalled(t));
    CountAfterStep(w, s, CaptureLost(t));
    WriterKeepsToTable(w.db, s);
  }

  /** Over every run a transaction's capture calls exceed its lost ones by at most
      one: AUTHORIZED is entered once, by `create_payment`, and every capture call
      that is not lost leaves it. */
  lemma {:induction false} CaptureCallsAreAccounted(w: World, steps: seq<Step>, t: Id)
    requires CaptureCallsAccounted(w, t)
    ensures CaptureCallsAccounted(Run(w, steps), t)
    decreases |steps|
  {
    if steps != [] {
      StepKeepsCaptureCalls(w, steps[0], t);
      CaptureCallsAreAccounted(Apply(w, steps[0]), steps[1..], t);
    }
  }

  lemma {:induction false} SettledIsNotCapturedAgain(w: World, steps: seq<Step>, t: Id)
    requires t < |w.db.transactions| && !CanBeCaptured(w.db.transactions[t])
    ensures Count(Run(w, steps), CaptureCalled(t)) == Count(w, CaptureCalled(t))
    decreases |steps|
  {
    if steps != [] {
      StepContinues(w, steps[0]);
      CaptureEvents(w, steps[0], t);
      CountAfterStep(w, steps[0], CaptureCalled(t));
      SettledIsNotCapturedAgain(Apply(w, steps[0]), steps[1..], t);
    }
  }

  /** No continuation captures a stored transaction exactly when one of the guards
      already stops it. */
  lemma NeverCapturedAgainIffGuarded(w: World, t: Id)
    requires t < |w.db.transactions|
    ensures !CanBeCaptured(w.db.transactions[t])
       <==> forall steps :: Count(Run(w, steps), CaptureCalled(t)) == Count(w, CaptureCalled(t))
  {
    if !CanBeCaptured(w.db.transactions[t]) {
      forall steps ensures Count(Run(w, steps), CaptureCalled(t)) == Count(w, CaptureCalled(t)) {
        SettledIsNotCapturedAgain(w, steps, t);
      }
    } else {
      var step := Capture(t, None, Crashed);
      assert Run(w, [step]) == Apply(w, step);
      assert Count(Run(w, [step]), CaptureCalled(t)) == Count(w, CaptureCalled(t)) + 1;
    }
  }
}
