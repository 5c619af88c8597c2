/** Any number of create requests, payments and refunds alike, interleaved at the
    points where they meet: the key check, the flushed insert, the gateway call and
    the end of the session. */
module IdempotencyProtocol {
  import opened Ledger
  import opened Runs
  import opened Calls

  datatype Table = PaymentTable | RefundTable

  datatype Key = Key(table: Table, text: string)

  /** `Inserted` and `Called` requests hold their key in an open database session. */
  datatype Phase = Arrived | Checked | Inserted | Called | Done

  datatype Request = Request(key: Key, phase: Phase)

  /** `stored` are the committed keys. */
  datatype State = State(requests: seq<Request>, stored: set<Key>, calls: multiset<Key>, lost: multiset<Key>)

  const START := State([], {}, multiset{}, multiset{})

  datatype Action =
    | Arrive(key: Key)
    | Check(request: nat)    // look for a committed row with the key
    | Refuse(request: nat)   // a business rule fails before the insert
    | Insert(request: nat)   // flush the row under the unique index
    | Abandon(request: nat)  // raise between insert and call
    | Call(request: nat)     // call the gateway
    | Finish(request: nat)   // commit: settled, failed or refused by the gateway
    | Crash(request: nat)    // raise after the call without committing

  predicate IsHolding(r: Request) {
    r.phase == Inserted || r.phase == Called
  }

  predicate IsHeld(s: State, key: Key) {
    exists i :: 0 <= i < |s.requests| && s.requests[i].key == key && IsHolding(s.requests[i])
  }

  predicate IsInFlight(s: State, key: Key) {
    exists i :: 0 <= i < |s.requests| && s.requests[i] == Request(key, Called)
  }

  function Moved(s: State, i: nat, phase: Phase): State
    requires i < |s.requests|
  {
    s.(requests := s.requests[i := s.requests[i].(phase := phase)])
  }

  /** An action that is not possible leaves the state alone. An insert waits while
      another session holds the key, and fails once the key is committed. */
  function Next(s: State, a: Action): State {
    if a.Arrive? then s.(requests := s.requests + [Request(a.key, Arrived)])
    else if |s.requests| <= a.request then s
    else
      var i := a.request;
      var r := s.requests[i];
      match a
      case Check(_) =>
        if r.phase != Arrived then s else Moved(s, i, if r.key in s.stored then Done else Checked)
      case Refuse(_) =>
        if r.phase != Checked then s else Moved(s, i, Done)
      case Insert(_) =>
        if r.phase != Checked || IsHeld(s, r.key) then s
        else Moved(s, i, if r.key in s.stored then Done else Inserted)
      case Abandon(_) =>
        if r.phase != Inserted then s else Moved(s, i, Done)
      case Call(_) =>
        if r.phase != Inserted then s else Moved(s, i, Called).(calls := s.calls + multiset{r.key})
      case Finish(_) =>
        if r.phase != Called then s else Moved(s, i, Done).(stored := s.stored + {r.key})
      case Crash(_) =>
        if r.phase != Called then s else Moved(s, i, Done).(lost := s.lost + multiset{r.key})
  }

  function Execute(s: State, actions: seq<Action>): State
    decreases |actions|
  {
    if actions == [] then s else Execute(Next(s, actions[0]), actions[1..])
  }

  /** How far a request has come. */
  function Rank(phase: Phase): nat {
    match phase
    case Arrived => 0
    case Checked => 1
    case Inserted => 2
    case Called => 3
    case Done => 4
  }

  /** An action moves no request but its own, and that one forward only: past the check
      while its key is not committed, to a held key while nobody else holds it and it is
      not committed, and to the call from a held key alone. */
  lemma RequestsMoveForward(s: State, a: Action, i: nat)
    requires i < |s.requests|
    ensures i < |Next(s, a).requests|
    ensures var before, after := s.requests[i], Next(s, a).requests[i];
      && after.key == before.key
      && (after.phase != before.phase ==> !a.Arrive? && a.request == i && Rank(before.phase) < Rank(after.phase))
      && (after.phase != before.phase && after.phase == Checked ==> before.key !in s.stored)
      && (after.phase != before.phase && after.phase == Inserted ==>
            before.phase == Checked && before.key !in s.stored && !IsHeld(s, before.key))
      && (after.phase != before.phase && after.phase == Called ==> before.phase == Inserted)
  {
  }

  /** A request that checks a committed key is over, whatever follows. */
  lemma CheckedCommittedKeyIsOver(s: State, i: nat, actions: seq<Action>)
    requires i < |s.requests| && s.requests[i].phase == Arrived && s.requests[i].key in s.stored
    ensures var after := Execute(Next(s, Check(i)), actions);
      i < |after.requests| && after.requests[i].phase == Done
  {
    DoneStaysDone(Next(s, Check(i)), i, actions);
  }

  lemma {:induction false} DoneStaysDone(s: State, i: nat, actions: seq<Action>)
    requires i < |s.requests| && s.requests[i].phase == Done
    ensures i < |Execute(s, actions).requests| && Execute(s, actions).requests[i].phase == Done
    decreases |actions|
  {
    if actions != [] {
      RequestsMoveForward(s, actions[0], i);
      DoneStaysDone(Next(s, actions[0]), i, actions[1..]);
    }
  }

  /** One session at most holds a key. */
  predicate HeldOnce(s: State, key: Key) {
    forall i, j :: 0 <= i < j < |s.requests| && s.requests[i].key == key == s.requests[j].key ==>
      !IsHolding(s.requests[i]) || !IsHolding(s.requests[j])
  }

  /** No session holds a committed key, and every call for a key was lost, has been
      committed, or is in flight. */
  predicate Accounted(s: State, key: Key) {
    && HeldOnce(s, key)
    && (key in s.stored ==> !IsHeld(s, key))
    && s.calls[key] == s.lost[key] + (if key in s.stored then 1 else 0) + (if IsInFlight(s, key) then 1 else 0)
  }

  lemma NextStaysHeldOnce(s: State, a: Action, key: Key)
    requires HeldOnce(s, key)
    ensures HeldOnce(Next(s, a), key)
  {
    var after := Next(s, a);
    assert forall j :: 0 <= j < |s.requests| && (a.Arrive? || j != a.request) ==> after.requests[j] == s.requests[j];
  }

  lemma RequestMoves(s: State, i: nat, phase: Phase, key: Key)
    requires i < |s.requests| && Accounted(s, key)
    requires s.requests[i].phase == Called ==> phase == Done
    ensures var r, after := s.requests[i], Moved(s, i, phase);
      && (r.key != key ==> (IsHeld(after, key) <==> IsHeld(s, key)) && (IsInFlight(after, key) <==> IsInFlight(s, key)))
      && (r.key == key && IsHolding(r) ==>
            && (IsHeld(after, key) <==> IsHolding(r.(phase := phase)))
            && (IsInFlight(after, key) <==> phase == Called)
            && (IsInFlight(s, key) <==> r.phase == Called))
      && (r.key == key && !IsHolding(r) && phase != Called ==>
            && (IsHeld(after, key) <==> IsHeld(s, key) || phase == Inserted)
            && (IsInFlight(after, key) <==> IsInFlight(s, key)))
  {
    var after := Moved(s, i, phase);
    assert forall j :: 0 <= j < |s.requests| && j != i ==> after.requests[j] == s.requests[j];
    assert after.requests[i] == s.requests[i].(phase := phase);
  }

  lemma NextStaysAccounted(s: State, a: Action, key: Key)
    requires Accounted(s, key)
    ensures Accounted(Next(s, a), key)
  {
    NextStaysHeldOnce(s, a, key);
    if a.Arrive? {
      var after := Next(s, a);
      assert forall j :: 0 <= j < |s.requests| ==> after.requests[j] == s.requests[j];
    } else if a.request < |s.requests| && Next(s, a) != s {
      var i := a.request;
      var phase := Next(s, a).requests[i].phase;
      assert Next(s, a).requests == Moved(s, i, phase).requests;
      RequestMoves(s, i, phase, key);
    }
  }

  /** In every interleaving the calls for a key exceed its lost calls by at most one,
      which is committed or in flight: the gateway is called twice for a key only
      after a call whose session died without committing. */
  lemma {:induction false} CallsAreAccounted(s: State, actions: seq<Action>, key: Key)
    requires Accounted(s, key)
    ensures Accounted(Execute(s, actions), key)
    decreases |actions|
  {
    if actions != [] {
      NextStaysAccounted(s, actions[0], key);
      CallsAreAccounted(Next(s, actions[0]), actions[1..], key);
    }
  }

  lemma {:induction false} NothingLostWithoutCrash(s: State, actions: seq<Action>)
    requires forall i :: 0 <= i < |actions| ==> !actions[i].Crash?
    ensures Execute(s, actions).lost == s.lost
    decreases |actions|
  {
    if actions != [] {
      NothingLostWithoutCrash(Next(s, actions[0]), actions[1..]);
    }
  }

  /** When every call ends in a commit, each key is called at most once, and exactly
      once when its row is stored. */
  lemma CalledAtMostOnce(actions: seq<Action>, key: Key)
    requires forall i :: 0 <= i < |actions| ==> !actions[i].Crash?
    ensures var s := Execute(START, actions);
      s.calls[key] <= 1 && (key in s.stored ==> s.calls[key] == 1)
  {
    CallsAreAccounted(START, actions, key);
    NothingLostWithoutCrash(START, actions);
  }

  lemma {:induction false} ExecuteAppend(s: State, a: seq<Action>, b: seq<Action>)
    ensures Execute(s, a + b) == Execute(Execute(s, a), b)
    decreases |a|
  {
    if a == [] {
      assert a + b == b;
    } else {
      assert (a + b)[1..] == a[1..] + b;
      ExecuteAppend(Next(s, a[0]), a[1..], b);
    }
  }

  lemma {:induction false} StoredIsNotCalledAgain(s: State, actions: seq<Action>, key: Key)
    requires Accounted(s, key) && key in s.stored
    ensures Execute(s, actions).calls[key] == s.calls[key]
    decreases |actions|
  {
    if actions != [] {
      NextStaysAccounted(s, actions[0], key);
      StoredIsNotCalledAgain(Next(s, actions[0]), actions[1..], key);
    }
  }

  /** The actions of one request, from its arrival to its call. */
  function UpToCall(s: State, key: Key): seq<Action> {
    var i := |s.requests|;
    [Arrive(key), Check(i), Insert(i), Call(i)]
  }

  lemma ExecuteTwo(s: State, a: Action, b: Action)
    ensures Execute(s, [a, b]) == Next(Next(s, a), b)
  {
    assert [a, b][1..] == [b];
    ExecuteOne(Next(s, a), b);
  }

  lemma ExecuteOne(s: State, a: Action)
    ensures Execute(s, [a]) == Next(s, a)
  {
    assert Execute(Next(s, a), []) == Next(s, a);
  }

  lemma FreeKeyIsChecked(s: State, key: Key)
    requires key !in s.stored
    ensures Execute(s, [Arrive(key), Check(|s.requests|)]) == s.(requests := s.requests + [Request(key, Checked)])
  {
    ExecuteTwo(s, Arrive(key), Check(|s.requests|));
    assert (s.requests + [Request(key, Arrived)])[|s.requests| := Request(key, Checked)]
        == s.requests + [Request(key, Checked)];
  }

  lemma CheckedKeyIsCalled(s: State, checked: State, key: Key)
    requires key !in s.stored && !IsHeld(s, key)
    requires checked == s.(requests := s.requests + [Request(key, Checked)])
    ensures Execute(checked, [Insert(|s.requests|), Call(|s.requests|)])
         == s.(requests := s.requests + [Request(key, Called)], calls := s.calls + multiset{key})
  {
    var i := |s.requests|;
    assert forall j :: 0 <= j < i ==> checked.requests[j] == s.requests[j];
    assert checked.requests[i := Request(key, Inserted)] == s.requests + [Request(key, Inserted)];
    assert (s.requests + [Request(key, Inserted)])[i := Request(key, Called)] == s.requests + [Request(key, Called)];
    ExecuteTwo(checked, Insert(i), Call(i));
  }

  lemma FreeKeyIsCalled(s: State, key: Key)
    requires key !in s.stored && !IsHeld(s, key)
    ensures Execute(s, UpToCall(s, key))
         == s.(requests := s.requests + [Request(key, Called)], calls := s.calls + multiset{key})
  {
    var i := |s.requests|;
    FreeKeyIsChecked(s, key);
    CheckedKeyIsCalled(s, Execute(s, [Arrive(key), Check(i)]), key);
    ExecuteAppend(s, [Arrive(key), Check(i)], [Insert(i), Call(i)]);
    assert [Arrive(key), Check(i)] + [Insert(i), Call(i)] == UpToCall(s, key);
  }

  /** From any reachable state, some continuation calls the gateway for a key again
      exactly when no committed row holds the key. */
  lemma SafeIffStored(s: State, key: Key)
    requires Accounted(s, key)
    ensures key in s.stored <==> forall actions :: Execute(s, actions).calls[key] == s.calls[key]
  {
    if key in s.stored {
      forall actions ensures Execute(s, actions).calls[key] == s.calls[key] {
        StoredIsNotCalledAgain(s, actions, key);
      }
    } else if IsHeld(s, key) {
      var i :| 0 <= i < |s.requests| && s.requests[i].key == key && IsHolding(s.requests[i]);
      if s.requests[i].phase == Inserted {
        ExecuteOne(s, Call(i));
        assert Execute(s, [Call(i)]).calls[key] == s.calls[key] + 1;
      } else {
        var free := Next(s, Crash(i));
        RequestMoves(s, i, Done, key);
        FreeKeyIsCalled(free, key);
        ExecuteAppend(s, [Crash(i)], UpToCall(free, key));
        ExecuteOne(s, Crash(i));
        assert Execute(s, [Crash(i)] + UpToCall(free, key)).calls[key] == s.calls[key] + 1;
      }
    } else {
      FreeKeyIsCalled(s, key);
      assert Execute(s, UpToCall(s, key)).calls[key] == s.calls[key] + 1;
    }
  }

  // -- The service's own calls are serial runs of the protocol -------------------

  predicate IsIdle(s: State) {
    forall i :: 0 <= i < |s.requests| ==> !IsHolding(s.requests[i])
  }

  /** The protocol state and the ledger agree on a key, its calls and its losses. */
  predicate MatchesPayment(s: State, w: World, text: string) {
    var key := Key(PaymentTable, text);
    && (key in s.stored <==> KeyTaken(w.db.transactions, text))
    && s.calls[key] == Count(w, CreateCalled(text)) && s.lost[key] == Count(w, CreateLost(text))
  }

  predicate MatchesRefund(s: State, w: World, text: string) {
    var key := Key(RefundTable, text);
    && (key in s.stored <==> RefundKeyTaken(w.db.refunds, text))
    && s.calls[key] == Count(w, RefundCalled(text)) && s.lost[key] == Count(w, RefundLost(text))
  }

  ghost predicate Matches(s: State, w: World) {
    forall text :: MatchesPayment(s, w, text) && MatchesRefund(s, w, text)
  }

  /** One request run alone, its call ending in a commit or lost. */
  lemma SoloRun(s: State, key: Key, kept: bool)
    requires IsIdle(s) && key !in s.stored
    ensures exists actions ::
      var after := Execute(s, actions);
      && IsIdle(after) && after.calls == s.calls + multiset{key}
      && after.stored == (if kept then s.stored + {key} else s.stored)
      && after.lost == (if kept then s.lost else s.lost + multiset{key})
  {
    FreeKeyIsCalled(s, key);
    var called := Execute(s, UpToCall(s, key));
    var last := if kept then Finish(|s.requests|) else Crash(|s.requests|);
    CalledKeyEnds(s, called, key, kept);
    ExecuteAppend(s, UpToCall(s, key), [last]);
    ExecuteOne(called, last);
    assert IsIdle(Next(called, last));
  }

  lemma CalledKeyEnds(s: State, called: State, key: Key, kept: bool)
    requires called == s.(requests := s.requests + [Request(key, Called)], calls := s.calls + multiset{key})
    ensures Next(called, if kept then Finish(|s.requests|) else Crash(|s.requests|))
         == State(s.requests + [Request(key, Done)], if kept then s.stored + {key} else s.stored,
                  s.calls + multiset{key}, if kept then s.lost else s.lost + multiset{key})
  {
    assert called.requests[|s.requests| := Request(key, Done)] == s.requests + [Request(key, Done)];
  }

  /** The key a step calls the gateway for, if it creates something. */
  function CalledKey(w: World, step: Step): Option<Key> {
    if !Asks(w.db, step) then None
    else if step.Create? then Some(Key(PaymentTable, step.request.key))
    else if step.IssueRefund? then Some(Key(RefundTable, step.refundRequest.key))
    else None
  }

  /** `after` is `s` with the step's call, kept or lost, accounted for. */
  predicate CallIsMade(w: World, step: Step, s: State, after: State) {
    var key, kept := CalledKey(w, step), Writes(w.db, step);
    && after.calls == (if key.Some? then s.calls + multiset{key.value} else s.calls)
    && after.stored == (if key.Some? && kept then s.stored + {key.value} else s.stored)
    && after.lost == (if key.Some? && !kept then s.lost + multiset{key.value} else s.lost)
  }

  lemma PaymentsMatchAfter(w: World, step: Step, s: State, after: State, text: string)
    requires MatchesPayment(s, w, text) && CallIsMade(w, step, s, after)
    ensures MatchesPayment(after, Apply(w, step), text)
  {
    CreateEvents(w, step, text);
    StepKeepsKeys(w, step, text);
    CountAfterStep(w, step, CreateCalled(text));
    CountAfterStep(w, step, CreateLost(text));
  }

  lemma RefundsMatchAfter(w: World, step: Step, s: State, after: State, text: string)
    requires MatchesRefund(s, w, text) && CallIsMade(w, step, s, after)
    ensures MatchesRefund(after, Apply(w, step), text)
  {
    RefundEvents(w, step, text);
    StepKeepsRefundKeys(w, step, text);
    CountAfterStep(w, step, RefundCalled(text));
    CountAfterStep(w, step, RefundLost(text));
  }

  lemma CalledKeyIsFree(w: World, step: Step, s: State)
    requires Matches(s, w) && CalledKey(w, step).Some?
    ensures CalledKey(w, step).value !in s.stored
  {
    var text := CalledKey(w, step).value.text;
    assert MatchesPayment(s, w, text) && MatchesRefund(s, w, text);
    CreateEvents(w, step, text);
    RefundEvents(w, step, text);
  }

  lemma CallIsRun(w: World, step: Step, s: State)
    requires IsIdle(s) && Matches(s, w)
    ensures exists actions :: IsIdle(Execute(s, actions)) && CallIsMade(w, step, s, Execute(s, actions))
  {
    var key := CalledKey(w, step);
    if key.Some? {
      CalledKeyIsFree(w, step, s);
      SoloRun(s, key.value, Writes(w.db, step));
    } else {
      assert Execute(s, []) == s;
    }
  }

  /** Every committed unit of work of the service is what some serial run of the
      protocol does, so the ledger's runs are among the interleavings above. */
  lemma StepIsProtocolRun(w: World, step: Step, s: State)
    requires IsIdle(s) && Matches(s, w)
    ensures exists actions :: IsIdle(Execute(s, actions)) && Matches(Execute(s, actions), Apply(w, step))
  {
    CallIsRun(w, step, s);
    var actions :| IsIdle(Execute(s, actions)) && CallIsMade(w, step, s, Execute(s, actions));
    var after := Execute(s, actions);
    forall text ensures MatchesPayment(after, Apply(w, step), text) && MatchesRefund(after, Apply(w, step), text) {
      PaymentsMatchAfter(w, step, s, after, text);
      RefundsMatchAfter(w, step, s, after, text);
    }
  }

  /** So is every run of the service from an empty database. */
  lemma {:induction false} RunIsProtocolRun(w: World, steps: seq<Step>, s: State)
    requires IsIdle(s) && Matches(s, w)
    ensures exists actions :: IsIdle(Execute(s, actions)) && Matches(Execute(s, actions), Run(w, steps))
    decreases |steps|
  {
    if steps == [] {
      assert Execute(s, []) == s;
    } else {
      StepIsProtocolRun(w, steps[0], s);
      var first :| IsIdle(Execute(s, first)) && Matches(Execute(s, first), Apply(w, steps[0]));
      RunIsProtocolRun(Apply(w, steps[0]), steps[1..], Execute(s, first));
      var rest :| IsIdle(Execute(Execute(s, first), rest))
        && Matches(Execute(Execute(s, first), rest), Run(Apply(w, steps[0]), steps[1..]));
      ExecuteAppend(s, first, rest);
    }
  }
}
