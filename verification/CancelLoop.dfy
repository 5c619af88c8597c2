/** What the cancel loop does to a reservation's payments, and what redelivering an
    event does. */
module CancelLoop {
  import opened Ledger
  import opened Gateway
  import opened Payments
  import opened Runs
  import opened Calls
  import opened Conservation
  import opened Sagas
  import opened Deliveries

  /** The cancels of the loop that raise. */
  predicate CancelRaises(row: Transaction, reply: Reply) {
    IsCancellable(row.status) && HasGatewayId(row) && (row.provider.None? || !reply.Answered?)
  }

  /** The position in `ids` of the first row whose cancel raises, or the end. */
  function FirstRaising(transactions: seq<Transaction>, ids: seq<Id>, replies: Id -> Reply): (p: nat)
    requires forall i :: 0 <= i < |ids| ==> ids[i] < |transactions|
    ensures p <= |ids|
    ensures forall i :: 0 <= i < p ==> !CancelRaises(transactions[ids[i]], replies(ids[i]))
    ensures p < |ids| ==> CancelRaises(transactions[ids[p]], replies(ids[p]))
  {
    if ids == [] then 0
    else
      var last := |ids| - 1;
      var p := FirstRaising(transactions, ids[..last], replies);
      if p == last && !CancelRaises(transactions[ids[last]], replies(ids[last])) then p + 1 else p
  }

  predicate Distinct(ids: seq<Id>) {
    forall i, j :: 0 <= i < j < |ids| ==> ids[i] != ids[j]
  }

  function CancelledIf(row: Transaction, chosen: bool): Transaction {
    if chosen && IsCancellable(row.status) then row.(status := Cancelled) else row
  }

  /** `after` is `before` with the cancellable rows among `chosen` cancelled. */
  predicate AreCancelled(before: seq<Transaction>, after: seq<Transaction>, chosen: seq<Id>) {
    && |after| == |before|
    && forall t: Id :: t < |before| ==> after[t] == CancelledIf(before[t], t in chosen)
  }

  lemma CancelledInTurn(before: seq<Transaction>, mid: seq<Transaction>, chosen: seq<Id>, t: Id)
    requires AreCancelled(before, mid, chosen) && t !in chosen && t < |before|
    ensures mid[t] == before[t]
    ensures AreCancelled(before, mid[t := CancelledIf(mid[t], true)], chosen + [t])
  {
  }

  lemma CancelOneEffect(w: World, t: Id, reply: Reply)
    requires t < |w.db.transactions|
    ensures var (after, outcome) := CancelOne(w, t, reply);
      && (outcome.Raised? <==> CancelRaises(w.db.transactions[t], reply))
      && after.db == if outcome.Raised? then w.db
                     else w.db.(transactions := w.db.transactions[t := CancelledIf(w.db.transactions[t], true)])
  {
  }

  /** `done` is what the loop over `ids` comes to, if cancels are answered by `replies`. */
  predicate LoopCameTo(w: World, ids: seq<Id>, replies: Id -> Reply, done: (World, Outcome<()>))
    requires forall i :: 0 <= i < |ids| ==> ids[i] < |w.db.transactions|
  {
    var p := FirstRaising(w.db.transactions, ids, replies);
    && done.0.db.refunds == w.db.refunds
    && AreCancelled(w.db.transactions, done.0.db.transactions, ids[..p])
    && (done.1.Returned? <==> p == |ids|)
  }

  /** A list extended by one row: its first raising cancel is that of the shorter
      list, if that has one. */
  lemma FirstRaisingNext(transactions: seq<Transaction>, first: seq<Id>, t: Id, replies: Id -> Reply)
    requires t < |transactions| && forall i :: 0 <= i < |first| ==> first[i] < |transactions|
    ensures var p := FirstRaising(transactions, first, replies);
      FirstRaising(transactions, first + [t], replies)
      == if p == |first| && !CancelRaises(transactions[t], replies(t)) then p + 1 else p
  {
    var ids := first + [t];
    assert ids[..|ids| - 1] == first;
  }

  lemma CancelAllNext(w: World, first: seq<Id>, t: Id, replies: Id -> Reply)
    ensures var before := CancelAll(w, first, replies);
      CancelAll(w, first + [t], replies) == if before.1.Raised? then before else CancelOne(before.0, t, replies(t))
  {
    var ids := first + [t];
    assert ids[..|ids| - 1] == first && ids[|ids| - 1] == t;
  }

  lemma LoopStaysRaised(w: World, first: seq<Id>, t: Id, replies: Id -> Reply, done: (World, Outcome<()>))
    requires t < |w.db.transactions| && forall i :: 0 <= i < |first| ==> first[i] < |w.db.transactions|
    requires LoopCameTo(w, first, replies, done) && done.1.Raised?
    ensures LoopCameTo(w, first + [t], replies, done)
  {
    FirstRaisingNext(w.db.transactions, first, t, replies);
    var p := FirstRaising(w.db.transactions, first, replies);
    assert (first + [t])[..p] == first[..p];
  }

  lemma LoopTurns(w: World, first: seq<Id>, t: Id, replies: Id -> Reply, done: (World, Outcome<()>))
    requires t < |w.db.transactions| && forall i :: 0 <= i < |first| ==> first[i] < |w.db.transactions|
    requires LoopCameTo(w, first, replies, done) && done.1.Returned? && t !in first
    ensures LoopCameTo(w, first + [t], replies, CancelOne(done.0, t, replies(t)))
  {
    FirstRaisingNext(w.db.transactions, first, t, replies);
    assert first[..|first|] == first == (first + [t])[..|first|];
    assert (first + [t])[..|first| + 1] == first + [t];
    CancelledInTurn(w.db.transactions, done.0.db.transactions, first, t);
    CancelOneEffect(done.0, t, replies(t));
  }

  /** The loop cancels exactly the cancellable rows before the first one whose cancel
      raises, in list order, and touches no other row; it completes exactly when no
      cancel raises. */
  lemma {:induction false} CancelAllEffect(w: World, ids: seq<Id>, replies: Id -> Reply)
    requires Distinct(ids) && forall i :: 0 <= i < |ids| ==> ids[i] < |w.db.transactions|
    ensures LoopCameTo(w, ids, replies, CancelAll(w, ids, replies))
  {
    if ids != [] {
      var last := |ids| - 1;
      var first, t := ids[..last], ids[last];
      CancelAllEffect(w, first, replies);
      var done := CancelAll(w, first, replies);
      assert ids == first + [t] && t !in first;
      CancelAllNext(w, first, t, replies);
      if done.1.Raised? {
        LoopStaysRaised(w, first, t, replies, done);
      } else {
        LoopTurns(w, first, t, replies, done);
      }
    }
  }

  /** No row the handler would look at is still cancellable. */
  predicate IsQuiet(transactions: seq<Transaction>, reservation: nat) {
    forall t: Id :: t < |transactions| && t in RowsToCancel(transactions, reservation) ==> !IsCancellable(transactions[t].status)
  }

  lemma {:induction false} ListingSurvives(a: seq<Transaction>, b: seq<Transaction>, reservation: nat)
    requires |a| == |b| && forall t :: 0 <= t < |a| ==> a[t].reservation == b[t].reservation
    ensures ListByReservation(a, reservation) == ListByReservation(b, reservation)
  {
    if a != [] {
      ListingSurvives(a[..|a| - 1], b[..|b| - 1], reservation);
    }
  }

  /** The reservation's rows that were created after row `t`. */
  function Newer(transactions: seq<Transaction>, reservation: nat, t: Id): set<Id> {
    set u | t < u < |transactions| && transactions[u].reservation == reservation
  }

  /** Row `t` is one of the reservation's hundred newest. */
  predicate IsAmongNewest(transactions: seq<Transaction>, reservation: nat, t: Id) {
    t < |transactions| && transactions[t].reservation == reservation && |Newer(transactions, reservation, t)| < 100
  }

  lemma NewerComeFirst(transactions: seq<Transaction>, reservation: nat, j: nat)
    requires j < |ListByReservation(transactions, reservation)|
    ensures |Newer(transactions, reservation, ListByReservation(transactions, reservation)[j])| == j
  {
    var ids := ListByReservation(transactions, reservation);
    var t := ids[j];
    forall u: Id ensures u in Newer(transactions, reservation, t) <==> u in (set i | 0 <= i < j :: ids[i]) {
      if u in Newer(transactions, reservation, t) {
        assert u in ids;
      }
      if i :| 0 <= i < j && ids[i] == u {
        assert ids[i] in ids;
      }
    }
    assert Newer(transactions, reservation, t) == set i | 0 <= i < j :: ids[i];
    DistinctCount(ids, j);
  }

  /** The rows the loop goes through are exactly those. */
  lemma RowsToCancelAreNewest(transactions: seq<Transaction>, reservation: nat, t: Id)
    ensures t in RowsToCancel(transactions, reservation) <==> IsAmongNewest(transactions, reservation, t)
  {
    var ids, rows := ListByReservation(transactions, reservation), RowsToCancel(transactions, reservation);
    if t in ids {
      var j :| 0 <= j < |ids| && ids[j] == t;
      NewerComeFirst(transactions, reservation, j);
      if j < 100 {
        assert rows[j] == t;
      } else {
        assert forall i :: 0 <= i < |rows| ==> rows[i] == ids[i] && ids[j] < ids[i];
      }
    }
  }

  /** A cancelled or expired event that completes leaves none of the reservation's
      hundred newest rows PENDING, AUTHORIZED or PROCESSING, and changes nothing but
      the status of those rows. */
  lemma CompletedCancelIsQuiet(w: World, event: ReservationEvent, replies: Id -> Reply)
    requires HandleCancelled(w, event, replies).1.Returned?
    ensures var before, after := w.db.transactions, HandleCancelled(w, event, replies).0.db.transactions;
      var rows := RowsToCancel(before, event.reservation);
      && AreCancelled(before, after, rows)
      && (forall t: Id :: t in rows <==> IsAmongNewest(before, event.reservation, t))
      && RowsToCancel(after, event.reservation) == rows
      && IsQuiet(after, event.reservation)
  {
    var before, after := w.db.transactions, HandleCancelled(w, event, replies).0.db.transactions;
    var rows := RowsToCancel(before, event.reservation);
    RowsToCancelAreListed(before, event.reservation);
    CancelAllEffect(w, rows, replies);
    assert rows[..|rows|] == rows;
    forall t: Id ensures t in rows <==> IsAmongNewest(before, event.reservation, t) {
      RowsToCancelAreNewest(before, event.reservation, t);
    }
    ListingSurvives(before, after, event.reservation);
  }

  /** After a completed event no row of the reservation is left cancellable exactly
      when none older than its hundred newest was cancellable before. */
  lemma NothingIsLeftIffNoneWasOlder(w: World, event: ReservationEvent, replies: Id -> Reply)
    requires HandleCancelled(w, event, replies).1.Returned?
    ensures var before, after := w.db.transactions, HandleCancelled(w, event, replies).0.db.transactions;
      |after| == |before| &&
      ((forall t: Id :: t < |after| && after[t].reservation == event.reservation ==> !IsCancellable(after[t].status))
       <==>
       (forall t: Id :: t < |before| && before[t].reservation == event.reservation && IsCancellable(before[t].status)
          ==> |Newer(before, event.reservation, t)| < 100))
  {
    CompletedCancelIsQuiet(w, event, replies);
  }

  lemma RowsToCancelAreListed(transactions: seq<Transaction>, reservation: nat)
    ensures var rows := RowsToCancel(transactions, reservation);
      && Distinct(rows)
      && (forall i, j :: 0 <= i < j < |rows| ==> rows[j] < rows[i])
      && (forall i :: 0 <= i < |rows| ==> rows[i] < |transactions| && transactions[rows[i]].reservation == reservation)
  {
    var ids := ListByReservation(transactions, reservation);
    assert forall i :: 0 <= i < |ids| ==> ids[i] in ids;
  }

  /** With at most a hundred rows for the reservation and every cancel answered, no
      row of it stays cancellable and every other row is as it was. */
  lemma SmallReservationIsCancelled(w: World, event: ReservationEvent, replies: Id -> Reply)
    requires |set t: Id | t < |w.db.transactions| && w.db.transactions[t].reservation == event.reservation| <= 100
    requires forall t: Id :: t < |w.db.transactions| ==> replies(t).Answered? && w.db.transactions[t].provider.Some?
    ensures HandleCancelled(w, event, replies).1.Returned?
    ensures var before, after := w.db.transactions, HandleCancelled(w, event, replies).0.db.transactions;
      |after| == |before|
      && forall t: Id :: t < |before| ==> after[t] == CancelledIf(before[t], before[t].reservation == event.reservation)
  {
    var transactions, rows := w.db.transactions, RowsToCancel(w.db.transactions, event.reservation);
    RowsToCancelAreListed(transactions, event.reservation);
    CancelAllEffect(w, rows, replies);
    CompletedCancelIsQuiet(w, event, replies);
    forall t: Id | t < |transactions| && transactions[t].reservation == event.reservation
      ensures IsAmongNewest(transactions, event.reservation, t)
    {
      FewRowsAreAllNewest(transactions, event.reservation, t);
    }
  }

  lemma FewRowsAreAllNewest(transactions: seq<Transaction>, reservation: nat, t: Id)
    requires t < |transactions| && transactions[t].reservation == reservation
    ensures |Newer(transactions, reservation, t)| < |set u: Id | u < |transactions| && transactions[u].reservation == reservation|
  {
    var all := set u: Id | u < |transactions| && transactions[u].reservation == reservation;
    var newer := Newer(transactions, reservation, t);
    assert newer + {t} <= all;
    Larger(newer + {t}, all);
  }

  lemma {:induction false} Larger(a: set<Id>, b: set<Id>)
    requires a <= b
    ensures |a| <= |b|
  {
    assert b == a + (b - a);
  }

  /** The PayPal gateway never cancels. A cancellable PayPal payment with an identifier
      therefore makes every such event fail, and none of the reservation's payments
      that come after it in the list, the older ones, is ever cancelled by one. */
  lemma PayPalBlocksOlderRows(w: World, event: ReservationEvent, replies: Id -> Reply, blocked: Id)
    requires IsAmongNewest(w.db.transactions, event.reservation, blocked)
    requires var row := w.db.transactions[blocked];
      IsCancellable(row.status) && HasGatewayId(row) && row.provider == Some(PayPal)
    requires forall t: Id :: t < |w.db.transactions| && w.db.transactions[t].provider == Some(PayPal) ==> !replies(t).Answered?
    ensures var (after, outcome) := HandleCancelled(w, event, replies);
      && outcome.Raised? && |after.db.transactions| == |w.db.transactions|
      && forall t: Id :: t <= blocked ==> after.db.transactions[t] == w.db.transactions[t]
  {
    var rows := RowsToCancel(w.db.transactions, event.reservation);
    RowsToCancelAreListed(w.db.transactions, event.reservation);
    CancelAllEffect(w, rows, replies);
    var p := FirstRaising(w.db.transactions, rows, replies);
    RowsToCancelAreNewest(w.db.transactions, event.reservation, blocked);
    var i :| 0 <= i < |rows| && rows[i] == blocked;
    assert p <= i;
    NewerRowsAreLarger(rows, p, i);
  }

  lemma NewerRowsAreLarger(rows: seq<Id>, p: nat, i: nat)
    requires p <= i < |rows| && forall j, k :: 0 <= j < k < |rows| ==> rows[k] < rows[j]
    ensures forall t: Id :: t <= rows[i] ==> t !in rows[..p]
  {
    assert forall j :: 0 <= j < p ==> rows[i] < rows[j];
  }

  lemma {:induction false} QuietRowsAreLeft(w: World, ids: seq<Id>, replies: Id -> Reply)
    requires forall i :: 0 <= i < |ids| && ids[i] < |w.db.transactions| ==> !IsCancellable(w.db.transactions[ids[i]].status)
    ensures CancelAll(w, ids, replies) == (w, Returned(()))
  {
    if ids != [] {
      QuietRowsAreLeft(w, ids[..|ids| - 1], replies);
    }
  }

  // -- Redelivery ---------------------------------------------------------------

  /** The reservations whose rows handling an event can touch. A confirmation finds
      its row by key alone; the reservation it names is not looked at. */
  predicate Concerns(db: Database, event: ReservationEvent, reservation: nat) {
    match event.kind
    case ReservationConfirmed =>
      var found := FindByKey(db.transactions, event.key);
      found.Some? && db.transactions[found.value].reservation == reservation
    case _ => event.reservation == reservation
  }

  /** `after` has the reservation's rows exactly as `before` has them. */
  predicate SameRows(before: seq<Transaction>, after: seq<Transaction>, reservation: nat) {
    && |before| <= |after|
    && ListByReservation(after, reservation) == ListByReservation(before, reservation)
    && forall t :: t in ListByReservation(before, reservation) ==> after[t] == before[t]
  }

  lemma {:induction false} WriteElsewhere(before: seq<Transaction>, write: Write<Transaction>, reservation: nat)
    requires write.Put? ==> write.index <= |before| && write.row.reservation != reservation
    requires write.Put? && write.index < |before| ==> before[write.index].reservation == write.row.reservation
    ensures SameRows(before, Store(before, write), reservation)
  {
    if write.Put? && write.index < |before| {
      ListingSurvives(before, Store(before, write), reservation);
    } else if write.Put? {
      assert Store(before, write)[..|before|] == before;
    }
  }

  /** Handling an event of another reservation leaves this one's rows alone. */
  lemma DeliverElsewhere(w: World, d: Delivery, reservation: nat)
    requires !Concerns(w.db, d.event, reservation)
    ensures SameRows(w.db.transactions, Deliver(w, d).0.db.transactions, reservation)
  {
    match d.event.kind {
      case ReservationCreated =>
        WriteElsewhere(w.db.transactions, HandleCreated(w.db, d.event, d.methodExists, d.reply).0.transaction, reservation);
      case ReservationConfirmed =>
        WriteElsewhere(w.db.transactions, HandleConfirmed(w.db, d.event, d.reply).0.transaction, reservation);
      case _ =>
        var rows := RowsToCancel(w.db.transactions, d.event.reservation);
        RowsToCancelAreListed(w.db.transactions, d.event.reservation);
        CancelAllEffect(w, rows, d.cancelReplies);
        ListingSurvives(w.db.transactions, Deliver(w, d).0.db.transactions, reservation);
    }
  }

  /** No event of the sequence concerns the reservation when it is handled. */
  predicate NoneConcerns(w: World, ds: seq<Delivery>, reservation: nat)
    decreases |ds|
  {
    ds == [] || (!Concerns(w.db, ds[0].event, reservation) && NoneConcerns(Deliver(w, ds[0]).0, ds[1..], reservation))
  }

  lemma {:induction false} DeliverAllElsewhere(w: World, ds: seq<Delivery>, reservation: nat)
    requires NoneConcerns(w, ds, reservation)
    ensures SameRows(w.db.transactions, DeliverAll(w, ds).db.transactions, reservation)
    decreases |ds|
  {
    if ds != [] {
      DeliverElsewhere(w, ds[0], reservation);
      DeliverAllElsewhere(Deliver(w, ds[0]).0, ds[1..], reservation);
    }
  }

  /** Redelivering a cancelled or expired event that completed changes nothing, with
      any events of other reservations in between and whatever the gateway answers. */
  lemma RedeliveredCancelChangesNothing(w: World, event: ReservationEvent, first: Id -> Reply,
                                        between: seq<Delivery>, second: Id -> Reply)
    requires HandleCancelled(w, event, first).1.Returned?
    requires NoneConcerns(HandleCancelled(w, event, first).0, between, event.reservation)
    ensures var before := DeliverAll(HandleCancelled(w, event, first).0, between);
      HandleCancelled(before, event, second) == (before, Returned(()))
  {
    var mid := HandleCancelled(w, event, first).0;
    CompletedCancelIsQuiet(w, event, first);
    DeliverAllElsewhere(mid, between, event.reservation);
    var before := DeliverAll(mid, between);
    RowsToCancelAreListed(mid.db.transactions, event.reservation);
    var rows := RowsToCancel(before.db.transactions, event.reservation);
    assert rows == RowsToCancel(mid.db.transactions, event.reservation);
    forall i | 0 <= i < |rows| ensures rows[i] < |before.db.transactions| && !IsCancellable(before.db.transactions[rows[i]].status) {
      assert rows[i] in ListByReservation(mid.db.transactions, event.reservation);
      assert rows[i] in RowsToCancel(mid.db.transactions, event.reservation);
    }
    QuietRowsAreLeft(before, rows, second);
  }

  /** A key is held by the row found under it and by no other. */
  lemma FoundIsUnique(db: Database, t: Id)
    requires UniqueKeys(db) && t < |db.transactions|
    ensures FindByKey(db.transactions, db.transactions[t].key) == Some(t)
  {
    var found := FindByKey(db.transactions, db.transactions[t].key);
    assert KeyTaken(db.transactions, db.transactions[t].key);
    assert db.transactions[found.value].key == db.transactions[t].key;
  }

  lemma HandledConfirmLeavesAuthorized(db: Database, event: ReservationEvent, reply: Reply)
    requires KeyTaken(db.transactions, event.key)
    requires HandleConfirmed(db, event, reply).1 in {Returned(()), Raised(PaymentSagaFailed)}
    ensures var t := FindByKey(db.transactions, event.key).value;
      var after := Store(db.transactions, HandleConfirmed(db, event, reply).0.transaction);
      |after| == |db.transactions| && SameIdentity(after[t], db.transactions[t]) && after[t].status != Authorized
  {
    var t := FindByKey(db.transactions, event.key).value;
    if db.transactions[t].status == Authorized {
      CaptureSagaOutcome(db, t, None, reply);
    }
  }

  lemma ConfirmIsRun(w: World, event: ReservationEvent, reply: Reply)
    ensures Reaches(w, Commit(w, HandleConfirmed(w.db, event, reply).0))
  {
    var d := Delivery(event.(kind := ReservationConfirmed), true, reply, _ => Crashed);
    DeliverIsRun(w, d);
    assert HandleConfirmed(w.db, d.event, reply) == HandleConfirmed(w.db, event, reply);
    assert Reaches(w, Deliver(w, d).0);
  }

  /** Redelivering a confirmation that was handled, or that ended in the saga's own
      error, changes nothing and calls no gateway, whatever ran in between. */
  lemma RedeliveredConfirmChangesNothing(w: World, event: ReservationEvent, first: Reply, between: seq<Step>, second: Reply)
    requires Sound(w.db) && KeyTaken(w.db.transactions, event.key)
    requires HandleConfirmed(w.db, event, first).1 in {Returned(()), Raised(PaymentSagaFailed)}
    ensures var before := Run(Commit(w, HandleConfirmed(w.db, event, first).0), between);
      HandleConfirmed(before.db, event, second) == (NO_CHANGE, Returned(()))
  {
    var t := FindByKey(w.db.transactions, event.key).value;
    var mid := Commit(w, HandleConfirmed(w.db, event, first).0);
    HandledConfirmLeavesAuthorized(w.db, event, first);
    ConfirmIsRun(w, event, first);
    var steps :| mid == Run(w, steps);
    RunsStaySound(w, steps);
    RunsStaySound(mid, between);
    RunContinues(mid, between);
    FoundIsUnique(Run(mid, between).db, t);
  }

  /** Only a confirmation that died of an unknown exception is repeated: the next
      delivery calls the gateway's capture again. */
  lemma CrashedConfirmIsRepeated(w: World, event: ReservationEvent, first: Reply, second: Reply)
    requires HandleConfirmed(w.db, event, first).1 == Raised(Unhandled)
    ensures KeyTaken(w.db.transactions, event.key)
    ensures var mid := Commit(w, HandleConfirmed(w.db, event, first).0);
      mid.db == w.db
      && CaptureCalled(FindByKey(w.db.transactions, event.key).value) in HandleConfirmed(mid.db, event, second).0.events
  {
    var t := FindByKey(w.db.transactions, event.key).value;
    CaptureSagaOutcome(w.db, t, None, first);
  }
}
