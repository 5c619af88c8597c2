/** What delivering a reservation event does to each row and how it ends, told from the
    event, the stored rows and the gateway's answers alone. */
module EventOutcomes {
  import opened Ledger
  import opened Gateway
  import opened Payments
  import opened Runs
  import opened Conservation
  import opened Deliveries
  import opened CancelLoop
  import opened PaymentOutcomes

  // -- Created ------------------------------------------------------------------

  /** A created event is refused for an amount that is not positive, an unsupported
      provider or an empty key, before anything is asked. */
  lemma InvalidCreatedIsRefused(w: World, d: Delivery)
    requires d.event.kind == ReservationCreated
    ensures Deliver(w, d).1 == Raised(InvalidValue)
       <==> d.event.amount <= 0 || d.event.provider == None || d.event.key == ""
    ensures Deliver(w, d).1 == Raised(InvalidValue) ==> Deliver(w, d).0 == w
  {
    assert Commit(w, NO_CHANGE) == w;
    if 0 < d.event.amount && d.event.provider != None && d.event.key != "" {
      ExecuteOutcome(w, RequestOf(d.event), d.methodExists, d.reply);
    }
  }

  /** The payment such an event asks for: the whole amount, authorized but not captured. */
  function RequestOf(event: ReservationEvent): PaymentRequest
    requires 0 < event.amount && event.provider != None
  {
    PaymentRequest(event.reservation, event.amount, event.provider.value, true, event.key)
  }

  /** A valid one stores what creating that payment stores, and returns exactly when
      this is an AUTHORIZED row; it ends in the saga's error exactly when the key is
      taken, the method is missing, the gateway refuses or tells of a failure. */
  lemma CreatedEventEnds(w: World, d: Delivery)
    requires d.event.kind == ReservationCreated && 0 < d.event.amount && d.event.provider != None && d.event.key != ""
    ensures var request, (after, outcome), t := RequestOf(d.event), Deliver(w, d), |w.db.transactions|;
      var kept := CreateIsKept(w.db, request, d.methodExists, d.reply);
      && after == Apply(w, Create(request, d.methodExists, d.reply))
      && (outcome.Returned? <==> kept && d.reply.response.status !in {"failed", "declined", "rejected"})
      && (outcome.Returned? <==> t < |after.db.transactions| && after.db.transactions[t].status == Authorized)
      && (outcome == Raised(PaymentSagaFailed) <==>
            || !IsFree(w.db, request.key) || !d.methodExists || d.reply.Refused?
            || (kept && d.reply.response.status in {"failed", "declined", "rejected"}))
      && (outcome.Raised? ==> outcome.error in {PaymentSagaFailed, Unhandled, IntegrityViolation})
  {
    var request := RequestOf(d.event);
    ExecuteOutcome(w, request, d.methodExists, d.reply);
    CreateStoresWhatWasAnswered(w, request, d.methodExists, d.reply);
    if CreateIsKept(w.db, request, d.methodExists, d.reply) {
      KeptAnswerIsRead(w, request, d.methodExists, d.reply);
    }
  }

  // -- Confirmed ----------------------------------------------------------------

  /** A confirmation under an unknown key, or of a row that is not AUTHORIZED, returns
      and does nothing. */
  lemma OtherConfirmIsIgnored(w: World, d: Delivery)
    requires d.event.kind == ReservationConfirmed && UniqueKeys(w.db)
    requires forall t: Id :: IsAuthorized(w.db, t) ==> w.db.transactions[t].key != d.event.key
    ensures Deliver(w, d) == (w, Returned(()))
  {
    var found := FindByKey(w.db.transactions, d.event.key);
    assert found.Some? ==> !IsAuthorized(w.db, found.value);
    assert Commit(w, NO_CHANGE) == w;
  }

  /** A confirmation of an AUTHORIZED row captures all of it, or cancels it locally when
      it has no identifier. */
  lemma ConfirmedEventEnds(w: World, d: Delivery, t: Id)
    requires d.event.kind == ReservationConfirmed && UniqueKeys(w.db)
    requires IsAuthorized(w.db, t) && w.db.transactions[t].key == d.event.key
    ensures var (after, outcome) := Deliver(w, d);
      var called := !LacksId(w.db, t) && !LacksProvider(w.db, t);
      && after.db == (if LacksId(w.db, t)
                      then w.db.(transactions := w.db.transactions[t := w.db.transactions[t].(status := Cancelled)])
                      else Apply(w, Capture(t, None, d.reply)).db)
      && (outcome.Returned? <==> called && IsUsable(d.reply))
      && (outcome == Raised(PaymentSagaFailed) <==> LacksId(w.db, t) || (called && d.reply.Refused?))
      && (outcome == Raised(UnsupportedProvider) <==> !LacksId(w.db, t) && LacksProvider(w.db, t))
      && (outcome == Raised(Unhandled) <==> called && !d.reply.Refused? && !IsUsable(d.reply))
  {
    FoundIsUnique(w.db, t);
    CaptureSagaEnds(w, t, None, d.reply);
  }

  // -- Cancelled and expired ----------------------------------------------------

  /** The cancel of row `t` is not done: the gateway is needed, and missing or not
      answering. */
  predicate IsBlocked(db: Database, t: Id, reply: Reply) {
    MayBeCancelled(db, t) && !LacksId(db, t) && (LacksProvider(db, t) || !reply.Answered?)
  }

  /** No cancel of the reservation's rows from `t` on, the newer ones, is blocked. */
  predicate IsUnblockedFrom(db: Database, t: Id, reservation: nat, replies: Id -> Reply) {
    forall u: Id :: t <= u < |db.transactions| && db.transactions[u].reservation == reservation ==> !IsBlocked(db, u, replies(u))
  }

  lemma BlockedRaises(db: Database, t: Id, reply: Reply)
    requires t < |db.transactions|
    ensures IsBlocked(db, t, reply) <==> CancelRaises(db.transactions[t], reply)
  {
  }

  /** The rows the loop cancels are the hundred newest with nothing blocked from them on. */
  lemma LoopGetsTo(db: Database, reservation: nat, replies: Id -> Reply, t: Id)
    ensures var rows := RowsToCancel(db.transactions, reservation);
      && (forall i :: 0 <= i < |rows| ==> rows[i] < |db.transactions|)
      && (t in rows[..FirstRaising(db.transactions, rows, replies)]
          <==> IsAmongNewest(db.transactions, reservation, t) && IsUnblockedFrom(db, t, reservation, replies))
  {
    var rows := RowsToCancel(db.transactions, reservation);
    RowsToCancelAreListed(db.transactions, reservation);
    RowsToCancelAreNewest(db.transactions, reservation, t);
    if t in rows {
      var i :| 0 <= i < |rows| && rows[i] == t;
      LoopPasses(db, reservation, replies, i);
    }
  }

  /** A sibling no older than the row at position `i` is listed up to there. */
  lemma ListedBefore(transactions: seq<Transaction>, reservation: nat, i: nat, u: Id) returns (j: nat)
    requires i < |RowsToCancel(transactions, reservation)| && RowsToCancel(transactions, reservation)[i] <= u
    requires u < |transactions| && transactions[u].reservation == reservation
    ensures j <= i && RowsToCancel(transactions, reservation)[j] == u
  {
    var ids := ListByReservation(transactions, reservation);
    assert u in ids;
    j :| 0 <= j < |ids| && ids[j] == u;
  }

  lemma LoopPasses(db: Database, reservation: nat, replies: Id -> Reply, i: nat)
    requires var rows := RowsToCancel(db.transactions, reservation);
      i < |rows| && forall j :: 0 <= j < |rows| ==> rows[j] < |db.transactions|
    ensures var rows := RowsToCancel(db.transactions, reservation);
      i < FirstRaising(db.transactions, rows, replies) <==> IsUnblockedFrom(db, rows[i], reservation, replies)
  {
    var rows := RowsToCancel(db.transactions, reservation);
    var p := FirstRaising(db.transactions, rows, replies);
    RowsToCancelAreListed(db.transactions, reservation);
    if i < p {
      forall u: Id | rows[i] <= u < |db.transactions| && db.transactions[u].reservation == reservation
        ensures !IsBlocked(db, u, replies(u))
      {
        var j := ListedBefore(db.transactions, reservation, i, u);
        BlockedRaises(db, u, replies(u));
      }
    } else {
      BlockedRaises(db, rows[p], replies(rows[p]));
      assert rows[i] <= rows[p];
    }
  }

  lemma LoopPassesAllIff(db: Database, reservation: nat, replies: Id -> Reply)
    ensures var rows := RowsToCancel(db.transactions, reservation);
      && (forall i :: 0 <= i < |rows| ==> rows[i] < |db.transactions|)
      && (FirstRaising(db.transactions, rows, replies) == |rows|
          <==> forall t: Id :: IsAmongNewest(db.transactions, reservation, t) ==> !IsBlocked(db, t, replies(t)))
  {
    var rows := RowsToCancel(db.transactions, reservation);
    RowsToCancelAreListed(db.transactions, reservation);
    var p := FirstRaising(db.transactions, rows, replies);
    if p < |rows| {
      RowsToCancelAreNewest(db.transactions, reservation, rows[p]);
      BlockedRaises(db, rows[p], replies(rows[p]));
    } else {
      forall t: Id | IsAmongNewest(db.transactions, reservation, t) ensures !IsBlocked(db, t, replies(t)) {
        RowsToCancelAreNewest(db.transactions, reservation, t);
        BlockedRaises(db, t, replies(t));
      }
    }
  }

  lemma EventIsLoop(w: World, d: Delivery)
    requires d.event.kind in {ReservationCancelled, ReservationExpired}
    ensures var rows := RowsToCancel(w.db.transactions, d.event.reservation);
      && (forall i :: 0 <= i < |rows| ==> rows[i] < |w.db.transactions|)
      && Deliver(w, d) == CancelAll(w, rows, d.cancelReplies)
      && LoopCameTo(w, rows, d.cancelReplies, Deliver(w, d))
  {
    RowsToCancelAreListed(w.db.transactions, d.event.reservation);
    CancelAllEffect(w, RowsToCancel(w.db.transactions, d.event.reservation), d.cancelReplies);
  }

  /** What a cancelled or expired event does to every row, whatever the gateway answers
      and whether or not it completes: a row becomes CANCELLED if and only if it is
      cancellable, belongs to the reservation, has fewer than a hundred newer siblings,
      and neither its cancel nor that of a newer sibling is blocked. */
  lemma CancelledEventEffect(w: World, d: Delivery, t: Id)
    requires d.event.kind in {ReservationCancelled, ReservationExpired} && t < |w.db.transactions|
    ensures var before, after, reservation := w.db.transactions, Deliver(w, d).0.db, d.event.reservation;
      && after.refunds == w.db.refunds && |after.transactions| == |before|
      && after.transactions[t]
         == if && before[t].status in {Pending, Authorized, Processing}
               && before[t].reservation == reservation
               && |set u | t < u < |before| && before[u].reservation == reservation| < 100
               && IsUnblockedFrom(w.db, t, reservation, d.cancelReplies)
            then before[t].(status := Cancelled) else before[t]
  {
    var before, reservation := w.db.transactions, d.event.reservation;
    EventIsLoop(w, d);
    LoopGetsTo(w.db, reservation, d.cancelReplies, t);
    assert (set u | t < u < |before| && before[u].reservation == reservation) == Newer(before, reservation, t);
  }

  /** It completes if and only if no cancel of the hundred newest rows is blocked. */
  lemma CancelledEventCompletesIff(w: World, d: Delivery)
    requires d.event.kind in {ReservationCancelled, ReservationExpired}
    ensures Deliver(w, d).1.Returned?
       <==> forall t: Id :: IsAmongNewest(w.db.transactions, d.event.reservation, t) ==> !IsBlocked(w.db, t, d.cancelReplies(t))
  {
    EventIsLoop(w, d);
    LoopPassesAllIff(w.db, d.event.reservation, d.cancelReplies);
  }

  /** Up to position `p`, where the first cancel is blocked, the loop has returned and
      has not touched the row there. */
  lemma LoopBefore(w: World, rows: seq<Id>, p: nat, replies: Id -> Reply)
    requires p < |rows| && Distinct(rows) && forall i :: 0 <= i < |rows| ==> rows[i] < |w.db.transactions|
    requires FirstRaising(w.db.transactions, rows, replies) == p
    ensures var (before, outcome) := CancelAll(w, rows[..p], replies);
      && outcome.Returned?
      && |before.db.transactions| == |w.db.transactions| && before.db.transactions[rows[p]] == w.db.transactions[rows[p]]
  {
    CancelAllEffect(w, rows[..p], replies);
    NoneRaises(w.db.transactions, rows, p, replies);
    assert rows[..p][..p] == rows[..p] && rows[p] !in rows[..p];
  }

  /** One more turn, whose cancel is blocked. */
  lemma BlockedTurn(w: World, first: seq<Id>, t: Id, replies: Id -> Reply)
    requires var (before, outcome) := CancelAll(w, first, replies);
      && outcome.Returned? && t < |w.db.transactions| && |before.db.transactions| == |w.db.transactions|
      && before.db.transactions[t] == w.db.transactions[t]
    requires IsBlocked(w.db, t, replies(t))
    ensures CancelAll(w, first + [t], replies).1 == BlockedEnd(w.db, t, replies(t))
  {
    CancelAllNext(w, first, t, replies);
    CancelSagaEnds(CancelAll(w, first, replies).0.db, t, replies(t));
  }

  /** How the cancel of a blocked row ends. */
  function BlockedEnd(db: Database, t: Id, reply: Reply): Outcome<()> {
    Raised(if LacksProvider(db, t) then UnsupportedProvider else if reply.Refused? then PaymentSagaFailed else Unhandled)
  }

  lemma NoneRaises(transactions: seq<Transaction>, rows: seq<Id>, p: nat, replies: Id -> Reply)
    requires p <= |rows| && forall i :: 0 <= i < |rows| ==> rows[i] < |transactions|
    requires p <= FirstRaising(transactions, rows, replies)
    ensures FirstRaising(transactions, rows[..p], replies) == p
  {
  }

  lemma BlockedLoopEnds(w: World, rows: seq<Id>, p: nat, replies: Id -> Reply)
    requires p < |rows| && Distinct(rows) && forall i :: 0 <= i < |rows| ==> rows[i] < |w.db.transactions|
    requires FirstRaising(w.db.transactions, rows, replies) == p && IsBlocked(w.db, rows[p], replies(rows[p]))
    ensures CancelAll(w, rows, replies).1 == BlockedEnd(w.db, rows[p], replies(rows[p]))
  {
    LoopBefore(w, rows, p, replies);
    BlockedTurn(w, rows[..p], rows[p], replies);
    assert rows[..p + 1] == rows[..p] + [rows[p]];
    RaisedCancelStops(w, rows, p + 1, replies);
  }

  /** Otherwise it ends as the cancel of the newest blocked row does. */
  lemma BlockedEventRaises(w: World, d: Delivery, t: Id)
    requires d.event.kind in {ReservationCancelled, ReservationExpired}
    requires IsAmongNewest(w.db.transactions, d.event.reservation, t) && IsBlocked(w.db, t, d.cancelReplies(t))
    requires IsUnblockedFrom(w.db, t + 1, d.event.reservation, d.cancelReplies)
    ensures Deliver(w, d).1 == BlockedEnd(w.db, t, d.cancelReplies(t))
  {
    var rows := RowsToCancel(w.db.transactions, d.event.reservation);
    EventIsLoop(w, d);
    RowsToCancelAreListed(w.db.transactions, d.event.reservation);
    RowsToCancelAreNewest(w.db.transactions, d.event.reservation, t);
    var i :| 0 <= i < |rows| && rows[i] == t;
    NewestBlockedIsFirst(w.db, rows, i, d.event.reservation, d.cancelReplies);
    BlockedLoopEnds(w, rows, i, d.cancelReplies);
  }

  lemma NewestBlockedIsFirst(db: Database, rows: seq<Id>, i: nat, reservation: nat, replies: Id -> Reply)
    requires i < |rows| && forall j, k :: 0 <= j < k < |rows| ==> rows[k] < rows[j]
    requires forall j :: 0 <= j < |rows| ==> rows[j] < |db.transactions| && db.transactions[rows[j]].reservation == reservation
    requires IsBlocked(db, rows[i], replies(rows[i])) && IsUnblockedFrom(db, rows[i] + 1, reservation, replies)
    ensures FirstRaising(db.transactions, rows, replies) == i
  {
    var p := FirstRaising(db.transactions, rows, replies);
    BlockedRaises(db, rows[i], replies(rows[i]));
    if p < i {
      BlockedRaises(db, rows[p], replies(rows[p]));
    }
  }

  /** When it completes, a row becomes CANCELLED if and only if it is cancellable, belongs
      to the reservation, and has fewer than a hundred newer siblings. */
  lemma CompletedEventCancels(w: World, d: Delivery, t: Id)
    requires d.event.kind in {ReservationCancelled, ReservationExpired} && t < |w.db.transactions|
    requires Deliver(w, d).1.Returned?
    ensures var before, after := w.db.transactions, Deliver(w, d).0.db.transactions;
      && |after| == |before|
      && after[t]
         == if && before[t].status in {Pending, Authorized, Processing}
               && before[t].reservation == d.event.reservation
               && |set u | t < u < |before| && before[u].reservation == d.event.reservation| < 100
            then before[t].(status := Cancelled) else before[t]
  {
    var before, reservation := w.db.transactions, d.event.reservation;
    var rows := RowsToCancel(before, reservation);
    EventIsLoop(w, d);
    RowsToCancelAreNewest(before, reservation, t);
    assert rows[..|rows|] == rows;
    assert (set u | t < u < |before| && before[u].reservation == reservation) == Newer(before, reservation, t);
  }
}
