/** Reservation events, delivered at least once and in any order, as runs of the
    payment service. */
module Deliveries {
  import opened Ledger
  import opened Gateway
  import opened Payments
  import opened Runs
  import opened Calls
  import opened Sagas

  datatype EventKind = ReservationCreated | ReservationConfirmed | ReservationCancelled | ReservationExpired

  /** `provider` is absent when the event names no supported one. */
  datatype ReservationEvent = ReservationEvent(
    kind: EventKind, reservation: nat, amount: int, provider: Option<Provider>, key: string)

  /** An event and what the gateway answers while it is handled: one answer to a
      create or capture, and one for each cancel by transaction. */
  datatype Delivery = Delivery(event: ReservationEvent, methodExists: bool, reply: Reply, cancelReplies: Id -> Reply)

  // -- Queries ------------------------------------------------------------------

  function FindByKey(transactions: seq<Transaction>, key: string): (found: Option<Id>)
    ensures found.None? <==> !KeyTaken(transactions, key)
    ensures found.Some? ==> found.value < |transactions| && transactions[found.value].key == key
  {
    if transactions == [] then None
    else if transactions[|transactions| - 1].key == key then Some(|transactions| - 1)
    else
      var found := FindByKey(transactions[..|transactions| - 1], key);
      assert KeyTaken(transactions, key) ==> KeyTaken(transactions[..|transactions| - 1], key) by {
        if t: nat :| t < |transactions| && transactions[t].key == key {
          assert transactions[..|transactions| - 1][t].key == key;
        }
      }
      found
  }

  /** The reservation's rows, newest first. */
  function ListByReservation(transactions: seq<Transaction>, reservation: nat): (ids: seq<Id>)
    ensures forall t: Id :: t in ids <==> t < |transactions| && transactions[t].reservation == reservation
    ensures forall i, j :: 0 <= i < j < |ids| ==> ids[j] < ids[i]
  {
    if transactions == [] then []
    else
      var last := |transactions| - 1;
      var older := ListByReservation(transactions[..last], reservation);
      assert forall i :: 0 <= i < |older| ==> older[i] in older;
      (if transactions[last].reservation == reservation then [last] else []) + older
  }

  function Limited(ids: seq<Id>, limit: nat): seq<Id> {
    if |ids| <= limit then ids else ids[..limit]
  }

  const CANCEL_LIMIT: nat := 100

  function RowsToCancel(transactions: seq<Transaction>, reservation: nat): seq<Id> {
    Limited(ListByReservation(transactions, reservation), CANCEL_LIMIT)
  }

  // -- The handlers -------------------------------------------------------------

  function HandleCreated(db: Database, event: ReservationEvent, methodExists: bool, reply: Reply): (Change, Outcome<()>)
  {
    if event.amount <= 0 || event.provider.None? || event.key == "" then (NO_CHANGE, Raised(InvalidValue))
    else
      var request := PaymentRequest(event.reservation, event.amount, event.provider.value, true, event.key);
      var (change, outcome) := ExecutePayment(db, request, methodExists, reply);
      (change, if outcome.Raised? then Raised(outcome.error) else Returned(()))
  }

  function HandleConfirmed(db: Database, event: ReservationEvent, reply: Reply): (Change, Outcome<()>)
  {
    var found := FindByKey(db.transactions, event.key);
    if found.None? || db.transactions[found.value].status != Authorized then (NO_CHANGE, Returned(()))
    else
      var (change, outcome) := CapturePaymentSaga(db, found.value, None, reply);
      (change, if outcome.Raised? then Raised(outcome.error) else Returned(()))
  }

  /** One turn of the cancel loop, committed on its own. */
  function CancelOne(w: World, t: Id, reply: Reply): (World, Outcome<()>) {
    if |w.db.transactions| <= t || !IsCancellable(w.db.transactions[t].status) then (w, Returned(()))
    else
      var (change, outcome) := CancelPaymentSaga(w.db, t, reply);
      (Commit(w, change), if outcome.Raised? then Raised(outcome.error) else Returned(()))
  }

  /** The loop over a list of rows; nothing happens after a turn that raises. */
  function CancelAll(w: World, ids: seq<Id>, replies: Id -> Reply): (World, Outcome<()>) {
    if ids == [] then (w, Returned(()))
    else
      var (before, outcome) := CancelAll(w, ids[..|ids| - 1], replies);
      if outcome.Raised? then (before, outcome)
      else CancelOne(before, ids[|ids| - 1], replies(ids[|ids| - 1]))
  }

  /** Once a turn has raised, the rest of the list does not matter. */
  lemma {:induction false} RaisedCancelStops(w: World, ids: seq<Id>, n: nat, replies: Id -> Reply)
    requires n <= |ids| && CancelAll(w, ids[..n], replies).1.Raised?
    ensures CancelAll(w, ids, replies) == CancelAll(w, ids[..n], replies)
  {
    if n < |ids| {
      assert ids[..|ids| - 1][..n] == ids[..n];
      RaisedCancelStops(w, ids[..|ids| - 1], n, replies);
    } else {
      assert ids[..n] == ids;
    }
  }

  function HandleCancelled(w: World, event: ReservationEvent, replies: Id -> Reply): (World, Outcome<()>) {
    CancelAll(w, RowsToCancel(w.db.transactions, event.reservation), replies)
  }

  function Deliver(w: World, d: Delivery): (World, Outcome<()>) {
    match d.event.kind
    case ReservationCreated =>
      var (change, outcome) := HandleCreated(w.db, d.event, d.methodExists, d.reply);
      (Commit(w, change), outcome)
    case ReservationConfirmed =>
      var (change, outcome) := HandleConfirmed(w.db, d.event, d.reply);
      (Commit(w, change), outcome)
    case ReservationCancelled => HandleCancelled(w, d.event, d.cancelReplies)
    case ReservationExpired => HandleCancelled(w, d.event, d.cancelReplies)
  }

  function DeliverAll(w: World, ds: seq<Delivery>): World
    decreases |ds|
  {
    if ds == [] then w else DeliverAll(Deliver(w, ds[0]).0, ds[1..])
  }

  // -- Deliveries are runs ------------------------------------------------------

  /** The calls of the payment service that the cancel loop makes, with the answers
      they get. A row that is no longer cancellable is not cancelled, and a call to
      cancel it would change nothing. */
  function CancelSteps(w: World, ids: seq<Id>, replies: Id -> Reply): seq<Step> {
    if ids == [] then []
    else
      var first, t := ids[..|ids| - 1], ids[|ids| - 1];
      CancelSteps(w, first, replies)
      + if CancelAll(w, first, replies).1.Raised? then [] else [Cancel(t, replies(t))]
  }

  /** The calls that handling one event makes. */
  function DeliverySteps(w: World, d: Delivery): seq<Step> {
    var event := d.event;
    match event.kind
    case ReservationCreated =>
      if event.amount <= 0 || event.provider.None? || event.key == "" then []
      else [Create(PaymentRequest(event.reservation, event.amount, event.provider.value, true, event.key), d.methodExists, d.reply)]
    case ReservationConfirmed =>
      var found := FindByKey(w.db.transactions, event.key);
      if found.None? then [] else [CaptureSagaStep(w.db, found.value, None, d.reply)]
    case ReservationCancelled => CancelSteps(w, RowsToCancel(w.db.transactions, event.reservation), d.cancelReplies)
    case ReservationExpired => CancelSteps(w, RowsToCancel(w.db.transactions, event.reservation), d.cancelReplies)
  }

  lemma CancelOneIsStep(w: World, t: Id, reply: Reply)
    ensures CancelOne(w, t, reply).0 == Apply(w, Cancel(t, reply))
  {
  }

  lemma {:induction false} CancelAllIsRun(w: World, ids: seq<Id>, replies: Id -> Reply)
    ensures CancelAll(w, ids, replies).0 == Run(w, CancelSteps(w, ids, replies))
  {
    if ids != [] {
      var first, t := ids[..|ids| - 1], ids[|ids| - 1];
      var steps := CancelSteps(w, first, replies);
      CancelAllIsRun(w, first, replies);
      if CancelAll(w, first, replies).1.Raised? {
        assert steps + [] == steps;
      } else {
        RunAppend(w, steps, [Cancel(t, replies(t))]);
        RunOne(Run(w, steps), Cancel(t, replies(t)));
        CancelOneIsStep(Run(w, steps), t, replies(t));
      }
    }
  }

  /** Handling one event commits what those calls commit, one after the other. */
  lemma DeliverIsRun(w: World, d: Delivery)
    ensures Deliver(w, d).0 == Run(w, DeliverySteps(w, d))
  {
    assert w == Commit(w, NO_CHANGE);
    var steps := DeliverySteps(w, d);
    match d.event.kind {
      case ReservationCreated =>
        if steps != [] {
          RunOne(w, steps[0]);
        }
      case ReservationConfirmed =>
        var found := FindByKey(w.db.transactions, d.event.key);
        if found.Some? {
          RunOne(w, steps[0]);
          CaptureSagaIsStep(w.db, found.value, None, d.reply);
          OnlyAuthorizedIsCaptured(w, found.value, d.reply);
        }
      case ReservationCancelled => CancelAllIsRun(w, RowsToCancel(w.db.transactions, d.event.reservation), d.cancelReplies);
      case ReservationExpired => CancelAllIsRun(w, RowsToCancel(w.db.transactions, d.event.reservation), d.cancelReplies);
    }
  }

  lemma {:induction false} DeliverAllIsRun(w: World, ds: seq<Delivery>)
    ensures Reaches(w, DeliverAll(w, ds))
    decreases |ds|
  {
    ReachesItself(w);
    if ds != [] {
      DeliverIsRun(w, ds[0]);
      assert Reaches(w, Deliver(w, ds[0]).0);
      DeliverAllIsRun(Deliver(w, ds[0]).0, ds[1..]);
      ReachesIsTransitive(w, Deliver(w, ds[0]).0, DeliverAll(w, ds));
    }
  }

  /** However often and in whatever order events are delivered, each key is created
      at the gateway at most once, and each transaction captured at most once, not
      counting calls whose session rolled back. */
  lemma EffectsHappenOnce(ds: seq<Delivery>, key: string, t: Id)
    ensures var w := DeliverAll(EMPTY_WORLD, ds);
      && Count(w, CreateCalled(key)) - Count(w, CreateLost(key)) == (if KeyTaken(w.db.transactions, key) then 1 else 0)
      && 0 <= Count(w, CaptureCalled(t)) - Count(w, CaptureLost(t)) <= 1
  {
    DeliverAllIsRun(EMPTY_WORLD, ds);
    var steps :| DeliverAll(EMPTY_WORLD, ds) == Run(EMPTY_WORLD, steps);
    CreateCallsAreAccounted(EMPTY_WORLD, steps, key);
    CaptureCallsAreAccounted(EMPTY_WORLD, steps, t);
  }
}
