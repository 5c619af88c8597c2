/** The reservation event subscriber, proved to do what `Deliveries` says. */
module ReservationEvents {
  import opened Ledger
  import opened Gateway
  import opened PaymentSagas
  import Deliveries
  import Payments

  class ReservationEventHandler {
    const saga: PaymentSaga

    constructor (saga: PaymentSaga)
      ensures this.saga == saga
    {
      this.saga := saga;
    }

    method Handle(d: Deliveries.Delivery, compensationReply: Reply) returns (outcome: Outcome<()>)
      requires saga.service.session.IsClean()
      modifies saga.service.session
      ensures saga.service.session.IsClean()
      ensures (saga.service.session.Committed(), outcome) == Deliveries.Deliver(old(saga.service.session.Committed()), d)
    {
      match d.event.kind {
        case ReservationCreated => outcome := HandleReservationCreated(d.event, d.methodExists, d.reply);
        case ReservationConfirmed => outcome := HandleReservationConfirmed(d.event, d.reply, compensationReply);
        case ReservationCancelled => outcome := HandleReservationCancelled(d.event, d.cancelReplies);
        case ReservationExpired => outcome := HandleReservationCancelled(d.event, d.cancelReplies);
      }
    }

    method HandleReservationCreated(event: Deliveries.ReservationEvent, methodExists: bool, reply: Reply)
      returns (outcome: Outcome<()>)
      requires saga.service.session.IsClean()
      modifies saga.service.session
      ensures saga.service.session.IsClean()
      ensures var (change, result) := Deliveries.HandleCreated(old(saga.service.session.stored), event, methodExists, reply);
        outcome == result && saga.service.session.Committed() == Commit(old(saga.service.session.Committed()), change)
    {
      if event.amount <= 0 || event.provider.None? || event.key == "" {
        return Raised(InvalidValue);
      }
      var request := Payments.PaymentRequest(event.reservation, event.amount, event.provider.value, true, event.key);
      var executed := saga.Execute(request, methodExists, reply);
      if executed.Raised? {
        return Raised(executed.error);
      }
      return Returned(());
    }

    method HandleReservationConfirmed(event: Deliveries.ReservationEvent, reply: Reply, compensationReply: Reply)
      returns (outcome: Outcome<()>)
      requires saga.service.session.IsClean()
      modifies saga.service.session
      ensures saga.service.session.IsClean()
      ensures var (change, result) := Deliveries.HandleConfirmed(old(saga.service.session.stored), event, reply);
        outcome == result && saga.service.session.Committed() == Commit(old(saga.service.session.Committed()), change)
    {
      var found := Deliveries.FindByKey(saga.service.session.transactions, event.key);
      if found.None? {
        return Returned(());
      }
      if saga.service.session.transactions[found.value].status != Authorized {
        return Returned(());
      }
      var captured := saga.Capture(found.value, None, reply, compensationReply);
      if captured.Raised? {
        return Raised(captured.error);
      }
      return Returned(());
    }

    /** The cancel loop; an exception leaves it at once. */
    method HandleReservationCancelled(event: Deliveries.ReservationEvent, replies: Id -> Reply) returns (outcome: Outcome<()>)
      requires saga.service.session.IsClean()
      modifies saga.service.session
      ensures saga.service.session.IsClean()
      ensures (saga.service.session.Committed(), outcome)
        == Deliveries.HandleCancelled(old(saga.service.session.Committed()), event, replies)
    {
      var session := saga.service.session;
      var ids := Deliveries.RowsToCancel(session.transactions, event.reservation);
      for i := 0 to |ids|
        invariant session.IsClean()
        invariant Deliveries.CancelAll(old(session.Committed()), ids[..i], replies) == (session.Committed(), Returned(()))
      {
        var t := ids[i];
        assert ids[..i + 1][..i] == ids[..i];
        var cancelled := CancelIfPending(t, replies(t));
        if cancelled.Raised? {
          Deliveries.RaisedCancelStops(old(session.Committed()), ids, i + 1, replies);
          return cancelled;
        }
      }
      assert ids[..|ids|] == ids;
      return Returned(());
    }

    /** The body of the loop. */
    method CancelIfPending(t: Id, reply: Reply) returns (outcome: Outcome<()>)
      requires saga.service.session.IsClean()
      modifies saga.service.session
      ensures saga.service.session.IsClean()
      ensures (saga.service.session.Committed(), outcome) == Deliveries.CancelOne(old(saga.service.session.Committed()), t, reply)
    {
      var session := saga.service.session;
      if t < |session.transactions| && session.transactions[t].status in {Pending, Authorized, Processing} {
        var cancelled := saga.Cancel(t, reply);
        if cancelled.Raised? {
          return Raised(cancelled.error);
        }
      }
      return Returned(());
    }
  }
}
