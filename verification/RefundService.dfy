/** The refund service and the refund tasks, proved to commit what `Refunds` says. */
module RefundServices {
  import opened Ledger
  import opened Gateway
  import opened Sessions
  import Refunds

  class RefundService {
    const session: Session

    constructor (session: Session)
      ensures this.session == session
    {
      this.session := session;
    }

    method CreateRefund(request: Refunds.RefundRequest, reply: Reply) returns (outcome: Outcome<Id>)
      requires session.IsClean()
      modifies session
      ensures session.IsClean()
      ensures var (change, result) := Refunds.CreateRefund(old(session.stored), request, reply);
        outcome == result && session.Committed() == Commit(old(session.Committed()), change)
    {
      if RefundKeyTaken(session.refunds, request.key) {
        return Raised(RefundAlreadyProcessed);
      }
      var t := request.transaction;
      if |session.transactions| <= t {
        return Raised(RefundFailure);
      }
      var row := session.transactions[t];
      if !(row.status in {Succeeded, PartiallyRefunded}) || row.captured <= 0 {
        return Raised(RefundNotAllowed);
      }
      var available := row.captured - row.refunded;
      if request.amount > available {
        return Raised(RefundAmountExceeded);
      }
      var refund := Refund(t, request.amount, RefundPending, None, request.key, None);
      var r, added := session.AddRefund(refund);
      if !HasGatewayId(row) {
        session.Rollback();
        return Raised(RefundFailure);
      }
      if row.provider.None? {
        session.Rollback();
        return Raised(UnsupportedProvider);
      }
      session.Observe(RefundCalled(request.key));
      match reply {
        case Crashed =>
          session.Rollback();
          session.Observe(RefundLost(request.key));
          return Raised(Unhandled);
        case Refused(_) =>
          refund := refund.(status := RefundFailed);
          refund := refund.(failureCode := Some("gateway_error"));
          var updated := session.UpdateRefund(r, refund);
          session.Commit();
          return Raised(RefundFailure);
        case Answered(response) =>
          outcome := Settle(r, request, response);
      }
    }

    /** The gateway's answer is copied into the flushed refund `r` and, when the refund
        succeeded, booked on its transaction; both are flushed and committed together. */
    method Settle(r: Id, request: Refunds.RefundRequest, response: Response) returns (outcome: Outcome<Id>)
      requires request.transaction < |session.transactions| && session.transactions == session.stored.transactions
      requires r == |session.stored.refunds| && session.refunds == session.stored.refunds + [Refunds.NewRefund(request)]
      modifies session
      ensures session.IsClean()
      ensures var before, t := old(session.stored), request.transaction;
        var refundId, status := FirstTruthy(response.gatewayId, response.id), Refunds.ResolveRefundStatus(response.status);
        var refund := Refunds.NewRefund(request).(status := status, gatewayRefundId := refundId);
        var booked := Refunds.RefundedTransaction(before.transactions[t], request.amount);
        if GatewayRefundIdTaken(before.refunds, refundId) then
          && outcome == Raised(IntegrityViolation)
          && session.stored == before && session.trace == old(session.trace) + [RefundLost(request.key)]
        else
          && outcome == Returned(r) && session.trace == old(session.trace)
          && session.stored.refunds == before.refunds + [refund]
          && session.stored.transactions == if status == RefundSucceeded then before.transactions[t := booked] else before.transactions
    {
      var t := request.transaction;
      var refund := session.refunds[r];
      refund := refund.(status := Refunds.ResolveRefundStatus(response.status));
      refund := refund.(gatewayRefundId := FirstTruthy(response.gatewayId, response.id));
      if refund.status == RefundSucceeded {
        var row := session.transactions[t];
        row := row.(refunded := row.refunded + request.amount);
        if row.refunded >= row.amount {
          row := row.(status := Refunded);
        } else {
          row := row.(status := PartiallyRefunded);
        }
        var booked := session.UpdateTransaction(t, row);
      }
      RefundWithoutIdTakesNone(session.stored.refunds, Refunds.NewRefund(request), refund.gatewayRefundId);
      var updated := session.UpdateRefund(r, refund);
      if !updated {
        session.Rollback();
        session.Observe(RefundLost(request.key));
        return Raised(IntegrityViolation);
      }
      session.Commit();
      return Returned(r);
    }
  }

  method ProcessRefund(session: Session, r: Id) returns (result: Refunds.RefundTaskResult)
    requires session.IsClean()
    modifies session
    ensures session.IsClean()
    ensures var (change, expected) := Refunds.ProcessRefund(old(session.stored), r);
      result == expected && session.Committed() == Commit(old(session.Committed()), change)
  {
    if |session.refunds| <= r {
      return Refunds.RefundTaskResult(RefundFailed, false, true);
    }
    var refund := session.refunds[r];
    if refund.status == RefundSucceeded || refund.status == RefundCancelled || refund.status == RefundFailed {
      return Refunds.RefundTaskResult(refund.status, false, false);
    }
    refund := refund.(status := RefundProcessing);
    var updated := session.UpdateRefund(r, refund);
    session.Commit();
    return Refunds.RefundTaskResult(refund.status, true, false);
  }

  method RetryRefund(session: Session, r: Id) returns (result: Refunds.RefundTaskResult)
    requires session.IsClean()
    modifies session
    ensures session.IsClean()
    ensures var (change, expected) := Refunds.RetryRefund(old(session.stored), r);
      result == expected && session.Committed() == Commit(old(session.Committed()), change)
  {
    if |session.refunds| <= r {
      return Refunds.RefundTaskResult(RefundFailed, false, true);
    }
    var refund := session.refunds[r];
    if refund.status == RefundSucceeded {
      return Refunds.RefundTaskResult(refund.status, false, false);
    }
    refund := refund.(status := RefundProcessing);
    var updated := session.UpdateRefund(r, refund);
    session.Commit();
    return Refunds.RefundTaskResult(refund.status, true, false);
  }

  method CancelPendingRefund(session: Session, r: Id) returns (result: Refunds.RefundTaskResult)
    requires session.IsClean()
    modifies session
    ensures session.IsClean()
    ensures var (change, expected) := Refunds.CancelPendingRefund(old(session.stored), r);
      result == expected && session.Committed() == Commit(old(session.Committed()), change)
  {
    if |session.refunds| <= r {
      return Refunds.RefundTaskResult(RefundFailed, false, true);
    }
    var refund := session.refunds[r];
    if refund.status in {RefundSucceeded, RefundFailed, RefundCancelled} {
      return Refunds.RefundTaskResult(refund.status, false, false);
    }
    refund := refund.(status := RefundCancelled);
    var updated := session.UpdateRefund(r, refund);
    session.Commit();
    return Refunds.RefundTaskResult(refund.status, true, false);
  }
}
