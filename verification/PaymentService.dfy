/** The payment service, statement by statement, proved to commit what `Payments`
    says. An exception that leaves a call unwinds its session. */
module PaymentServices {
  import opened Ledger
  import opened Gateway
  import opened Sessions
  import Payments

  class PaymentService {
    const session: Session

    constructor (session: Session)
      ensures this.session == session
    {
      this.session := session;
    }

    method CreatePayment(request: Payments.PaymentRequest, methodExists: bool, reply: Reply) returns (outcome: Outcome<Id>)
      requires session.IsClean()
      modifies session
      ensures session.IsClean()
      ensures var (change, result) := Payments.CreatePayment(old(session.stored), request, methodExists, reply);
        outcome == result && session.Committed() == Commit(old(session.Committed()), change)
    {
      if KeyTaken(session.transactions, request.key) {
        return Raised(PaymentAlreadyProcessed);
      }
      if !methodExists {
        return Raised(PaymentMethodNotFound);
      }
      var row := Transaction(request.reservation, request.amount, Pending, Some(request.provider), None,
                             request.key, request.requiresCapture, 0, 0, None);
      var t, added := session.AddTransaction(row);
      session.Observe(CreateCalled(request.key));
      match reply {
        case Crashed =>
          session.Rollback();
          session.Observe(CreateLost(request.key));
          return Raised(Unhandled);
        case Refused(Declined) =>
          MarkFailed(t, "payment_declined");
          return Raised(PaymentFailed);
        case Refused(TimedOut) =>
          MarkFailed(t, "gateway_timeout");
          return Raised(PaymentFailed);
        case Refused(Unavailable) =>
          MarkFailed(t, "gateway_error");
          return Raised(PaymentFailed);
        case Answered(response) =>
          outcome := Settle(t, request, response);
      }
    }

    /** The gateway's answer is copied into the flushed row `t` and committed. */
    method Settle(t: Id, request: Payments.PaymentRequest, response: Response) returns (outcome: Outcome<Id>)
      requires session.refunds == session.stored.refunds
      requires t == |session.stored.transactions|
      requires session.transactions == session.stored.transactions + [Payments.NewTransaction(request)]
      modifies session
      ensures session.IsClean() && session.stored.refunds == old(session.stored.refunds)
      ensures var before := old(session.stored.transactions);
        if Payments.CreateIsLost(old(session.stored), Answered(response)) then
          && outcome == Raised(if response.captured.Malformed? then Unhandled else IntegrityViolation)
          && session.stored == old(session.stored) && session.trace == old(session.trace) + [CreateLost(request.key)]
        else
          && outcome == Returned(t) && session.trace == old(session.trace)
          && session.stored.transactions == before + [Payments.SettledTransaction(request, response)]
    {
      var row := session.transactions[t];
      row := row.(status := Payments.ResolvePaymentStatus(response.status, request.requiresCapture));
      row := row.(gatewayId := FirstTruthy(response.gatewayId, response.id));
      match response.captured {
        case Reported(cents) => row := row.(captured := cents);
        case Malformed =>
          session.Rollback();
          session.Observe(CreateLost(request.key));
          return Raised(Unhandled);
        case _ =>
      }
      RowWithoutIdTakesNone(session.stored.transactions, Payments.NewTransaction(request), row.gatewayId);
      var updated := session.UpdateTransaction(t, row);
      if !updated {
        session.Rollback();
        session.Observe(CreateLost(request.key));
        return Raised(IntegrityViolation);
      }
      session.Commit();
      return Returned(t);
    }

    /** Commits a row as FAILED. */
    method MarkFailed(t: Id, failureCode: string)
      requires t < |session.transactions|
      modifies session
      ensures session.IsClean() && session.trace == old(session.trace)
      ensures session.refunds == old(session.refunds)
      ensures session.transactions == old(session.transactions)
        [t := old(session.transactions)[t].(status := Failed, failureCode := Some(failureCode))]
    {
      var updated := session.UpdateTransaction(t, session.transactions[t].(status := Failed, failureCode := Some(failureCode)));
      session.Commit();
    }

    method CapturePayment(t: Id, amount: Option<int>, reply: Reply) returns (outcome: Outcome<Id>)
      requires session.IsClean()
      modifies session
      ensures session.IsClean()
      ensures var (change, result) := Payments.CapturePayment(old(session.stored), t, amount, reply);
        outcome == result && session.Committed() == Commit(old(session.Committed()), change)
    {
      if |session.transactions| <= t {
        return Raised(TransactionNotFound);
      }
      var row := session.transactions[t];
      if row.status != Authorized {
        return Raised(InvalidTransactionState);
      }
      if !HasGatewayId(row) {
        return Raised(PaymentFailed);
      }
      if row.provider.None? {
        return Raised(UnsupportedProvider);
      }
      session.Observe(CaptureCalled(t));
      match reply {
        case Crashed =>
          session.Observe(CaptureLost(t));
          return Raised(Unhandled);
        case Refused(_) =>
          MarkFailed(t, "capture_failed");
          return Raised(PaymentFailed);
        case Answered(response) =>
          session.Observe(CaptureAnswered(t));
          var captured;
          match response.captured {
            case Reported(cents) => captured := cents;
            case Absent => captured := if amount.Some? && amount.value != 0 then amount.value else row.amount;
            case _ =>
              session.Observe(CaptureLost(t));
              return Raised(Unhandled);
          }
          row := row.(captured := captured);
          row := row.(status := Succeeded);
          var updated := session.UpdateTransaction(t, row);
          session.Commit();
          return Returned(t);
      }
    }

    method CancelPayment(t: Id, reply: Reply) returns (outcome: Outcome<Id>)
      requires session.IsClean()
      modifies session
      ensures session.IsClean()
      ensures var (change, result) := Payments.CancelPayment(old(session.stored), t, reply);
        outcome == result && session.Committed() == Commit(old(session.Committed()), change)
    {
      if |session.transactions| <= t {
        return Raised(TransactionNotFound);
      }
      var row := session.transactions[t];
      if !(row.status in {Pending, Authorized, Processing}) {
        return Raised(InvalidTransactionState);
      }
      if HasGatewayId(row) {
        if row.provider.None? {
          return Raised(UnsupportedProvider);
        }
        session.Observe(CancelCalled(t));
        match reply {
          case Crashed => return Raised(Unhandled);
          case Refused(_) => return Raised(PaymentFailed);
          case Answered(_) => session.Observe(CancelAnswered(t));
        }
      }
      row := row.(status := Cancelled);
      var updated := session.UpdateTransaction(t, row);
      session.Commit();
      return Returned(t);
    }
  }
}
