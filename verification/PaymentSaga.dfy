/** The payment saga with its exception handling and compensation, and the two worker
    tasks that drive it, proved equal to their closed forms in `Sagas`. */
module PaymentSagas {
  import opened Ledger
  import opened Gateway
  import opened PaymentServices
  import Payments
  import Sagas
  import Workers

  class PaymentSaga {
    const service: PaymentService

    constructor (service: PaymentService)
      ensures this.service == service
    {
      this.service := service;
    }

    method Execute(request: Payments.PaymentRequest, methodExists: bool, reply: Reply) returns (outcome: Outcome<Id>)
      requires service.session.IsClean()
      modifies service.session
      ensures service.session.IsClean()
      ensures var (change, result) := Sagas.ExecutePayment(old(service.session.stored), request, methodExists, reply);
        outcome == result && service.session.Committed() == Commit(old(service.session.Committed()), change)
    {
      Sagas.CreateStores(service.session.stored, request, methodExists, reply);
      var created := service.CreatePayment(request, methodExists, reply);
      if created.Raised? {
        return if IsPaymentServiceError(created.error) then Raised(PaymentSagaFailed) else created;
      }
      var status := service.session.transactions[created.value].status;
      if status == Succeeded || status == Authorized {
        return created;
      }
      if status in {Failed, Cancelled} {
        return Raised(PaymentSagaFailed);
      }
      return created;
    }

    /** `cancelReply` is what the gateway would answer to the compensating cancel. The
        result does not depend on it: no run of this method gets there. */
    method Capture(t: Id, amount: Option<int>, reply: Reply, cancelReply: Reply) returns (outcome: Outcome<Id>)
      requires service.session.IsClean()
      modifies service.session
      ensures service.session.IsClean()
      ensures var (change, result) := Sagas.CapturePaymentSaga(old(service.session.stored), t, amount, reply);
        outcome == result && service.session.Committed() == Commit(old(service.session.Committed()), change)
    {
      if |service.session.transactions| <= t {
        return Raised(TransactionNotFound);
      }
      if service.session.transactions[t].status != Authorized {
        return Raised(InvalidTransactionState);
      }
      outcome := CaptureOrCompensate(t, amount, reply, cancelReply);
    }

    /** The try block that `capture` and `execute_with_capture` share. */
    method CaptureOrCompensate(t: Id, amount: Option<int>, reply: Reply, cancelReply: Reply) returns (outcome: Outcome<Id>)
      requires service.session.IsClean()
      requires t < |service.session.transactions| && service.session.transactions[t].status == Authorized
      modifies service.session
      ensures service.session.IsClean()
      ensures var (change, result) := Sagas.CapturePaymentSaga(old(service.session.stored), t, amount, reply);
        outcome == result && service.session.Committed() == Commit(old(service.session.Committed()), change)
    {
      var captured := service.CapturePayment(t, amount, reply);
      if captured.Returned? || !IsPaymentServiceError(captured.error) {
        return captured;
      }
      var compensated := CompensateCaptureFailure(t, cancelReply);
      match compensated {
        case Raised(e) => return Raised(e);
        case Returned(_) => return Raised(PaymentSagaFailed);
      }
    }

    /** Cancels an authorization whose capture failed. */
    method CompensateCaptureFailure(t: Id, reply: Reply) returns (outcome: Outcome<()>)
      requires service.session.IsClean()
      modifies service.session
      ensures service.session.IsClean()
      ensures var before := old(service.session.stored);
        if |before.transactions| <= t then
          outcome == Raised(CompensationFailed) && service.session.Committed() == old(service.session.Committed())
        else if before.transactions[t].status != Authorized then
          outcome.Returned? && service.session.Committed() == old(service.session.Committed())
        else
          var (change, cancelled) := Payments.CancelPayment(before, t, reply);
          && service.session.Committed() == Commit(old(service.session.Committed()), change)
          && (outcome.Returned? <==> cancelled.Returned?)
          && (outcome.Raised? ==>
                outcome.error == if IsPaymentServiceError(cancelled.error) then CompensationFailed else cancelled.error)
    {
      if |service.session.transactions| <= t {
        return Raised(CompensationFailed);
      }
      if service.session.transactions[t].status != Authorized {
        return Returned(());
      }
      var cancelled := service.CancelPayment(t, reply);
      if cancelled.Raised? {
        return Raised(if IsPaymentServiceError(cancelled.error) then CompensationFailed else cancelled.error);
      }
      return Returned(());
    }

    method Cancel(t: Id, reply: Reply) returns (outcome: Outcome<Id>)
      requires service.session.IsClean()
      modifies service.session
      ensures service.session.IsClean()
      ensures var (change, result) := Sagas.CancelPaymentSaga(old(service.session.stored), t, reply);
        outcome == result && service.session.Committed() == Commit(old(service.session.Committed()), change)
    {
      var cancelled := service.CancelPayment(t, reply);
      if cancelled.Raised? && IsPaymentServiceError(cancelled.error) {
        return Raised(PaymentSagaFailed);
      }
      return cancelled;
    }

    method ExecuteWithCapture(request: Payments.PaymentRequest, methodExists: bool, createReply: Reply,
                              captureReply: Reply, cancelReply: Reply) returns (outcome: Outcome<Id>)
      requires service.session.IsClean()
      modifies service.session
      ensures service.session.IsClean()
      ensures (service.session.Committed(), outcome)
        == Sagas.ExecuteWithCapture(old(service.session.Committed()), request, methodExists, createReply, captureReply)
    {
      Sagas.CreateStores(service.session.stored, request, methodExists, createReply);
      var created := service.CreatePayment(request, methodExists, createReply);
      if created.Raised? {
        return if IsPaymentServiceError(created.error) then Raised(PaymentSagaFailed) else created;
      }
      var status := service.session.transactions[created.value].status;
      if status == Succeeded {
        return created;
      }
      if status != Authorized {
        return Raised(PaymentSagaFailed);
      }
      outcome := CaptureOrCompensate(created.value, None, captureReply, cancelReply);
    }
  }

  /** The worker that captures an authorized payment. */
  method CaptureAuthorizedPayment(saga: PaymentSaga, t: Id, amount: Option<int>, reply: Reply, cancelReply: Reply)
    returns (result: Workers.PaymentTaskResult)
    requires saga.service.session.IsClean()
    modifies saga.service.session
    ensures saga.service.session.IsClean()
    ensures var before := old(saga.service.session.stored);
      var (change, outcome) := Sagas.CapturePaymentSaga(before, t, amount, reply);
      && saga.service.session.Committed() == Commit(old(saga.service.session.Committed()), change)
      && result == (if outcome.Returned? then Workers.PaymentTaskResult(Succeeded, true, false)
                    else if outcome == Raised(InvalidTransactionState)
                    then Workers.PaymentTaskResult(before.transactions[t].status, false, true)
                    else Workers.PaymentTaskResult(Failed, false, true))
  {
    var session := saga.service.session;
    if |session.transactions| <= t {
      return Workers.PaymentTaskResult(Failed, false, true);
    }
    if session.transactions[t].status != Authorized {
      return Workers.PaymentTaskResult(session.transactions[t].status, false, true);
    }
    var outcome := saga.Capture(t, amount, reply, cancelReply);
    if outcome.Raised? {
      return Workers.PaymentTaskResult(Failed, false, true);
    }
    return Workers.PaymentTaskResult(session.transactions[outcome.value].status, true, false);
  }

  /** The worker that cancels a pending payment. */
  method CancelPendingPayment(saga: PaymentSaga, t: Id, reply: Reply) returns (result: Workers.PaymentTaskResult)
    requires saga.service.session.IsClean()
    modifies saga.service.session
    ensures saga.service.session.IsClean()
    ensures var before := old(saga.service.session.stored);
      var (change, outcome) := Sagas.CancelPaymentSaga(before, t, reply);
      && saga.service.session.Committed() == Commit(old(saga.service.session.Committed()), change)
      && result == (if outcome.Returned? then Workers.PaymentTaskResult(Cancelled, true, false)
                    else if t < |before.transactions| && before.transactions[t].status in {Cancelled, Succeeded, Refunded}
                    then Workers.PaymentTaskResult(before.transactions[t].status, false, false)
                    else Workers.PaymentTaskResult(Failed, false, true))
  {
    var session := saga.service.session;
    if |session.transactions| <= t {
      return Workers.PaymentTaskResult(Failed, false, true);
    }
    if session.transactions[t].status in {Cancelled, Succeeded, Refunded} {
      return Workers.PaymentTaskResult(session.transactions[t].status, false, false);
    }
    var outcome := saga.Cancel(t, reply);
    if outcome.Raised? {
      return Workers.PaymentTaskResult(Failed, false, true);
    }
    return Workers.PaymentTaskResult(session.transactions[outcome.value].status, true, false);
  }
}
