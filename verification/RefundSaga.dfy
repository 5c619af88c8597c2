/** The refund saga, proved equal to its closed form in `Sagas`. */
module RefundSagas {
  import opened Ledger
  import opened Gateway
  import opened RefundServices
  import Refunds
  import Sagas

  class RefundSaga {
    const service: RefundService

    constructor (service: RefundService)
      ensures this.service == service
    {
      this.service := service;
    }

    method Execute(request: Refunds.RefundRequest, reply: Reply) returns (outcome: Outcome<Id>)
      requires service.session.IsClean()
      modifies service.session
      ensures service.session.IsClean()
      ensures var (change, result) := Sagas.ExecuteRefund(old(service.session.stored), request, reply);
        outcome == result && service.session.Committed() == Commit(old(service.session.Committed()), change)
    {
      var existing := Sagas.FindRefund(service.session.refunds, request.key);
      if existing.Some? {
        return Returned(existing.value);
      }
      Sagas.RefundStores(service.session.stored, request, reply);
      var created := service.CreateRefund(request, reply);
      if created.Returned? {
        if service.session.refunds[created.value].status == RefundFailed {
          return Raised(RefundSagaFailed);
        }
        return created;
      }
      if created.error == RefundAlreadyProcessed {
        match Sagas.FindRefund(service.session.refunds, request.key) {
          case Some(r) => return Returned(r);
          case None => return Raised(RefundSagaFailed);
        }
      }
      if IsRefundServiceError(created.error) {
        return Raised(RefundSagaFailed);
      }
      return created;
    }

    /** Retrying does what executing does: an existing refund is never tried again. */
    method Retry(request: Refunds.RefundRequest, reply: Reply) returns (outcome: Outcome<Id>)
      requires service.session.IsClean()
      modifies service.session
      ensures service.session.IsClean()
      ensures var (change, result) := Sagas.ExecuteRefund(old(service.session.stored), request, reply);
        outcome == result && service.session.Committed() == Commit(old(service.session.Committed()), change)
    {
      var existing := Sagas.FindRefund(service.session.refunds, request.key);
      if existing.Some? {
        var refund := service.session.refunds[existing.value];
        if refund.status == RefundSucceeded {
          return Returned(existing.value);
        }
        if refund.status == RefundProcessing {
          return Returned(existing.value);
        }
      }
      outcome := Execute(request, reply);
    }
  }
}
