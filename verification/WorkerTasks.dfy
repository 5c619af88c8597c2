/** The polling and reconciliation workers, proved to commit what `Workers` and
    `Batch` say. */
module WorkerTasks {
  import opened Ledger
  import opened Gateway
  import opened Sessions
  import opened Workers
  import Batch
  import Runs

  method PollPayment(session: Session, t: Id, reply: Reply) returns (result: PaymentTaskResult)
    requires session.IsClean()
    modifies session
    ensures session.IsClean()
    ensures var (change, expected) := ProcessPayment(old(session.stored), t, reply);
      result == expected && session.Committed() == Commit(old(session.Committed()), change)
  {
    if |session.transactions| <= t {
      return PaymentTaskResult(Failed, false, true);
    }
    var row := session.transactions[t];
    if row.status in {Succeeded, Cancelled, Refunded} {
      return PaymentTaskResult(row.status, false, false);
    }
    if row.provider.None? {
      return PaymentTaskResult(Failed, false, true);
    }
    session.Observe(LookupCalled(t));
    if !reply.Answered? {
      return PaymentTaskResult(Failed, false, true);
    }
    var response := reply.response;
    if IsSuccessText(response.status) {
      row := row.(status := Succeeded);
      match response.captured {
        case Reported(cents) => row := row.(captured := cents);
        case Malformed => return PaymentTaskResult(Failed, false, true);
        case _ =>
      }
    } else if IsFailureText(response.status) {
      row := row.(status := Failed);
      row := row.(failureCode := Some("gateway_failed"));
    } else if IsCancelledText(response.status) {
      row := row.(status := Cancelled);
    } else {
      row := row.(status := Processing);
    }
    var updated := session.UpdateTransaction(t, row);
    session.Commit();
    return PaymentTaskResult(row.status, true, false);
  }

  method ReconcileOne(session: Session, t: Id, reply: Reply) returns (outcome: Outcome<ReconciliationResult>)
    requires session.IsClean()
    modifies session
    ensures session.IsClean()
    ensures var (change, expected) := ReconcileTransaction(old(session.stored), t, reply);
      outcome == expected && session.Committed() == Commit(old(session.Committed()), change)
  {
    if |session.transactions| <= t {
      return Raised(InvalidValue);
    }
    var row := session.transactions[t];
    if row.provider.None? {
      return Raised(InvalidValue);
    }
    if !HasGatewayId(row) {
      return Raised(InvalidValue);
    }
    session.Observe(LookupCalled(t));
    match reply {
      case Crashed => return Raised(Unhandled);
      case Refused(_) => return Raised(GatewayFailed);
      case Answered(response) =>
        var external := NormalizeExternalStatus(response.status);
        var discrepancy := DetectDiscrepancy(row.status, external);
        var reconciled := discrepancy == NoDiscrepancy;
        if reconciled {
          row := row.(status := external);
          match response.captured {
            case Reported(cents) => row := row.(captured := cents);
            case Malformed => return Raised(Unhandled);
            case _ =>
          }
          var updated := session.UpdateTransaction(t, row);
          session.Commit();
        }
        return Returned(ReconciliationResult(t, row.status, response.status, reconciled, discrepancy));
    }
  }

  /** The batch loop. */
  method ReconcilePendingTransactions(session: Session, limit: int, replies: Id -> Reply)
    returns (outcome: Outcome<seq<ReconciliationResult>>)
    requires session.IsClean()
    modifies session
    ensures session.IsClean()
    ensures (session.Committed(), outcome) == Batch.ReconcilePending(old(session.Committed()), limit, replies)
  {
    if limit < 1 {
      return Raised(InvalidValue);
    }
    if limit > 1000 {
      return Raised(InvalidValue);
    }
    var ids := Batch.SelectedRows(session.transactions, limit);
    var results := ReconcileSelected(session, ids, session.transactions, replies);
    return Returned(results);
  }

  /** The try block of the batch loop: whatever is raised becomes a result. */
  method ReconcileGuarded(session: Session, t: Id, selected: TransactionStatus, reply: Reply)
    returns (result: ReconciliationResult)
    requires session.IsClean()
    modifies session
    ensures session.IsClean()
    ensures session.Committed() == Runs.Apply(old(session.Committed()), Runs.Reconcile(t, reply))
    ensures result == Batch.ResultFor(old(session.stored), t, selected, reply)
  {
    var outcome := ReconcileOne(session, t, reply);
    match outcome {
      case Returned(value) => return value;
      case Raised(_) => return ReconciliationResult(t, selected, "unknown", false, ReconciliationFailed);
    }
  }

  /** The batch loop, over rows selected earlier. */
  method ReconcileSelected(session: Session, ids: seq<Id>, selected: seq<Transaction>, replies: Id -> Reply)
    returns (results: seq<ReconciliationResult>)
    requires session.IsClean()
    requires forall i :: 0 <= i < |ids| ==> ids[i] < |selected|
    modifies session
    ensures session.IsClean()
    ensures (session.Committed(), results) == Batch.ReconcileAll(old(session.Committed()), ids, selected, replies)
  {
    results := [];
    for i := 0 to |ids|
      invariant session.IsClean()
      invariant (session.Committed(), results) == Batch.ReconcileAll(old(session.Committed()), ids[..i], selected, replies)
    {
      var t := ids[i];
      assert ids[..i + 1][..i] == ids[..i];
      var result := ReconcileGuarded(session, t, selected[t].status, replies(t));
      results := results + [result];
    }
    assert ids[..|ids|] == ids;
  }
}
