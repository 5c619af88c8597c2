/** Reconciling a batch of pending transactions. */
module Batch {
  import opened Ledger
  import opened Gateway
  import opened Payments
  import opened Workers
  import opened Runs

  const MAX_BATCH: nat := 1000

  /** The PENDING, AUTHORIZED and PROCESSING rows, oldest first. */
  function PendingRows(transactions: seq<Transaction>): (ids: seq<Id>)
    ensures forall t: Id :: t in ids <==> t < |transactions| && IsCancellable(transactions[t].status)
    ensures forall i, j :: 0 <= i < j < |ids| ==> ids[i] < ids[j]
  {
    if transactions == [] then []
    else
      var last := |transactions| - 1;
      var older := PendingRows(transactions[..last]);
      assert forall i :: 0 <= i < |older| ==> older[i] in older;
      older + if IsCancellable(transactions[last].status) then [last] else []
  }

  function SelectedRows(transactions: seq<Transaction>, limit: nat): (ids: seq<Id>)
    ensures |ids| <= limit
    ensures forall i :: 0 <= i < |ids| ==> ids[i] < |transactions| && IsCancellable(transactions[ids[i]].status)
    ensures forall i, j :: 0 <= i < j < |ids| ==> ids[i] < ids[j]
  {
    var ids := PendingRows(transactions);
    assert forall i :: 0 <= i < |ids| ==> ids[i] in ids;
    if |ids| <= limit then ids else ids[..limit]
  }

  /** What the batch reports for a row: its reconciliation, or its status as selected
      and the failure. */
  function ResultFor(db: Database, t: Id, selected: TransactionStatus, reply: Reply): ReconciliationResult {
    var outcome := ReconcileTransaction(db, t, reply).1;
    if outcome.Returned? then outcome.value
    else ReconciliationResult(t, selected, "unknown", false, ReconciliationFailed)
  }

  /** The loop: each row in a session of its own, failures reported and skipped.
      `selected` is the table as it was when the rows were selected. */
  function ReconcileAll(w: World, ids: seq<Id>, selected: seq<Transaction>, replies: Id -> Reply)
    : (World, seq<ReconciliationResult>)
    requires forall i :: 0 <= i < |ids| ==> ids[i] < |selected|
    decreases |ids|
  {
    if ids == [] then (w, [])
    else
      var last := |ids| - 1;
      var t := ids[last];
      var (before, results) := ReconcileAll(w, ids[..last], selected, replies);
      (Apply(before, Reconcile(t, replies(t))), results + [ResultFor(before.db, t, selected[t].status, replies(t))])
  }

  function ReconcilePending(w: World, limit: int, replies: Id -> Reply): (World, Outcome<seq<ReconciliationResult>>) {
    if limit < 1 || MAX_BATCH < limit then (w, Raised(InvalidValue))
    else
      var (after, results) := ReconcileAll(w, SelectedRows(w.db.transactions, limit), w.db.transactions, replies);
      (after, Returned(results))
  }

  /** Row `t` after it alone has been reconciled. */
  function RowAlone(db: Database, t: Id, reply: Reply): Transaction
    requires t < |db.transactions|
  {
    Store(db.transactions, ReconcileTransaction(db, t, reply).0.transaction)[t]
  }

  lemma ReconcileReadsItsRowOnly(a: Database, b: Database, t: Id, reply: Reply)
    requires t < |a.transactions| && t < |b.transactions| && a.transactions[t] == b.transactions[t]
    ensures ReconcileTransaction(a, t, reply) == ReconcileTransaction(b, t, reply)
    ensures RowAlone(a, t, reply) == RowAlone(b, t, reply)
    ensures forall selected :: ResultFor(a, t, selected, reply) == ResultFor(b, t, selected, reply)
  {
  }

  lemma ReconcileWritesItsRowOnly(w: World, t: Id, reply: Reply)
    requires t < |w.db.transactions|
    ensures Apply(w, Reconcile(t, reply)).db == w.db.(transactions := w.db.transactions[t := RowAlone(w.db, t, reply)])
  {
  }

  /** `after` is `before` with each chosen row reconciled as it would be alone. */
  ghost predicate AreReconciled(before: Database, after: Database, chosen: seq<Id>, replies: Id -> Reply) {
    && after.refunds == before.refunds
    && |after.transactions| == |before.transactions|
    && forall t: Id :: t < |before.transactions| ==>
         after.transactions[t] == if t in chosen then RowAlone(before, t, replies(t)) else before.transactions[t]
  }

  lemma ReconciledInTurn(before: Database, mid: World, chosen: seq<Id>, t: Id, replies: Id -> Reply)
    requires AreReconciled(before, mid.db, chosen, replies) && t !in chosen && t < |before.transactions|
    ensures AreReconciled(before, Apply(mid, Reconcile(t, replies(t))).db, chosen + [t], replies)
  {
    ReconcileReadsItsRowOnly(mid.db, before, t, replies(t));
    ReconcileWritesItsRowOnly(mid, t, replies(t));
  }

  lemma ReconcileAllNext(w: World, first: seq<Id>, t: Id, selected: seq<Transaction>, replies: Id -> Reply)
    requires t < |selected| && forall i :: 0 <= i < |first| ==> first[i] < |selected|
    ensures ReconcileAll(w, first + [t], selected, replies).0
         == Apply(ReconcileAll(w, first, selected, replies).0, Reconcile(t, replies(t)))
  {
    var ids := first + [t];
    assert ids[..|ids| - 1] == first && ids[|ids| - 1] == t;
  }

  /** The batch does to every selected row what reconciling it alone would do, even
      when others fail, and touches no other row. */
  lemma {:induction false} ReconcileAllEffect(w: World, ids: seq<Id>, selected: seq<Transaction>, replies: Id -> Reply)
    requires |w.db.transactions| == |selected|
    requires forall i :: 0 <= i < |ids| ==> ids[i] < |selected|
    requires forall i, j :: 0 <= i < j < |ids| ==> ids[i] < ids[j]
    ensures AreReconciled(w.db, ReconcileAll(w, ids, selected, replies).0.db, ids, replies)
    decreases |ids|
  {
    if ids != [] {
      var last := |ids| - 1;
      var first, t := ids[..last], ids[last];
      ReconcileAllEffect(w, first, selected, replies);
      assert ids == first + [t];
      ReconciledInTurn(w.db, ReconcileAll(w, first, selected, replies).0, first, t, replies);
      ReconcileAllNext(w, first, t, selected, replies);
    }
  }

  /** One result per chosen row in order, each the result that row would have alone. */
  ghost predicate AreResults(db: Database, results: seq<ReconciliationResult>, chosen: seq<Id>,
                             selected: seq<Transaction>, replies: Id -> Reply)
    requires forall i :: 0 <= i < |chosen| ==> chosen[i] < |selected|
  {
    && |results| == |chosen|
    && forall i :: 0 <= i < |chosen| ==> results[i] == ResultFor(db, chosen[i], selected[chosen[i]].status, replies(chosen[i]))
  }

  lemma ResultInTurn(db: Database, results: seq<ReconciliationResult>, chosen: seq<Id>, t: Id,
                     selected: seq<Transaction>, replies: Id -> Reply)
    requires t < |selected| && forall i :: 0 <= i < |chosen| ==> chosen[i] < |selected|
    requires AreResults(db, results, chosen, selected, replies)
    ensures AreResults(db, results + [ResultFor(db, t, selected[t].status, replies(t))], chosen + [t], selected, replies)
  {
  }

  lemma {:induction false} ReconcileAllResults(w: World, ids: seq<Id>, selected: seq<Transaction>, replies: Id -> Reply)
    requires |w.db.transactions| == |selected|
    requires forall i :: 0 <= i < |ids| ==> ids[i] < |selected|
    requires forall i, j :: 0 <= i < j < |ids| ==> ids[i] < ids[j]
    ensures AreResults(w.db, ReconcileAll(w, ids, selected, replies).1, ids, selected, replies)
    decreases |ids|
  {
    if ids != [] {
      var last := |ids| - 1;
      var first, t := ids[..last], ids[last];
      var (before, results) := ReconcileAll(w, first, selected, replies);
      ReconcileAllResults(w, first, selected, replies);
      ReconcileAllEffect(w, first, selected, replies);
      ResultInTurn(w.db, results, first, t, selected, replies);
      assert t !in first && ids == first + [t];
      ReconcileReadsItsRowOnly(before.db, w.db, t, replies(t));
    }
  }

  /** The rows to reconcile that were created before row `t`. */
  function Older(transactions: seq<Transaction>, t: Id): set<Id> {
    set u | 0 <= u < t && u < |transactions| && transactions[u].status in {Pending, Authorized, Processing}
  }

  /** Row `t` is one of the `limit` oldest that are PENDING, AUTHORIZED or PROCESSING. */
  predicate IsAmongOldest(transactions: seq<Transaction>, limit: int, t: Id) {
    && t < |transactions| && transactions[t].status in {Pending, Authorized, Processing}
    && |Older(transactions, t)| < limit
  }

  lemma OlderComeFirst(transactions: seq<Transaction>, j: nat)
    requires j < |PendingRows(transactions)|
    ensures |Older(transactions, PendingRows(transactions)[j])| == j
  {
    var ids := PendingRows(transactions);
    var t := ids[j];
    forall u: Id ensures u in Older(transactions, t) <==> u in (set i | 0 <= i < j :: ids[i]) {
      if u in Older(transactions, t) {
        assert u in ids;
      }
      if i :| 0 <= i < j && ids[i] == u {
        assert ids[i] in ids;
      }
    }
    assert Older(transactions, t) == set i | 0 <= i < j :: ids[i];
    DistinctCount(ids, j);
  }

  /** The batch selects exactly those. */
  lemma SelectedRowsAreOldest(transactions: seq<Transaction>, limit: nat, t: Id)
    ensures t in SelectedRows(transactions, limit) <==> IsAmongOldest(transactions, limit, t)
  {
    var ids, rows := PendingRows(transactions), SelectedRows(transactions, limit);
    if t in ids {
      var j :| 0 <= j < |ids| && ids[j] == t;
      OlderComeFirst(transactions, j);
      if j < limit {
        assert rows[j] == t;
      } else {
        assert forall i :: 0 <= i < |rows| ==> rows[i] == ids[i] && ids[i] < ids[j];
      }
    }
  }

  /** A limit outside 1 to 1000 is refused. Otherwise the batch does to the `limit` oldest
      unfinished rows what reconciling each alone would do, and nothing to any other. */
  lemma BatchTakesTheOldest(w: World, limit: int, replies: Id -> Reply, t: Id)
    requires t < |w.db.transactions|
    ensures var (after, outcome) := ReconcilePending(w, limit, replies);
      && (outcome == Raised(InvalidValue) <==> limit < 1 || 1000 < limit)
      && (outcome.Raised? ==> outcome == Raised(InvalidValue) && after == w)
      && (outcome.Returned? ==>
            && after.db.refunds == w.db.refunds && |after.db.transactions| == |w.db.transactions|
            && |Apply(w, Reconcile(t, replies(t))).db.transactions| == |w.db.transactions|
            && after.db.transactions[t]
               == if IsAmongOldest(w.db.transactions, limit, t) then Apply(w, Reconcile(t, replies(t))).db.transactions[t]
                  else w.db.transactions[t])
  {
    if 1 <= limit <= 1000 {
      ReconcileAllEffect(w, SelectedRows(w.db.transactions, limit), w.db.transactions, replies);
      SelectedRowsAreOldest(w.db.transactions, limit, t);
      ReconcileWritesItsRowOnly(w, t, replies(t));
    }
  }

  /** And it reports on each of them once, oldest first: what reconciling it alone would
      report, or that this raised. */
  lemma BatchReportsTheOldest(w: World, limit: int, replies: Id -> Reply)
    requires 1 <= limit <= 1000
    ensures var outcome := ReconcilePending(w, limit, replies).1;
      && outcome.Returned?
      && var results := outcome.value;
      && (forall i, j :: 0 <= i < j < |results| ==> results[i].transaction < results[j].transaction)
      && (forall t: Id :: IsAmongOldest(w.db.transactions, limit, t) <==> exists i :: 0 <= i < |results| && results[i].transaction == t)
      && (forall i :: 0 <= i < |results| ==> IsReportOn(w.db, results[i], replies(results[i].transaction)))
  {
    var ids := SelectedRows(w.db.transactions, limit);
    var results := ReconcilePending(w, limit, replies).1.value;
    ReconcileAllResults(w, ids, w.db.transactions, replies);
    forall i | 0 <= i < |results|
      ensures results[i].transaction == ids[i] && IsReportOn(w.db, results[i], replies(ids[i]))
    {
      ResultIsReport(w.db, ids[i], replies(ids[i]));
    }
    forall t: Id ensures IsAmongOldest(w.db.transactions, limit, t) <==> exists i :: 0 <= i < |results| && results[i].transaction == t {
      SelectedRowsAreOldest(w.db.transactions, limit, t);
      if t in ids {
        var i :| 0 <= i < |ids| && ids[i] == t;
        assert results[i].transaction == t;
      }
    }
  }

  predicate IsReportOn(db: Database, result: ReconciliationResult, reply: Reply) {
    && result.transaction < |db.transactions|
    && match ReconcileTransaction(db, result.transaction, reply).1
       case Returned(alone) => result == alone
       case Raised(_) =>
         && result.internal == db.transactions[result.transaction].status && result.external == "unknown"
         && !result.reconciled && result.discrepancy == ReconciliationFailed
  }

  lemma ResultIsReport(db: Database, t: Id, reply: Reply)
    requires t < |db.transactions|
    ensures var result := ResultFor(db, t, db.transactions[t].status, reply);
      result.transaction == t && IsReportOn(db, result, reply)
  {
  }

  /** Reconciling a row twice with one answer is reconciling it once, and a row that
      is still pending afterwards was pending before. */
  lemma RowAloneIsIdempotent(db: Database, after: Database, t: Id, reply: Reply)
    requires t < |db.transactions| && t < |after.transactions| && after.transactions[t] == RowAlone(db, t, reply)
    ensures RowAlone(after, t, reply) == after.transactions[t]
    ensures IsCancellable(after.transactions[t].status) ==> IsCancellable(db.transactions[t].status)
  {
  }

  /** When the limit covers all pending rows and the gateway answers the same again, a
      second batch, of any size, leaves the database as it is. */
  lemma SecondBatchChangesNothing(w: World, limit: int, again: int, replies: Id -> Reply)
    requires 1 <= limit <= MAX_BATCH && 1 <= again <= MAX_BATCH
    requires |PendingRows(w.db.transactions)| <= limit
    ensures var first := ReconcilePending(w, limit, replies).0;
      ReconcilePending(first, again, replies).0.db == first.db
  {
    var ids := SelectedRows(w.db.transactions, limit);
    var first := ReconcilePending(w, limit, replies).0;
    ReconcileAllEffect(w, ids, w.db.transactions, replies);
    var more := SelectedRows(first.db.transactions, again);
    var second := ReconcilePending(first, again, replies).0;
    ReconcileAllEffect(first, more, first.db.transactions, replies);
    forall t: Id | t < |w.db.transactions| ensures second.db.transactions[t] == first.db.transactions[t] {
      if t in more {
        assert IsCancellable(first.db.transactions[t].status);
        if t in ids {
          RowAloneIsIdempotent(w.db, first.db, t, replies(t));
        }
      }
    }
  }
}
