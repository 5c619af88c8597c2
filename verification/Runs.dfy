/** Runs: any sequence of committed units of work by any of the writers. */
module Runs {
  import opened Ledger
  import opened Gateway
  import opened Payments
  import opened Refunds
  import opened Workers

  datatype Step =
    | Create(request: PaymentRequest, methodExists: bool, reply: Reply)
    | Capture(transaction: Id, amount: Option<int>, reply: Reply)
    | Cancel(transaction: Id, reply: Reply)
    | IssueRefund(refundRequest: RefundRequest, reply: Reply)
    | Poll(transaction: Id, reply: Reply)
    | Reconcile(transaction: Id, reply: Reply)
    | MarkProcessing(refund: Id)
    | MarkRetried(refund: Id)
    | MarkCancelled(refund: Id)

  function Plan(db: Database, s: Step): Change {
    match s
    case Create(request, methodExists, reply) => CreatePayment(db, request, methodExists, reply).0
    case Capture(t, amount, reply) => CapturePayment(db, t, amount, reply).0
    case Cancel(t, reply) => CancelPayment(db, t, reply).0
    case IssueRefund(request, reply) => CreateRefund(db, request, reply).0
    case Poll(t, reply) => ProcessPayment(db, t, reply).0
    case Reconcile(t, reply) => ReconcileTransaction(db, t, reply).0
    case MarkProcessing(r) => ProcessRefund(db, r).0
    case MarkRetried(r) => RetryRefund(db, r).0
    case MarkCancelled(r) => CancelPendingRefund(db, r).0
  }

  function Apply(w: World, s: Step): World {
    Commit(w, Plan(w.db, s))
  }

  function Run(w: World, steps: seq<Step>): World
    decreases |steps|
  {
    if steps == [] then w else Run(Apply(w, steps[0]), steps[1..])
  }

  /** The transaction a step addresses, if it can write an existing one. */
  function TransactionOf(s: Step): Option<Id> {
    match s
    case Capture(t, _, _) => Some(t)
    case Cancel(t, _) => Some(t)
    case IssueRefund(request, _) => Some(request.transaction)
    case Poll(t, _) => Some(t)
    case Reconcile(t, _) => Some(t)
    case _ => None
  }

  /** The transition table: which writer may move a row from which status to which. */
  predicate MayMove(s: Step, from: TransactionStatus, to: TransactionStatus) {
    match s
    case Capture(_, _, _) => from == Authorized && to in {Succeeded, Failed}
    case Cancel(_, _) => IsCancellable(from) && to == Cancelled
    case IssueRefund(_, _) => from in {Succeeded, PartiallyRefunded} && to in {Refunded, PartiallyRefunded}
    case Poll(_, _) =>
      !IsFinalForPolling(from) && to in {Succeeded, Failed, Cancelled, Processing}
    case Reconcile(_, _) =>
      || (from == to && to in {Succeeded, Authorized, Failed, Cancelled, Processing})
      || (from == Authorized && to == Succeeded)
      || (from == Processing && to in {Succeeded, Failed, Cancelled})
    case _ => false
  }

  /** Every writer keeps to the table, writes the row it addresses and no other, and
      leaves the row's identity alone; only a refund changes the refunded amount. */
  lemma WriterKeepsToTable(db: Database, s: Step)
    ensures var c := Plan(db, s);
      c.transaction.Put? ==>
        if c.transaction.index < |db.transactions| then
          var before, after := db.transactions[c.transaction.index], c.transaction.row;
          && TransactionOf(s) == Some(c.transaction.index)
          && MayMove(s, before.status, after.status)
          && SameIdentity(before, after)
          && (if s.IssueRefund? then after.captured == before.captured && after.refunded == before.refunded + s.refundRequest.amount
              else after.refunded == before.refunded)
        else
          && c.transaction.index == |db.transactions| && s.Create? && !KeyTaken(db.transactions, s.request.key)
          && c.transaction.row.key == s.request.key && c.transaction.row.amount == s.request.amount
          && c.transaction.row.refunded == 0 && c.transaction.row.provider == Some(s.request.provider)
          && c.transaction.row.status in {Authorized, Processing, Succeeded, Failed}
          && !GatewayIdTaken(db.transactions, c.transaction.row.gatewayId)
  {
    if s.Create? && s.reply.Answered? {
      TextGroupsAreDisjoint(s.reply.response.status);
    }
  }

  /** The same for refund rows: RefundSucceeded is entered only by a new refund and
      never left, and no task writes anything but the status. */
  lemma RefundWriterKeepsToTable(db: Database, s: Step)
    ensures var c := Plan(db, s);
      c.refund.Put? ==>
        if c.refund.index < |db.refunds| then
          var before, after := db.refunds[c.refund.index], c.refund.row;
          && (s.MarkProcessing? || s.MarkRetried? || s.MarkCancelled?) && c.transaction.Nothing?
          && before.status != RefundSucceeded && after.status in {RefundProcessing, RefundCancelled}
          && SameRefundIdentity(before, after) && after.failureCode == before.failureCode
        else
          && c.refund.index == |db.refunds| && s.IssueRefund? && !RefundKeyTaken(db.refunds, s.refundRequest.key)
          && c.refund.row.key == s.refundRequest.key && c.refund.row.transaction == s.refundRequest.transaction
          && c.refund.row.transaction < |db.transactions|
          && c.refund.row.amount == s.refundRequest.amount && c.refund.row.status != RefundPending
          && (c.refund.row.status == RefundSucceeded <==> c.transaction.Put?)
          && !GatewayRefundIdTaken(db.refunds, c.refund.row.gatewayRefundId)
  {
  }

  /** Runs compose. */
  lemma {:induction false} RunAppend(w: World, a: seq<Step>, b: seq<Step>)
    ensures Run(w, a + b) == Run(Run(w, a), b)
    decreases |a|
  {
    if a == [] {
      assert a + b == b;
    } else {
      assert (a + b)[1..] == a[1..] + b;
      RunAppend(Apply(w, a[0]), a[1..], b);
    }
  }

  /** Some run leads from `w` to `v`. */
  ghost predicate Reaches(w: World, v: World) {
    exists steps :: v == Run(w, steps)
  }

  lemma RunOne(w: World, s: Step)
    ensures Run(w, [s]) == Apply(w, s)
  {
    assert [s][1..] == [];
    assert Run(Apply(w, s), []) == Apply(w, s);
  }

  lemma RunTwo(w: World, a: Step, b: Step)
    ensures Run(w, [a, b]) == Apply(Apply(w, a), b)
  {
    assert [a, b][1..] == [b];
    RunOne(Apply(w, a), b);
  }

  lemma ReachesItself(w: World)
    ensures Reaches(w, w)
  {
    assert w == Run(w, []);
  }

  lemma ReachesNext(w: World, v: World, s: Step)
    requires Reaches(w, v)
    ensures Reaches(w, Apply(v, s))
  {
    var steps :| v == Run(w, steps);
    RunAppend(w, steps, [s]);
    RunOne(v, s);
  }

  lemma ReachesIsTransitive(u: World, v: World, w: World)
    requires Reaches(u, v) && Reaches(v, w)
    ensures Reaches(u, w)
  {
    var a :| v == Run(u, a);
    var b :| w == Run(v, b);
    RunAppend(u, a, b);
  }
}
