/** What the payment service stores, what it tells the outside world, and how one
    committed unit of work changes both. Money is counted in cents. */
module Ledger {

  datatype Option<+T> = None | Some(value: T)

  /** A call either returns or raises. */
  datatype Outcome<+T> = Returned(value: T) | Raised(error: Error)

  datatype Error =
    | PaymentAlreadyProcessed | PaymentMethodNotFound | TransactionNotFound
    | InvalidTransactionState | PaymentFailed
    | RefundAlreadyProcessed | RefundNotAllowed | RefundAmountExceeded | RefundFailure
    | PaymentSagaFailed | CompensationFailed | RefundSagaFailed
    | UnsupportedProvider | IntegrityViolation | InvalidValue | GatewayFailed | Unhandled

  /** The subclasses of PaymentServiceError, the only errors the payment saga catches. */
  predicate IsPaymentServiceError(e: Error) {
    e in {PaymentAlreadyProcessed, PaymentMethodNotFound, TransactionNotFound, InvalidTransactionState, PaymentFailed}
  }

  /** The subclasses of RefundServiceError. */
  predicate IsRefundServiceError(e: Error) {
    e in {RefundAlreadyProcessed, RefundNotAllowed, RefundAmountExceeded, RefundFailure}
  }

  /** The request schemas accept strictly positive amounts only. */
  type Cents = c: int | 0 < c witness 1

  type Id = nat

  datatype Provider = Stripe | PayPal

  datatype TransactionStatus =
    | Pending | Authorized | Processing | Succeeded | Failed | Cancelled | Refunded | PartiallyRefunded

  datatype RefundStatus =
    | RefundPending | RefundProcessing | RefundSucceeded | RefundFailed | RefundCancelled

  datatype Transaction = Transaction(
    reservation: nat,
    amount: Cents,
    status: TransactionStatus,
    provider: Option<Provider>,
    gatewayId: Option<string>,
    key: string,
    requiresCapture: bool,
    captured: int,
    refunded: int,
    failureCode: Option<string>)

  datatype Refund = Refund(
    transaction: Id,
    amount: Cents,
    status: RefundStatus,
    gatewayRefundId: Option<string>,
    key: string,
    failureCode: Option<string>)

  /** Rows are identified by their position, which is also their creation order. */
  datatype Database = Database(transactions: seq<Transaction>, refunds: seq<Refund>)

  const EMPTY_DATABASE := Database([], [])

  /** What can be observed of the service's dealings with the gateway, and of the
      inserts flushed ahead of them. A call is "lost" when the session that made it
      rolled back instead of committing. */
  datatype Event =
    | CreateFlushed(key: string) | CreateCalled(key: string) | CreateLost(key: string)
    | CaptureCalled(transaction: Id) | CaptureAnswered(transaction: Id) | CaptureLost(transaction: Id)
    | CancelCalled(transaction: Id) | CancelAnswered(transaction: Id)
    | RefundFlushed(key: string) | RefundCalled(key: string) | RefundLost(key: string)
    | LookupCalled(transaction: Id)

  datatype World = World(db: Database, trace: seq<Event>)

  const EMPTY_WORLD := World(EMPTY_DATABASE, [])

  /** How often an event has happened. */
  function Count(w: World, e: Event): nat {
    multiset(w.trace)[e]
  }

  /** The first `n` of distinct identifiers are `n` identifiers. */
  lemma {:induction false} DistinctCount(ids: seq<Id>, n: nat)
    requires n <= |ids| && forall i, j :: 0 <= i < j < |ids| ==> ids[i] != ids[j]
    ensures |set i | 0 <= i < n :: ids[i]| == n
  {
    if n != 0 {
      DistinctCount(ids, n - 1);
      assert (set i | 0 <= i < n :: ids[i]) == (set i | 0 <= i < n - 1 :: ids[i]) + {ids[n - 1]};
    }
  }

  predicate KeyTaken(transactions: seq<Transaction>, key: string) {
    exists t :: 0 <= t < |transactions| && transactions[t].key == key
  }

  predicate RefundKeyTaken(refunds: seq<Refund>, key: string) {
    exists r :: 0 <= r < |refunds| && refunds[r].key == key
  }

  /** The unique index on gateway_transaction_id; several NULLs may coexist. */
  predicate GatewayIdTaken(transactions: seq<Transaction>, id: Option<string>) {
    id.Some? && exists t :: 0 <= t < |transactions| && transactions[t].gatewayId == id
  }

  predicate GatewayRefundIdTaken(refunds: seq<Refund>, id: Option<string>) {
    id.Some? && exists r :: 0 <= r < |refunds| && refunds[r].gatewayRefundId == id
  }

  lemma RowWithoutIdTakesNone(transactions: seq<Transaction>, row: Transaction, id: Option<string>)
    requires row.gatewayId.None?
    ensures GatewayIdTaken(transactions + [row], id) <==> GatewayIdTaken(transactions, id)
  {
    var all := transactions + [row];
    assert forall t :: 0 <= t < |transactions| ==> all[t] == transactions[t];
  }

  lemma RefundWithoutIdTakesNone(refunds: seq<Refund>, row: Refund, id: Option<string>)
    requires row.gatewayRefundId.None?
    ensures GatewayRefundIdTaken(refunds + [row], id) <==> GatewayRefundIdTaken(refunds, id)
  {
    var all := refunds + [row];
    assert forall r :: 0 <= r < |refunds| ==> all[r] == refunds[r];
  }

  /** Both a missing and an empty identifier count as "no identifier". */
  predicate HasGatewayId(row: Transaction) {
    row.gatewayId.Some? && row.gatewayId.value != ""
  }

  /** The columns that no writer changes once the row exists. */
  predicate SameIdentity(a: Transaction, b: Transaction) {
    && a.reservation == b.reservation && a.amount == b.amount && a.provider == b.provider
    && a.gatewayId == b.gatewayId && a.key == b.key && a.requiresCapture == b.requiresCapture
  }

  predicate SameRefundIdentity(a: Refund, b: Refund) {
    a.transaction == b.transaction && a.amount == b.amount && a.gatewayRefundId == b.gatewayRefundId && a.key == b.key
  }

  /** One unit of work writes at most one row of each table, and is observed. */
  datatype Write<+T> = Nothing | Put(index: Id, row: T)

  datatype Change = Change(transaction: Write<Transaction>, refund: Write<Refund>, events: seq<Event>)

  const NO_CHANGE := Change(Nothing, Nothing, [])

  /** Writing one past the end appends. */
  function Store<T>(table: seq<T>, write: Write<T>): seq<T> {
    if write.Nothing? then table
    else if write.index < |table| then table[write.index := write.row]
    else table + [write.row]
  }

  function Commit(w: World, c: Change): World {
    World(Database(Store(w.db.transactions, c.transaction), Store(w.db.refunds, c.refund)), w.trace + c.events)
  }
}
