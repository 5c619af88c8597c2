/** A database session and the repository queries made through it. */
module Sessions {
  import opened Ledger

  /** `transactions` and `refunds` are the tables as this session has flushed them,
      `stored` is what has been committed. */
  class Session {
    var transactions: seq<Transaction>
    var refunds: seq<Refund>
    var stored: Database
    ghost var trace: seq<Event>

    /** Nothing is flushed that is not committed. */
    predicate IsClean()
      reads this
    {
      transactions == stored.transactions && refunds == stored.refunds
    }

    ghost function Committed(): World
      reads this
    {
      World(stored, trace)
    }

    constructor (db: Database)
      ensures IsClean() && Committed() == World(db, [])
    {
      transactions, refunds, stored := db.transactions, db.refunds, db;
      trace := [];
    }

    /** Flushes a new row under the two unique indexes. */
    method AddTransaction(row: Transaction) returns (t: Id, added: bool)
      modifies this`transactions, this`trace
      ensures trace == old(trace) + if added then [CreateFlushed(row.key)] else []
      ensures added <==> !KeyTaken(old(transactions), row.key) && !GatewayIdTaken(old(transactions), row.gatewayId)
      ensures t == |old(transactions)|
      ensures transactions == if added then old(transactions) + [row] else old(transactions)
    {
      t := |transactions|;
      added := !KeyTaken(transactions, row.key) && !GatewayIdTaken(transactions, row.gatewayId);
      if added {
        transactions := transactions + [row];
        Observe(CreateFlushed(row.key));
      }
    }

    /** Flushes new column values; a new gateway identifier must be free. */
    method UpdateTransaction(t: Id, row: Transaction) returns (updated: bool)
      requires t < |transactions| && row.key == transactions[t].key
      modifies this`transactions
      ensures updated <==>
        row.gatewayId == old(transactions)[t].gatewayId || !GatewayIdTaken(old(transactions), row.gatewayId)
      ensures transactions == if updated then old(transactions)[t := row] else old(transactions)
    {
      updated := row.gatewayId == transactions[t].gatewayId || !GatewayIdTaken(transactions, row.gatewayId);
      if updated {
        transactions := transactions[t := row];
      }
    }

    method AddRefund(row: Refund) returns (r: Id, added: bool)
      modifies this`refunds, this`trace
      ensures trace == old(trace) + if added then [RefundFlushed(row.key)] else []
      ensures added <==> !RefundKeyTaken(old(refunds), row.key) && !GatewayRefundIdTaken(old(refunds), row.gatewayRefundId)
      ensures r == |old(refunds)|
      ensures refunds == if added then old(refunds) + [row] else old(refunds)
    {
      r := |refunds|;
      added := !RefundKeyTaken(refunds, row.key) && !GatewayRefundIdTaken(refunds, row.gatewayRefundId);
      if added {
        refunds := refunds + [row];
        Observe(RefundFlushed(row.key));
      }
    }

    method UpdateRefund(r: Id, row: Refund) returns (updated: bool)
      requires r < |refunds| && row.key == refunds[r].key
      modifies this`refunds
      ensures updated <==>
        row.gatewayRefundId == old(refunds)[r].gatewayRefundId || !GatewayRefundIdTaken(old(refunds), row.gatewayRefundId)
      ensures refunds == if updated then old(refunds)[r := row] else old(refunds)
    {
      updated := row.gatewayRefundId == refunds[r].gatewayRefundId || !GatewayRefundIdTaken(refunds, row.gatewayRefundId);
      if updated {
        refunds := refunds[r := row];
      }
    }

    method Commit()
      modifies this`stored
      ensures IsClean() && stored == Database(transactions, refunds)
    {
      stored := Database(transactions, refunds);
    }

    /** What closing a session does to work that was not committed. */
    method Rollback()
      modifies this`transactions, this`refunds
      ensures IsClean()
    {
      transactions, refunds := stored.transactions, stored.refunds;
    }

    ghost method Observe(e: Event)
      modifies this`trace
      ensures trace == old(trace) + [e]
    {
      trace := trace + [e];
    }
  }
}
