/** Facts that hold after every run from an empty database, whatever the gateway
    answers: the books balance, statuses fit the amounts, keys are unique. */
module Conservation {
  import opened Ledger
  import opened Gateway
  import opened Refunds
  import opened Runs

  // -- Money in refunds ---------------------------------------------------------

  /** The refunds that have been paid out, and those that are or may yet be. */
  const PAID: set<RefundStatus> := {RefundSucceeded}

  const ASKED: set<RefundStatus> := {RefundProcessing, RefundSucceeded}

  /** What refund `r` contributes to transaction `who`, or to the whole database
      when `who` is absent, if only the statuses in `counted` count. */
  function Credit(r: Refund, counted: set<RefundStatus>, who: Option<Id>): int {
    if r.status in counted && (who == None || who == Some(r.transaction)) then r.amount else 0
  }

  function Credited(refunds: seq<Refund>, counted: set<RefundStatus>, who: Option<Id>): int {
    if refunds == [] then 0
    else Credited(refunds[..|refunds| - 1], counted, who) + Credit(refunds[|refunds| - 1], counted, who)
  }

  function TotalRefunded(transactions: seq<Transaction>): int {
    if transactions == [] then 0
    else TotalRefunded(transactions[..|transactions| - 1]) + transactions[|transactions| - 1].refunded
  }

  /** What a write adds to a sum of credits. */
  function CreditDelta(refunds: seq<Refund>, write: Write<Refund>, counted: set<RefundStatus>, who: Option<Id>): int {
    if write.Nothing? then 0
    else Credit(write.row, counted, who) - if write.index < |refunds| then Credit(refunds[write.index], counted, who) else 0
  }

  function RefundedDelta(transactions: seq<Transaction>, write: Write<Transaction>): int {
    if write.Nothing? then 0
    else write.row.refunded - if write.index < |transactions| then transactions[write.index].refunded else 0
  }

  lemma CreditedNext(refunds: seq<Refund>, r: Refund, counted: set<RefundStatus>, who: Option<Id>)
    ensures Credited(refunds + [r], counted, who) == Credited(refunds, counted, who) + Credit(r, counted, who)
  {
    assert (refunds + [r])[..|refunds|] == refunds;
  }

  lemma {:induction false} CreditedAfterWrite(refunds: seq<Refund>, write: Write<Refund>, counted: set<RefundStatus>, who: Option<Id>)
    ensures Credited(Store(refunds, write), counted, who)
         == Credited(refunds, counted, who) + CreditDelta(refunds, write, counted, who)
    decreases |refunds|
  {
    if write.Put? && |refunds| <= write.index {
      CreditedNext(refunds, write.row, counted, who);
    } else if write.Put? {
      var init, last := refunds[..|refunds| - 1], refunds[|refunds| - 1];
      assert refunds == init + [last];
      CreditedNext(init, last, counted, who);
      if write.index == |init| {
        assert Store(refunds, write) == init + [write.row];
        CreditedNext(init, write.row, counted, who);
      } else {
        assert Store(refunds, write) == Store(init, write) + [last];
        CreditedNext(Store(init, write), last, counted, who);
        CreditedAfterWrite(init, write, counted, who);
      }
    }
  }

  lemma {:induction false} TotalAfterWrite(transactions: seq<Transaction>, write: Write<Transaction>)
    ensures TotalRefunded(Store(transactions, write)) == TotalRefunded(transactions) + RefundedDelta(transactions, write)
    decreases |transactions|
  {
    var last := |transactions| - 1;
    var after := Store(transactions, write);
    if write.Put? && |transactions| <= write.index {
      assert after[..|transactions|] == transactions;
    } else if write.Put? && write.index == last {
      assert after[..last] == transactions[..last];
    } else if write.Put? {
      TotalAfterWrite(transactions[..last], write);
      assert after[..last] == Store(transactions[..last], write);
    }
  }

  lemma {:induction false} NothingCreditedBeyond(refunds: seq<Refund>, counted: set<RefundStatus>, t: Id)
    requires forall r :: 0 <= r < |refunds| ==> refunds[r].transaction != t
    ensures Credited(refunds, counted, Some(t)) == 0
  {
    if refunds != [] {
      NothingCreditedBeyond(refunds[..|refunds| - 1], counted, t);
    }
  }

  // -- The invariant ------------------------------------------------------------

  predicate SoundTransaction(row: Transaction) {
    && row.status != Pending
    && 0 <= row.refunded
    && (row.status == Refunded <==> row.amount <= row.refunded)
    && (row.status == PartiallyRefunded ==> 0 < row.refunded)
  }

  predicate SoundRefund(refund: Refund, db: Database) {
    refund.status != RefundPending && refund.transaction < |db.transactions|
  }

  /** Each transaction has refunded exactly the sum of its succeeded refunds. */
  predicate Balanced(db: Database) {
    && (forall t: nat :: t < |db.transactions| ==> db.transactions[t].refunded == Credited(db.refunds, PAID, Some(t)))
    && TotalRefunded(db.transactions) == Credited(db.refunds, PAID, None)
  }

  predicate DistinctTransactions(transactions: seq<Transaction>) {
    && (forall i, j :: 0 <= i < j < |transactions| ==> transactions[i].key != transactions[j].key)
    && (forall i, j :: 0 <= i < j < |transactions| && transactions[i].gatewayId.Some? ==>
          transactions[i].gatewayId != transactions[j].gatewayId)
  }

  predicate DistinctRefunds(refunds: seq<Refund>) {
    && (forall i, j :: 0 <= i < j < |refunds| ==> refunds[i].key != refunds[j].key)
    && (forall i, j :: 0 <= i < j < |refunds| && refunds[i].gatewayRefundId.Some? ==>
          refunds[i].gatewayRefundId != refunds[j].gatewayRefundId)
  }

  predicate UniqueKeys(db: Database) {
    DistinctTransactions(db.transactions) && DistinctRefunds(db.refunds)
  }

  predicate Sound(db: Database) {
    && (forall t :: 0 <= t < |db.transactions| ==> SoundTransaction(db.transactions[t]))
    && (forall r :: 0 <= r < |db.refunds| ==> SoundRefund(db.refunds[r], db))
    && Balanced(db)
    && UniqueKeys(db)
  }

  lemma WriteIsSound(db: Database, s: Step)
    requires Sound(db)
    ensures Plan(db, s).transaction.Put? ==> SoundTransaction(Plan(db, s).transaction.row)
  {
    WriterKeepsToTable(db, s);
    var write := Plan(db, s).transaction;
    if write.Put? && write.index < |db.transactions| {
      assert SoundTransaction(db.transactions[write.index]);
    }
  }

  lemma StepKeepsRowsSound(w: World, s: Step)
    requires Sound(w.db)
    ensures var db := Apply(w, s).db;
      && (forall t :: 0 <= t < |db.transactions| ==> SoundTransaction(db.transactions[t]))
      && (forall r :: 0 <= r < |db.refunds| ==> SoundRefund(db.refunds[r], db))
  {
    WriteIsSound(w.db, s);
    WriterKeepsToTable(w.db, s);
    RefundWriterKeepsToTable(w.db, s);
  }

  lemma WriteKeepsTransactionsDistinct(transactions: seq<Transaction>, write: Write<Transaction>)
    requires DistinctTransactions(transactions)
    requires write.Put? ==>
      if write.index < |transactions| then SameIdentity(transactions[write.index], write.row)
      else !KeyTaken(transactions, write.row.key) && !GatewayIdTaken(transactions, write.row.gatewayId)
    ensures DistinctTransactions(Store(transactions, write))
  {
  }

  lemma WriteKeepsRefundsDistinct(refunds: seq<Refund>, write: Write<Refund>)
    requires DistinctRefunds(refunds)
    requires write.Put? ==>
      if write.index < |refunds| then SameRefundIdentity(refunds[write.index], write.row)
      else !RefundKeyTaken(refunds, write.row.key) && !GatewayRefundIdTaken(refunds, write.row.gatewayRefundId)
    ensures DistinctRefunds(Store(refunds, write))
  {
  }

  lemma StepKeepsKeysUnique(w: World, s: Step)
    requires UniqueKeys(w.db)
    ensures UniqueKeys(Apply(w, s).db)
  {
    WriterKeepsToTable(w.db, s);
    RefundWriterKeepsToTable(w.db, s);
    WriteKeepsTransactionsDistinct(w.db.transactions, Plan(w.db, s).transaction);
    WriteKeepsRefundsDistinct(w.db.refunds, Plan(w.db, s).refund);
  }

  /** What the change adds to the credits of a transaction, and of the whole database,
      it adds to what the transaction, and all of them, have refunded. */
  ghost predicate IsBooked(db: Database, c: Change) {
    && CreditDelta(db.refunds, c.refund, PAID, None) == RefundedDelta(db.transactions, c.transaction)
    && forall t: Id :: CreditDelta(db.refunds, c.refund, PAID, Some(t))
         == if c.transaction.Put? && c.transaction.index == t then RefundedDelta(db.transactions, c.transaction) else 0
  }

  /** A refund row and the transaction it is booked on are written together, and
      every write changes what a transaction has refunded by what it changes in the
      credits of that transaction and of the whole database. */
  lemma EveryWriteIsBooked(db: Database, s: Step)
    ensures IsBooked(db, Plan(db, s))
  {
    WriterKeepsToTable(db, s);
    RefundWriterKeepsToTable(db, s);
  }

  lemma BookedChangeKeepsBalance(db: Database, c: Change)
    requires Balanced(db) && IsBooked(db, c)
    requires forall r :: 0 <= r < |db.refunds| ==> SoundRefund(db.refunds[r], db)
    requires c.transaction.Put? ==> c.transaction.index <= |db.transactions|
    ensures Balanced(Database(Store(db.transactions, c.transaction), Store(db.refunds, c.refund)))
  {
    var transactions, refunds := Store(db.transactions, c.transaction), Store(db.refunds, c.refund);
    TotalAfterWrite(db.transactions, c.transaction);
    CreditedAfterWrite(db.refunds, c.refund, PAID, None);
    forall t: nat | t < |transactions| ensures transactions[t].refunded == Credited(refunds, PAID, Some(t)) {
      CreditedAfterWrite(db.refunds, c.refund, PAID, Some(t));
      if t == |db.transactions| {
        NothingCreditedBeyond(db.refunds, PAID, t);
      }
    }
  }

  lemma StepKeepsBalance(w: World, s: Step)
    requires Sound(w.db)
    ensures Balanced(Apply(w, s).db)
  {
    EveryWriteIsBooked(w.db, s);
    WriterKeepsToTable(w.db, s);
    BookedChangeKeepsBalance(w.db, Plan(w.db, s));
  }

  lemma StepStaysSound(w: World, s: Step)
    requires Sound(w.db)
    ensures Sound(Apply(w, s).db)
  {
    StepKeepsRowsSound(w, s);
    StepKeepsKeysUnique(w, s);
    StepKeepsBalance(w, s);
  }

  /** In every reachable database each transaction's refunded amount is the sum of
      its succeeded refunds, and so is the database-wide total; REFUNDED holds
      exactly when the whole amount has been refunded; no committed row is PENDING. */
  lemma {:induction false} RunsStaySound(w: World, steps: seq<Step>)
    requires Sound(w.db)
    ensures Sound(Run(w, steps).db)
    decreases |steps|
  {
    if steps != [] {
      StepStaysSound(w, steps[0]);
      RunsStaySound(Apply(w, steps[0]), steps[1..]);
    }
  }

  /** All of this holds of whatever can be reached from an empty database. */
  lemma ReachableIsSound(w: World)
    requires Reaches(EMPTY_WORLD, w)
    ensures Sound(w.db)
  {
    var steps :| w == Run(EMPTY_WORLD, steps);
    RunsStaySound(EMPTY_WORLD, steps);
  }

  // -- What can be refunded -----------------------------------------------------

  /** A confirmed refund under a fresh key is booked exactly when it asks for no more
      than has been captured and not yet refunded; asking for all of it leaves nothing,
      and ends in REFUNDED exactly when the whole amount had been captured or more. */
  lemma RefundTakesAtMostTheRemainder(w: World, request: RefundRequest, reply: Reply)
    requires Sound(w.db) && request.transaction < |w.db.transactions|
    requires !RefundKeyTaken(w.db.refunds, request.key)
    requires reply.Answered? && ResolveRefundStatus(reply.response.status) == RefundSucceeded
    requires !GatewayRefundIdTaken(w.db.refunds, FirstTruthy(reply.response.gatewayId, reply.response.id))
    requires var row := w.db.transactions[request.transaction];
      row.status in {Succeeded, PartiallyRefunded} && HasGatewayId(row) && row.provider.Some?
    ensures var before := w.db.transactions[request.transaction];
      var after := Apply(w, IssueRefund(request, reply));
      && |after.db.transactions| == |w.db.transactions|
      && var row := after.db.transactions[request.transaction];
      && (row.refunded == before.refunded + request.amount <==> request.amount <= before.captured - before.refunded)
      && (row.refunded == before.refunded <==> after == w)
      && (request.amount == before.captured - before.refunded ==>
            row.refunded == row.captured && (row.status == Refunded <==> row.amount <= row.captured))
  {
    assert SoundTransaction(w.db.transactions[request.transaction]);
  }
}
