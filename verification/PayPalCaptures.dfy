/** The captured amount in a PayPal order, summed over its nested captures. Amounts
    are exact decimals, here reals. */
module PayPalCaptures {
  import opened Ledger

  /** A JSON entry: a missing one has a default, a null one has none. */
  datatype Field<+T> = Missing | Null | Present(value: T)

  datatype Text = Number(amount: real) | NotANumber

  datatype Amount = Amount(value: Field<Text>)
  datatype Capture = Capture(amount: Field<Amount>)
  datatype Payments = Payments(captures: Field<seq<Capture>>)
  datatype PurchaseUnit = PurchaseUnit(payments: Field<Payments>)
  datatype Order = Order(status: string, purchaseUnits: Field<seq<PurchaseUnit>>)

  /** What one entry adds to the sum; reading `Unreadable` raises. */
  datatype Entry = Adds(amount: real) | Unreadable

  function EntryOf(capture: Capture): Entry {
    match capture.amount
    case Missing => Adds(0.0)
    case Present(Amount(Missing)) => Adds(0.0)
    case Present(Amount(Present(Number(amount)))) => Adds(amount)
    case _ => Unreadable
  }

  function EntriesOf(captures: seq<Capture>): seq<Entry> {
    seq(|captures|, i requires 0 <= i < |captures| => EntryOf(captures[i]))
  }

  function UnitEntries(unit: PurchaseUnit): seq<Entry> {
    match unit.payments
    case Missing => []
    case Present(Payments(Missing)) => []
    case Present(Payments(Present(captures))) => EntriesOf(captures)
    case _ => [Unreadable]
  }

  /** All entries of all units, in order. */
  function Flattened(units: seq<PurchaseUnit>): seq<Entry> {
    if units == [] then [] else Flattened(units[..|units| - 1]) + UnitEntries(units[|units| - 1])
  }

  function OrderEntries(order: Order): seq<Entry> {
    match order.purchaseUnits
    case Missing => []
    case Null => [Unreadable]
    case Present(units) => Flattened(units)
  }

  function Sum(entries: seq<Entry>): real {
    if entries == [] then 0.0
    else
      var last := entries[|entries| - 1];
      Sum(entries[..|entries| - 1]) + if last.Adds? then last.amount else 0.0
  }

  /** The sum, unless something on the way raises. */
  function Total(entries: seq<Entry>): Outcome<real> {
    if Unreadable in entries then Raised(Unhandled) else Returned(Sum(entries))
  }

  /** Two totals put together. */
  function Plus(a: Outcome<real>, b: Outcome<real>): Outcome<real> {
    if a.Raised? then a else if b.Raised? then b else Returned(a.value + b.value)
  }

  lemma {:induction false} SumAppend(a: seq<Entry>, b: seq<Entry>)
    ensures Sum(a + b) == Sum(a) + Sum(b)
    decreases |b|
  {
    if b == [] {
      assert a + b == a;
    } else {
      assert (a + b)[..|a + b| - 1] == a + b[..|b| - 1];
      SumAppend(a, b[..|b| - 1]);
    }
  }

  lemma TotalAppend(a: seq<Entry>, b: seq<Entry>)
    ensures Total(a + b) == Plus(Total(a), Total(b))
  {
    SumAppend(a, b);
  }

  lemma FlattenedNext(units: seq<PurchaseUnit>, unit: PurchaseUnit)
    ensures Flattened(units + [unit]) == Flattened(units) + UnitEntries(unit)
  {
    assert (units + [unit])[..|units|] == units;
  }

  /** The total so far, one unit later. */
  lemma TotalNext(units: seq<PurchaseUnit>, i: nat)
    requires i < |units|
    ensures Total(Flattened(units[..i + 1])) == Plus(Total(Flattened(units[..i])), Total(UnitEntries(units[i])))
  {
    assert units[..i + 1] == units[..i] + [units[i]];
    FlattenedNext(units[..i], units[i]);
    TotalAppend(Flattened(units[..i]), UnitEntries(units[i]));
  }

  /** Once it has raised it stays so. */
  lemma {:induction false} RaisedTotalStays(units: seq<PurchaseUnit>, i: nat)
    requires i <= |units| && Total(Flattened(units[..i])).Raised?
    ensures Total(Flattened(units)) == Total(Flattened(units[..i]))
    decreases |units| - i
  {
    if i == |units| {
      assert units[..i] == units;
    } else {
      TotalNext(units, i);
      RaisedTotalStays(units, i + 1);
    }
  }

  /** The nested loops come to the total over the flattened entries: they raise exactly
      when some entry cannot be read, and otherwise return the sum. */
  method ExtractCapturedAmount(order: Order) returns (outcome: Outcome<real>)
    ensures outcome == Total(OrderEntries(order))
  {
    var total := 0.0;
    var units;
    match order.purchaseUnits {
      case Missing => units := [];
      case Null => return Raised(Unhandled);
      case Present(given) => units := given;
    }
    for i := 0 to |units|
      invariant Total(Flattened(units[..i])) == Returned(total)
    {
      var added := AddUnit(total, units[i]);
      TotalNext(units, i);
      match added {
        case Raised(e) =>
          RaisedTotalStays(units, i + 1);
          return Raised(e);
        case Returned(sum) => total := sum;
      }
    }
    assert units[..|units|] == units;
    return Returned(total);
  }

  /** The inner loop, over the captures of one purchase unit. */
  method AddUnit(total: real, unit: PurchaseUnit) returns (outcome: Outcome<real>)
    ensures outcome == Plus(Returned(total), Total(UnitEntries(unit)))
  {
    var captures;
    match unit.payments {
      case Missing => captures := [];
      case Present(Payments(Missing)) => captures := [];
      case Present(Payments(Present(given))) => captures := given;
      case _ => return Raised(Unhandled);
    }
    ghost var entries := UnitEntries(unit);
    var sum := total;
    for j := 0 to |captures|
      invariant entries == EntriesOf(captures)
      invariant Unreadable !in entries[..j] && sum == total + Sum(entries[..j])
    {
      assert entries[..j + 1][..j] == entries[..j] && entries[j] == EntryOf(captures[j]);
      match captures[j].amount {
        case Missing =>
        case Present(Amount(Missing)) =>
        case Present(Amount(Present(Number(amount)))) => sum := sum + amount;
        case _ => return Raised(Unhandled);
      }
    }
    assert entries[..|captures|] == entries;
    return Returned(sum);
  }

  lemma Regrouped(a: seq<Entry>, b: seq<Entry>, c: seq<Entry>)
    ensures (a + b) + c == a + (b + c)
  {
  }

  lemma {:induction false} FlattenedAppend(a: seq<PurchaseUnit>, b: seq<PurchaseUnit>)
    ensures Flattened(a + b) == Flattened(a) + Flattened(b)
    decreases |b|
  {
    if b == [] {
      assert a + b == a;
    } else {
      var init, last := b[..|b| - 1], b[|b| - 1];
      assert a + b == (a + init) + [last] && b == init + [last];
      FlattenedAppend(a, init);
      FlattenedNext(a + init, last);
      FlattenedNext(init, last);
      Regrouped(Flattened(a), Flattened(init), UnitEntries(last));
    }
  }

  /** The amount of an order adds up over its purchase units, and is unreadable when
      some part of it is. */
  lemma CapturedIsAdditive(a: seq<PurchaseUnit>, b: seq<PurchaseUnit>)
    ensures Total(Flattened(a + b)) == Plus(Total(Flattened(a)), Total(Flattened(b)))
  {
    FlattenedAppend(a, b);
    TotalAppend(Flattened(a), Flattened(b));
  }

  lemma WithoutUnit(unit: PurchaseUnit, rest: seq<PurchaseUnit>, left: seq<PurchaseUnit>, right: seq<PurchaseUnit>)
    requires multiset([unit] + rest) == multiset(left + ([unit] + right))
    ensures multiset(rest) == multiset(left + right)
  {
    assert multiset(rest) == multiset([unit] + rest) - multiset{unit};
    assert multiset(left + right) == multiset(left + ([unit] + right)) - multiset{unit};
  }

  /** Either both totals raise the same error, or they commute. */
  lemma PlusCommutes(a: seq<Entry>, b: seq<Entry>, c: seq<Entry>)
    ensures Plus(Total(a), Plus(Total(b), Total(c))) == Plus(Total(b), Plus(Total(a), Total(c)))
  {
  }

  lemma UnitMovesToFront(a: seq<PurchaseUnit>, unit: PurchaseUnit, b: seq<PurchaseUnit>)
    ensures Total(Flattened(a + ([unit] + b))) == Plus(Total(Flattened([unit])), Total(Flattened(a + b)))
  {
    CapturedIsAdditive(a, [unit] + b);
    CapturedIsAdditive([unit], b);
    CapturedIsAdditive(a, b);
    PlusCommutes(Flattened(a), Flattened([unit]), Flattened(b));
  }

  /** The order in which PayPal lists the purchase units does not matter, neither to
      the sum nor to whether there is one. */
  lemma {:induction false} CapturedIgnoresOrder(a: seq<PurchaseUnit>, b: seq<PurchaseUnit>)
    requires multiset(a) == multiset(b)
    ensures Total(Flattened(a)) == Total(Flattened(b))
    decreases |a|
  {
    if a == [] {
      assert |multiset(b)| == 0;
    } else {
      var unit, rest := a[0], a[1..];
      assert a == [unit] + rest;
      assert unit in multiset(b);
      var i :| 0 <= i < |b| && b[i] == unit;
      var left, right := b[..i], b[i + 1..];
      assert b == left + ([unit] + right);
      WithoutUnit(unit, rest, left, right);
      CapturedIgnoresOrder(rest, left + right);
      CapturedIsAdditive([unit], rest);
      UnitMovesToFront(left, unit, right);
    }
  }

  // -- What counts, entry by entry ----------------------------------------------

  /** A capture of a plain amount, as PayPal sends it. */
  function PlainCapture(amount: real): Capture {
    Capture(Present(Amount(Present(Number(amount)))))
  }

  function UnitOf(captures: seq<Capture>): PurchaseUnit {
    PurchaseUnit(Present(Payments(Present(captures))))
  }

  function PlainUnit(amounts: seq<real>): PurchaseUnit {
    UnitOf(seq(|amounts|, i requires 0 <= i < |amounts| => PlainCapture(amounts[i])))
  }

  function OrderOf(status: string, units: seq<PurchaseUnit>): Order {
    Order(status, Present(units))
  }

  function RealSum(amounts: seq<real>): real {
    if amounts == [] then 0.0 else RealSum(amounts[..|amounts| - 1]) + amounts[|amounts| - 1]
  }

  function RealSums(amounts: seq<seq<real>>): real {
    if amounts == [] then 0.0 else RealSums(amounts[..|amounts| - 1]) + RealSum(amounts[|amounts| - 1])
  }

  lemma {:induction false} PlainUnitAddsUp(amounts: seq<real>)
    ensures Total(UnitEntries(PlainUnit(amounts))) == Returned(RealSum(amounts))
  {
    var entries := UnitEntries(PlainUnit(amounts));
    if amounts != [] {
      var init := UnitEntries(PlainUnit(amounts[..|amounts| - 1]));
      PlainUnitAddsUp(amounts[..|amounts| - 1]);
      assert entries == init + [Adds(amounts[|amounts| - 1])];
      assert entries[..|entries| - 1] == init;
    }
  }

  function PlainUnits(amounts: seq<seq<real>>): seq<PurchaseUnit> {
    if amounts == [] then []
    else PlainUnits(amounts[..|amounts| - 1]) + [PlainUnit(amounts[|amounts| - 1])]
  }

  lemma {:induction false} PlainUnitsAddUp(amounts: seq<seq<real>>)
    ensures Total(Flattened(PlainUnits(amounts))) == Returned(RealSums(amounts))
  {
    if amounts != [] {
      var init, last := PlainUnits(amounts[..|amounts| - 1]), amounts[|amounts| - 1];
      PlainUnitsAddUp(amounts[..|amounts| - 1]);
      FlattenedNext(init, PlainUnit(last));
      TotalAppend(Flattened(init), UnitEntries(PlainUnit(last)));
      PlainUnitAddsUp(last);
    }
  }

  /** An order of plain captures, one unit for each list of amounts, comes to the sum of
      all these amounts. */
  lemma PlainOrderAddsUp(amounts: seq<seq<real>>, status: string)
    ensures Total(OrderEntries(OrderOf(status, PlainUnits(amounts)))) == Returned(RealSums(amounts))
  {
    PlainUnitsAddUp(amounts);
  }

  lemma EntryMatters(a: seq<Entry>, entry: Entry, b: seq<Entry>)
    ensures Total(a + ([entry] + b)) == Plus(Total([entry]), Total(a + b))
    ensures Total([entry]) == if entry.Adds? then Returned(entry.amount) else Raised(Unhandled)
  {
    TotalAppend(a, [entry] + b);
    TotalAppend([entry], b);
    TotalAppend(a, b);
    PlusCommutes(a, [entry], b);
    assert [entry][..0] == [] && Sum([]) == 0.0;
  }

  lemma EntriesInUnit(a: seq<Capture>, capture: Capture, b: seq<Capture>)
    ensures UnitEntries(UnitOf(a + [capture] + b)) == EntriesOf(a) + ([EntryOf(capture)] + EntriesOf(b))
    ensures UnitEntries(UnitOf(a + b)) == EntriesOf(a) + EntriesOf(b)
  {
  }

  /** What one capture adds to its unit, wherever it stands: a missing amount or value
      nothing, a number itself, and anything else makes the unit unreadable. */
  lemma CaptureAdds(a: seq<Capture>, capture: Capture, b: seq<Capture>)
    ensures var with, without := Total(UnitEntries(UnitOf(a + [capture] + b))), Total(UnitEntries(UnitOf(a + b)));
      && (capture.amount == Missing || capture.amount == Present(Amount(Missing)) ==> with == without)
      && (forall x :: capture == PlainCapture(x) ==> with == Plus(Returned(x), without))
      && (capture.amount in {Null, Present(Amount(Null)), Present(Amount(Present(NotANumber)))} ==> with == Raised(Unhandled))
  {
    EntriesInUnit(a, capture, b);
    EntryMatters(EntriesOf(a), EntryOf(capture), EntriesOf(b));
  }

  lemma UnitAlone(unit: PurchaseUnit)
    ensures Flattened([unit]) == UnitEntries(unit)
  {
    FlattenedNext([], unit);
    assert [] + [unit] == [unit] && Flattened([]) == [];
  }

  /** What a unit adds to its order without captures to look at: nothing when payments or
      captures are missing, and unreadable when they are null. */
  lemma UnitAdds(a: seq<PurchaseUnit>, payments: Field<Payments>, b: seq<PurchaseUnit>, status: string)
    ensures var with := Total(OrderEntries(OrderOf(status, a + ([PurchaseUnit(payments)] + b))));
      && (payments == Missing || payments == Present(Payments(Missing)) ==>
            with == Total(OrderEntries(OrderOf(status, a + b))))
      && (payments == Null || payments == Present(Payments(Null)) ==> with == Raised(Unhandled))
  {
    var unit := PurchaseUnit(payments);
    UnitMovesToFront(a, unit, b);
    UnitAlone(unit);
    if payments == Null || payments == Present(Payments(Null)) {
      assert UnitEntries(unit) == [Unreadable];
    }
  }

  /** And what the order comes to without units to look at. */
  lemma OrderWithoutUnits(status: string)
    ensures Total(OrderEntries(Order(status, Missing))) == Returned(0.0)
    ensures Total(OrderEntries(Order(status, Null))) == Raised(Unhandled)
  {
  }

  /** What `capture_payment` reports: an order that is not completed is an error of the
      gateway's, an entry that cannot be read any other exception, and the requested
      amount stands in for a sum of zero. */
  method CapturedAmountReported(order: Order, amount: Option<real>) returns (reported: Outcome<real>)
    ensures reported == Raised(GatewayFailed) <==> order.status != "completed"
    ensures reported == Raised(Unhandled) <==> order.status == "completed" && Unreadable in OrderEntries(order)
    ensures var sum := Sum(OrderEntries(order));
      reported.Returned? ==>
        && (reported.value != sum <==> sum == 0.0 && amount.Some? && amount.value != 0.0)
        && (reported.value != sum ==> Some(reported.value) == amount)
    ensures reported.Raised? ==> reported.error in {GatewayFailed, Unhandled}
  {
    if order.status != "completed" {
      return Raised(GatewayFailed);
    }
    var captured := ExtractCapturedAmount(order);
    if captured == Returned(0.0) && amount.Some? {
      return Returned(amount.value);
    }
    return captured;
  }
}
