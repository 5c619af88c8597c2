/** Stripe's minor units. Amounts are exact decimals, here reals. */
module StripeUnits {

  /** Python's int(): truncation toward zero. */
  function Truncated(x: real): int {
    if 0.0 <= x then x.Floor else -((-x).Floor)
  }

  function ToMinorUnits(amount: real): int {
    Truncated(amount * 100.0)
  }

  function FromMinorUnits(cents: int): real {
    cents as real / 100.0
  }

  ghost predicate HasTwoPlaces(amount: real) {
    exists cents: int :: amount == FromMinorUnits(cents)
  }

  lemma TruncatedInteger(n: int)
    ensures Truncated(n as real) == n
  {
    assert (-(n as real)) == (-n) as real;
  }

  /** Cents survive the trip through decimals. */
  lemma MinorUnitsRoundTrip(cents: int)
    ensures ToMinorUnits(FromMinorUnits(cents)) == cents
  {
    assert FromMinorUnits(cents) * 100.0 == cents as real;
    TruncatedInteger(cents);
  }

  /** Both conversions count in hundredths. */
  lemma MinorUnitsAreHundredths(whole: nat, hundredths: nat)
    requires hundredths < 100
    ensures ToMinorUnits(whole as real + hundredths as real / 100.0) == 100 * whole + hundredths
    ensures FromMinorUnits(100 * whole + hundredths) == whole as real + hundredths as real / 100.0
  {
    assert (100 * whole + hundredths) as real == 100.0 * whole as real + hundredths as real;
    MinorUnitsRoundTrip(100 * whole + hundredths);
  }

  /** An amount survives the trip through cents exactly when it has two places. */
  lemma AmountRoundTripsIffTwoPlaces(amount: real)
    ensures FromMinorUnits(ToMinorUnits(amount)) == amount <==> HasTwoPlaces(amount)
  {
    if cents: int :| amount == FromMinorUnits(cents) {
      MinorUnitsRoundTrip(cents);
    }
  }

  /** Truncation moves an amount toward zero by less than one cent. */
  lemma TruncationLosesLessThanACent(amount: real)
    ensures var kept := FromMinorUnits(ToMinorUnits(amount));
      if 0.0 <= amount then 0.0 <= amount - kept < 0.01 else 0.0 <= kept - amount < 0.01
  {
    var cents := amount * 100.0;
    assert if 0.0 <= amount then 0.0 <= cents else cents < 0.0;
    assert FromMinorUnits(ToMinorUnits(amount)) * 100.0 == ToMinorUnits(amount) as real;
  }

  function Total(amounts: seq<real>): real {
    if amounts == [] then 0.0 else Total(amounts[..|amounts| - 1]) + amounts[|amounts| - 1]
  }

  function TotalCents(amounts: seq<real>): int {
    if amounts == [] then 0 else TotalCents(amounts[..|amounts| - 1]) + ToMinorUnits(amounts[|amounts| - 1])
  }

  /** The cents sent for a list of two-place amounts are the cents of their sum. */
  lemma {:induction false} CentsOfSum(amounts: seq<real>)
    requires forall i :: 0 <= i < |amounts| ==> HasTwoPlaces(amounts[i])
    ensures Total(amounts) == FromMinorUnits(TotalCents(amounts))
    ensures ToMinorUnits(Total(amounts)) == TotalCents(amounts)
  {
    if amounts != [] {
      var init, last := amounts[..|amounts| - 1], amounts[|amounts| - 1];
      CentsOfSum(init);
      AmountRoundTripsIffTwoPlaces(last);
      assert Total(amounts) == FromMinorUnits(TotalCents(init)) + FromMinorUnits(ToMinorUnits(last));
    }
    MinorUnitsRoundTrip(TotalCents(amounts));
  }
}
