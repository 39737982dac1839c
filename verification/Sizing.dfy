// openpoly/execution/sizing.py: the order size the venue accepts, the price band, and what a
// sell of a quantised size leaves behind.
module Sizing {
  import opened Common

  const MIN_NOTIONAL_USD: real := 1.10
  const MIN_TOKEN_PRICE: real := 0.0001
  const MAX_TOKEN_PRICE: real := 1.0 - MIN_TOKEN_PRICE
  const MIN_SELL_SHARES: real := 1.0
  // portfolio/store.py:37, the size step of the venue: a remainder below it counts as sold.
  const MIN_SELLABLE_QTY: real := 0.01

  predicate InPriceBand(price: Option<real>) {
    price.Some? && MIN_TOKEN_PRICE <= price.value <= MAX_TOKEN_PRICE
  }

  predicate IsDust(qty: real) { qty < MIN_SELL_SHARES }

  // Python's round to the nearest integer, ties to even.
  function RoundHalfEven(x: real): int {
    var low := x.Floor;
    var part := x - low as real;
    if part < 0.5 then low
    else if part > 0.5 then low + 1
    else if low % 2 == 0 then low
    else low + 1
  }

  // `round(x, 6)`
  function Round6(x: real): real {
    RoundHalfEven(x * 1000000.0) as real / 1000000.0
  }

  function QuantizeSize(qty: real): real {
    if IsDust(qty) then 0.0 else Round6(qty * 100.0).Floor as real / 100.0
  }

  // A quantity on the venue's share grid of a millionth (CTF_DECIMALS = 6).
  ghost predicate OnShareGrid(qty: real) {
    (qty * 1000000.0).Floor as real == qty * 1000000.0
  }

  // ---------- what the quantised size is ----------

  // The floor after the six-digit rounding, in hundredths: the rounding moves the quantity by at
  // most half a millionth of a hundredth, and the floor then drops whole steps of that grid.
  lemma QuantizedHundredths(qty: real) returns (hundredths: int)
    requires !IsDust(qty)
    ensures QuantizeSize(qty) == hundredths as real / 100.0 && hundredths >= 100
    ensures hundredths as real <= qty * 100.0 + 0.0000005
    ensures qty * 100.0 <= hundredths as real + 1.0 - 0.0000005
  {
    var x := qty * 100000000.0;
    assert x == (qty * 100.0) * 1000000.0;
    var n := RoundHalfEven(x);
    assert x - 0.5 <= n as real <= x + 0.5;
    hundredths := (n as real / 1000000.0).Floor;
    var h := hundredths as real;
    assert h <= n as real / 1000000.0 < h + 1.0;
    assert h * 1000000.0 <= n as real < (h + 1.0) * 1000000.0;
    assert n <= (hundredths + 1) * 1000000 - 1;
    assert hundredths >= 100 by {
      assert n >= 100000000;
    }
  }

  // The quantised size never exceeds the quantity by more than half a step of the rounding, and is
  // always within one venue size step below it.
  lemma QuantizeIsClose(qty: real)
    requires qty >= 1.0
    ensures 1.0 <= QuantizeSize(qty) <= qty + 0.000000005
    ensures qty - 0.01 + 0.000000005 <= QuantizeSize(qty)
  {
    var h := QuantizedHundredths(qty);
  }

  lemma QuantizeZeroIffDust(qty: real)
    ensures QuantizeSize(qty) == 0.0 <==> IsDust(qty)
    ensures QuantizeSize(qty) >= 0.0
  {
    if !IsDust(qty) {
      QuantizeIsClose(qty);
    }
  }

  lemma RoundOfAnInteger(n: int)
    ensures RoundHalfEven(n as real) == n
  {}

  // A quantity that is already a whole number of hundredths is its own size.
  lemma WholeHundredthsStay(hundredths: int)
    requires hundredths >= 100
    ensures QuantizeSize(hundredths as real / 100.0) == hundredths as real / 100.0
  {
    var qty := hundredths as real / 100.0;
    assert qty * 100.0 * 1000000.0 == (hundredths * 1000000) as real;
    RoundOfAnInteger(hundredths * 1000000);
    assert (hundredths * 1000000) as real / 1000000.0 == hundredths as real;
  }

  // Quantising twice is quantising once.
  lemma QuantizeIsIdempotent(qty: real)
    ensures QuantizeSize(QuantizeSize(qty)) == QuantizeSize(qty)
  {
    if !IsDust(qty) {
      var h := QuantizedHundredths(qty);
      WholeHundredthsStay(h);
    }
  }

  // On the share grid the rounding changes nothing, so the size never exceeds the quantity.
  lemma QuantizeRoundsDownOnTheGrid(qty: real)
    requires OnShareGrid(qty) && qty >= 0.0
    ensures QuantizeSize(qty) <= qty
  {
    if !IsDust(qty) {
      var units := (qty * 1000000.0).Floor;
      var x := qty * 100.0 * 1000000.0;
      assert x == (units * 100) as real;
      RoundOfAnInteger(units * 100);
      assert Round6(qty * 100.0) == qty * 100.0;
    }
  }

  // Off the grid the six-digit rounding can lift a quantity over the next hundredth: the size then
  // exceeds what was asked for. 5.559999999 quantises to 5.56.
  lemma QuantizeMayRoundUpOffTheGrid()
    ensures QuantizeSize(5.559999999) == 5.56 && QuantizeSize(5.559999999) > 5.559999999
  {
    var x := 5.559999999 * 100.0 * 1000000.0;
    assert x == 555999999.9;
    assert x.Floor == 555999999;
    assert RoundHalfEven(x) == 556000000;
    assert 556000000 as real / 1000000.0 == 556.0;
    assert (556.0).Floor == 556;
  }

  // Rounding reaches a whole even number exactly from half a step below it: a tie there goes up.
  lemma RoundReaches(x: real, whole: int)
    requires whole % 2 == 0
    ensures RoundHalfEven(x) >= whole <==> x >= whole as real - 0.5
  {
    if x.Floor == whole - 1 {
      assert x.Floor % 2 == 1;
    }
  }

  // The size of a quantity passes a bound at or above it exactly when the quantity lies within half a
  // rounding step (5e-7 hundredths) of the first whole hundredth past the bound.
  lemma SizePassesExactlyJustBelowAHundredth(qty: real, bound: real)
    requires 1.0 <= qty <= bound
    ensures QuantizeSize(qty) > bound <==> (bound * 100.0).Floor as real + 1.0 - qty * 100.0 <= 0.0000005
  {
    var next := (bound * 100.0).Floor + 1;
    var n := RoundHalfEven(qty * 100.0 * 1000000.0);
    RoundReaches(qty * 100.0 * 1000000.0, next * 1000000);
    var h := (n as real / 1000000.0).Floor;
    assert QuantizeSize(qty) == h as real / 100.0;
    assert QuantizeSize(qty) > bound <==> h as real > bound * 100.0;
    assert h as real > bound * 100.0 <==> h >= next;
    assert h >= next <==> n as real / 1000000.0 >= next as real;
    assert n as real / 1000000.0 >= next as real <==> n >= next * 1000000;
    assert (next * 1000000) as real == next as real * 1000000.0;
  }

  // So the size exceeds the quantity itself exactly when the quantity lies that close below its next
  // whole hundredth, the tie included.
  lemma QuantizeExceedsExactlyJustBelowAHundredth(qty: real)
    requires qty >= 1.0
    ensures QuantizeSize(qty) > qty <==> 0.0 < (qty * 100.0).Floor as real + 1.0 - qty * 100.0 <= 0.0000005
  {
    SizePassesExactlyJustBelowAHundredth(qty, qty);
  }

  // ---------- the residue rule agrees with the size rule ----------

  // A full fill of the quantised size leaves a remainder the ledger counts as fully sold. A live
  // fill counts as full from 1e-9 below the size (live_executor.py:821) and still closes.
  lemma FullFillLeavesNoSellableResidue(qty: real, filled: real)
    requires qty >= 1.0 && filled >= QuantizeSize(qty) - EPS
    ensures qty - Min(filled, qty) < MIN_SELLABLE_QTY
  {
    QuantizeIsClose(qty);
  }
}
