// openpoly/markets/pricing.py: taking a quantity from a ladder of resting levels, the
// depth-guarded price, and the venue's taker fee.
module Pricing {
  import opened Common

  const MIN_LEVEL_SIZE: real := 5.0

  datatype Level = Level(price: real, size: real)

  datatype Swept = Swept(notional: real, remaining: real)

  // The bid side `parse_clob_book` keeps (models.py:238-264): best price first, prices strictly
  // between 0 and 1, positive sizes.
  ghost predicate IsBidLadder(levels: seq<Level>) {
    && (forall i :: 0 <= i < |levels| ==> 0.0 < levels[i].price < 1.0 && levels[i].size > 0.0)
    && (forall i, j :: 0 <= i < j < |levels| ==> levels[i].price >= levels[j].price)
  }

  // ---------- money for shares ----------

  // Every product of the module, named so that proofs about sums stay linear.
  function Cost(shares: real, price: real): real { shares * price }

  lemma CostAdds(a: real, b: real, p: real)
    ensures Cost(a, p) + Cost(b, p) == Cost(a + b, p)
  {}

  lemma CostIsMonotone(a: real, p: real, q: real)
    requires a >= 0.0 && p <= q
    ensures Cost(a, p) <= Cost(a, q)
  {}

  lemma CostGrows(a: real, b: real, p: real)
    requires a <= b && p >= 0.0
    ensures Cost(a, p) <= Cost(b, p)
  {}

  lemma CostOfNothing(p: real)
    ensures Cost(0.0, p) == 0.0
  {}

  // ---------- the sweep ----------

  // What the loop of `sweep` computes, level by level.
  function Sweep(levels: seq<Level>, qty: real): Swept {
    if levels == [] then Swept(0.0, qty)
    else
      var take := Min(qty, levels[0].size);
      if qty - take <= 0.0 then Swept(Cost(take, levels[0].price), qty - take)
      else
        var rest := Sweep(levels[1..], qty - take);
        Swept(Cost(take, levels[0].price) + rest.notional, rest.remaining)
  }

  method RunSweep(levels: seq<Level>, qty: real) returns (notional: real, remaining: real)
    ensures Swept(notional, remaining) == Sweep(levels, qty)
  {
    notional, remaining := 0.0, qty;
    var i := 0;
    while i < |levels|
      invariant 0 <= i <= |levels|
      invariant Sweep(levels, qty) ==
                Swept(notional + Sweep(levels[i..], remaining).notional, Sweep(levels[i..], remaining).remaining)
    {
      var take := Min(remaining, levels[i].size);
      assert levels[i..][0] == levels[i] && levels[i..][1..] == levels[i + 1..];
      notional := notional + take * levels[i].price;
      remaining := remaining - take;
      if remaining <= 0.0 {
        return;
      }
      i := i + 1;
    }
  }

  // One way of taking shares from a ladder: how much from each level, within its size.
  ghost predicate IsTaking(levels: seq<Level>, taking: seq<real>) {
    |taking| == |levels| && forall i :: 0 <= i < |levels| ==> 0.0 <= taking[i] <= levels[i].size
  }

  ghost function Taken(taking: seq<real>): real {
    if taking == [] then 0.0 else taking[0] + Taken(taking[1..])
  }

  ghost function Notional(levels: seq<Level>, taking: seq<real>): real
    requires |taking| == |levels|
  {
    if levels == [] then 0.0 else Cost(taking[0], levels[0].price) + Notional(levels[1..], taking[1..])
  }

  // The taking `sweep` performs for a quantity that is not negative.
  ghost function Greedy(levels: seq<Level>, qty: real): (taking: seq<real>)
    ensures |taking| == |levels|
  {
    if levels == [] then []
    else [Min(qty, levels[0].size)] + Greedy(levels[1..], qty - Min(qty, levels[0].size))
  }

  lemma {:induction false} NothingToSweep(levels: seq<Level>)
    requires IsBidLadder(levels)
    ensures Sweep(levels, 0.0) == Swept(0.0, 0.0)
    ensures IsTaking(levels, Greedy(levels, 0.0)) && Taken(Greedy(levels, 0.0)) == 0.0
    ensures Notional(levels, Greedy(levels, 0.0)) == 0.0
  {
    if levels != [] {
      NothingToSweep(levels[1..]);
    }
  }

  // The sweep is itself a taking: what it reports is what its level-by-level shares add up to.
  lemma {:induction false} SweepIsATaking(levels: seq<Level>, qty: real)
    requires IsBidLadder(levels) && qty >= 0.0
    ensures IsTaking(levels, Greedy(levels, qty))
    ensures Taken(Greedy(levels, qty)) == qty - Sweep(levels, qty).remaining
    ensures Notional(levels, Greedy(levels, qty)) == Sweep(levels, qty).notional
    ensures 0.0 <= Sweep(levels, qty).remaining <= qty
  {
    if levels != [] {
      if qty <= levels[0].size {
        NothingToSweep(levels[1..]);
      } else {
        SweepIsATaking(levels[1..], qty - levels[0].size);
      }
    }
  }

  // Taking `more` shares further down a ladder whose prices are at most `top` adds at most their
  // cost at `top`, and never takes value away.
  lemma {:induction false} SweepGrowth(levels: seq<Level>, qty: real, more: real, top: real)
    requires IsBidLadder(levels) && qty >= 0.0 && more >= 0.0 && top >= 0.0
    requires levels != [] ==> levels[0].price <= top
    ensures Sweep(levels, qty).notional <= Sweep(levels, qty + more).notional
    ensures Sweep(levels, qty + more).notional <= Sweep(levels, qty).notional + Cost(more, top)
  {
    hide Cost;
    CostOfNothing(top);
    CostGrows(0.0, more, top);
    if levels != [] {
      var p, s := levels[0].price, levels[0].size;
      CostGrows(qty, qty + more, p);
      CostAdds(qty, more, p);
      CostIsMonotone(more, p, top);
      NothingToSweep(levels[1..]);
      if qty >= s {
        SweepGrowth(levels[1..], qty - s, more, top);
        assert qty + more - s == qty - s + more;
      } else if qty + more > s {
        SweepGrowth(levels[1..], 0.0, qty + more - s, top);
        CostAdds(qty, s - qty, p);
        CostGrows(qty, s, p);
        CostIsMonotone(s - qty, p, top);
        CostAdds(s - qty, qty + more - s, top);
      }
    }
  }

  lemma {:induction false} TakingIsBounded(levels: seq<Level>, taking: seq<real>, top: real)
    requires IsBidLadder(levels) && IsTaking(levels, taking) && top >= 0.0
    requires levels != [] ==> levels[0].price <= top
    ensures 0.0 <= Notional(levels, taking) <= Cost(Taken(taking), top) && Taken(taking) >= 0.0
  {
    hide Cost;
    CostOfNothing(top);
    if levels != [] {
      TakingIsBounded(levels[1..], taking[1..], top);
      CostIsMonotone(taking[0], levels[0].price, top);
      CostOfNothing(levels[0].price);
      CostGrows(0.0, taking[0], levels[0].price);
      CostAdds(taking[0], Taken(taking[1..]), top);
    }
  }

  // Greedy optimality: no way of taking at most `qty` shares within the level sizes yields more
  // notional than the sweep of `qty`.
  lemma {:induction false} SweepIsOptimal(levels: seq<Level>, qty: real, taking: seq<real>)
    requires IsBidLadder(levels) && IsTaking(levels, taking) && Taken(taking) <= qty
    ensures Notional(levels, taking) <= Sweep(levels, qty).notional
  {
    hide Cost;
    if levels != [] {
      var p, s, a := levels[0].price, levels[0].size, taking[0];
      TakingIsBounded(levels, taking, p);
      TakingIsBounded(levels[1..], taking[1..], p);
      CostGrows(Taken(taking), qty, p);
      if qty > s {
        SweepIsOptimal(levels[1..], qty - a, taking[1..]);
        SweepGrowth(levels[1..], qty - s, s - a, p);
        assert qty - s + (s - a) == qty - a;
        CostAdds(a, s - a, p);
      }
    }
  }

  // ---------- consequences for one seller ----------

  ghost function Scaled(taking: seq<real>, share: real): seq<real> {
    if taking == [] then [] else [Cost(taking[0], share)] + Scaled(taking[1..], share)
  }

  lemma {:induction false} ScaledTaking(levels: seq<Level>, taking: seq<real>, share: real)
    requires IsBidLadder(levels) && IsTaking(levels, taking) && 0.0 <= share <= 1.0
    ensures IsTaking(levels, Scaled(taking, share))
    ensures Taken(Scaled(taking, share)) == Cost(Taken(taking), share)
    ensures Notional(levels, Scaled(taking, share)) == Cost(Notional(levels, taking), share)
  {
    hide Cost;
    CostOfNothing(share);
    if levels != [] {
      ScaledTaking(levels[1..], taking[1..], share);
      ScaledStep(taking[0], levels[0].price, share);
      CostAdds(taking[0], Taken(taking[1..]), share);
      CostAdds(Cost(taking[0], levels[0].price), Notional(levels[1..], taking[1..]), share);
    }
  }

  lemma ScaledStep(a: real, p: real, share: real)
    requires a >= 0.0 && 0.0 <= share <= 1.0
    ensures 0.0 <= Cost(a, share) <= a && Cost(Cost(a, share), p) == Cost(Cost(a, p), share)
  {}

  // The average price of a sweep never rises with the quantity swept.
  lemma AveragePriceNeverRises(levels: seq<Level>, less: real, more: real)
    requires IsBidLadder(levels) && 0.0 < less <= more
    ensures Sweep(levels, more).notional / more <= Sweep(levels, less).notional / less
  {
    hide Cost;
    SweepIsATaking(levels, more);
    var greedy := Greedy(levels, more);
    var share := Share(less, more, Taken(greedy));
    ScaledTaking(levels, greedy, share);
    SweepIsOptimal(levels, less, Scaled(greedy, share));
    AverageCompares(Sweep(levels, more).notional, more, Sweep(levels, less).notional, less, share);
  }

  lemma Share(less: real, more: real, taken: real) returns (share: real)
    requires 0.0 < less <= more && 0.0 <= taken <= more
    ensures share == less / more && 0.0 <= share <= 1.0 && Cost(taken, share) <= less
  {
    share := less / more;
    assert share * more == less;
    assert taken * share <= more * share;
  }

  lemma AverageCompares(big: real, more: real, small: real, less: real, share: real)
    requires 0.0 < less <= more && share == less / more && Cost(big, share) <= small
    ensures big / more <= small / less
  {
    var average := big / more;
    assert big * share == average * less;
    assert small / less >= (average * less) / less == average;
  }

  // What is left of a ladder after a sweep of `qty`.
  function Rest(levels: seq<Level>, qty: real): seq<Level> {
    if levels == [] then []
    else if qty >= levels[0].size then Rest(levels[1..], qty - levels[0].size)
    else [levels[0].(size := levels[0].size - qty)] + levels[1..]
  }

  // What is left starts inside some level and keeps the levels below it.
  lemma {:induction false} RestIsALadder(levels: seq<Level>, qty: real)
    requires IsBidLadder(levels) && qty >= 0.0
    ensures IsBidLadder(Rest(levels, qty))
  {
    if levels != [] && qty >= levels[0].size {
      TailIsALadder(levels);
      RestIsALadder(levels[1..], qty - levels[0].size);
    } else if levels != [] {
      var left := Rest(levels, qty);
      assert forall i :: 0 < i < |levels| ==> left[i] == levels[i];
      assert left[0].price == levels[0].price && left[0].size > 0.0;
    }
  }

  lemma TailIsALadder(levels: seq<Level>)
    requires IsBidLadder(levels) && levels != []
    ensures IsBidLadder(levels[1..])
  {
    assert forall i :: 0 <= i < |levels| - 1 ==> levels[1..][i] == levels[i + 1];
  }

  // Sweeping `first + second` is sweeping `first` and then `second` from what is left.
  lemma {:induction false} SweepSplits(levels: seq<Level>, first: real, second: real)
    requires IsBidLadder(levels) && first >= 0.0 && second >= 0.0
    ensures Sweep(levels, first + second).notional ==
            Sweep(levels, first).notional + Sweep(Rest(levels, first), second).notional
    ensures Sweep(levels, first + second).remaining ==
            Sweep(levels, first).remaining + Sweep(Rest(levels, first), second).remaining
  {
    hide Cost;
    if levels != [] {
      var p, s := levels[0].price, levels[0].size;
      NothingToSweep(levels[1..]);
      if first >= s {
        SweepSplits(levels[1..], first - s, second);
        if first == s && second == 0.0 {
          RestIsALadder(levels, first);
          NothingToSweep(Rest(levels, first));
        }
        assert first + second - s == first - s + second;
      } else {
        assert Rest(levels, first)[1..] == levels[1..];
        CostAdds(first, Min(second, s - first), p);
        assert first + second - s == second - (s - first);
      }
    }
  }

  function Depth(levels: seq<Level>): real {
    if levels == [] then 0.0 else levels[0].size + Depth(levels[1..])
  }

  // A sweep is fully covered exactly when the ladder is deep enough, and otherwise leaves the
  // part of the quantity beyond the depth.
  lemma {:induction false} SweepCoversItsDepth(levels: seq<Level>, qty: real)
    requires IsBidLadder(levels) && qty >= 0.0
    ensures Sweep(levels, qty).remaining == Max(0.0, qty - Depth(levels))
    ensures Depth(levels) >= 0.0
  {
    hide Cost;
    if levels != [] {
      NothingToSweep(levels[1..]);
      if qty >= levels[0].size {
        SweepCoversItsDepth(levels[1..], qty - levels[0].size);
      } else {
        SweepCoversItsDepth(levels[1..], 0.0);
      }
    }
  }

  // The sweep's notional lies between its shares at any lower and any upper bound of the prices.
  lemma {:induction false} SweepWithinPrices(levels: seq<Level>, qty: real, low: real, high: real)
    requires IsBidLadder(levels) && qty >= 0.0
    requires forall i :: 0 <= i < |levels| ==> low <= levels[i].price <= high
    ensures Cost(qty - Sweep(levels, qty).remaining, low) <= Sweep(levels, qty).notional
    ensures Sweep(levels, qty).notional <= Cost(qty - Sweep(levels, qty).remaining, high)
  {
    hide Cost;
    CostOfNothing(low);
    CostOfNothing(high);
    if levels != [] {
      var p, s := levels[0].price, levels[0].size;
      CostIsMonotone(Min(qty, s), low, p);
      CostIsMonotone(Min(qty, s), p, high);
      if qty > s {
        SweepWithinPrices(levels[1..], qty - s, low, high);
        var covered := qty - s - Sweep(levels[1..], qty - s).remaining;
        CostAdds(s, covered, low);
        CostAdds(s, covered, high);
      }
    }
  }

  // The levels a sell limited to `floor` may take.
  function AtOrAbove(levels: seq<Level>, floor: real): seq<Level> {
    if levels == [] then []
    else if levels[0].price >= floor then [levels[0]] + AtOrAbove(levels[1..], floor)
    else AtOrAbove(levels[1..], floor)
  }

  // On a ladder they are the top of it.
  lemma {:induction false} AtOrAboveIsTheTop(levels: seq<Level>, floor: real)
    requires IsBidLadder(levels)
    ensures AtOrAbove(levels, floor) <= levels && IsBidLadder(AtOrAbove(levels, floor))
    ensures forall i :: 0 <= i < |levels| ==> (levels[i].price >= floor <==> i < |AtOrAbove(levels, floor)|)
  {
    if levels != [] {
      AtOrAboveIsTheTop(levels[1..], floor);
      assert forall i :: 0 < i < |levels| ==> levels[i] == levels[1..][i - 1];
    }
  }

  // ---------- the depth-guarded price ----------

  function FirstLevelWithSize(levels: seq<Level>, minSize: real): Option<real> {
    if levels == [] then None
    else if levels[0].size >= minSize then Some(levels[0].price)
    else FirstLevelWithSize(levels[1..], minSize)
  }

  // Level `i` is the first to carry `minSize` shares.
  ghost predicate IsFirstLevel(levels: seq<Level>, minSize: real, i: int) {
    && 0 <= i < |levels| && levels[i].size >= minSize
    && forall j :: 0 <= j < i ==> levels[j].size < minSize
  }

  lemma {:induction false} FirstLevelWithSizeIsTheFirst(levels: seq<Level>, minSize: real)
    ensures FirstLevelWithSize(levels, minSize) == None <==> forall i :: 0 <= i < |levels| ==> levels[i].size < minSize
    ensures forall i :: IsFirstLevel(levels, minSize, i) ==>
                FirstLevelWithSize(levels, minSize) == Some(levels[i].price)
  {
    if levels != [] && levels[0].size < minSize {
      FirstLevelWithSizeIsTheFirst(levels[1..], minSize);
      assert forall i :: 0 < i < |levels| ==> levels[i] == levels[1..][i - 1];
      forall i | IsFirstLevel(levels, minSize, i)
        ensures FirstLevelWithSize(levels, minSize) == Some(levels[i].price)
      {
        assert IsFirstLevel(levels[1..], minSize, i - 1);
      }
    }
  }

  // ---------- the taker fee ----------

  function RateOf(rate: Option<real>): real {
    if rate.Some? then rate.value else 0.0
  }

  function TakerFeePerShare(rate: Option<real>, price: real): real {
    RateOf(rate) * price * (1.0 - price)
  }

  // The fee a venue that charges every level at its own price would take for the same sweep.
  ghost function LevelFees(levels: seq<Level>, rate: Option<real>, qty: real): real {
    if levels == [] then 0.0
    else
      var take := Min(qty, levels[0].size);
      Cost(take, TakerFeePerShare(rate, levels[0].price))
      + if qty - take <= 0.0 then 0.0 else LevelFees(levels[1..], rate, qty - take)
  }

  ghost function Square(x: real): real { x * x }

  // How far the swept prices lie from `c`: the squared distance, weighted by the shares taken.
  ghost function Dispersion(levels: seq<Level>, qty: real, c: real): real {
    if levels == [] then 0.0
    else
      var take := Min(qty, levels[0].size);
      Cost(take, Square(levels[0].price - c))
      + if qty - take <= 0.0 then 0.0 else Dispersion(levels[1..], qty - take, c)
  }

  // The line that touches the fee curve r * p * (1 - p) at p = c.
  ghost function TangentSlope(rate: Option<real>, c: real): real { RateOf(rate) * (1.0 - 2.0 * c) }

  ghost function TangentBase(rate: Option<real>, c: real): real { RateOf(rate) * c * c }

  // Each level's fee lies below that line by the rate times its squared distance from c.
  lemma {:induction false} FeesBelowTheTangent(levels: seq<Level>, rate: Option<real>, qty: real, c: real)
    requires IsBidLadder(levels) && qty >= 0.0
    ensures LevelFees(levels, rate, qty) ==
            Cost(Sweep(levels, qty).notional, TangentSlope(rate, c))
            + Cost(qty - Sweep(levels, qty).remaining, TangentBase(rate, c))
            - Cost(Dispersion(levels, qty, c), RateOf(rate))
    ensures Dispersion(levels, qty, c) >= 0.0
  {
    hide Cost, TakerFeePerShare, Square, TangentSlope, TangentBase;
    var slope, base, r := TangentSlope(rate, c), TangentBase(rate, c), RateOf(rate);
    CostOfNothing(slope);
    CostOfNothing(base);
    CostOfNothing(r);
    if levels != [] {
      var p, s := levels[0].price, levels[0].size;
      FeeOfOneLevel(rate, Min(qty, s), p, c);
      if qty > s {
        FeesBelowTheTangent(levels[1..], rate, qty - s, c);
        var rest := Sweep(levels[1..], qty - s);
        CostAdds(Cost(s, p), rest.notional, slope);
        CostAdds(s, qty - s - rest.remaining, base);
        CostAdds(Cost(s, Square(p - c)), Dispersion(levels[1..], qty - s, c), r);
      }
    }
  }

  lemma FeeOfOneLevel(rate: Option<real>, take: real, p: real, c: real)
    requires take >= 0.0
    ensures Cost(take, TakerFeePerShare(rate, p)) ==
            Cost(Cost(take, p), TangentSlope(rate, c)) + Cost(take, TangentBase(rate, c))
            - Cost(Cost(take, Square(p - c)), RateOf(rate))
    ensures Cost(take, Square(p - c)) >= 0.0
  {
    assert Square(p - c) >= 0.0;
  }

  // Charging the fee once at the average price over the quantity asked for overstates the per-level
  // fees by exactly the rate times the price dispersion, plus the tangent's base for any share the
  // ladder could not cover; so at a rate that is not negative it is never lower.
  lemma FeeAtTheAverageIsNeverLower(levels: seq<Level>, rate: Option<real>, qty: real)
    requires IsBidLadder(levels) && 0.0 < qty
    ensures var swept := Sweep(levels, qty); var price := swept.notional / qty;
            && Cost(qty, TakerFeePerShare(rate, price)) ==
               LevelFees(levels, rate, qty) + Cost(Dispersion(levels, qty, price), RateOf(rate))
               + Cost(swept.remaining, TangentBase(rate, price))
            && (RateOf(rate) >= 0.0 ==> LevelFees(levels, rate, qty) <= Cost(qty, TakerFeePerShare(rate, price)))
  {
    hide Cost, TakerFeePerShare, Square, TangentSlope, TangentBase;
    var swept, r := Sweep(levels, qty), RateOf(rate);
    var price := swept.notional / qty;
    FeesBelowTheTangent(levels, rate, qty, price);
    FeeAtOnePrice(rate, swept.notional, qty);
    CostAdds(qty - swept.remaining, swept.remaining, TangentBase(rate, price));
    if r >= 0.0 {
      SweepIsATaking(levels, qty);
      BaseIsNotNegative(rate, price);
      CostGrows(0.0, Dispersion(levels, qty, price), r);
      CostOfNothing(r);
      CostGrows(0.0, swept.remaining, TangentBase(rate, price));
      CostOfNothing(TangentBase(rate, price));
    }
  }

  lemma BaseIsNotNegative(rate: Option<real>, price: real)
    requires RateOf(rate) >= 0.0
    ensures TangentBase(rate, price) >= 0.0
  {
    assert RateOf(rate) * price * price == RateOf(rate) * (price * price) && price * price >= 0.0;
  }

  // At its own price the fee meets the tangent.
  lemma FeeAtOnePrice(rate: Option<real>, notional: real, qty: real)
    requires qty > 0.0
    ensures var c := notional / qty;
            Cost(notional, TangentSlope(rate, c)) + Cost(qty, TangentBase(rate, c)) ==
              Cost(qty, TakerFeePerShare(rate, c))
  {
    var r, c := RateOf(rate), notional / qty;
    assert notional == qty * c;
    assert qty * c * (r * (1.0 - 2.0 * c)) + qty * (r * c * c) == qty * (r * c * (1.0 - c));
  }
}
