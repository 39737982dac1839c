// openpoly/execution/executor.py: the paper executor, which must not fill what live could not.
module Paper {
  import opened Common
  import opened FillPrice
  import opened Live
  import opened Pricing
  import opened Sizing
  import Ledger

  // What a paper order sees of the catalog: whether the token's book is gone, its levels, whether it
  // is fresh enough, and the market's fee rate (none when the market left the catalog).
  datatype PaperMarket = PaperMarket(gone: bool, bids: Option<seq<Level>>, usable: bool, rate: Option<real>)

  datatype PaperFill = PaperFill(qty: real, price: real, fee: real) | PaperSkip(reason: string)

  // Never above the best bid; without a floor, the best bid itself.
  function PaperFloor(best: real, floor: Option<real>): real {
    if floor == None then best else Min(floor.value, best)
  }

  // The bids a sell may take.
  function Takeable(bids: seq<Level>, floor: Option<real>): seq<Level>
    requires bids != []
  {
    AtOrAbove(bids, PaperFloor(bids[0].price, floor))
  }

  function PaperSize(positionQty: real, levels: seq<Level>): real {
    QuantizeSize(Min(positionQty, Depth(levels)))
  }

  function PaperSell(positionQty: real, m: PaperMarket, floor: Option<real>): PaperFill {
    if m.gone then PaperSkip("market_closed_await_settlement")
    else if m.bids == None then PaperSkip("no_order_book")
    else if !m.usable then PaperSkip("stale_order_book")
    else if m.bids.value == [] then PaperSkip("no_bid_liquidity")
    else
      var levels := Takeable(m.bids.value, floor);
      var qty := PaperSize(positionQty, levels);
      if exists i :: 0 <= i < |levels| && !InPriceBand(Some(levels[i].price)) then PaperSkip("price_out_of_band")
      else if qty <= 0.0 then
        PaperSkip(if QuantizeSize(positionQty) <= 0.0 then "dust_remainder" else "bid_depth_below_min_size")
      else
        var price := Sweep(levels, qty).notional / qty;
        PaperFill(qty, price, Cost(qty, TakerFeePerShare(m.rate, price)))
  }

  function PaperRecord(fill: PaperFill, order: SellOrder): Ledger.SellArgs
    requires fill.PaperFill?
  {
    Ledger.SellArgs(fill.qty, fill.price, order.ts, order.reason, order.trigger, fill.fee, None, None)
  }

  function PaperTables(position: HeldPosition, m: PaperMarket, order: SellOrder, t: Ledger.Tables): Ledger.Tables {
    var fill := PaperSell(position.qty, m, order.floor);
    if fill.PaperFill? then Ledger.Apply(t, Ledger.SellOp(position.positionId, PaperRecord(fill, order))) else t
  }

  datatype PaperBuyMarket = PaperBuyMarket(market: Option<Market>, asks: Option<seq<Level>>, rate: Option<real>)

  function PaperBuy(intent: BuyIntent, m: PaperBuyMarket, t: Ledger.Tables): PaperFill {
    if m.market == None then PaperSkip("market_not_found")
    else if m.market.value.token == None then PaperSkip("no_token")
    else if m.asks == None then PaperSkip("no_order_book")
    else if m.asks.value == [] then PaperSkip("no_ask_liquidity")
    else if Ledger.HasOpenRow(t, intent.market, intent.side) then PaperSkip("position_exists")
    else
      var ask := m.asks.value[0];
      var qty := QuantizeSize(Min(intent.qty, ask.size));
      if !InPriceBand(Some(ask.price)) then PaperSkip("price_out_of_band")
      else if Cost(qty, ask.price) < MIN_NOTIONAL_USD then PaperSkip("dust")
      else PaperFill(qty, ask.price, Cost(qty, TakerFeePerShare(m.rate, ask.price)))
  }

  function PaperBuyRecord(intent: BuyIntent, market: Market, fill: PaperFill): Ledger.OpenArgs
    requires fill.PaperFill? && market.token.Some?
  {
    Ledger.OpenArgs(intent.market, intent.side, fill.price, fill.qty, intent.ts, fill.fee,
                    Ledger.Refs(intent.newsId, None, None), OriginOf(market, intent))
  }

  class PaperExecutor {
    const store: Ledger.PortfolioStore

    constructor (store: Ledger.PortfolioStore)
      ensures this.store == store
    {
      this.store := store;
    }

    // A fill opens exactly one row of exactly what was filled; a skip opens none.
    method ExecuteBuy(intent: BuyIntent, m: PaperBuyMarket) returns (fill: PaperFill)
      modifies store
      ensures fill == PaperBuy(intent, m, old(store.View()))
      ensures store.View() ==
              if fill.PaperFill? then Ledger.Opened(old(store.View()), PaperBuyRecord(intent, m.market.value, fill))
              else old(store.View())
    {
      hide QuantizeSize, Cost, TakerFeePerShare, InPriceBand;
      if m.market == None {
        return PaperSkip("market_not_found");
      }
      if m.market.value.token == None {
        return PaperSkip("no_token");
      }
      if m.asks == None {
        return PaperSkip("no_order_book");
      }
      if m.asks.value == [] {
        return PaperSkip("no_ask_liquidity");
      }
      if Ledger.HasOpenRow(Ledger.Tables(store.fills, store.rows), intent.market, intent.side) {
        return PaperSkip("position_exists");
      }
      var ask := m.asks.value[0];
      if !InPriceBand(Some(ask.price)) {
        return PaperSkip("price_out_of_band");
      }
      var qty := QuantizeSize(Min(intent.qty, ask.size));
      if Cost(qty, ask.price) < MIN_NOTIONAL_USD {
        return PaperSkip("dust");
      }
      fill := PaperFill(qty, ask.price, Cost(qty, TakerFeePerShare(m.rate, ask.price)));
      var id := store.OpenPosition(PaperBuyRecord(intent, m.market.value, fill));
    }

    // `record_sell` raises when the row is no longer open; the caller sees that as an error.
    method ExecuteSell(position: HeldPosition, m: PaperMarket, order: SellOrder) returns (result: Result<PaperFill>)
      modifies store
      ensures store.View() == PaperTables(position, m, order, old(store.View()))
      ensures var fill := PaperSell(position.qty, m, order.floor);
              if fill.PaperSkip? || old(Ledger.IsOpen(store.View(), position.positionId)) then result == Ok(fill)
                else result.Err?
    {
      hide QuantizeSize, Cost, TakerFeePerShare, Ledger.SellWrite, InPriceBand;
      if m.gone {
        return Ok(PaperSkip("market_closed_await_settlement"));
      }
      if m.bids == None {
        return Ok(PaperSkip("no_order_book"));
      }
      if !m.usable {
        return Ok(PaperSkip("stale_order_book"));
      }
      if m.bids.value == [] {
        return Ok(PaperSkip("no_bid_liquidity"));
      }
      var best := m.bids.value[0].price;
      var floor := if order.floor == None then best else Min(order.floor.value, best);
      var levels := AtOrAbove(m.bids.value, floor);
      if exists i :: 0 <= i < |levels| && !InPriceBand(Some(levels[i].price)) {
        return Ok(PaperSkip("price_out_of_band"));
      }
      var qty := QuantizeSize(Min(position.qty, Depth(levels)));
      if qty <= 0.0 {
        if QuantizeSize(position.qty) <= 0.0 {
          return Ok(PaperSkip("dust_remainder"));
        }
        return Ok(PaperSkip("bid_depth_below_min_size"));
      }
      var notional, remaining := RunSweep(levels, qty);
      var price := notional / qty;
      var fill := PaperFill(qty, price, Cost(qty, TakerFeePerShare(m.rate, price)));
      assert fill == PaperSell(position.qty, m, order.floor);
      var row := store.RecordSell(position.positionId, PaperRecord(fill, order));
      if row.Err? {
        return Err(row.error);
      }
      return Ok(fill);
    }
  }

  // ---------- a paper sell against its ladder ----------

  // The quantity wanted lies within half a rounding step of the first whole hundredth past the depth.
  predicate PassesDepth(positionQty: real, levels: seq<Level>) {
    (Depth(levels) * 100.0).Floor as real + 1.0 - Min(positionQty, Depth(levels)) * 100.0 <= 0.0000005
  }

  // Exactly then does the six-digit rounding ask for more than the depth.
  lemma PaperSellExceedsDepthExactlyWhenRounded(positionQty: real, levels: seq<Level>)
    requires Min(positionQty, Depth(levels)) >= 1.0
    ensures PaperSize(positionQty, levels) > Depth(levels) <==> PassesDepth(positionQty, levels)
  {
    SizePassesExactlyJustBelowAHundredth(Min(positionQty, Depth(levels)), Depth(levels));
  }

  // A paper sell takes at least one share at no more than the best bid. Unless the rounding carries it
  // past the depth, which it never does on the venue's share grid, it takes at most the depth at or
  // above its floor, at a price no lower than the floor.
  lemma PaperSellStaysInTheBook(positionQty: real, m: PaperMarket, floor: Option<real>)
    requires PaperSell(positionQty, m, floor).PaperFill? && IsBidLadder(m.bids.value)
    ensures var fill, best := PaperSell(positionQty, m, floor), m.bids.value[0].price;
            var levels := Takeable(m.bids.value, floor);
            && 1.0 <= fill.qty && fill.price <= best
            && (!PassesDepth(positionQty, levels) ==>
                  fill.qty <= Depth(levels) && PaperFloor(best, floor) <= fill.price)
            && (OnShareGrid(Min(positionQty, Depth(levels))) ==>
                  !PassesDepth(positionQty, levels) && fill.qty <= Min(positionQty, Depth(levels)))
  {
    var bids := m.bids.value;
    var low, levels, qty := PaperFloor(bids[0].price, floor), Takeable(bids, floor),
      PaperSize(positionQty, Takeable(bids, floor));
    var wanted := Min(positionQty, Depth(levels));
    QuantizeZeroIffDust(wanted);
    QuantizeIsClose(wanted);
    AtOrAboveIsTheTop(bids, low);
    PaperSellExceedsDepthExactlyWhenRounded(positionQty, levels);
    if OnShareGrid(wanted) {
      QuantizeRoundsDownOnTheGrid(wanted);
    }
    hide PaperSize, Sweep, Depth, AtOrAbove, PassesDepth, OnShareGrid;
    if qty <= Depth(levels) {
      CoveredSellPrice(bids, low, qty);
    } else {
      PriceNeverAboveTheBest(levels, qty, bids[0].price);
    }
  }

  lemma PriceNeverAboveTheBest(levels: seq<Level>, qty: real, best: real)
    requires IsBidLadder(levels) && qty > 0.0 && best >= 0.0
    requires forall i :: 0 <= i < |levels| ==> levels[i].price <= best
    ensures Sweep(levels, qty).notional / qty <= best
  {
    SweepWithinPrices(levels, qty, 0.0, best);
    SweepIsATaking(levels, qty);
    CostGrows(qty - Sweep(levels, qty).remaining, qty, best);
    DivideThrough(Sweep(levels, qty).notional, qty, 0.0, best);
  }

  // The taker fee of `qty` shares at a price: none where no rate is known.
  ghost function FeeOf(rate: Option<real>, price: real, qty: real): real {
    var r := if rate.Some? then rate.value else 0.0;
    qty * r * price * (1.0 - price)
  }

  lemma FeeIsCharged(rate: Option<real>, price: real, qty: real)
    ensures Cost(qty, TakerFeePerShare(rate, price)) == FeeOf(rate, price, qty)
  {
    var r := RateOf(rate);
    assert qty * (r * price * (1.0 - price)) == qty * r * price * (1.0 - price);
  }

  // When a paper sell fills, and what it takes, told by the number `n` of levels at or above the lower of its
  // floor and the best bid: it takes all of its position that they hold, to the hundredth, at the average
  // price of taking that from them, and charges the fee at that price.
  lemma PaperSellTakesWhatTheFloorAdmits(positionQty: real, m: PaperMarket, floor: Option<real>, n: nat)
    requires m.bids.Some? && m.bids.value != [] && IsBidLadder(m.bids.value) && n <= |m.bids.value|
    requires var bids := m.bids.value;
             var low := if floor.Some? && floor.value < bids[0].price then floor.value else bids[0].price;
             forall i :: 0 <= i < |bids| ==> (bids[i].price >= low <==> i < n)
    ensures var fill, admitted := PaperSell(positionQty, m, floor), m.bids.value[..n];
            var wanted := if positionQty <= Depth(admitted) then positionQty else Depth(admitted);
            && (fill.PaperFill? <==>
                  && !m.gone && m.usable && wanted >= 1.0
                  && forall i :: 0 <= i < n ==> 0.0001 <= m.bids.value[i].price <= 0.9999)
            && (fill.PaperFill? ==>
                  && wanted - 0.01 < fill.qty <= wanted + 0.000000005
                  && fill.price == Sweep(admitted, fill.qty).notional / fill.qty
                  && fill.fee == FeeOf(m.rate, fill.price, fill.qty))
  {
    hide QuantizeSize, Sweep, Depth, AtOrAbove, IsBidLadder, Cost, TakerFeePerShare, FeeOf;
    var bids := m.bids.value;
    var low := PaperFloor(bids[0].price, floor);
    AdmittedAreTheFirst(bids, low, n);
    var wanted := Min(positionQty, Depth(bids[..n]));
    QuantizeZeroIffDust(wanted);
    if !IsDust(wanted) { QuantizeIsClose(wanted); }
    var fill := PaperSell(positionQty, m, floor);
    if fill.PaperFill? { FeeIsCharged(m.rate, fill.price, fill.qty); }
  }

  lemma AdmittedAreTheFirst(bids: seq<Level>, low: real, n: nat)
    requires IsBidLadder(bids) && n <= |bids| && forall i :: 0 <= i < |bids| ==> (bids[i].price >= low <==> i < n)
    ensures AtOrAbove(bids, low) == bids[..n]
  {
    AtOrAboveIsTheTop(bids, low);
    var m := |AtOrAbove(bids, low)|;
    var k := if m < n then m else n;
    assert k < |bids| ==> (bids[k].price >= low <==> k < n) && (bids[k].price >= low <==> k < m);
  }

  // What a filled paper sell writes, and that a skipped one writes nothing.
  lemma PaperSellWritesItsFill(position: HeldPosition, m: PaperMarket, order: SellOrder, t: Ledger.Tables)
    requires Ledger.IsOpen(t, position.positionId)
    ensures var fill, t', id :=
                PaperSell(position.qty, m, order.floor), PaperTables(position, m, order, t), position.positionId;
            && (fill.PaperSkip? ==> t' == t)
            && (fill.PaperFill? ==>
                  && |t'.fills| == |t.fills| + 1 && t'.fills[..|t.fills|] == t.fills
                  && var written, held := t'.fills[|t.fills|], t.rows[id].qty;
                     && written.positionId == id && written.action == Ledger.Sell && written.ts == order.ts
                     && written.price == fill.price && written.fee == fill.fee
                     && written.trigger == order.trigger && written.refs == Ledger.Refs(None, None, None)
                     && (t'.rows[id].status == Ledger.Closed ==> t'.rows[id].closeReason == Some(order.reason))
                     && written.qty == if fill.qty <= held then fill.qty else held)
  {
    var fill := PaperSell(position.qty, m, order.floor);
    if fill.PaperFill? {
      Ledger.SellWritesWhatWasSold(t, position.positionId, PaperRecord(fill, order));
    }
    hide PaperSell, Ledger.Apply, Ledger.SoldFrom;
  }

  // When a paper buy fills, and what it takes: what was wanted and offered, to the hundredth, at the best ask.
  lemma PaperBuyTakesTheBestAsk(intent: BuyIntent, m: PaperBuyMarket, t: Ledger.Tables)
    requires m.asks.Some? && m.asks.value != []
    ensures var fill, ask := PaperBuy(intent, m, t), m.asks.value[0];
            var wanted := if intent.qty <= ask.size then intent.qty else ask.size;
            && (fill.PaperFill? <==>
                  && m.market.Some? && m.market.value.token.Some?
                  && (forall i :: 0 <= i < |t.rows| ==>
                        t.rows[i].market != intent.market || t.rows[i].side != intent.side
                          || t.rows[i].status != Ledger.Open)
                  && 0.0001 <= ask.price <= 0.9999 && QuantizeSize(wanted) * ask.price >= 1.10)
            && (fill.PaperFill? ==>
                  && fill.price == ask.price && 1.0 <= fill.qty && wanted - 0.01 < fill.qty <= wanted + 0.000000005
                  && fill.fee == FeeOf(m.rate, ask.price, fill.qty))
  {
    hide QuantizeSize, TakerFeePerShare, FeeOf;
    var wanted := Min(intent.qty, m.asks.value[0].size);
    QuantizeZeroIffDust(wanted);
    if !IsDust(wanted) { QuantizeIsClose(wanted); }
    FeeIsCharged(m.rate, m.asks.value[0].price, QuantizeSize(wanted));
  }

  // What a filled paper buy writes: one row and one fill of what it took, with its token and its belief.
  lemma PaperBuyWritesItsFill(intent: BuyIntent, m: PaperBuyMarket, t: Ledger.Tables)
    requires PaperBuy(intent, m, t).PaperFill?
    ensures m.market.Some? && m.market.value.token.Some?
    ensures var fill := PaperBuy(intent, m, t);
            var t' := Ledger.Opened(t, PaperBuyRecord(intent, m.market.value, fill));
            && |t'.rows| == |t.rows| + 1 && t'.rows[..|t.rows|] == t.rows
            && |t'.fills| == |t.fills| + 1 && t'.fills[..|t.fills|] == t.fills
            && var row, written := t'.rows[|t.rows|], t'.fills[|t.fills|];
               && row.market == intent.market && row.side == intent.side && row.status == Ledger.Open
               && row.qty == fill.qty == written.qty && row.avgEntryPrice == fill.price == written.price
               && row.openedAt == intent.ts == written.ts && written.action == Ledger.Buy
               && written.positionId == |t.rows| && written.fee == fill.fee
               && written.refs == Ledger.Refs(intent.newsId, None, None)
               && row.origin.token == m.market.value.token.value
               && row.origin.conditionId == m.market.value.conditionId && row.origin.entry == intent.entry
  {
    hide QuantizeSize, Cost, TakerFeePerShare;
  }

  // A quantity the levels at or above the limit cover is priced between the limit and the best bid.
  lemma CoveredSellPrice(bids: seq<Level>, limit: real, qty: real)
    requires IsBidLadder(bids) && bids != [] && limit <= bids[0].price
    requires 0.0 < qty <= Depth(AtOrAbove(bids, limit))
    ensures Sweep(AtOrAbove(bids, limit), qty).remaining == 0.0
    ensures limit <= Sweep(AtOrAbove(bids, limit), qty).notional / qty <= bids[0].price
  {
    var levels := AtOrAbove(bids, limit);
    AtOrAboveIsTheTop(bids, limit);
    SweepCoversItsDepth(levels, qty);
    SweepWithinPrices(levels, qty, limit, bids[0].price);
    DivideThrough(Sweep(levels, qty).notional, qty, limit, bids[0].price);
  }

  lemma DivideThrough(notional: real, qty: real, low: real, high: real)
    requires qty > 0.0 && Cost(qty, low) <= notional <= Cost(qty, high)
    ensures low <= notional / qty <= high
  {
    var price := notional / qty;
    assert qty * (price - low) >= 0.0;
    assert qty * (high - price) >= 0.0;
  }

  // Paper books exactly what live would estimate for the same ladder, limit and quantity when the
  // response to its sell is lost, unless the rounding carried the quantity past the depth: live then
  // counts the excess at the limit, paper at nothing.
  lemma PaperPriceIsTheLiveEstimate(positionQty: real, m: PaperMarket, floor: Option<real>, bestNow: Option<real>)
    requires PaperSell(positionQty, m, floor).PaperFill? && IsBidLadder(m.bids.value)
    requires PaperFloor(m.bids.value[0].price, floor) > 0.0
    ensures var fill, low := PaperSell(positionQty, m, floor), PaperFloor(m.bids.value[0].price, floor);
            var estimate := SellPriceEstimate(SellBook(m.bids.value, bestNow), low, fill.qty);
            && fill.price <= estimate
            && (fill.price == estimate <==> !PassesDepth(positionQty, Takeable(m.bids.value, floor)))
  {
    var bids := m.bids.value;
    var limit, levels, qty :=
      PaperFloor(bids[0].price, floor), Takeable(bids, floor), PaperSize(positionQty, Takeable(bids, floor));
    QuantizeZeroIffDust(Min(positionQty, Depth(levels)));
    PaperSellExceedsDepthExactlyWhenRounded(positionQty, levels);
    EstimateOnALadder(SellBook(bids, bestNow), limit, qty);
    hide PaperSize, Sweep, Depth, AtOrAbove, PassesDepth, SellPriceEstimate, Cost;
    if qty <= Depth(levels) {
      CoveredSellPrice(bids, limit, qty);
    }
  }

  // On a ladder reaching the limit the estimate is the sweep's average, raised by what the levels do
  // not cover at the limit itself, and never below the limit.
  lemma EstimateOnALadder(book: SellBook, limit: real, qty: real)
    requires IsBidLadder(book.bids) && book.bids != [] && 0.0 < limit <= book.bids[0].price && qty > 0.0
    ensures var levels := AtOrAbove(book.bids, limit); var average := Sweep(levels, qty).notional / qty;
            && (qty <= Depth(levels) ==> SellPriceEstimate(book, limit, qty) == Max(limit, average))
            && (qty > Depth(levels) ==> SellPriceEstimate(book, limit, qty) > average)
  {
    var levels := AtOrAbove(book.bids, limit);
    AtOrAboveIsTheTop(book.bids, limit);
    LadderHasSizes(levels);
    SweepCoversItsDepth(levels, qty);
    hide Sweep, Depth, AtOrAbove, WithSize, Cost, IsBidLadder;
    if qty > Depth(levels) {
      ExcessRaisesTheAverage(Sweep(levels, qty).notional, Sweep(levels, qty).remaining, limit, qty);
    }
  }

  lemma ExcessRaisesTheAverage(notional: real, excess: real, limit: real, qty: real)
    requires qty > 0.0 && excess > 0.0 && limit > 0.0
    ensures notional / qty < (notional + Cost(excess, limit)) / qty
  {
    assert (notional + Cost(excess, limit)) / qty == notional / qty + Cost(excess, limit) / qty;
    assert Cost(excess, limit) > 0.0;
  }

  lemma {:induction false} LadderHasSizes(levels: seq<Level>)
    requires IsBidLadder(levels)
    ensures WithSize(levels) == levels
  {
    if levels != [] {
      LadderHasSizes(levels[1..]);
    }
  }

  lemma {:induction false} NothingIsLeftPastTheDepth(levels: seq<Level>)
    requires IsBidLadder(levels)
    ensures Rest(levels, Depth(levels)) == []
  {
    if levels != [] {
      NothingIsLeftPastTheDepth(levels[1..]);
      SweepCoversItsDepth(levels[1..], 0.0);
    }
  }

  // A sweep beyond the depth brings what the whole depth brings, and nothing more.
  lemma SweepPastTheDepth(levels: seq<Level>, qty: real)
    requires IsBidLadder(levels) && qty >= Depth(levels)
    ensures Sweep(levels, qty).notional == Sweep(levels, Depth(levels)).notional
  {
    SweepCoversItsDepth(levels, 0.0);
    SweepSplits(levels, Depth(levels), qty - Depth(levels));
    NothingIsLeftPastTheDepth(levels);
    assert Depth(levels) + (qty - Depth(levels)) == qty;
  }

  // Whether the size passes the depth and all that rests at or above the floor does not make up for
  // it. A best bid far above the floor can: such a sell is still booked above its floor.
  predicate FallsShort(positionQty: real, levels: seq<Level>, floor: real) {
    PassesDepth(positionQty, levels)
      && Sweep(levels, Depth(levels)).notional < Cost(PaperSize(positionQty, levels), floor)
  }

  // A paper sell is booked below its own floor exactly then, on every ladder and for every quantity.
  lemma SellGoesBelowItsFloorExactlyWhenShort(positionQty: real, m: PaperMarket, floor: Option<real>)
    requires PaperSell(positionQty, m, floor).PaperFill? && IsBidLadder(m.bids.value)
    ensures var low := PaperFloor(m.bids.value[0].price, floor);
            PaperSell(positionQty, m, floor).price < low <==>
              FallsShort(positionQty, Takeable(m.bids.value, floor), low)
  {
    var bids := m.bids.value;
    var low, levels, qty := PaperFloor(bids[0].price, floor), Takeable(bids, floor),
      PaperSize(positionQty, Takeable(bids, floor));
    AtOrAboveIsTheTop(bids, low);
    QuantizeZeroIffDust(Min(positionQty, Depth(levels)));
    PaperSellExceedsDepthExactlyWhenRounded(positionQty, levels);
    hide PaperSize, Sweep, Depth, AtOrAbove;
    if qty <= Depth(levels) {
      CoveredSellPrice(bids, low, qty);
    } else {
      SweepPastTheDepth(levels, qty);
    }
    BelowThePrice(Sweep(levels, qty).notional, qty, low);
  }

  lemma BelowThePrice(notional: real, qty: real, low: real)
    requires qty > 0.0
    ensures notional / qty < low <==> notional < Cost(qty, low)
  {
    var price := notional / qty;
    assert price < low <==> qty * price < qty * low;
  }

  // A ladder on which it does.
  lemma OffGridSellGoesBelowItsFloor()
    ensures var m := PaperMarket(false, Some([Level(0.5, 5.559999999)]), true, None);
            var fill := PaperSell(10.0, m, Some(0.5));
            fill.PaperFill? && fill.qty > Depth(m.bids.value) && fill.price < 0.5
  {
    var levels := [Level(0.5, 5.559999999)];
    assert levels[1..] == [];
    assert AtOrAbove(levels, 0.5) == levels;
    assert Depth(levels) == 5.559999999;
    QuantizeMayRoundUpOffTheGrid();
    assert Sweep(levels, 5.56).notional == 5.559999999 * 0.5;
  }

  // The fee paper charges once at the average price is never below the sum of the venue's per-level fees.
  lemma PaperFeeIsConservative(positionQty: real, m: PaperMarket, floor: Option<real>)
    requires PaperSell(positionQty, m, floor).PaperFill? && RateOf(m.rate) >= 0.0 && IsBidLadder(m.bids.value)
    ensures var fill := PaperSell(positionQty, m, floor);
            LevelFees(Takeable(m.bids.value, floor), m.rate, fill.qty) <= fill.fee
  {
    AtOrAboveIsTheTop(m.bids.value, PaperFloor(m.bids.value[0].price, floor));
    FeeAtTheAverageIsNeverLower(Takeable(m.bids.value, floor), m.rate, PaperSell(positionQty, m, floor).qty);
  }

  // ---------- paper fills only what live could place ----------

  lemma PaperBuyIsPlaceableLive(intent: BuyIntent, m: PaperBuyMarket, t: Ledger.Tables, s: BuySurroundings)
    requires PaperBuy(intent, m, t).PaperFill? && s.market == m.market && s.baselineRead
    ensures var fill := PaperBuy(intent, m, t);
            && 1.0 <= fill.qty && BuyBlocked(intent.(price := fill.price, qty := fill.qty), s, t) == None
            && QuantizeSize(fill.qty) == fill.qty
  {
    var wanted := Min(intent.qty, m.asks.value[0].size);
    QuantizeIsIdempotent(wanted);
    QuantizeZeroIffDust(wanted);
    if !IsDust(wanted) { QuantizeIsClose(wanted); }
  }

  lemma PaperSellIsPlaceableLive(position: HeldPosition, m: PaperMarket, s: Surroundings, order: SellOrder)
    requires PaperSell(position.qty, m, order.floor).PaperFill? && IsBidLadder(m.bids.value)
    requires s.marketKnown && s.bids == m.bids && s.ctfSynced && InPriceBand(Some(MarketTick(s.tick)))
    ensures SellBlocked(position, s, order) == None
  {
    var bids := m.bids.value;
    AtOrAboveIsTheTop(bids, PaperFloor(bids[0].price, order.floor));
    assert InPriceBand(Some(Takeable(bids, order.floor)[0].price));
    QuantizeZeroIffDust(Min(position.qty, Depth(Takeable(bids, order.floor))));
    QuantizeZeroIffDust(position.qty);
  }

  // ---------- how many sells a position can take ----------

  // Repeated paper sells of one row, each from a fresh read of it, against whatever book and with
  // whatever floor, reason and time its own decision brings.
  datatype Sells = Sells(tables: Ledger.Tables, filled: nat)

  function SellRun(id: nat, sells: seq<(PaperMarket, SellOrder)>, t: Ledger.Tables): Sells {
    if sells == [] then Sells(t, 0)
    else
      var before := SellRun(id, sells[..|sells| - 1], t);
      var (book, order) := sells[|sells| - 1];
      if !Ledger.IsOpen(before.tables, id) then before
      else
        var position := HeldPosition(id, before.tables.rows[id].qty);
        Sells(PaperTables(position, book, order, before.tables),
              before.filled + if PaperSell(position.qty, book, order.floor).PaperFill? then 1 else 0)
  }

  // Each sell takes at least one share, so a row of `qty` shares takes at most floor(qty) of them
  // before it is closed or too small to sell.
  lemma {:induction false} SellsAreBoundedByShares(id: nat, sells: seq<(PaperMarket, SellOrder)>, t: Ledger.Tables)
    requires Ledger.IsOpen(t, id) && t.rows[id].qty >= 0.0
    ensures var r := SellRun(id, sells, t);
            && |r.tables.rows| == |t.rows| && r.filled <= t.rows[id].qty.Floor
            && (r.tables.rows[id].status == Ledger.Open ==> r.tables.rows[id].qty <= t.rows[id].qty - r.filled as real)
  {
    if sells != [] {
      var before := SellRun(id, sells[..|sells| - 1], t);
      var (book, order) := sells[|sells| - 1];
      SellsAreBoundedByShares(id, sells[..|sells| - 1], t);
      if Ledger.IsOpen(before.tables, id) {
        var qty := before.tables.rows[id].qty;
        var fill := PaperSell(qty, book, order.floor);
        if fill.PaperFill? {
          var wanted := Min(qty, Depth(Takeable(book.bids.value, order.floor)));
          QuantizeZeroIffDust(wanted);
          QuantizeIsClose(wanted);
          hide PaperSell, QuantizeSize, Ledger.RealizedGain;
          assert Min(fill.qty, qty) >= 1.0;
          assert SellRun(id, sells, t).filled as real <= t.rows[id].qty;
        }
      }
    }
  }
}
