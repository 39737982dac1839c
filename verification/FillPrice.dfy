// openpoly/execution/live_executor.py:269-350, 910-1069: turning the venue's answer to one order
// into the quantity and the price that are booked.
module FillPrice {
  import opened Common
  import opened FillSources
  import opened Pricing
  import opened Settle
  import opened SettleFacts
  import opened Sizing

  datatype TradeSide = BuySide | SellSide

  // The price to book: the one implied, else the limit, else the worst edge for the side.
  function BookablePrice(price: Option<real>, fallback: real, side: TradeSide): real {
    if InPriceBand(price) then price.value
    else if InPriceBand(Some(fallback)) then fallback
    else if side == BuySide then MAX_TOKEN_PRICE else MIN_TOKEN_PRICE
  }

  // What a sell knows of the book: the bids before it went out and the best bid cached now.
  datatype SellBook = SellBook(bids: seq<Level>, bestNow: Option<real>)

  function WithSize(levels: seq<Level>): seq<Level> {
    if levels == [] then []
    else if levels[0].size > 0.0 then [levels[0]] + WithSize(levels[1..])
    else WithSize(levels[1..])
  }

  function SellPriceEstimate(book: SellBook, limit: real, qty: real): real {
    var levels := WithSize(AtOrAbove(book.bids, limit));
    if levels == [] then
      if InPriceBand(book.bestNow) then Max(limit, book.bestNow.value) else limit
    else
      var swept := Sweep(levels, qty);
      var notional := if swept.remaining > 0.0 then swept.notional + Cost(swept.remaining, limit) else swept.notional;
      if qty > 0.0 then Max(limit, notional / qty) else limit
  }

  // POST /order: the fields a fill is read from.
  datatype Response = Response(orderId: RawId, making: RawAmount, taking: RawAmount, txHash: Option<string>)

  datatype Fill =
    | Filled(qty: real, price: real, txHash: Option<string>, orderId: Option<string>, resting: bool)
    | Skipped(reason: string, restingOrderId: Option<string>)

  // A response's numbers after vetting: a buy takes shares and makes USDC, a sell the reverse.
  datatype Cross = Cross(shares: real, usdc: real, usable: bool)

  function ReadCross(resp: Response, side: TradeSide, size: real): Cross {
    var shares := ParseAmount(if side == BuySide then resp.taking else resp.making);
    var usdc := ParseAmount(if side == BuySide then resp.making else resp.taking);
    var vetted := Plausible(shares, size);
    Cross(if vetted.Some? then vetted.value else 0.0, if usdc.Some? then usdc.value else 0.0,
          vetted.Some? && usdc.Some?)
  }

  // The part of the cross's USDC that belongs to `taken` of its shares.
  function ValueOf(usdc: real, taken: real, shares: real): real
    requires shares > 0.0
  {
    usdc * taken / shares
  }

  // The average price of `qty` shares of which the cross was paid for by the venue's own amounts and
  // the rest filled at the limit.
  function BlendedPrice(cross: Cross, qty: real, limit: real): real
    requires cross.shares > 0.0 && qty > 0.0
  {
    (ValueOf(cross.usdc, Min(qty, cross.shares), cross.shares) + Max(0.0, qty - cross.shares) * limit) / qty
  }

  function ImpliedPrice(cross: Cross, qty: real, limit: real, book: Option<SellBook>): Option<real>
    requires qty > 0.0
  {
    if cross.shares > 0.0 && cross.usdc > 0.0 then Some(BlendedPrice(cross, qty, limit))
    else if cross.usable && cross.shares == 0.0 then Some(limit)
    else if book.Some? then Some(SellPriceEstimate(book.value, limit, qty))
    else None
  }

  function SkipReason(settled: Settled, usable: bool): string {
    if settled.rests then "live_cancel_failed"
    else if settled.qty == None then "live_fill_unknown"
    else if usable then "live_no_match"
    else "live_unparseable"
  }

  function SettledCross(venue: Venue, resp: Response, side: TradeSide, size: real): Settled {
    SettleResult(venue, ParseOrderId(resp.orderId), ReadCross(resp, side, size).shares, size, resp.txHash.Some?)
  }

  // Quantities are not negative, so "no quantity" is none or zero.
  function ResolvedFill(venue: Venue, resp: Response, side: TradeSide, size: real, limit: real,
                        book: Option<SellBook>): Fill {
    var id := ParseOrderId(resp.orderId);
    var cross := ReadCross(resp, side, size);
    var settled := SettledCross(venue, resp, side, size);
    if settled.qty == None || settled.qty.value <= 0.0 then
      Skipped(SkipReason(settled, cross.usable), if settled.rests then id else None)
    else
      var qty := settled.qty.value;
      Filled(qty, BookablePrice(ImpliedPrice(cross, qty, limit, book), limit, side), resp.txHash, id, settled.rests)
  }

  method ResolveFill(venue: Venue, resp: Response, side: TradeSide, size: real, limit: real, book: Option<SellBook>)
    returns (fill: Fill)
    requires size > EPS
    ensures fill == ResolvedFill(venue, resp, side, size, limit, book)
  {
    hide SettleResult, Learn, SellPriceEstimate, BlendedPrice;
    var id := ParseOrderId(resp.orderId);
    var parsedShares := ParseAmount(if side == BuySide then resp.taking else resp.making);
    var parsedUsdc := ParseAmount(if side == BuySide then resp.making else resp.taking);
    var noFillReason := "live_no_match";
    var vetted := Plausible(parsedShares, size);
    var bad := vetted == None || parsedUsdc == None;
    var shares := if vetted.Some? then vetted.value else 0.0;
    var usdc := if parsedUsdc.Some? then parsedUsdc.value else 0.0;
    if bad {
      noFillReason := "live_unparseable";
    }
    var qty, resting := SettleRestingRemainder(venue, id, shares, size, resp.txHash.Some?);
    if resting {
      noFillReason := "live_cancel_failed";
    } else if qty == None {
      noFillReason := "live_fill_unknown";
    }
    SettledIsNotNegative(venue, resp, side, size);
    if qty == None || qty.value == 0.0 {
      return Skipped(noFillReason, if resting then id else None);
    }
    var price: Option<real>;
    if shares > 0.0 && usdc > 0.0 {
      price := Some(BlendedPrice(Cross(shares, usdc, !bad), qty.value, limit));
    } else if !bad && shares == 0.0 {
      price := Some(limit);
    } else if book.Some? {
      price := Some(SellPriceEstimate(book.value, limit, qty.value));
    } else {
      price := None;
    }
    fill := Filled(qty.value, BookablePrice(price, limit, side), resp.txHash, id, resting);
  }

  lemma SettledIsNotNegative(venue: Venue, resp: Response, side: TradeSide, size: real)
    requires size > EPS
    ensures var qty := SettledCross(venue, resp, side, size).qty;
            qty.Some? ==> 0.0 <= qty.value <= size + EPS
  {
    var id, cross := ParseOrderId(resp.orderId), ReadCross(resp, side, size);
    var k := Learn(venue, id, cross.shares, size, resp.txHash.Some?);
    var all := k.reports + [WalletReport(venue, size)];
    if Answer(k.reports, size).Some? { AnswerIsPlausible(k.reports, size); }
    if Answer(all, size).Some? { AnswerIsPlausible(all, size); }
  }

  // ---------- when there is no fill ----------

  // A clean miss is named only when the order is off the book and a usable read counted nought (or
  // the amounts of the response were all read, and the settle counted nought).
  lemma NoMatchIsCounted(venue: Venue, resp: Response, side: TradeSide, size: real, limit: real, book: Option<SellBook>)
    requires size > EPS
    ensures ResolvedFill(venue, resp, side, size, limit, book) == Skipped("live_no_match", None) <==>
            SettledCross(venue, resp, side, size) == Settled(Some(0.0), false) && ReadCross(resp, side, size).usable
    ensures ResolvedFill(venue, resp, side, size, limit, book) == Skipped("live_no_match", None) ==>
              var id := ParseOrderId(resp.orderId);
              var made := MadeOf(venue, id, ReadCross(resp, side, size).shares, size, resp.txHash.Some?);
              id.Some? && ReadCountedZero(venue, made) && ShownOffBook(venue, id.value, size, made)
  {
    SettledIsNotNegative(venue, resp, side, size);
    var id, cross, settled :=
      ParseOrderId(resp.orderId), ReadCross(resp, side, size), SettledCross(venue, resp, side, size);
    assert "live_no_match"[5] != "live_cancel_failed"[5] && "live_no_match"[5] != "live_fill_unknown"[5];
    assert "live_no_match"[5] != "live_unparseable"[5];
    if settled == Settled(Some(0.0), false) {
      ZeroIsCountedOffTheBook(venue, id, cross.shares, size, resp.txHash.Some?);
    }
  }

  // What is reported is what the settle established: a fill exactly when it counted more than nothing, of
  // that quantity, resting when the order may rest; and otherwise a miss under the name of its cause.
  lemma FillIsWhatTheSettleEstablished(venue: Venue, resp: Response, side: TradeSide, size: real, limit: real,
                                       book: Option<SellBook>)
    ensures var fill := ResolvedFill(venue, resp, side, size, limit, book);
            var settled, id := SettledCross(venue, resp, side, size), ParseOrderId(resp.orderId);
            && (fill.Filled? <==> settled.qty.Some? && settled.qty.value > 0.0)
            && (fill.Filled? ==>
                  settled.qty == Some(fill.qty) && fill.resting == settled.rests && fill.orderId == id
                    && fill.txHash == resp.txHash)
            && (fill.Skipped? ==>
                  && fill.restingOrderId == (if settled.rests then id else None)
                  && (fill.reason == "live_cancel_failed" <==> settled.rests)
                  && (fill.reason == "live_fill_unknown" <==> !settled.rests && settled.qty == None))
  {
    hide SettledCross, ImpliedPrice, BookablePrice;
    assert "live_cancel_failed"[5] != "live_fill_unknown"[5] && "live_no_match"[5] != "live_cancel_failed"[5];
    assert "live_unparseable"[5] != "live_cancel_failed"[5] && "live_unparseable"[5] != "live_fill_unknown"[5];
    assert "live_no_match"[5] != "live_fill_unknown"[5];
  }

  // A buy reads its shares from what it takes and its USDC from what it makes, a sell the other way round; a
  // count of shares beyond the order is no count.
  lemma CrossReadsTheTradedSides(resp: Response, size: real, making: real, taking: real)
    requires resp.making == Number(making) && resp.taking == Number(taking)
    ensures 0.0 <= taking <= size + 0.000000001 ==> ReadCross(resp, BuySide, size) == Cross(taking, making, true)
    ensures 0.0 <= making <= size + 0.000000001 ==> ReadCross(resp, SellSide, size) == Cross(making, taking, true)
    ensures taking > size + 0.000000001 ==> ReadCross(resp, BuySide, size) == Cross(0.0, making, false)
    ensures making > size + 0.000000001 ==> ReadCross(resp, SellSide, size) == Cross(0.0, taking, false)
  {}

  // An amount left out or blank is a clean zero; one that is no number leaves the response unusable.
  lemma MissingAmountsAreZero(resp: Response, side: TradeSide, size: real)
    requires size >= 0.0
    ensures (resp.making.Absent? || resp.making.Blank?) && (resp.taking.Absent? || resp.taking.Blank?) ==>
              ReadCross(resp, side, size) == Cross(0.0, 0.0, true)
    ensures resp.making.NotFinite? || resp.making.Garbage? || resp.taking.NotFinite? || resp.taking.Garbage? ==>
              !ReadCross(resp, side, size).usable
  {}

  // A response that counts the whole order is believed at once: its own count is booked and nothing rests.
  lemma CompleteCrossIsBooked(venue: Venue, resp: Response, side: TradeSide, size: real, limit: real,
                              book: Option<SellBook>)
    requires size > EPS && ReadCross(resp, side, size).shares >= size - EPS
    ensures var fill := ResolvedFill(venue, resp, side, size, limit, book);
            fill.Filled? && fill.qty == ReadCross(resp, side, size).shares && !fill.resting
  {
    hide Learn, Answer, ReadCross, ImpliedPrice;
    assert SettledCross(venue, resp, side, size) == Settled(Some(ReadCross(resp, side, size).shares), false);
  }

  // So an answer that counts the whole order and its USDC is booked at their quotient.
  lemma CompleteAnswersAreBooked(venue: Venue, resp: Response, side: TradeSide, size: real, limit: real,
                                 book: Option<SellBook>, usdc: real)
    requires size > EPS && usdc > 0.0 && InPriceBand(Some(usdc / size))
    requires Number(size) == (if side == BuySide then resp.taking else resp.making)
    requires Number(usdc) == (if side == BuySide then resp.making else resp.taking)
    ensures ResolvedFill(venue, resp, side, size, limit, book) ==
            Filled(size, usdc / size, resp.txHash, ParseOrderId(resp.orderId), false)
  {
    CompleteCrossIsBooked(venue, resp, side, size, limit, book);
    BlendPaysForBoth(Cross(size, usdc, true), size, limit);
    assert ReadCross(resp, side, size) == Cross(size, usdc, true);
    hide SettledCross, ReadCross, BlendedPrice;
  }

  // What the chain's stamp is worth: when no attempt could be read and the last read is final, its count is
  // booked, unless the response counted more and names a transaction, which no read takes back.
  lemma AStampKeepsTheCross(venue: Venue, resp: Response, side: TradeSide, size: real, matched: real, status: string)
    requires ParseOrderId(resp.orderId).Some? && ReadCross(resp, side, size).shares < size - EPS
    requires forall k :: venue.attempts(k).read == ReadFailed
    requires venue.finalRead == OrderDoc(Number(matched), status) && IsDoneStatus(status) && 0.0 <= matched <= size
    ensures var shares := ReadCross(resp, side, size).shares;
            SettledCross(venue, resp, side, size) ==
            Settled(Some(if resp.txHash.Some? && shares > matched + EPS then shares else matched), false)
  {
    hide Answer, ReadCross, CancelLoop, Plausible;
    var id, shares, stamped := ParseOrderId(resp.orderId).value, ReadCross(resp, side, size).shares, resp.txHash.Some?;
    NoReadsNoReports(venue, id, size, 0.0, [CrossReport(shares, stamped)], []);
    FinalReadAgainstTheCross(shares, stamped, matched, status, size);
    var known := Learn(venue, Some(id), shares, size, stamped);
    assert known.reports == [CrossReport(shares, stamped), ReadReport(Some(matched), status, size, false)];
  }

  // A final count recorded after the cross.
  lemma FinalReadAgainstTheCross(shares: real, stamped: bool, matched: real, status: string, size: real)
    requires IsDoneStatus(status) && 0.0 <= matched <= size && shares <= size
    ensures Answer([CrossReport(shares, stamped), ReadReport(Some(matched), status, size, false)], size) ==
            Some(if stamped && shares > matched + EPS then shares else matched)
  {
    var cross, read := CrossReport(shares, stamped), ReadReport(Some(matched), status, size, false);
    assert [cross, read][..1] == [cross] && [cross][..0] == [];
    var first := if shares > 0.0 then [Evidence(shares, PostBody, stamped)] else [];
    assert first[..0] == [];
    assert Collect([cross], size) == Collected(None, first);
    var final := Evidence(matched, OrderRead, false);
    assert Collect([cross, read], size) == Collected(Some(final), first);
    assert Answer([cross, read], size) == Some(AnswerAgainst(first, final));
  }

  lemma {:induction false} NoReadsNoReports(venue: Venue, id: string, size: real, elapsed: real, reports: seq<Report>,
                                            starts: seq<real>)
    requires |starts| < SETTLE_ATTEMPTS && forall k :: venue.attempts(k).read == ReadFailed
    ensures var o := CancelLoop(venue, id, size, elapsed, reports, starts); o.reports == reports && !o.terminal
    decreases SETTLE_ATTEMPTS - |starts|
  {
    var a := venue.attempts(|starts|);
    var left := SETTLE_DEADLINE_S - (elapsed + a.cancelTook + a.readTook);
    assert reports + ReportsOf(a.read, size) == reports && !IsTerminal(a.read, size);
    if !Acknowledged(a.cancel, id) && left > 0.0 && |starts| + 1 < SETTLE_ATTEMPTS {
      NoReadsNoReports(venue, id, size, elapsed + a.cancelTook + a.readTook + Min(SETTLE_SLEEP, left), reports,
                       starts + [elapsed]);
    }
  }

  // ---------- the booked price ----------

  // Whatever was implied and whatever the limit, the booked price is one the venue could produce.
  lemma BookedPriceIsInBand(price: Option<real>, fallback: real, side: TradeSide)
    ensures InPriceBand(Some(BookablePrice(price, fallback, side)))
  {}

  // With a limit in band the worst edge is never booked: the price is the implied one or the limit.
  lemma WorstEdgeNeedsABadLimit(price: Option<real>, fallback: real, side: TradeSide)
    requires InPriceBand(Some(fallback))
    ensures BookablePrice(price, fallback, side) == if InPriceBand(price) then price.value else fallback
  {}

  // With neither price in band the worst one for the side is booked: the dearest buy, the cheapest sell.
  lemma TheWorstEdgeIsForTheSide(price: Option<real>, fallback: real, side: TradeSide)
    requires !InPriceBand(price) && !InPriceBand(Some(fallback))
    ensures BookablePrice(price, fallback, side) == if side == BuySide then 0.9999 else 0.0001
  {}

  // The blend is a weighted mean of the cross average and the limit: it pays for the cross in the
  // venue's own USDC and for the raced remainder at the limit.
  lemma BlendPaysForBoth(cross: Cross, qty: real, limit: real)
    requires cross.shares > 0.0 && qty > 0.0
    ensures qty >= cross.shares ==> qty * BlendedPrice(cross, qty, limit) == cross.usdc + (qty - cross.shares) * limit
    ensures qty <= cross.shares ==> BlendedPrice(cross, qty, limit) == cross.usdc / cross.shares
  {
    hide ValueOf;
    ValueOfTheCross(cross.usdc, Min(qty, cross.shares), cross.shares);
    if qty >= cross.shares {
      TimesQuotient(qty, cross.usdc + (qty - cross.shares) * limit);
    }
    if qty <= cross.shares {
      assert (cross.usdc / cross.shares) * qty / qty == cross.usdc / cross.shares;
    }
  }

  lemma ValueOfTheCross(usdc: real, taken: real, shares: real)
    requires shares > 0.0
    ensures ValueOf(usdc, taken, shares) == (usdc / shares) * taken
    ensures taken == shares ==> ValueOf(usdc, taken, shares) == usdc
  {
    var average := usdc / shares;
    assert usdc == average * shares;
    assert usdc * taken == (average * taken) * shares;
  }

  lemma TimesQuotient(qty: real, total: real)
    requires qty > 0.0
    ensures qty * (total / qty) == total
  {}

  lemma BlendStaysBetween(cross: Cross, qty: real, limit: real)
    requires cross.shares > 0.0 && qty > 0.0
    ensures cross.usdc <= cross.shares * limit ==> BlendedPrice(cross, qty, limit) <= limit
    ensures cross.usdc >= cross.shares * limit ==> BlendedPrice(cross, qty, limit) >= limit
  {
    BlendPaysForBoth(cross, qty, limit);
    var price := BlendedPrice(cross, qty, limit);
    if qty >= cross.shares {
      CompareQuotient(qty, price, cross.usdc + (qty - cross.shares) * limit, limit);
    } else {
      assert cross.shares * price == cross.usdc;
      CompareQuotient(cross.shares, price, cross.usdc, limit);
    }
  }

  lemma CompareQuotient(q: real, price: real, total: real, limit: real)
    requires q > 0.0 && q * price == total
    ensures total <= q * limit ==> price <= limit
    ensures total >= q * limit ==> price >= limit
  {
    if price > limit { assert q * price > q * limit; }
    if price < limit { assert q * price < q * limit; }
  }

  lemma EstimateIsAtLeastTheLimit(book: SellBook, limit: real, qty: real)
    ensures SellPriceEstimate(book, limit, qty) >= limit
  {}

  // With no bid left at or above the limit a sell is estimated at the best bid cached since, when that is
  // above the limit and a price the venue could produce.
  lemma EstimateOfAnEmptyLadder(book: SellBook, limit: real, qty: real)
    requires forall i :: 0 <= i < |book.bids| ==> book.bids[i].price < limit
    ensures SellPriceEstimate(book, limit, qty) ==
            if book.bestNow.Some? && 0.0001 <= book.bestNow.value <= 0.9999 && book.bestNow.value > limit
            then book.bestNow.value
            else limit
  {
    NothingAtOrAbove(book.bids, limit);
  }

  lemma {:induction false} NothingAtOrAbove(bids: seq<Level>, limit: real)
    requires forall i :: 0 <= i < |bids| ==> bids[i].price < limit
    ensures AtOrAbove(bids, limit) == []
  {
    if bids != [] { NothingAtOrAbove(bids[1..], limit); }
  }

  // The venue's own amounts say a cross was paid above, or sold below, the limit.
  predicate CrossWentAbove(cross: Cross, limit: real) {
    cross.shares > 0.0 && cross.usdc > 0.0 && cross.usdc > cross.shares * limit
  }

  predicate CrossWentBelow(cross: Cross, limit: real) {
    cross.shares > 0.0 && cross.usdc > 0.0 && cross.usdc < cross.shares * limit
  }

  // A buy is never booked above its limit, nor a sell below it, unless the venue's own amounts say
  // the cross itself broke the limit. The estimate is offered on sells only.
  lemma LimitIsRespected(venue: Venue, resp: Response, side: TradeSide, size: real, limit: real, book: Option<SellBook>)
    requires size > EPS && InPriceBand(Some(limit)) && (side == BuySide ==> book == None)
    requires ResolvedFill(venue, resp, side, size, limit, book).Filled?
    ensures var fill, cross := ResolvedFill(venue, resp, side, size, limit, book), ReadCross(resp, side, size);
            && 0.0 < fill.qty <= size + EPS && InPriceBand(Some(fill.price))
            && (side == BuySide && !CrossWentAbove(cross, limit) ==> fill.price <= limit)
            && (side == SellSide && !CrossWentBelow(cross, limit) ==> fill.price >= limit)
  {
    hide SettleResult, SellPriceEstimate, BlendedPrice;
    SettledIsNotNegative(venue, resp, side, size);
    var fill, cross := ResolvedFill(venue, resp, side, size, limit, book), ReadCross(resp, side, size);
    BookedPriceIsInBand(ImpliedPrice(cross, fill.qty, limit, book), limit, side);
    if cross.shares > 0.0 {
      BlendStaysBetween(cross, fill.qty, limit);
    }
    if book.Some? {
      EstimateIsAtLeastTheLimit(book.value, limit, fill.qty);
    }
  }

  // With usable amounts and a blend in band, the ledger's notional is the venue's USDC plus the raced
  // shares at the limit.
  lemma BookedNotional(venue: Venue, resp: Response, side: TradeSide, size: real, limit: real, book: Option<SellBook>)
    requires InPriceBand(Some(limit)) && ResolvedFill(venue, resp, side, size, limit, book).Filled?
    ensures var fill, cross := ResolvedFill(venue, resp, side, size, limit, book), ReadCross(resp, side, size);
            cross.shares > 0.0 && cross.usdc > 0.0 && InPriceBand(Some(BlendedPrice(cross, fill.qty, limit))) ==>
              if fill.qty >= cross.shares then fill.qty * fill.price == cross.usdc + (fill.qty - cross.shares) * limit
              else fill.price == cross.usdc / cross.shares
  {
    hide SettleResult, SellPriceEstimate, BlendedPrice;
    var fill, cross := ResolvedFill(venue, resp, side, size, limit, book), ReadCross(resp, side, size);
    if cross.shares > 0.0 {
      BlendPaysForBoth(cross, fill.qty, limit);
    }
  }

  // Where the response says nothing crossed, what filled since is booked at the limit; where it says
  // nothing usable, at the estimate on a sell and at the limit on a buy.
  lemma QuietFillsAreBookedAtTheLimit(venue: Venue, resp: Response, side: TradeSide, size: real, limit: real,
                                      book: Option<SellBook>)
    requires InPriceBand(Some(limit)) && ResolvedFill(venue, resp, side, size, limit, book).Filled?
    requires var cross := ReadCross(resp, side, size); cross.shares == 0.0 || cross.usdc <= 0.0
    ensures var fill, cross := ResolvedFill(venue, resp, side, size, limit, book), ReadCross(resp, side, size);
            && ((cross.usable && cross.shares == 0.0) || book == None ==> fill.price == limit)
            && (!(cross.usable && cross.shares == 0.0) && book.Some? ==>
                  var estimate := SellPriceEstimate(book.value, limit, fill.qty);
                  fill.price == if 0.0001 <= estimate <= 0.9999 then estimate else limit)
  {
    hide SettledCross, SellPriceEstimate, BlendedPrice;
  }

  // ---------- the lost response ----------

  // `_fill_from_balance`: None when nothing moved.
  function BalanceFill(wallet: WalletAnswer, side: TradeSide, size: real, limit: real,
                       book: Option<SellBook>): Option<Fill> {
    var qty := WalletDelta(wallet, size);
    if qty == None then Some(Skipped("live_fill_unknown", None))
    else if qty.value <= 0.0 then None
    else
      var estimate := if book.Some? then Some(SellPriceEstimate(book.value, limit, qty.value)) else None;
      Some(Filled(qty.value, BookablePrice(estimate, limit, side), None, None, qty.value < size - EPS))
  }

  // What a lost response is worth: a wallet that cannot be read leaves the fill unknown, one that did not move
  // says there was none, and any other says how much there was.
  lemma LostResponsesAreReadOffTheWallet(wallet: WalletAnswer, side: TradeSide, size: real, limit: real,
                                         book: Option<SellBook>)
    requires size > 0.0
    ensures var fill := BalanceFill(wallet, side, size, limit, book);
            && (!wallet.Moved? || wallet.qty < 0.0 <==> fill == Some(Skipped("live_fill_unknown", None)))
            && (wallet == Moved(0.0) <==> fill == None)
            && (wallet.Moved? && wallet.qty > 0.0 <==> fill.Some? && fill.value.Filled?)
  {}

  // A fill read off the wallet is what moved, up to the order's size; it never breaks its limit, and is flagged as
  // resting exactly when it is short of the order; it never names an order.
  lemma BalanceFillIsBounded(wallet: WalletAnswer, side: TradeSide, size: real, limit: real, book: Option<SellBook>)
    requires InPriceBand(Some(limit)) && (side == BuySide ==> book == None)
    ensures var fill := BalanceFill(wallet, side, size, limit, book);
            fill.Some? && fill.value.Filled? ==>
              && 0.0 < fill.value.qty && wallet.Moved?
                && fill.value.qty == (if wallet.qty <= size then wallet.qty else size)
              && InPriceBand(Some(fill.value.price)) && (fill.value.resting <==> fill.value.qty < size - EPS)
              && (if side == BuySide then fill.value.price == limit else fill.value.price >= limit)
              && fill.value.orderId == None
  {
    if book.Some? && WalletDelta(wallet, size).Some? {
      EstimateIsAtLeastTheLimit(book.value, limit, WalletDelta(wallet, size).value);
    }
  }
}
