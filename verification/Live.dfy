// openpoly/execution/live_executor.py:602-617, 1210-1633: placing live orders, and never a second
// SELL on top of one that may still rest.
module Live {
  import opened Common
  import opened FillSources
  import opened FillPrice
  import opened Pricing
  import opened Settle
  import opened SettleFacts
  import opened Sizing
  import Ledger

  const DEFAULT_TICK_SIZE: real := 0.01

  datatype HeldPosition = HeldPosition(positionId: nat, qty: real)

  datatype ExecResult = ExecResult(filled: bool, skipReason: Option<string>, price: Option<real>, qty: Option<real>,
                                   restingOrderId: Option<string>)

  function Skip(reason: string, resting: Option<string>): ExecResult {
    ExecResult(false, Some(reason), None, None, resting)
  }

  // A SELL that may still rest: its id, the size it was posted for, and what was booked of it.
  datatype RestingOrder = RestingOrder(orderId: string, size: real, booked: real)

  // ---------- one POST ----------

  datatype SuccessField = NoSuccessField | SuccessFalse | SuccessText(lowered: string) | SuccessOther

  predicate Truthy(raw: RawId) {
    match raw
    case Text(text) => text != ""
    case Whole(n) => n != 0
    case OtherShape(truthy) => truthy
  }

  predicate WasRejected(success: SuccessField, orderId: RawId) {
    match success
    case NoSuccessField => !Truthy(orderId)
    case SuccessFalse => true
    case SuccessText(lowered) => lowered == "false"
    case SuccessOther => false
  }

  // The POST: refused before it is sent, refused by the venue, lost, or answered.
  datatype Post = PriceRefused | Refused4xx | ResponseLost | Answered(success: SuccessField, resp: Response)

  // What the executor learns of one posted order.
  function FillOf(post: Post, venue: Venue, side: TradeSide, size: real, limit: real, book: Option<SellBook>): Fill {
    match post
    case PriceRefused => Skipped("live_rejected", None)
    case Refused4xx => Skipped("live_rejected", None)
    case ResponseLost =>
      var fill := BalanceFill(venue.wallet, side, size, limit, book);
      if fill == None then Skipped("live_error", None) else fill.value
    case Answered(success, resp) =>
      if WasRejected(success, resp.orderId) then Skipped("live_rejected", None)
      else ResolvedFill(venue, resp, side, size, limit, book)
  }

  // ---------- selling ----------

  // Everything outside the executor that one sell meets: catalog, book, tick, CTF balance, the venue,
  // and whether the database takes the write.
  datatype Surroundings = Surroundings(marketKnown: bool, bids: Option<seq<Level>>, bestNow: Option<real>,
                                       tick: Option<real>,
                                       ctfSynced: bool, post: Post, venue: Venue, databaseWrites: bool,
                                       guardCancel: CancelAnswer, guardRead: ReadAnswer)

  datatype SellOrder = SellOrder(reason: Ledger.CloseReason, ts: real, trigger: Option<string>, floor: Option<real>)

  function MarketTick(tick: Option<real>): real {
    if tick.Some? && 0.0 < tick.value < 1.0 then tick.value else DEFAULT_TICK_SIZE
  }

  // The limit: the best bid, or the decision's floor when that is lower, but at least one tick.
  function SellLimit(best: real, floor: Option<real>, tick: Option<real>): real {
    Max(if floor.Some? && floor.value < best then floor.value else best, MarketTick(tick))
  }

  function LimitOf(s: Surroundings, order: SellOrder): real
    requires s.bids.Some? && s.bids.value != []
  {
    SellLimit(s.bids.value[0].price, order.floor, s.tick)
  }

  // Why a sell is not posted, if it is not.
  function SellBlocked(position: HeldPosition, s: Surroundings, order: SellOrder): Option<string> {
    if !s.marketKnown then Some("market_not_found")
    else if s.bids == None || s.bids.value == [] then Some("no_bid_liquidity")
    else if !InPriceBand(Some(LimitOf(s, order))) then Some("price_out_of_band")
    else if QuantizeSize(position.qty) <= 0.0 then Some("dust_remainder")
    else if !s.ctfSynced then Some("ctf_cache_not_synced")
    else None
  }

  function SellFill(position: HeldPosition, s: Surroundings, order: SellOrder): Fill
    requires SellBlocked(position, s, order) == None
  {
    FillOf(s.post, s.venue, SellSide, QuantizeSize(position.qty), LimitOf(s, order),
           Some(SellBook(s.bids.value, s.bestNow)))
  }

  function SellRecord(fill: Fill, order: SellOrder): Ledger.SellArgs
    requires fill.Filled?
  {
    Ledger.SellArgs(fill.qty, fill.price, order.ts, order.reason, order.trigger, 0.0, fill.orderId, fill.txHash)
  }

  // An order that a posted sell may leave on the book, by what the executor holds of it: its id, an
  // answer without a usable id, a fill the ledger did not take, or no answer at all.
  datatype Left = Identified(orderId: string) | NoUsableId | WriteFailed(orderId: string) | Unanswered

  // Whether one sell leaves such an order. A refused order is on no book; an answered one rests unless
  // its settle showed otherwise; after a lost response only a wallet short of nothing rules it out.
  function LeftResting(position: HeldPosition, s: Surroundings, order: SellOrder, t: Ledger.Tables): Option<Left> {
    if SellBlocked(position, s, order).Some? then None
    else
      var size := QuantizeSize(position.qty);
      match s.post
      case PriceRefused => None
      case Refused4xx => None
      case ResponseLost =>
        var moved := WalletDelta(s.venue.wallet, size);
        if moved.Some? && moved.value >= size - EPS then None else Some(Unanswered)
      case Answered(success, resp) =>
        if WasRejected(success, resp.orderId) || !SettledCross(s.venue, resp, SellSide, size).rests then None
        else
          var id := ParseOrderId(resp.orderId);
          if id == None then Some(NoUsableId)
          else if SellFill(position, s, order).Filled? && !(s.databaseWrites && Ledger.IsOpen(t, position.positionId))
          then Some(WriteFailed(id.value))
          else Some(Identified(id.value))
  }

  // `_execute_sell`: the result and the ledger, given the tables it writes to.
  datatype Sold = Sold(result: ExecResult, tables: Ledger.Tables, posted: bool)

  function UnguardedSell(position: HeldPosition, s: Surroundings, order: SellOrder, t: Ledger.Tables): Sold {
    var blocked := SellBlocked(position, s, order);
    if blocked.Some? then Sold(Skip(blocked.value, None), t, false)
    else
      match SellFill(position, s, order)
      case Skipped(reason, resting) => Sold(Skip(reason, resting), t, true)
      case Filled(qty, price, txHash, orderId, resting) =>
        if s.databaseWrites && Ledger.IsOpen(t, position.positionId) then
          Sold(ExecResult(true, None, Some(price), Some(qty), if resting then orderId else None),
               Ledger.Apply(t, Ledger.SellOp(position.positionId, SellRecord(SellFill(position, s, order), order))),
               true)
        else Sold(Skip("close_persist_failed", None), t, true)
  }

  // ---------- buying ----------

  // What the strategy wants bought, the news behind it and the belief it was decided on.
  datatype BuyIntent = BuyIntent(market: string, side: Ledger.Side, price: real, qty: real, ts: real,
                                 newsId: Option<string>, entry: Ledger.Entry)

  // A market of the catalog: the token of the wanted side, if it has one.
  datatype Market = Market(token: Option<string>, conditionId: string)

  datatype BuySurroundings = BuySurroundings(market: Option<Market>, baselineRead: bool, post: Post, venue: Venue,
                                             databaseWrites: bool)

  function BuyBlocked(intent: BuyIntent, s: BuySurroundings, t: Ledger.Tables): Option<string> {
    if s.market == None then Some("market_not_found")
    else if s.market.value.token == None then Some("no_token")
    else if Ledger.HasOpenRow(t, intent.market, intent.side) then Some("position_exists")
    else if !InPriceBand(Some(intent.price)) then Some("price_out_of_band")
    else if QuantizeSize(intent.qty) * intent.price < MIN_NOTIONAL_USD then Some("min_notional_below_floor")
    else if !s.baselineRead then Some("ctf_balance_unavailable")
    else None
  }

  function BuyFill(intent: BuyIntent, s: BuySurroundings): Fill {
    FillOf(s.post, s.venue, BuySide, QuantizeSize(intent.qty), intent.price, None)
  }

  function OriginOf(market: Market, intent: BuyIntent): Ledger.Origin
    requires market.token.Some?
  {
    Ledger.Origin(market.token.value, market.conditionId, intent.entry)
  }

  function BuyRecord(intent: BuyIntent, market: Market, fill: Fill): Ledger.OpenArgs
    requires fill.Filled? && market.token.Some?
  {
    Ledger.OpenArgs(intent.market, intent.side, fill.price, fill.qty, intent.ts, 0.0,
                    Ledger.Refs(intent.newsId, fill.orderId, fill.txHash), OriginOf(market, intent))
  }

  // `execute_buy`
  function Buy(intent: BuyIntent, s: BuySurroundings, t: Ledger.Tables): Sold {
    var blocked := BuyBlocked(intent, s, t);
    if blocked.Some? then Sold(Skip(blocked.value, None), t, false)
    else
      var fill := BuyFill(intent, s);
      if fill.Skipped? then Sold(Skip(fill.reason, fill.restingOrderId), t, true)
      else if !s.databaseWrites then Sold(Skip("open_persist_failed", None), t, true)
      else Sold(ExecResult(true, None, Some(fill.price), Some(fill.qty), if fill.resting then fill.orderId else None),
                Ledger.Apply(t, Ledger.OpenOp(BuyRecord(intent, s.market.value, fill))), true)
  }

  // The guard's own test of its answers: a cancel acknowledged, or a read that is done or fully matched.
  // Unlike the settle it does not ask whether the matched size is plausible.
  predicate GuardTerminal(read: ReadAnswer, size: real) {
    var state := ReadOrder(read);
    state.Some? && (IsDoneStatus(state.value.status)
                    || (state.value.matched.Some? && state.value.matched.value >= size - EPS))
  }

  predicate GuardPasses(order: RestingOrder, cancel: CancelAnswer, read: ReadAnswer) {
    Acknowledged(cancel, order.orderId) || GuardTerminal(read, order.size)
  }

  // The venue shows the order off the book, by the settle's rule for what an answer shows.
  predicate ShowsOffBook(order: RestingOrder, cancel: CancelAnswer, read: ReadAnswer) {
    Acknowledged(cancel, order.orderId) || IsTerminal(read, order.size)
  }

  // A read that shows nothing, its status open and its matched size more than the order could fill.
  predicate IsOverread(read: ReadAnswer, size: real) {
    var state := ReadOrder(read);
    state.Some? && !IsDoneStatus(state.value.status) && state.value.matched.Some?
      && state.value.matched.value > size + EPS
  }

  // The guard takes more than the venue shows: such reads, and no others.
  lemma GuardPassesExactly(order: RestingOrder, cancel: CancelAnswer, read: ReadAnswer)
    requires order.size >= 1.0
    ensures GuardPasses(order, cancel, read) <==> ShowsOffBook(order, cancel, read) || IsOverread(read, order.size)
    ensures IsOverread(read, order.size) ==> !IsTerminal(read, order.size)
  {}

  // What happened, in order: a SELL was posted, signed at a price for a size; it left an order that may
  // rest; a result named such an order; or the venue answered about one while it was being re-checked.
  datatype Event =
    | PostedSell(positionId: nat, price: real, size: real)
    | LeftOrder(positionId: nat, left: Left)
    | NamedResting(positionId: nat, orderId: string)
    | Rechecked(positionId: nat, order: RestingOrder, cancel: CancelAnswer, read: ReadAnswer)

  predicate IsPostOf(e: Event, positionId: nat) { e.PostedSell? && e.positionId == positionId }

  datatype State = State(resting: map<nat, RestingOrder>, tables: Ledger.Tables, trace: seq<Event>)

  datatype Executed = Executed(state: State, result: ExecResult)

  function PostOf(position: HeldPosition, s: Surroundings, order: SellOrder): Event
    requires SellBlocked(position, s, order) == None
  {
    PostedSell(position.positionId, LimitOf(s, order), QuantizeSize(position.qty))
  }

  // What one call of `_execute_sell` adds to the trace.
  function PostEvents(position: HeldPosition, s: Surroundings, order: SellOrder, t: Ledger.Tables): seq<Event> {
    var left := LeftResting(position, s, order, t);
    (if SellBlocked(position, s, order) == None then [PostOf(position, s, order)] else [])
    + (if left.Some? then [LeftOrder(position.positionId, left.value)] else [])
  }

  function SellFrom(st: State, position: HeldPosition, s: Surroundings, order: SellOrder): Executed {
    var sold := UnguardedSell(position, s, order, st.tables);
    var named, size := sold.result.restingOrderId, QuantizeSize(position.qty);
    Executed(
      State(if named.Some?
            then st.resting[position.positionId := RestingOrder(named.value, size, BookedOf(sold.result))]
            else st.resting,
            sold.tables,
            st.trace + PostEvents(position, s, order, st.tables)
            + (if named.Some? then [NamedResting(position.positionId, named.value)] else [])),
      sold.result)
  }

  function BookedOf(result: ExecResult): real {
    if result.qty.Some? then result.qty.value else 0.0
  }

  // `execute_sell`
  function ExecuteSellFrom(st: State, position: HeldPosition, s: Surroundings, order: SellOrder): Executed {
    var id := position.positionId;
    if id !in st.resting then SellFrom(st, position, s, order)
    else
      var pending := st.resting[id];
      var seen := st.(trace := st.trace + [Rechecked(id, pending, s.guardCancel, s.guardRead)]);
      if GuardPasses(pending, s.guardCancel, s.guardRead)
      then SellFrom(seen.(resting := seen.resting - {id}), position, s, order)
      else Executed(seen, Skip("resting_order_pending", Some(pending.orderId)))
  }

  lemma LeftOnlyWhenPosted(position: HeldPosition, s: Surroundings, order: SellOrder, t: Ledger.Tables)
    ensures SellBlocked(position, s, order).Some? ==> LeftResting(position, s, order, t) == None
    ensures UnguardedSell(position, s, order, t).posted <==> SellBlocked(position, s, order) == None
  {}

  class LiveExecutor {
    const store: Ledger.PortfolioStore
    var resting: map<nat, RestingOrder>
    ghost var trace: seq<Event>

    ghost function View(): State
      reads this, store
    {
      State(resting, store.View(), trace)
    }

    constructor (store: Ledger.PortfolioStore)
      ensures this.store == store && resting == map[] && trace == []
    {
      this.store := store;
      resting, trace := map[], [];
    }

    method ExecuteSell(position: HeldPosition, s: Surroundings, order: SellOrder) returns (result: ExecResult)
      modifies this, store
      ensures Executed(View(), result) == ExecuteSellFrom(old(View()), position, s, order)
    {
      hide SellFill, Ledger.Apply, QuantizeSize, PostEvents;
      var id := position.positionId;
      if id in resting {
        var pending := resting[id];
        trace := trace + [Rechecked(id, pending, s.guardCancel, s.guardRead)];
        if !GuardPasses(pending, s.guardCancel, s.guardRead) {
          return Skip("resting_order_pending", Some(pending.orderId));
        }
        resting := resting - {id};
      }
      result := SellUnguarded(position, s, order);
      if result.restingOrderId.Some? {
        resting := resting[id := RestingOrder(result.restingOrderId.value, QuantizeSize(position.qty),
                                              BookedOf(result))];
        trace := trace + [NamedResting(id, result.restingOrderId.value)];
      }
    }

    method ExecuteBuy(intent: BuyIntent, s: BuySurroundings) returns (result: ExecResult)
      modifies store
      ensures var bought := Buy(intent, s, old(store.View())); result == bought.result && store.View() == bought.tables
    {
      hide QuantizeSize, BalanceFill, ResolvedFill, InPriceBand;
      if s.market == None {
        return Skip("market_not_found", None);
      }
      if s.market.value.token == None {
        return Skip("no_token", None);
      }
      if Ledger.HasOpenRow(Ledger.Tables(store.fills, store.rows), intent.market, intent.side) {
        return Skip("position_exists", None);
      }
      if !InPriceBand(Some(intent.price)) {
        return Skip("price_out_of_band", None);
      }
      var size := QuantizeSize(intent.qty);
      if size * intent.price < MIN_NOTIONAL_USD {
        return Skip("min_notional_below_floor", None);
      }
      if !s.baselineRead {
        return Skip("ctf_balance_unavailable", None);
      }
      var fill := FillOf(s.post, s.venue, BuySide, size, intent.price, None);
      if fill.Skipped? {
        return Skip(fill.reason, fill.restingOrderId);
      }
      if s.databaseWrites {
        var id := store.OpenPosition(BuyRecord(intent, s.market.value, fill));
        if id.Ok? {
          return ExecResult(true, None, Some(fill.price), Some(fill.qty), if fill.resting then fill.orderId else None);
        }
      }
      return Skip("open_persist_failed", None);
    }

    method SellUnguarded(position: HeldPosition, s: Surroundings, order: SellOrder) returns (result: ExecResult)
      modifies this`trace, store
      ensures var sold := UnguardedSell(position, s, order, old(store.View()));
              && result == sold.result && store.View() == sold.tables
              && trace == old(trace) + PostEvents(position, s, order, old(store.View()))
    {
      hide QuantizeSize, BalanceFill, ResolvedFill, InPriceBand, LeftResting;
      ghost var left := LeftResting(position, s, order, store.View());
      LeftOnlyWhenPosted(position, s, order, store.View());
      if !s.marketKnown {
        return Skip("market_not_found", None);
      }
      if s.bids == None || s.bids.value == [] {
        return Skip("no_bid_liquidity", None);
      }
      var limit := s.bids.value[0].price;
      if order.floor.Some? && order.floor.value < limit {
        limit := order.floor.value;
      }
      limit := Max(limit, MarketTick(s.tick));
      if !InPriceBand(Some(limit)) {
        return Skip("price_out_of_band", None);
      }
      var size := QuantizeSize(position.qty);
      if size <= 0.0 {
        return Skip("dust_remainder", None);
      }
      if !s.ctfSynced {
        return Skip("ctf_cache_not_synced", None);
      }
      trace := trace + [PostedSell(position.positionId, limit, size)]
               + (if left.Some? then [LeftOrder(position.positionId, left.value)] else []);
      var fill := FillOf(s.post, s.venue, SellSide, size, limit, Some(SellBook(s.bids.value, s.bestNow)));
      if fill.Skipped? {
        return Skip(fill.reason, fill.restingOrderId);
      }
      if s.databaseWrites {
        var row := store.RecordSell(position.positionId, SellRecord(fill, order));
        if row.Ok? {
          return ExecResult(true, None, Some(fill.price), Some(fill.qty), if fill.resting then fill.orderId else None);
        }
      }
      return Skip("close_persist_failed", None);
    }
  }

  // ---------- what a posted sell is ----------

  // A SELL is only ever signed in the venue's band, for a size of at least one share, and at or above
  // both the tick and the lower of floor and best bid.
  lemma PostedSellsAreValid(position: HeldPosition, s: Surroundings, order: SellOrder, t: Ledger.Tables)
    requires UnguardedSell(position, s, order, t).posted
    ensures s.bids.Some? && s.bids.value != []
    ensures var limit := LimitOf(s, order);
            && InPriceBand(Some(limit)) && limit >= MarketTick(s.tick)
            && (order.floor == None || order.floor.value >= s.bids.value[0].price ==> limit >= s.bids.value[0].price)
            && QuantizeSize(position.qty) >= 1.0
  {
    QuantizeZeroIffDust(position.qty);
    if !IsDust(position.qty) { QuantizeIsClose(position.qty); }
  }

  // The price a sell is signed at, told by best bid, floor and tick: the floor when it is below the best
  // bid, or one tick when the floor is less than that; otherwise the best bid, raised to one tick. A tick
  // the catalog does not give is a cent.
  lemma SellIsSignedAt(position: HeldPosition, s: Surroundings, order: SellOrder)
    requires SellBlocked(position, s, order) == None
    ensures s.bids.Some? && s.bids.value != []
    ensures var best := s.bids.value[0].price;
            var tick := if s.tick.Some? && 0.0 < s.tick.value < 1.0 then s.tick.value else 0.01;
            var post := PostOf(position, s, order);
            && post.positionId == position.positionId
            && (order.floor.Some? && order.floor.value < best ==>
                  post.price == if order.floor.value >= tick then order.floor.value else tick)
            && (order.floor == None || order.floor.value >= best ==> post.price == if best >= tick then best else tick)
            && 1.0 <= post.size && position.qty - 0.01 < post.size <= position.qty + 0.000000005
  {
    QuantizeZeroIffDust(position.qty);
    if !IsDust(position.qty) { QuantizeIsClose(position.qty); }
  }

  // When a sell goes out at all.
  lemma SellIsPostedExactlyWhen(position: HeldPosition, s: Surroundings, order: SellOrder, t: Ledger.Tables)
    ensures UnguardedSell(position, s, order, t).posted <==>
              && s.marketKnown && s.bids.Some? && s.bids.value != [] && position.qty >= 1.0 && s.ctfSynced
              && 0.0001 <= LimitOf(s, order) <= 0.9999
  {
    QuantizeZeroIffDust(position.qty);
  }

  // What a sell reports is what it writes: a filled one appends one fill at its price of its quantity, up to
  // what the row held, without a fee, and any other leaves the ledger as it is.
  lemma SellReportsWhatItWrites(position: HeldPosition, s: Surroundings, order: SellOrder, t: Ledger.Tables)
    ensures var sold, id := UnguardedSell(position, s, order, t), position.positionId;
            && (!sold.result.filled ==> sold.tables == t)
            && (sold.result.filled ==>
                  && sold.result.price.Some? && sold.result.qty.Some? && s.databaseWrites
                  && id < |t.rows| && t.rows[id].status == Ledger.Open
                  && |sold.tables.fills| == |t.fills| + 1 && sold.tables.fills[..|t.fills|] == t.fills
                  && var fill, held := sold.tables.fills[|t.fills|], t.rows[id].qty;
                     && fill.positionId == id && fill.action == Ledger.Sell
                     && fill.price == sold.result.price.value && fill.fee == 0.0 && fill.ts == order.ts
                     && fill.qty == (if sold.result.qty.value <= held then sold.result.qty.value else held)
                     && fill.trigger == order.trigger && fill.refs.newsId == None
                     && (s.post.Answered? ==> fill.refs.txHash == s.post.resp.txHash
                                              && fill.refs.orderId == ParseOrderId(s.post.resp.orderId))
                     && (sold.tables.rows[id].status == Ledger.Closed ==>
                           sold.tables.rows[id].closeReason == Some(order.reason)
                           && sold.tables.rows[id].closedAt == Some(order.ts))
                     && (sold.tables.rows[id].status == Ledger.Open <==> held - fill.qty >= 0.01))
  {
    var sold, id := UnguardedSell(position, s, order, t), position.positionId;
    if sold.result.filled {
      var a := SellRecord(SellFill(position, s, order), order);
      Ledger.SellWritesWhatWasSold(t, id, a);
      hide SellFill, Ledger.Apply, QuantizeSize, LimitOf, Ledger.SoldFrom;
      assert sold.tables == Ledger.Apply(t, Ledger.SellOp(id, a));
    }
  }

  // An answer that refuses the order, or names none, books nothing and leaves nothing; one that names an
  // order and does not refuse it is settled.
  lemma RefusedSellsBookNothing(position: HeldPosition, s: Surroundings, order: SellOrder, t: Ledger.Tables)
    requires SellBlocked(position, s, order) == None && s.post.Answered?
    ensures var success, id := s.post.success, s.post.resp.orderId;
            var refused := success == SuccessFalse || success == SuccessText("false")
                           || (success == NoSuccessField && id in [Text(""), Whole(0), OtherShape(false)]);
            && (refused ==>
                  UnguardedSell(position, s, order, t) == Sold(Skip("live_rejected", None), t, true)
                  && LeftResting(position, s, order, t) == None)
            && (!refused ==>
                  SellFill(position, s, order) ==
                  ResolvedFill(s.venue, s.post.resp, SellSide, QuantizeSize(position.qty), LimitOf(s, order),
                               Some(SellBook(s.bids.value, s.bestNow))))
  {
    hide ResolvedFill, QuantizeSize, LimitOf, Ledger.Apply;
  }

  // An order the venue turns down books nothing. A lost response is settled by the wallet: what moved is booked, up
  // to the order's size, at the limit or for a sell at the estimate; nothing moved is an error, and a wallet that
  // cannot be read leaves the fill unknown.
  lemma UnansweredOrdersAreSettledByTheWallet(post: Post, venue: Venue, side: TradeSide, size: real, limit: real,
                                              book: Option<SellBook>)
    requires size > 0.0 && InPriceBand(Some(limit))
    ensures var fill := FillOf(post, venue, side, size, limit, book);
            && (post.PriceRefused? || post.Refused4xx? ==> fill == Skipped("live_rejected", None))
            && (post.ResponseLost? ==>
                  match venue.wallet
                  case Moved(qty) =>
                    if qty < 0.0 then fill == Skipped("live_fill_unknown", None)
                    else if qty == 0.0 then fill == Skipped("live_error", None)
                    else
                      var booked := if qty <= size then qty else size;
                      var estimate := if book.Some? then SellPriceEstimate(book.value, limit, booked) else limit;
                      fill == Filled(booked, if 0.0001 <= estimate <= 0.9999 then estimate else limit, None, None,
                                     booked < size - EPS)
                  case _ => fill == Skipped("live_fill_unknown", None))
  {
    hide SellPriceEstimate, ResolvedFill;
  }

  // A sell the venue answers in full at once is booked in full, for the USDC it names, and nothing rests.
  lemma FullSellsAreBookedInFull(position: HeldPosition, s: Surroundings, order: SellOrder, t: Ledger.Tables,
                                 usdc: real)
    requires SellBlocked(position, s, order) == None && s.databaseWrites && Ledger.IsOpen(t, position.positionId)
    requires var size := QuantizeSize(position.qty);
             && s.post.Answered? && s.post.success.SuccessOther? && usdc > 0.0
             && s.post.resp.making == Number(size) && s.post.resp.taking == Number(usdc)
             && InPriceBand(Some(usdc / size))
    ensures var size := QuantizeSize(position.qty);
            UnguardedSell(position, s, order, t).result ==
            ExecResult(true, None, Some(usdc / size), Some(size), None)
  {
    var size, book := QuantizeSize(position.qty), Some(SellBook(s.bids.value, s.bestNow));
    QuantizeZeroIffDust(position.qty);
    QuantizeIsClose(position.qty);
    hide QuantizeSize, ResolvedFill, Ledger.Apply, LimitOf, SellRecord;
    CompleteAnswersAreBooked(s.venue, s.post.resp, SellSide, size, LimitOf(s, order), book, usdc);
  }

  lemma FullBuysAreBookedInFull(intent: BuyIntent, s: BuySurroundings, t: Ledger.Tables, usdc: real)
    requires BuyBlocked(intent, s, t) == None && s.databaseWrites
    requires var size := QuantizeSize(intent.qty);
             && s.post.Answered? && s.post.success.SuccessOther? && usdc > 0.0 && size > 0.0
             && s.post.resp.taking == Number(size) && s.post.resp.making == Number(usdc)
             && InPriceBand(Some(usdc / size))
    ensures var size := QuantizeSize(intent.qty);
            Buy(intent, s, t).result == ExecResult(true, None, Some(usdc / size), Some(size), None)
  {
    var size := QuantizeSize(intent.qty);
    QuantizeZeroIffDust(intent.qty);
    if !IsDust(intent.qty) { QuantizeIsClose(intent.qty); }
    hide QuantizeSize, ResolvedFill, Ledger.Apply, BuyRecord, BuyBlocked;
    CompleteAnswersAreBooked(s.venue, s.post.resp, BuySide, size, intent.price, None, usdc);
  }

  // What filled after a response that says nothing crossed is booked at the price the sell was signed at.
  lemma QuietSellsAreBookedAsSigned(position: HeldPosition, s: Surroundings, order: SellOrder)
    requires SellBlocked(position, s, order) == None && SellFill(position, s, order).Filled?
    requires s.post.Answered? && ReadCross(s.post.resp, SellSide, QuantizeSize(position.qty)) == Cross(0.0, 0.0, true)
    ensures SellFill(position, s, order).price == PostOf(position, s, order).price
  {
    var size, book := QuantizeSize(position.qty), Some(SellBook(s.bids.value, s.bestNow));
    assert !WasRejected(s.post.success, s.post.resp.orderId);
    QuietFillsAreBookedAtTheLimit(s.venue, s.post.resp, SellSide, size, LimitOf(s, order), book);
  }

  // While an order of a position may rest and a re-check does not pass, a sell changes nothing and says so.
  lemma PendingOrdersBlock(st: State, position: HeldPosition, s: Surroundings, order: SellOrder)
    requires position.positionId in st.resting
    requires !GuardPasses(st.resting[position.positionId], s.guardCancel, s.guardRead)
    ensures var r := ExecuteSellFrom(st, position, s, order);
            && r.state.tables == st.tables && r.state.resting == st.resting && !r.result.filled
            && r.result.restingOrderId == Some(st.resting[position.positionId].orderId)
            && r.result.skipReason == Some("resting_order_pending")
  {}

  // With no order pending, or one whose re-check passed, what is remembered of the position from then on is the
  // order this sell named, if any, with its size and what was booked of it; other positions keep theirs.
  lemma OnlyThisSellIsRemembered(st: State, position: HeldPosition, s: Surroundings, order: SellOrder)
    requires position.positionId in st.resting ==>
               GuardPasses(st.resting[position.positionId], s.guardCancel, s.guardRead)
    ensures var r, id := ExecuteSellFrom(st, position, s, order), position.positionId;
            && r.result == UnguardedSell(position, s, order, st.tables).result
            && r.state.tables == UnguardedSell(position, s, order, st.tables).tables
            && (id in r.state.resting <==> r.result.restingOrderId.Some?)
            && (id in r.state.resting ==>
                  r.state.resting[id] ==
                  RestingOrder(r.result.restingOrderId.value, QuantizeSize(position.qty),
                               if r.result.qty.Some? then r.result.qty.value else 0.0))
            && (forall other :: other != id ==>
                  && (other in r.state.resting <==> other in st.resting)
                  && (other in st.resting ==> r.state.resting[other] == st.resting[other]))
  {
    hide UnguardedSell, PostEvents, QuantizeSize, GuardPasses;
  }

  // A sell that was posted and filled something reaches the ledger whenever the database takes the write and
  // the row is open.
  lemma FilledSellsAreWritten(position: HeldPosition, s: Surroundings, order: SellOrder, t: Ledger.Tables)
    requires SellBlocked(position, s, order) == None && SellFill(position, s, order).Filled?
    ensures UnguardedSell(position, s, order, t).result.filled <==>
                s.databaseWrites && Ledger.IsOpen(t, position.positionId)
    ensures UnguardedSell(position, s, order, t).result.filled ==>
              UnguardedSell(position, s, order, t).result.qty == Some(SellFill(position, s, order).qty)
  {
    hide SellFill, Ledger.Apply, SellRecord, LimitOf, QuantizeSize;
  }

  // From the sell's call site the worst-edge price is never booked: a fill carries a price in band
  // that respects the limit unless the venue's own amounts broke it.
  lemma SoldPriceRespectsTheLimit(position: HeldPosition, s: Surroundings, order: SellOrder, t: Ledger.Tables)
    requires UnguardedSell(position, s, order, t).result.filled
    ensures var result := UnguardedSell(position, s, order, t).result;
            && result.price.Some? && result.qty.Some?
            && 0.0 < result.qty.value <= QuantizeSize(position.qty) + EPS && InPriceBand(result.price)
            && (result.price.value < LimitOf(s, order) ==>
                  && s.post.Answered?
                  && CrossWentBelow(ReadCross(s.post.resp, SellSide, QuantizeSize(position.qty)), LimitOf(s, order)))
  {
    PostedSellsAreValid(position, s, order, t);
    var size, limit, book := QuantizeSize(position.qty), LimitOf(s, order), Some(SellBook(s.bids.value, s.bestNow));
    hide QuantizeSize, ResolvedFill, BalanceFill, LimitOf, CrossWentBelow, ReadCross;
    match s.post
    case Answered(_, resp) => LimitIsRespected(s.venue, resp, SellSide, size, limit, book);
    case ResponseLost => BalanceFillIsBounded(s.venue.wallet, SellSide, size, limit, book);
    case _ =>
  }

  // A filled buy opens one row at a price in band, never above its limit unless the venue's own
  // amounts say the cross was, for a positive quantity of at most the size that was signed.
  lemma BoughtRowsAreValid(intent: BuyIntent, s: BuySurroundings, t: Ledger.Tables)
    requires Buy(intent, s, t).result.filled
    ensures var bought, size := Buy(intent, s, t), QuantizeSize(intent.qty);
            && size >= 1.0 && InPriceBand(bought.result.price) && bought.result.qty.Some?
            && 0.0 < bought.result.qty.value <= size + EPS
            && (bought.result.price.value > intent.price ==>
                  s.post.Answered? && CrossWentAbove(ReadCross(s.post.resp, BuySide, size), intent.price))
            && bought.tables == Ledger.Opened(t, BuyRecord(intent, s.market.value, BuyFill(intent, s)))
            && Ledger.BuysShares(Ledger.OpenOp(BuyRecord(intent, s.market.value, BuyFill(intent, s))))
  {
    var size := QuantizeSize(intent.qty);
    QuantizeZeroIffDust(intent.qty);
    if !IsDust(intent.qty) { QuantizeIsClose(intent.qty); }
    hide QuantizeSize, ResolvedFill, BalanceFill, CrossWentAbove, ReadCross;
    match s.post
    case Answered(_, resp) => LimitIsRespected(s.venue, resp, BuySide, size, intent.price, None);
    case ResponseLost => BalanceFillIsBounded(s.venue.wallet, BuySide, size, intent.price, None);
    case _ =>
  }

  // A buy goes out exactly when its market and token are known, no row of the market and side is open, its
  // price is in band, its size at that price is worth at least $1.10 and the wallet could be read.
  lemma BuyIsPostedExactlyWhen(intent: BuyIntent, s: BuySurroundings, t: Ledger.Tables)
    ensures Buy(intent, s, t).posted <==>
              && s.market.Some? && s.market.value.token.Some? && s.baselineRead
              && (forall i :: 0 <= i < |t.rows| ==>
                    t.rows[i].market != intent.market || t.rows[i].side != intent.side
                      || t.rows[i].status != Ledger.Open)
              && 0.0001 <= intent.price <= 0.9999 && QuantizeSize(intent.qty) * intent.price >= 1.10
  {
    hide BuyFill, QuantizeSize, BuyRecord, Ledger.Apply;
  }

  // What a buy reports is what it writes: one row and one fill of its quantity at its price, with the token
  // and the condition of its market and the belief behind it; any other buy leaves the ledger as it is.
  lemma BuyReportsWhatItWrites(intent: BuyIntent, s: BuySurroundings, t: Ledger.Tables)
    ensures var bought := Buy(intent, s, t);
            && (!bought.result.filled ==> bought.tables == t)
            && (bought.result.filled ==>
                  && bought.result.price.Some? && bought.result.qty.Some?
                  && s.databaseWrites && s.market.Some? && s.market.value.token.Some?
                  && |bought.tables.rows| == |t.rows| + 1 && bought.tables.rows[..|t.rows|] == t.rows
                  && |bought.tables.fills| == |t.fills| + 1 && bought.tables.fills[..|t.fills|] == t.fills
                  && var row, fill := bought.tables.rows[|t.rows|], bought.tables.fills[|t.fills|];
                     && row.market == intent.market && row.side == intent.side && row.status == Ledger.Open
                     && row.qty == bought.result.qty.value && row.avgEntryPrice == bought.result.price.value
                     && row.openedAt == intent.ts && row.closedAt == None && row.realizedPnl == None
                     && row.origin.token == s.market.value.token.value
                     && row.origin.conditionId == s.market.value.conditionId && row.origin.entry == intent.entry
                     && fill.positionId == |t.rows| && fill.action == Ledger.Buy && fill.qty == row.qty
                     && fill.price == row.avgEntryPrice && fill.fee == 0.0 && fill.refs.newsId == intent.newsId
                     && (s.post.Answered? ==> fill.refs.txHash == s.post.resp.txHash
                                              && fill.refs.orderId == ParseOrderId(s.post.resp.orderId)))
  {
    if Buy(intent, s, t).result.filled && s.post.Answered? {
      AnsweredFillsNameTheirOrder(s.post, s.venue, BuySide, QuantizeSize(intent.qty), intent.price, None);
    }
    hide FillOf, QuantizeSize;
  }

  // A buy names the order it may have left resting exactly when its answer carries a usable id, its settle did not
  // show that order off the book and the ledger took its fill, if any.
  lemma BuysNameWhatTheyLeave(intent: BuyIntent, s: BuySurroundings, t: Ledger.Tables)
    requires Buy(intent, s, t).posted
    ensures var named := Buy(intent, s, t).result.restingOrderId;
            if s.post.Answered? && !WasRejected(s.post.success, s.post.resp.orderId) then
              var settled := SettledCross(s.venue, s.post.resp, BuySide, QuantizeSize(intent.qty));
              var filled := settled.qty.Some? && settled.qty.value > 0.0;
              named ==
              if settled.rests && (filled ==> s.databaseWrites) then ParseOrderId(s.post.resp.orderId) else None
            else
              named == None
  {
    hide SettledCross, QuantizeSize, ImpliedPrice, InPriceBand, BuyRecord, Ledger.Apply, SellPriceEstimate;
  }

  lemma AnsweredFillsNameTheirOrder(post: Post, venue: Venue, side: TradeSide, size: real, limit: real,
                                    book: Option<SellBook>)
    requires post.Answered? && FillOf(post, venue, side, size, limit, book).Filled?
    ensures FillOf(post, venue, side, size, limit, book).orderId == ParseOrderId(post.resp.orderId)
    ensures FillOf(post, venue, side, size, limit, book).txHash == post.resp.txHash
  {
    hide SettledCross, ImpliedPrice, BookablePrice;
  }

  // A sell of the row's quantity that the venue filled in full closes the row.
  lemma FullFillClosesTheRow(position: HeldPosition, s: Surroundings, order: SellOrder, t: Ledger.Tables)
    requires Ledger.IsOpen(t, position.positionId) && t.rows[position.positionId].qty == position.qty
    requires UnguardedSell(position, s, order, t).result.filled
    requires UnguardedSell(position, s, order, t).result.qty.value >= QuantizeSize(position.qty) - EPS
    ensures UnguardedSell(position, s, order, t).tables.rows[position.positionId].status == Ledger.Closed
  {
    PostedSellsAreValid(position, s, order, t);
    QuantizeZeroIffDust(position.qty);
    FullFillLeavesNoSellableResidue(position.qty, UnguardedSell(position, s, order, t).result.qty.value);
  }

  // ---------- never two SELLs ----------

  // One sell and the tables it meets: opens, settlements and other sellers may have written since the
  // one before it.
  datatype Call = Call(position: HeldPosition, s: Surroundings, order: SellOrder, tables: Ledger.Tables)

  function Step(st: State, call: Call): State {
    ExecuteSellFrom(st.(tables := call.tables), call.position, call.s, call.order).state
  }

  function Run(calls: seq<Call>): State {
    if calls == [] then State(map[], Ledger.EmptyTables(), []) else Step(Run(calls[..|calls| - 1]), calls[|calls| - 1])
  }

  // Between `i` and `j` a re-check of the order passed the guard.
  ghost predicate PassedBetween(trace: seq<Event>, i: int, j: int, positionId: nat, orderId: string) {
    exists k :: 0 <= i < k < j <= |trace| && IsPassed(trace[k], positionId, orderId)
  }

  ghost predicate IsPassed(e: Event, positionId: nat, orderId: string) {
    e.Rechecked? && e.positionId == positionId && e.order.orderId == orderId && GuardPasses(e.order, e.cancel, e.read)
  }

  // No SELL is posted for a position after a result named a resting order of it, until a re-check of
  // that order passed the guard.
  ghost predicate GuardedTrace(trace: seq<Event>) {
    forall i, j :: 0 <= i < j < |trace| && trace[i].NamedResting? && IsPostOf(trace[j], trace[i].positionId) ==>
      PassedBetween(trace, i, j, trace[i].positionId, trace[i].orderId)
  }

  // Every order named as resting is still remembered, or passed the guard since.
  ghost predicate RestingIsRemembered(st: State) {
    forall i :: 0 <= i < |st.trace| && st.trace[i].NamedResting? ==>
      var id := st.trace[i].positionId;
      (id in st.resting && st.resting[id].orderId == st.trace[i].orderId)
      || PassedBetween(st.trace, i, |st.trace|, id, st.trace[i].orderId)
  }

  lemma SellKeepsTheGuard(st: State, position: HeldPosition, s: Surroundings, order: SellOrder)
    requires GuardedTrace(st.trace) && RestingIsRemembered(st) && position.positionId !in st.resting
    ensures var st' := SellFrom(st, position, s, order).state;
            GuardedTrace(st'.trace) && RestingIsRemembered(st')
  {
    hide UnguardedSell, IsPassed, LeftResting, SellBlocked;
    var id, trace := position.positionId, st.trace;
    var sold := UnguardedSell(position, s, order, st.tables);
    var trace' := SellFrom(st, position, s, order).state.trace;
    assert trace <= trace';
    forall i | 0 <= i < |trace| && trace[i].NamedResting?
               && PassedBetween(trace, i, |trace|, trace[i].positionId, trace[i].orderId)
      ensures forall j :: |trace| <= j <= |trace'| ==>
                  PassedBetween(trace', i, j, trace[i].positionId, trace[i].orderId)
    {
      var k :| 0 <= i < k < |trace| && IsPassed(trace[k], trace[i].positionId, trace[i].orderId);
      assert trace'[k] == trace[k];
    }
    OldPairsStand(trace, trace');
  }

  lemma OldPairsStand(trace: seq<Event>, trace': seq<Event>)
    requires trace <= trace' && GuardedTrace(trace)
    ensures forall i, j :: 0 <= i < j < |trace| && trace'[i].NamedResting?
                           && IsPostOf(trace'[j], trace'[i].positionId) ==>
              PassedBetween(trace', i, j, trace'[i].positionId, trace'[i].orderId)
  {
    hide IsPassed;
    forall i, j | 0 <= i < j < |trace| && trace'[i].NamedResting? && IsPostOf(trace'[j], trace'[i].positionId)
      ensures PassedBetween(trace', i, j, trace'[i].positionId, trace'[i].orderId)
    {
      assert trace[i] == trace'[i] && trace[j] == trace'[j];
      var k :| 0 <= i < k < j <= |trace| && IsPassed(trace[k], trace[i].positionId, trace[i].orderId);
      assert trace'[k] == trace[k];
    }
  }

  lemma RecheckKeepsTheGuard(st: State, id: nat, cancel: CancelAnswer, read: ReadAnswer)
    requires GuardedTrace(st.trace) && RestingIsRemembered(st) && id in st.resting
    ensures var seen := st.(trace := st.trace + [Rechecked(id, st.resting[id], cancel, read)]);
            && GuardedTrace(seen.trace) && RestingIsRemembered(seen)
            && (GuardPasses(st.resting[id], cancel, read) ==>
                RestingIsRemembered(seen.(resting := seen.resting - {id})))
  {
    var trace, trace' := st.trace, st.trace + [Rechecked(id, st.resting[id], cancel, read)];
    OldPairsStand(trace, trace');
    forall i | 0 <= i < |trace| && trace[i].NamedResting?
      ensures PassedBetween(trace, i, |trace|, trace[i].positionId, trace[i].orderId) ==>
                PassedBetween(trace', i, |trace'|, trace[i].positionId, trace[i].orderId)
      ensures GuardPasses(st.resting[id], cancel, read) && trace[i].positionId == id
              && trace[i].orderId == st.resting[id].orderId ==>
                PassedBetween(trace', i, |trace'|, id, trace[i].orderId)
    {
      if PassedBetween(trace, i, |trace|, trace[i].positionId, trace[i].orderId) {
        var k :| 0 <= i < k < |trace| && IsPassed(trace[k], trace[i].positionId, trace[i].orderId);
        assert trace'[k] == trace[k];
      }
      if GuardPasses(st.resting[id], cancel, read) {
        assert IsPassed(trace'[|trace|], id, st.resting[id].orderId);
      }
    }
  }

  // Over any sequence of sells and whatever the venue answers.
  lemma {:induction false} GuardAlwaysHolds(calls: seq<Call>)
    ensures GuardedTrace(Run(calls).trace) && RestingIsRemembered(Run(calls))
  {
    if calls != [] {
      var last := calls[|calls| - 1];
      var st := Run(calls[..|calls| - 1]).(tables := last.tables);
      var id := last.position.positionId;
      GuardAlwaysHolds(calls[..|calls| - 1]);
      if id in st.resting {
        RecheckKeepsTheGuard(st, id, last.s.guardCancel, last.s.guardRead);
        var seen := st.(trace := st.trace + [Rechecked(id, st.resting[id], last.s.guardCancel, last.s.guardRead)]);
        if GuardPasses(st.resting[id], last.s.guardCancel, last.s.guardRead) {
          SellKeepsTheGuard(seen.(resting := seen.resting - {id}), last.position, last.s, last.order);
        }
      } else {
        SellKeepsTheGuard(st, last.position, last.s, last.order);
      }
    }
  }

  // ---------- the orders the guard does not know ----------

  // Whatever the venue answers, a result names the order its sell left resting exactly when the
  // executor holds its id and the ledger took its fill, if any.
  lemma ResultNamesExactlyTheKnown(position: HeldPosition, s: Surroundings, order: SellOrder, t: Ledger.Tables)
    ensures var left := LeftResting(position, s, order, t);
            var named := UnguardedSell(position, s, order, t).result.restingOrderId;
            named == if left.Some? && left.value.Identified? then Some(left.value.orderId) else None
  {
    hide SettledCross, QuantizeSize, ImpliedPrice, InPriceBand;
  }

  // A trace in which every known order left resting is named at once.
  ghost predicate KnownAreNamed(trace: seq<Event>) {
    forall i :: 0 <= i < |trace| && trace[i].LeftOrder? && trace[i].left.Identified? ==>
      i + 1 < |trace| && trace[i + 1] == NamedResting(trace[i].positionId, trace[i].left.orderId)
  }

  lemma SellNamesTheKnown(st: State, position: HeldPosition, s: Surroundings, order: SellOrder)
    requires KnownAreNamed(st.trace)
    ensures KnownAreNamed(SellFrom(st, position, s, order).state.trace)
  {
    ResultNamesExactlyTheKnown(position, s, order, st.tables);
    LeftOnlyWhenPosted(position, s, order, st.tables);
    hide LeftResting, UnguardedSell, SellBlocked;
  }

  lemma {:induction false} RunsNameTheKnown(calls: seq<Call>)
    ensures KnownAreNamed(Run(calls).trace)
  {
    if calls != [] {
      var last := calls[|calls| - 1];
      var st := Run(calls[..|calls| - 1]).(tables := last.tables);
      var id := last.position.positionId;
      RunsNameTheKnown(calls[..|calls| - 1]);
      if id in st.resting {
        var seen := st.(trace := st.trace + [Rechecked(id, st.resting[id], last.s.guardCancel, last.s.guardRead)]);
        SellNamesTheKnown(seen.(resting := seen.resting - {id}), last.position, last.s, last.order);
      } else {
        SellNamesTheKnown(st, last.position, last.s, last.order);
      }
    }
  }

  // ---------- what passing the guard means ----------

  // Only whole shares are ever sold, so every order remembered or re-checked is for at least one.
  ghost predicate SizesAreShares(st: State) {
    && (forall id :: id in st.resting ==> st.resting[id].size >= 1.0)
    && (forall k :: 0 <= k < |st.trace| && st.trace[k].Rechecked? ==> st.trace[k].order.size >= 1.0)
  }

  lemma SellKeepsSizes(st: State, position: HeldPosition, s: Surroundings, order: SellOrder)
    requires SizesAreShares(st)
    ensures SizesAreShares(SellFrom(st, position, s, order).state)
  {
    LeftOnlyWhenPosted(position, s, order, st.tables);
    if UnguardedSell(position, s, order, st.tables).posted {
      PostedSellsAreValid(position, s, order, st.tables);
    }
    ResultNamesExactlyTheKnown(position, s, order, st.tables);
    hide LeftResting, UnguardedSell, SellBlocked, QuantizeSize;
  }

  lemma {:induction false} RunsKeepSizes(calls: seq<Call>)
    ensures SizesAreShares(Run(calls))
  {
    if calls != [] {
      var last := calls[|calls| - 1];
      var st := Run(calls[..|calls| - 1]).(tables := last.tables);
      var id := last.position.positionId;
      hide SellFrom, GuardPasses;
      RunsKeepSizes(calls[..|calls| - 1]);
      if id in st.resting {
        var seen := st.(trace := st.trace + [Rechecked(id, st.resting[id], last.s.guardCancel, last.s.guardRead)]);
        SellKeepsSizes(seen.(resting := seen.resting - {id}), last.position, last.s, last.order);
      } else {
        SellKeepsSizes(st, last.position, last.s, last.order);
      }
    }
  }

  // The venue showed the order off the book in this answer, or the guard took an answer that showed
  // nothing for one that did.
  predicate IsShownOff(e: Event, positionId: nat, orderId: string) {
    e.Rechecked? && e.positionId == positionId && e.order.orderId == orderId && ShowsOffBook(e.order, e.cancel, e.read)
  }

  predicate IsTakenForShown(e: Event, positionId: nat, orderId: string) {
    e.Rechecked? && e.positionId == positionId && e.order.orderId == orderId
    && !ShowsOffBook(e.order, e.cancel, e.read) && IsOverread(e.read, e.order.size)
  }

  ghost predicate ShownOffBetween(trace: seq<Event>, i: int, j: int, positionId: nat, orderId: string) {
    exists k :: 0 <= i < k < j <= |trace| && IsShownOff(trace[k], positionId, orderId)
  }

  ghost predicate OverreadBetween(trace: seq<Event>, i: int, j: int, positionId: nat, orderId: string) {
    exists k :: 0 <= i < k < j <= |trace| && IsTakenForShown(trace[k], positionId, orderId)
  }

  lemma PassedIsShownOrOverread(st: State, i: int, j: int, positionId: nat, orderId: string)
    requires SizesAreShares(st) && PassedBetween(st.trace, i, j, positionId, orderId)
    ensures ShownOffBetween(st.trace, i, j, positionId, orderId) || OverreadBetween(st.trace, i, j, positionId, orderId)
  {
    var k :| 0 <= i < k < j <= |st.trace| && IsPassed(st.trace[k], positionId, orderId);
    var e := st.trace[k];
    GuardPassesExactly(e.order, e.cancel, e.read);
    hide ShowsOffBook, IsOverread, GuardPasses;
    assert IsShownOff(e, positionId, orderId) || IsTakenForShown(e, positionId, orderId);
  }

  // Over any sequence of sells, whatever the venue answers and whoever writes the ledger in between:
  // after a result named a resting order, no SELL is posted for that position until the venue showed the
  // order off the book, or the guard took an implausible read for that.
  lemma NeverASecondSell(calls: seq<Call>, i: nat, j: nat)
    requires i < j < |Run(calls).trace|
    requires Run(calls).trace[i].NamedResting? && IsPostOf(Run(calls).trace[j], Run(calls).trace[i].positionId)
    ensures var trace := Run(calls).trace;
            || ShownOffBetween(trace, i, j, trace[i].positionId, trace[i].orderId)
            || OverreadBetween(trace, i, j, trace[i].positionId, trace[i].orderId)
  {
    hide Run, IsPassed;
    GuardAlwaysHolds(calls);
    RunsKeepSizes(calls);
    var trace := Run(calls).trace;
    PassedIsShownOrOverread(Run(calls), i, j, trace[i].positionId, trace[i].orderId);
  }

  // A SELL is posted after one that left an order resting only if the venue showed that order off the
  // book in between, the guard took an implausible read for that, or the executor never held the order:
  // its ledger write failed, its answer carried no usable id, or it was never answered.
  lemma SecondSellOnlyOverAForgottenOrder(calls: seq<Call>, i: nat, j: nat)
    requires i < j < |Run(calls).trace|
    requires Run(calls).trace[i].LeftOrder? && IsPostOf(Run(calls).trace[j], Run(calls).trace[i].positionId)
    ensures var trace := Run(calls).trace; var left := trace[i].left;
            || left.WriteFailed? || left.NoUsableId? || left.Unanswered?
            || ShownOffBetween(trace, i, j, trace[i].positionId, left.orderId)
            || OverreadBetween(trace, i, j, trace[i].positionId, left.orderId)
  {
    hide Run, IsShownOff, IsTakenForShown;
    RunsNameTheKnown(calls);
    var trace := Run(calls).trace;
    if trace[i].left.Identified? {
      assert trace[i + 1] == NamedResting(trace[i].positionId, trace[i].left.orderId);
      NeverASecondSell(calls, i + 1, j);
    }
  }

  // And in those cases it is: the next sell that nothing else blocks is posted exactly when the order
  // left resting is not held, is now shown off the book, or is over-read.
  lemma NextSellPostsExactlyWhenForgotten(st: State, first: Call, second: Call)
    requires first.position.positionId == second.position.positionId && first.position.positionId !in st.resting
    requires LeftResting(first.position, first.s, first.order, first.tables).Some?
    requires SellBlocked(second.position, second.s, second.order) == None
    ensures var id := first.position.positionId;
            var left := LeftResting(first.position, first.s, first.order, first.tables).value;
            var size, after := QuantizeSize(first.position.qty), Step(st, first);
            var again := Step(after, second).trace;
            && SellBlocked(first.position, first.s, first.order) == None
            && after.trace[..|st.trace| + 2] ==
               st.trace + [PostOf(first.position, first.s, first.order), LeftOrder(id, left)]
            && after.trace <= again
            && (PostOf(second.position, second.s, second.order) in again[|after.trace|..] <==>
                  || !left.Identified?
                  || Acknowledged(second.s.guardCancel, left.orderId) || IsTerminal(second.s.guardRead, size)
                  || IsOverread(second.s.guardRead, size))
  {
    var id, after := first.position.positionId, Step(st, first);
    var again := Step(after, second).trace;
    AfterALeftOrder(st, first);
    LeftOnlyWhenPosted(first.position, first.s, first.order, first.tables);
    PostedSellsAreValid(first.position, first.s, first.order, first.tables);
    LeftOnlyWhenPosted(second.position, second.s, second.order, second.tables);
    if id in after.resting {
      GuardPassesExactly(after.resting[id], second.s.guardCancel, second.s.guardRead);
    }
    hide LeftResting, UnguardedSell, SellBlocked, QuantizeSize, Acknowledged, GuardTerminal, IsTerminal, IsOverread;
    if id !in after.resting {
      assert again[|after.trace|] == PostOf(second.position, second.s, second.order);
    } else if GuardPasses(after.resting[id], second.s.guardCancel, second.s.guardRead) {
      assert again[|after.trace| + 1] == PostOf(second.position, second.s, second.order);
    } else {
      assert again[|after.trace|..] == [Rechecked(id, after.resting[id], second.s.guardCancel, second.s.guardRead)];
    }
  }

  // What a sell that left an order resting adds to the trace, and what the executor remembers of it.
  lemma AfterALeftOrder(st: State, call: Call)
    requires call.position.positionId !in st.resting
    requires LeftResting(call.position, call.s, call.order, call.tables).Some?
    ensures var id, left := call.position.positionId, LeftResting(call.position, call.s, call.order, call.tables).value;
            var booked := BookedOf(UnguardedSell(call.position, call.s, call.order, call.tables).result);
            var after := Step(st, call);
            && SellBlocked(call.position, call.s, call.order) == None
            && after.trace == st.trace + [PostOf(call.position, call.s, call.order), LeftOrder(id, left)]
                              + (if left.Identified? then [NamedResting(id, left.orderId)] else [])
            && after.resting ==
               if left.Identified?
               then st.resting[id := RestingOrder(left.orderId, QuantizeSize(call.position.qty), booked)]
               else st.resting
  {
    hide LeftResting, UnguardedSell, SellBlocked, QuantizeSize;
    ResultNamesExactlyTheKnown(call.position, call.s, call.order, call.tables);
    LeftOnlyWhenPosted(call.position, call.s, call.order, call.tables);
  }

  // ---------- two sells over one resting order ----------

  // Five shares, of which so many cross; every cancel is refused, and every read gives the same answer.
  ghost function StuckVenue(read: ReadAnswer): Venue {
    Venue((k: nat) => Attempt(CancelBody(Some([]), NoRefusals), 0.0, read, 0.0), read, WalletFailed)
  }

  ghost function StuckCall(crossed: real, read: ReadAnswer, guardRead: ReadAnswer, t: Ledger.Tables): Call {
    var resp := Response(Text("7"), Number(crossed), Number(crossed / 2.0), Some("tx"));
    Call(HeldPosition(0, 5.0),
         Surroundings(true, Some([Level(0.5, 100.0)]), Some(0.5), Some(0.01), true, Answered(NoSuccessField, resp),
                      StuckVenue(read), false, CancelBody(Some([]), NoRefusals), guardRead),
         SellOrder("stop_loss", 0.0, Some("stop_loss"), None), t)
  }

  // Its settle finds the order resting, whatever crossed short of the whole.
  lemma StuckOrdersRest(crossed: real, read: ReadAnswer)
    requires 0.0 <= crossed < 5.0 - EPS && !IsTerminal(read, 5.0)
    ensures SettleResult(StuckVenue(read), Some("7"), crossed, 5.0, true).rests
  {
    hide SettleResult, IsTerminal;
    assert forall k :: !AttemptEnds(StuckVenue(read), "7", 5.0, k);
    RestsUnlessShownOffBook(StuckVenue(read), Some("7"), crossed, 5.0, true);
  }

  lemma StuckCallPosts(crossed: real, read: ReadAnswer, guardRead: ReadAnswer, t: Ledger.Tables)
    ensures var call := StuckCall(crossed, read, guardRead, t);
            && SellBlocked(call.position, call.s, call.order) == None
            && QuantizeSize(call.position.qty) == 5.0
            && PostOf(call.position, call.s, call.order) == PostedSell(0, 0.5, 5.0)
  {
    WholeHundredthsStay(500);
  }

  // A stamped cross of two shares is booked, so the order left is one whose fill the ledger refused.
  lemma StuckCallIsForgotten(guardRead: ReadAnswer, t: Ledger.Tables)
    ensures var call := StuckCall(2.0, OrderDoc(Number(2.0), "LIVE"), guardRead, t);
            LeftResting(call.position, call.s, call.order, t) == Some(WriteFailed("7"))
  {
    var read := OrderDoc(Number(2.0), "LIVE");
    var call := StuckCall(2.0, read, guardRead, t);
    StuckCallPosts(2.0, read, guardRead, t);
    StuckOrdersRest(2.0, read);
    StuckFillIsBooked(read);
    hide SettleResult, ImpliedPrice, QuantizeSize, SellBlocked;
    assert ReadCross(call.s.post.resp, SellSide, 5.0) == Cross(2.0, 1.0, true);
    assert SellFill(call.position, call.s, call.order).Filled?;
  }

  lemma StuckFillIsBooked(read: ReadAnswer)
    ensures SettleResult(StuckVenue(read), Some("7"), 2.0, 5.0, true).qty.Some?
    ensures SettleResult(StuckVenue(read), Some("7"), 2.0, 5.0, true).qty.value >= 2.0 - EPS
  {
    hide SettleResult, CancelLoop;
    LoopFacts(StuckVenue(read), "7", 5.0, 0.0, [CrossReport(2.0, true)], []);
    assert CrossReport(2.0, true) == Learn(StuckVenue(read), Some("7"), 2.0, 5.0, true).reports[0];
    SettleOutlastsItsReadings(StuckVenue(read), Some("7"), 2.0, 5.0, true, CrossReport(2.0, true));
  }

  // Nothing crossed and no source answers: nothing is filled, and the result names the order.
  lemma SilentCallIsNamed(guardRead: ReadAnswer, t: Ledger.Tables)
    ensures var call := StuckCall(0.0, ReadFailed, guardRead, t);
            LeftResting(call.position, call.s, call.order, t) == Some(Identified("7"))
  {
    var call := StuckCall(0.0, ReadFailed, guardRead, t);
    StuckCallPosts(0.0, ReadFailed, guardRead, t);
    StuckOrdersRest(0.0, ReadFailed);
    SilenceEstablishesNothing();
    hide SettleResult, ImpliedPrice, QuantizeSize, SellBlocked;
    assert ReadCross(call.s.post.resp, SellSide, 5.0) == Cross(0.0, 0.0, true);
    assert SellFill(call.position, call.s, call.order).Skipped?;
  }

  lemma SilenceEstablishesNothing()
    ensures SettleResult(StuckVenue(ReadFailed), Some("7"), 0.0, 5.0, true).qty == None
  {
    var venue := StuckVenue(ReadFailed);
    var known, all := Learn(venue, Some("7"), 0.0, 5.0, true).reports, Recorded(venue, Some("7"), 0.0, 5.0, true);
    hide CancelLoop, Answer;
    forall r | r in all ensures Counted(r, 5.0) == None {
      RecordedSources(venue, Some("7"), 0.0, 5.0, true, r);
    }
    assert all == known + [WalletReport(venue, 5.0)];
    AnswerIsBestEvidence(all, 5.0);
    AnswerIsBestEvidence(known, 5.0);
  }

  // The ledger refuses the partial fill: two SELLs go out while the first order rests, since the guard
  // was never told of it.
  lemma RefusedWriteAllowsASecondSell(t: Ledger.Tables)
    ensures var call := StuckCall(2.0, OrderDoc(Number(2.0), "LIVE"), ReadFailed, t);
            [PostedSell(0, 0.5, 5.0), LeftOrder(0, WriteFailed("7")),
             PostedSell(0, 0.5, 5.0)] <= Run([call, call]).trace
  {
    hide LeftResting, UnguardedSell, SellBlocked, QuantizeSize, Step, Run, ResolvedFill;
    var call := StuckCall(2.0, OrderDoc(Number(2.0), "LIVE"), ReadFailed, t);
    StuckCallIsForgotten(ReadFailed, t);
    StuckCallPosts(2.0, OrderDoc(Number(2.0), "LIVE"), ReadFailed, t);
    TwoCalls(call, call);
    AfterALeftOrder(Run([]), call);
    AfterALeftOrder(Step(Run([]), call), call);
  }

  lemma TwoCalls(first: Call, second: Call)
    ensures Run([]) == State(map[], Ledger.EmptyTables(), [])
    ensures Run([first, second]) == Step(Step(Run([]), first), second)
  {
    assert [first, second][..1] == [first] && [first][..0] == [];
  }

  // The guard holds the order, and its cancel is refused; a read that says LIVE with five million shares
  // matched of five lets the second SELL out.
  lemma OverreadAllowsASecondSell(t: Ledger.Tables) returns (order: RestingOrder)
    ensures var cancel, read := CancelBody(Some([]), NoRefusals), OrderDoc(Number(5000000.0), "LIVE");
            var call := StuckCall(0.0, ReadFailed, read, t);
            && order.orderId == "7" && order.size == 5.0
            && !ShowsOffBook(order, cancel, read) && IsOverread(read, order.size)
            && [PostedSell(0, 0.5, 5.0), LeftOrder(0, Identified("7")), NamedResting(0, "7"),
                Rechecked(0, order, cancel, read), PostedSell(0, 0.5, 5.0)] <= Run([call, call]).trace
  {
    hide LeftResting, UnguardedSell, SellBlocked, QuantizeSize, Run, ResolvedFill, GuardTerminal;
    var cancel, read := CancelBody(Some([]), NoRefusals), OrderDoc(Number(5000000.0), "LIVE");
    var call := StuckCall(0.0, ReadFailed, read, t);
    SilentCallIsNamed(read, t);
    StuckCallPosts(0.0, ReadFailed, read, t);
    TwoCalls(call, call);
    AfterALeftOrder(Run([]), call);
    var after := Step(Run([]), call);
    order := after.resting[0];
    GuardPassesExactly(order, cancel, read);
    var trace := after.trace + [Rechecked(0, order, cancel, read)];
    assert Step(after, call) == SellFrom(State(after.resting - {0}, t, trace), call.position, call.s, call.order).state;
    assert PostEvents(call.position, call.s, call.order, t)[0] == PostedSell(0, 0.5, 5.0);
  }
}
