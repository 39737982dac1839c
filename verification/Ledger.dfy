// openpoly/portfolio/store.py: the append-only fill log and the position rows written beside it.
module Ledger {
  import opened Common
  import opened Sizing

  datatype Side = Yes | No

  datatype Action = Buy | Sell

  datatype Status = Open | Closed

  // portfolio/models.py:20-28 lists seven literals, but the exit monitor passes whatever trigger its
  // section names ("peak_drawdown" is not among them) and the column is a plain string.
  type CloseReason = string

  // What a fill can be traced by: the news behind a buy, and the venue's order and transaction.
  datatype Refs = Refs(newsId: Option<string>, orderId: Option<string>, txHash: Option<string>)

  const NO_REFS: Refs := Refs(None, None, None)

  datatype Fill = Fill(ts: real, market: string, side: Side, action: Action, price: real, qty: real, fee: real,
                       positionId: nat, trigger: Option<string>, refs: Refs)

  // The analyzer's belief behind an entry; a hand-opened position has none.
  datatype Entry = Entry(pModel: Option<real>, confidence: Option<string>, edge: Option<real>,
                         rationale: Option<string>, newsDirection: Option<string>)

  // What an open writes on the row and on no fill: the token sells read their book by, the condition
  // settlements group rows by, and the belief outcomes are joined to.
  datatype Origin = Origin(token: string, conditionId: string, entry: Entry)

  datatype Row = Row(market: string, side: Side, qty: real, avgEntryPrice: real, status: Status, openedAt: real,
                     closedAt: Option<real>, closeReason: Option<CloseReason>, realizedPnl: Option<real>,
                     origin: Origin)

  // The two tables: fills in insertion order, rows by position id.
  datatype Tables = Tables(fills: seq<Fill>, rows: seq<Row>)

  function EmptyTables(): Tables { Tables([], []) }

  // ---------- the arithmetic of one leg ----------

  // What `qty` shares are worth at `price`.
  function Worth(price: real, qty: real): real { price * qty }

  // A fee spread over the shares it was paid for.
  function PerShare(fee: real, qty: real): real {
    if fee != 0.0 && qty != 0.0 then fee / qty else 0.0
  }

  // Profit of disposing of `qty` shares bought at `avg`: net of the disposal's fee and of the buy fee.
  function Gain(avg: real, buyFeePerShare: real, price: real, qty: real, fee: real): real {
    (price - avg) * qty - fee - buyFeePerShare * qty
  }

  // ---------- sums over one position's fills (the SQL aggregates) ----------

  predicate Counts(f: Fill, id: nat, action: Action) { f.positionId == id && f.action == action }

  function QtySum(fills: seq<Fill>, id: nat, action: Action): real {
    if fills == [] then 0.0
    else
      var last := fills[|fills| - 1];
      QtySum(fills[..|fills| - 1], id, action) + if Counts(last, id, action) then last.qty else 0.0
  }

  function NotionalSum(fills: seq<Fill>, id: nat, action: Action): real {
    if fills == [] then 0.0
    else
      var last := fills[|fills| - 1];
      NotionalSum(fills[..|fills| - 1], id, action)
      + if Counts(last, id, action) then Worth(last.price, last.qty) else 0.0
  }

  function FeeSum(fills: seq<Fill>, id: nat, action: Action): real {
    if fills == [] then 0.0
    else
      var last := fills[|fills| - 1];
      FeeSum(fills[..|fills| - 1], id, action) + if Counts(last, id, action) then last.fee else 0.0
  }

  // `_buy_fee_per_share`
  function BuyFeePerShare(fills: seq<Fill>, id: nat): real {
    PerShare(FeeSum(fills, id, Buy), QtySum(fills, id, Buy))
  }

  // `exit_prices` for one position
  function ExitPrice(fills: seq<Fill>, id: nat): Option<real> {
    var qty := QtySum(fills, id, Sell);
    if qty != 0.0 then Some(NotionalSum(fills, id, Sell) / qty) else None
  }

  // `buy_cost_basis` for one position
  function BuyCostBasis(fills: seq<Fill>, id: nat): real {
    NotionalSum(fills, id, Buy) + FeeSum(fills, id, Buy)
  }

  // `_realized_gain`
  function RealizedGain(fills: seq<Fill>, id: nat, row: Row, price: real, qty: real, fee: real): real {
    Gain(row.avgEntryPrice, BuyFeePerShare(fills, id), price, qty, fee)
  }

  // ---------- the three writes ----------

  // The pair of records one transaction writes for a sell, computed from the row it read.
  datatype Write = Write(fill: Fill, row: Row)

  datatype SellArgs = SellArgs(soldQty: real, price: real, ts: real, reason: CloseReason, trigger: Option<string>,
                               fee: real, orderId: Option<string>, txHash: Option<string>)

  // No sell is traced to news.
  function SellRefs(a: SellArgs): Refs { Refs(None, a.orderId, a.txHash) }

  function Accrued(row: Row, gain: real): Option<real> {
    Some((if row.realizedPnl.Some? then row.realizedPnl.value else 0.0) + gain)
  }

  // `record_sell`: cap at the row's quantity, and close the row when the residue is unsellable.
  function SellWrite(fills: seq<Fill>, id: nat, row: Row, a: SellArgs): Write {
    var sold := Min(a.soldQty, row.qty);
    var pnl := Accrued(row, RealizedGain(fills, id, row, a.price, sold, a.fee));
    var residual := row.qty - sold;
    Write(Fill(a.ts, row.market, row.side, Sell, a.price, sold, a.fee, id, a.trigger, SellRefs(a)),
          if residual < MIN_SELLABLE_QTY
          then row.(realizedPnl := pnl, qty := sold, status := Closed, closedAt := Some(a.ts),
                    closeReason := Some(a.reason))
          else row.(realizedPnl := pnl, qty := residual))
  }

  // `close_position`: the whole remaining quantity, without a fee.
  function CloseWrite(fills: seq<Fill>, id: nat, row: Row, a: SellArgs): Write {
    Write(Fill(a.ts, row.market, row.side, Sell, a.price, row.qty, 0.0, id, a.trigger, SellRefs(a)),
          row.(realizedPnl := Accrued(row, RealizedGain(fills, id, row, a.price, row.qty, 0.0)),
               status := Closed, closedAt := Some(a.ts), closeReason := Some(a.reason)))
  }

  function Commit(t: Tables, id: nat, w: Write): Tables
    requires id < |t.rows|
  {
    Tables(t.fills + [w.fill], t.rows[id := w.row])
  }

  datatype OpenArgs = OpenArgs(market: string, side: Side, price: real, qty: real, ts: real, fee: real, refs: Refs,
                               origin: Origin)

  // The partial unique index `ix_position_open_unique`.
  predicate HasOpenRow(t: Tables, market: string, side: Side) {
    exists i :: 0 <= i < |t.rows| && t.rows[i].market == market && t.rows[i].side == side && t.rows[i].status == Open
  }

  function Opened(t: Tables, a: OpenArgs): Tables {
    Tables(t.fills + [Fill(a.ts, a.market, a.side, Buy, a.price, a.qty, a.fee, |t.rows|, None, a.refs)],
           t.rows + [Row(a.market, a.side, a.qty, a.price, Open, a.ts, None, None, None, a.origin)])
  }

  predicate IsOpen(t: Tables, id: nat) {
    id < |t.rows| && t.rows[id].status == Open
  }

  // One call on the store. A call the store refuses leaves the tables as they are.
  datatype Op = OpenOp(open: OpenArgs) | SellOp(id: nat, sell: SellArgs) | CloseOp(id: nat, sell: SellArgs)

  function Apply(t: Tables, op: Op): Tables {
    match op
    case OpenOp(a) => if HasOpenRow(t, a.market, a.side) then t else Opened(t, a)
    case SellOp(id, a) => if IsOpen(t, id) then Commit(t, id, SellWrite(t.fills, id, t.rows[id], a)) else t
    case CloseOp(id, a) => if IsOpen(t, id) then Commit(t, id, CloseWrite(t.fills, id, t.rows[id], a)) else t
  }

  function Run(ops: seq<Op>): Tables {
    if ops == [] then EmptyTables() else Apply(Run(ops[..|ops| - 1]), ops[|ops| - 1])
  }

  class PortfolioStore {
    var fills: seq<Fill>
    var rows: seq<Row>

    ghost function View(): Tables
      reads this
    {
      Tables(fills, rows)
    }

    constructor ()
      ensures View() == EmptyTables()
    {
      fills, rows := [], [];
    }

    method OpenPosition(a: OpenArgs) returns (id: Result<nat>)
      modifies this
      ensures View() == Apply(old(View()), OpenOp(a))
      ensures id == if HasOpenRow(old(View()), a.market, a.side) then Err("IntegrityError") else Ok(|old(rows)|)
    {
      if exists i :: 0 <= i < |rows| && rows[i].market == a.market && rows[i].side == a.side && rows[i].status == Open {
        return Err("IntegrityError");
      }
      id := Ok(|rows|);
      var row := Row(a.market, a.side, a.qty, a.price, Open, a.ts, None, None, None, a.origin);
      fills := fills + [Fill(a.ts, a.market, a.side, Buy, a.price, a.qty, a.fee, |rows|, None, a.refs)];
      rows := rows + [row];
    }

    method RecordSell(id: nat, a: SellArgs) returns (row: Result<Row>)
      modifies this
      ensures View() == Apply(old(View()), SellOp(id, a))
      ensures row.Ok? <==> IsOpen(old(View()), id)
      ensures row.Ok? ==> row.value == View().rows[id]
    {
      if id >= |rows| {
        return Err("not found");
      }
      var pos := rows[id];
      if pos.status != Open {
        return Err("not open");
      }
      var sold := Min(a.soldQty, pos.qty);
      var gain := RealizedGain(fills, id, pos, a.price, sold, a.fee);
      fills := fills + [Fill(a.ts, pos.market, pos.side, Sell, a.price, sold, a.fee, id, a.trigger, SellRefs(a))];
      pos := pos.(realizedPnl := Accrued(pos, gain));
      var residual := pos.qty - sold;
      if residual < MIN_SELLABLE_QTY {
        pos := pos.(qty := sold, status := Closed, closedAt := Some(a.ts), closeReason := Some(a.reason));
      } else {
        pos := pos.(qty := residual);
      }
      rows := rows[id := pos];
      row := Ok(pos);
    }

    method ClosePosition(id: nat, a: SellArgs) returns (row: Result<Row>)
      modifies this
      ensures View() == Apply(old(View()), CloseOp(id, a))
      ensures row.Ok? <==> IsOpen(old(View()), id)
      ensures row.Ok? ==> row.value == View().rows[id]
    {
      if id >= |rows| {
        return Err("not found");
      }
      var pos := rows[id];
      if pos.status != Open {
        return Err("not open");
      }
      var gain := RealizedGain(fills, id, pos, a.price, pos.qty, 0.0);
      fills := fills + [Fill(a.ts, pos.market, pos.side, Sell, a.price, pos.qty, 0.0, id, a.trigger, SellRefs(a))];
      pos := pos.(realizedPnl := Accrued(pos, gain), status := Closed, closedAt := Some(a.ts),
                  closeReason := Some(a.reason));
      rows := rows[id := pos];
      row := Ok(pos);
    }
  }

  // ---------- folding fills ----------

  // What a position's fills alone say about it.
  datatype Folded = Folded(market: string, side: Side, bought: real, buyFee: real, price: real, openedAt: real,
                           qty: real, status: Status, closedAt: Option<real>, pnl: Option<real>)

  ghost function FoldFill(state: Option<Folded>, f: Fill): Option<Folded> {
    match f.action
    case Buy => Some(Folded(f.market, f.side, f.qty, f.fee, f.price, f.ts, f.qty, Open, None, None))
    case Sell =>
      if state == None then None
      else
        var s := state.value;
        var gain := Gain(s.price, PerShare(s.buyFee, s.bought), f.price, f.qty, f.fee);
        var pnl := Some((if s.pnl.Some? then s.pnl.value else 0.0) + gain);
        if s.qty - f.qty < MIN_SELLABLE_QTY
        then Some(s.(qty := f.qty, status := Closed, closedAt := Some(f.ts), pnl := pnl))
        else Some(s.(qty := s.qty - f.qty, pnl := pnl))
  }

  ghost function Fold(fills: seq<Fill>, id: nat): Option<Folded> {
    if fills == [] then None
    else
      var last := fills[|fills| - 1];
      var before := Fold(fills[..|fills| - 1], id);
      if last.positionId == id then FoldFill(before, last) else before
  }

  // The row says exactly what its fills fold to, in every column the fills carry.
  ghost predicate Projects(fills: seq<Fill>, id: nat, row: Row) {
    && Fold(fills, id) == Some(Folded(row.market, row.side, QtySum(fills, id, Buy), FeeSum(fills, id, Buy),
                                      row.avgEntryPrice, row.openedAt, row.qty, row.status, row.closedAt,
                                      row.realizedPnl))
    && NotionalSum(fills, id, Buy) == Worth(row.avgEntryPrice, QtySum(fills, id, Buy))
  }

  ghost function LastSell(fills: seq<Fill>, id: nat): Option<Fill> {
    if fills == [] then None
    else if Counts(fills[|fills| - 1], id, Sell) then Some(fills[|fills| - 1])
    else LastSell(fills[..|fills| - 1], id)
  }

  // What the fold amounts to: shares bought and sold against the row's quantity and closing.
  ghost predicate Balances(fills: seq<Fill>, id: nat, row: Row) {
    var bought, sold := QtySum(fills, id, Buy), QtySum(fills, id, Sell);
    && 0.0 <= bought - sold && bought > 0.0
    && (row.status == Open ==>
          && row.qty == bought - sold && row.closedAt == None && row.closeReason == None
          && (LastSell(fills, id) == None || bought - sold >= MIN_SELLABLE_QTY))
    && (row.status == Closed ==>
          && bought - sold < MIN_SELLABLE_QTY && LastSell(fills, id).Some?
          && row.qty == LastSell(fills, id).value.qty && row.closedAt == Some(LastSell(fills, id).value.ts)
          && row.closeReason.Some?)
    && (row.realizedPnl == None <==> LastSell(fills, id) == None)
  }

  // Realised profit, from the fills alone: proceeds less sell fees less the sold part of the cost.
  ghost predicate ProfitConserved(fills: seq<Fill>, id: nat, row: Row) {
    var bought, sold := QtySum(fills, id, Buy), QtySum(fills, id, Sell);
    bought > 0.0 ==>
      (if row.realizedPnl.Some? then row.realizedPnl.value else 0.0) ==
      NotionalSum(fills, id, Sell) - FeeSum(fills, id, Sell) - Worth(BuyCostBasis(fills, id), sold / bought)
  }

  ghost predicate Consistent(t: Tables) {
    && (forall i :: 0 <= i < |t.fills| ==> t.fills[i].positionId < |t.rows|)
    && (forall id: nat :: id < |t.rows| ==>
          Projects(t.fills, id, t.rows[id]) && Balances(t.fills, id, t.rows[id])
            && ProfitConserved(t.fills, id, t.rows[id]))
  }

  // ---------- every write keeps the tables consistent ----------

  // A fill of another position changes nothing this position's fills say.
  lemma ForeignFillIsInvisible(fills: seq<Fill>, id: nat, f: Fill)
    requires f.positionId != id
    ensures Fold(fills + [f], id) == Fold(fills, id) && LastSell(fills + [f], id) == LastSell(fills, id)
    ensures forall a :: QtySum(fills + [f], id, a) == QtySum(fills, id, a)
    ensures forall a :: NotionalSum(fills + [f], id, a) == NotionalSum(fills, id, a)
    ensures forall a :: FeeSum(fills + [f], id, a) == FeeSum(fills, id, a)
  {
    assert (fills + [f])[..|fills|] == fills;
  }

  // An id no fill mentions has no history.
  lemma {:induction false} UnknownIdHasNoFills(fills: seq<Fill>, id: nat)
    requires forall i :: 0 <= i < |fills| ==> fills[i].positionId != id
    ensures Fold(fills, id) == None && LastSell(fills, id) == None
    ensures forall a :: QtySum(fills, id, a) == 0.0 && NotionalSum(fills, id, a) == 0.0 && FeeSum(fills, id, a) == 0.0
  {
    if fills != [] {
      UnknownIdHasNoFills(fills[..|fills| - 1], id);
      forall a ensures QtySum(fills, id, a) == 0.0 && NotionalSum(fills, id, a) == 0.0 && FeeSum(fills, id, a) == 0.0 {
        assert !Counts(fills[|fills| - 1], id, a);
      }
    }
  }

  lemma OpenKeepsConsistent(t: Tables, a: OpenArgs)
    requires Consistent(t) && a.qty > 0.0
    ensures Consistent(Opened(t, a))
  {
    var t', id := Opened(t, a), |t.rows|;
    var f := t'.fills[|t.fills|];
    UnknownIdHasNoFills(t.fills, id);
    assert t'.fills[..|t.fills|] == t.fills;
    forall other: nat | other < |t'.rows|
      ensures Projects(t'.fills, other, t'.rows[other]) && Balances(t'.fills, other, t'.rows[other])
              && ProfitConserved(t'.fills, other, t'.rows[other])
    {
      if other < id {
        ForeignFillIsInvisible(t.fills, other, f);
      }
    }
  }

  lemma OwnFillAddsUp(fills: seq<Fill>, id: nat, f: Fill)
    requires f.positionId == id
    ensures Fold(fills + [f], id) == FoldFill(Fold(fills, id), f)
    ensures LastSell(fills + [f], id) == if f.action == Sell then Some(f) else LastSell(fills, id)
    ensures forall a :: QtySum(fills + [f], id, a) == QtySum(fills, id, a) + if f.action == a then f.qty else 0.0
    ensures forall a :: NotionalSum(fills + [f], id, a) ==
                        NotionalSum(fills, id, a) + if f.action == a then Worth(f.price, f.qty) else 0.0
    ensures forall a :: FeeSum(fills + [f], id, a) == FeeSum(fills, id, a) + if f.action == a then f.fee else 0.0
  {
    assert (fills + [f])[..|fills|] == fills;
  }

  // One more leg: the gain the code books is the leg's proceeds less its fee less its share of the cost.
  lemma ProfitOfOneLeg(sold: real, bought: real, avg: real, buyFee: real, price: real, qty: real, fee: real)
    requires bought > 0.0
    ensures var cost := Worth(avg, bought) + buyFee;
            Gain(avg, PerShare(buyFee, bought), price, qty, fee) ==
            Worth(price, qty) - fee - Worth(cost, (sold + qty) / bought) + Worth(cost, sold / bought)
  {
    var cost, part := avg * bought + buyFee, qty / bought;
    assert (sold + qty) / bought == sold / bought + part;
    assert cost * (sold / bought + part) == cost * (sold / bought) + cost * part;
    assert qty == part * bought;
    assert cost * part == avg * qty + buyFee * part;
    assert PerShare(buyFee, bought) * qty == buyFee * part by {
      assert PerShare(buyFee, bought) == buyFee / bought;
    }
  }

  ghost predicate IsSellWrite(t: Tables, id: nat, a: SellArgs, w: Write)
    requires IsOpen(t, id)
  {
    w == SellWrite(t.fills, id, t.rows[id], a) || w == CloseWrite(t.fills, id, t.rows[id], a)
  }

  lemma SellKeepsProfit(t: Tables, id: nat, a: SellArgs, w: Write)
    requires Consistent(t) && IsOpen(t, id) && IsSellWrite(t, id, a, w)
    ensures ProfitConserved(t.fills + [w.fill], id, w.row)
  {
    hide Worth, Gain, PerShare;
    var row, f := t.rows[id], w.fill;
    assert Projects(t.fills, id, row) && Balances(t.fills, id, row) && ProfitConserved(t.fills, id, row);
    OwnFillAddsUp(t.fills, id, f);
    ProfitOfOneLeg(QtySum(t.fills, id, Sell), QtySum(t.fills, id, Buy), row.avgEntryPrice, FeeSum(t.fills, id, Buy),
                   f.price, f.qty, f.fee);
  }

  lemma SellKeepsBalance(t: Tables, id: nat, a: SellArgs, w: Write)
    requires Consistent(t) && IsOpen(t, id) && IsSellWrite(t, id, a, w)
    ensures Projects(t.fills + [w.fill], id, w.row) && Balances(t.fills + [w.fill], id, w.row)
  {
    hide Worth, Gain, PerShare;
    OwnFillAddsUp(t.fills, id, w.fill);
    assert Projects(t.fills, id, t.rows[id]) && Balances(t.fills, id, t.rows[id]);
  }

  lemma SellKeepsConsistent(t: Tables, id: nat, a: SellArgs, w: Write)
    requires Consistent(t) && IsOpen(t, id) && IsSellWrite(t, id, a, w)
    ensures Consistent(Commit(t, id, w))
  {
    var t' := Commit(t, id, w);
    hide Projects, Balances, ProfitConserved, SellWrite, CloseWrite;
    forall other: nat | other < |t'.rows|
      ensures Projects(t'.fills, other, t'.rows[other]) && Balances(t'.fills, other, t'.rows[other])
              && ProfitConserved(t'.fills, other, t'.rows[other])
    {
      if other == id {
        SellKeepsBalance(t, id, a, w);
        SellKeepsProfit(t, id, a, w);
      } else {
        ForeignFillKeepsRow(t.fills, other, w.fill, t.rows[other]);
      }
    }
    assert w.fill.positionId == id by { SellWriteIsForId(t, id, a, w); }
  }

  lemma SellWriteIsForId(t: Tables, id: nat, a: SellArgs, w: Write)
    requires IsOpen(t, id) && IsSellWrite(t, id, a, w)
    ensures w.fill.positionId == id && w.fill.action == Sell
  {}

  lemma ForeignFillKeepsRow(fills: seq<Fill>, id: nat, f: Fill, row: Row)
    requires f.positionId != id && Projects(fills, id, row) && Balances(fills, id, row)
             && ProfitConserved(fills, id, row)
    ensures Projects(fills + [f], id, row) && Balances(fills + [f], id, row) && ProfitConserved(fills + [f], id, row)
  {
    ForeignFillIsInvisible(fills, id, f);
  }

  // ---------- over every run ----------

  // At most one open row per market and side.
  ghost predicate OneOpenPerSide(t: Tables) {
    forall i, j :: 0 <= i < j < |t.rows| && t.rows[i].status == Open && t.rows[j].status == Open ==>
      t.rows[i].market != t.rows[j].market || t.rows[i].side != t.rows[j].side
  }

  // Both executors buy at least one share, so a bought quantity is positive.
  ghost predicate BuysShares(op: Op) {
    op.OpenOp? ==> op.open.qty > 0.0
  }

  lemma ApplyKeepsConsistent(t: Tables, op: Op)
    requires Consistent(t) && OneOpenPerSide(t) && BuysShares(op)
    ensures Consistent(Apply(t, op)) && OneOpenPerSide(Apply(t, op))
  {
    match op
    case OpenOp(a) => if !HasOpenRow(t, a.market, a.side) { OpenKeepsConsistent(t, a); }
    case SellOp(id, a) => if IsOpen(t, id) { SellKeepsConsistent(t, id, a, SellWrite(t.fills, id, t.rows[id], a)); }
    case CloseOp(id, a) => if IsOpen(t, id) { SellKeepsConsistent(t, id, a, CloseWrite(t.fills, id, t.rows[id], a)); }
  }

  // After any sequence of opens, partial sells and closes: every row is the fold of its fills, its
  // quantity and closing balance with them, and its profit is what they conserve.
  lemma {:induction false} EveryRunIsConsistent(ops: seq<Op>)
    requires forall i :: 0 <= i < |ops| ==> BuysShares(ops[i])
    ensures Consistent(Run(ops)) && OneOpenPerSide(Run(ops))
  {
    if ops != [] {
      EveryRunIsConsistent(ops[..|ops| - 1]);
      ApplyKeepsConsistent(Run(ops[..|ops| - 1]), ops[|ops| - 1]);
    }
  }

  // ---------- what one call writes ----------

  // An accepted sell of some shares at a price: the log grows by one fill of what was sold, no more than
  // the row held, and the row stays open with the rest exactly while the rest is at least 0.01.
  lemma SellWritesWhatWasSold(t: Tables, id: nat, a: SellArgs)
    requires IsOpen(t, id)
    ensures var t', row := Apply(t, SellOp(id, a)), t.rows[id];
            var sold := if a.soldQty <= row.qty then a.soldQty else row.qty;
            && t'.fills == t.fills + [Fill(a.ts, row.market, row.side, Sell, a.price, sold, a.fee, id, a.trigger,
                                           Refs(None, a.orderId, a.txHash))]
            && |t'.rows| == |t.rows| && (forall i :: 0 <= i < |t.rows| && i != id ==> t'.rows[i] == t.rows[i])
            && SoldFrom(t.fills, id, row, t'.rows[id], sold, a.price, a.fee)
            && (t'.rows[id].status == Open <==> row.qty - sold >= 0.01)
            && (if row.qty - sold >= 0.01
                then t'.rows[id].qty == row.qty - sold && t'.rows[id].closedAt == row.closedAt
                     && t'.rows[id].closeReason == row.closeReason
                else t'.rows[id].qty == sold && t'.rows[id].closedAt == Some(a.ts)
                     && t'.rows[id].closeReason == Some(a.reason))
  {
    hide RealizedGain, LegProfit, FeeSum, QtySum;
    var sold := if a.soldQty <= t.rows[id].qty then a.soldQty else t.rows[id].qty;
    GainIsTheLegsProfit(t.fills, id, t.rows[id], sold, a.price, a.fee);
  }

  // What a sell leaves of a row besides: its identity, and its profit raised by the proceeds less the
  // fee, the entry cost and the buy fee's share.
  ghost predicate SoldFrom(fills: seq<Fill>, id: nat, row: Row, after: Row, sold: real, price: real, fee: real) {
    && after.market == row.market && after.side == row.side && after.avgEntryPrice == row.avgEntryPrice
    && after.openedAt == row.openedAt && after.origin == row.origin
    && after.realizedPnl ==
       Some((if row.realizedPnl.Some? then row.realizedPnl.value else 0.0)
            + LegProfit(row.avgEntryPrice, FeeSum(fills, id, Buy), QtySum(fills, id, Buy), price, sold, fee))
  }

  // Profit of `sold` shares of `bought`, after the sell's own fee and a share of the buy fee.
  ghost function LegProfit(avg: real, buyFee: real, bought: real, price: real, sold: real, fee: real): real {
    var feeShare := if buyFee != 0.0 && bought != 0.0 then buyFee / bought else 0.0;
    price * sold - avg * sold - fee - feeShare * sold
  }

  lemma GainIsTheLegsProfit(fills: seq<Fill>, id: nat, row: Row, sold: real, price: real, fee: real)
    ensures RealizedGain(fills, id, row, price, sold, fee) ==
            LegProfit(row.avgEntryPrice, FeeSum(fills, id, Buy), QtySum(fills, id, Buy), price, sold, fee)
  {
    assert (price - row.avgEntryPrice) * sold == price * sold - row.avgEntryPrice * sold;
  }

  // A direct close sells the whole row, without a fee.
  lemma CloseWritesTheWholeRow(t: Tables, id: nat, a: SellArgs)
    requires IsOpen(t, id)
    ensures var t', row := Apply(t, CloseOp(id, a)), t.rows[id];
            && t'.fills == t.fills + [Fill(a.ts, row.market, row.side, Sell, a.price, row.qty, 0.0, id, a.trigger,
                                           Refs(None, a.orderId, a.txHash))]
            && |t'.rows| == |t.rows| && (forall i :: 0 <= i < |t.rows| && i != id ==> t'.rows[i] == t.rows[i])
            && SoldFrom(t.fills, id, row, t'.rows[id], row.qty, a.price, 0.0)
            && t'.rows[id].status == Closed && t'.rows[id].qty == row.qty
            && t'.rows[id].closedAt == Some(a.ts) && t'.rows[id].closeReason == Some(a.reason)
  {
    hide RealizedGain, LegProfit, FeeSum, QtySum;
    GainIsTheLegsProfit(t.fills, id, t.rows[id], t.rows[id].qty, a.price, 0.0);
  }

  // A buy opens exactly one row of what was bought, beside its fill, exactly when no row of the market
  // and side is open; and a call on a row that is not open changes nothing.
  lemma OpenWritesWhatWasBought(t: Tables, a: OpenArgs)
    ensures var t' := Apply(t, OpenOp(a));
            if exists i :: 0 <= i < |t.rows| && t.rows[i].market == a.market && t.rows[i].side == a.side
                           && t.rows[i].status == Open
            then t' == t
            else && t'.fills == t.fills + [Fill(a.ts, a.market, a.side, Buy, a.price, a.qty, a.fee,
                                                |t.rows|, None, a.refs)]
                 && t'.rows == t.rows + [Row(a.market, a.side, a.qty, a.price, Open, a.ts, None, None, None, a.origin)]
    ensures forall id: nat, sell :: !(id < |t.rows| && t.rows[id].status == Open) ==>
              Apply(t, SellOp(id, sell)) == t && Apply(t, CloseOp(id, sell)) == t
  {}

  // What a sequence of calls sold of one row: shares, proceeds and fees of the calls that found it open.
  datatype Totals = Totals(shares: real, proceeds: real, fees: real)

  ghost function SoldBy(t: Tables, op: Op, id: nat): Totals {
    if !(id < |t.rows| && t.rows[id].status == Open) then Totals(0.0, 0.0, 0.0)
    else
      match op
      case OpenOp(_) => Totals(0.0, 0.0, 0.0)
      case SellOp(i, a) =>
        var sold := if a.soldQty <= t.rows[id].qty then a.soldQty else t.rows[id].qty;
        if i == id then Totals(sold, a.price * sold, a.fee) else Totals(0.0, 0.0, 0.0)
      case CloseOp(i, a) =>
        if i == id then Totals(t.rows[id].qty, a.price * t.rows[id].qty, 0.0) else Totals(0.0, 0.0, 0.0)
  }

  ghost function TotalsOf(ops: seq<Op>, id: nat): Totals {
    if ops == [] then Totals(0.0, 0.0, 0.0)
    else
      var before := TotalsOf(ops[..|ops| - 1], id);
      var last := SoldBy(Run(ops[..|ops| - 1]), ops[|ops| - 1], id);
      Totals(before.shares + last.shares, before.proceeds + last.proceeds, before.fees + last.fees)
  }

  // What one call adds to them.
  lemma CallAddsUp(t: Tables, op: Op, id: nat)
    ensures var t' := Apply(t, op);
            var sold := SoldBy(t, op, id);
            && QtySum(t'.fills, id, Sell) == QtySum(t.fills, id, Sell) + sold.shares
            && NotionalSum(t'.fills, id, Sell) == NotionalSum(t.fills, id, Sell) + sold.proceeds
            && FeeSum(t'.fills, id, Sell) == FeeSum(t.fills, id, Sell) + sold.fees
  {
    hide RealizedGain, QtySum, NotionalSum, FeeSum, HasOpenRow, Accrued;
    var t' := Apply(t, op);
    if t' != t {
      var f := t'.fills[|t.fills|];
      assert t'.fills == t.fills + [f];
      if f.positionId == id { OwnFillAddsUp(t.fills, id, f); } else { ForeignFillIsInvisible(t.fills, id, f); }
    }
  }

  // Over any run the log holds of each row exactly what its accepted calls sold, for what they sold it.
  lemma {:induction false} LogHoldsWhatWasSold(ops: seq<Op>, id: nat)
    ensures var fills := Run(ops).fills;
            TotalsOf(ops, id) == Totals(QtySum(fills, id, Sell), NotionalSum(fills, id, Sell), FeeSum(fills, id, Sell))
  {
    hide SoldBy, Apply;
    if ops != [] {
      LogHoldsWhatWasSold(ops[..|ops| - 1], id);
      CallAddsUp(Run(ops[..|ops| - 1]), ops[|ops| - 1], id);
    }
  }

  // ---------- rebuilding the rows ----------

  // The columns of a row that its fills carry: all but the close reason and the origin.
  function OnFills(row: Row): Row {
    row.(closeReason := None, origin := Origin("", "", Entry(None, None, None, None, None)))
  }

  // Those columns are a projection: equal fills mean equal rows in all of them.
  lemma FillsDetermineRows(t: Tables, t': Tables)
    requires Consistent(t) && Consistent(t') && t.fills == t'.fills
    ensures |t.rows| == |t'.rows|
    ensures forall id: nat :: id < |t.rows| ==> OnFills(t.rows[id]) == OnFills(t'.rows[id])
  {
    SameFillsNoMoreRows(t, t');
    SameFillsNoMoreRows(t', t);
    forall id: nat | id < |t.rows|
      ensures OnFills(t.rows[id]) == OnFills(t'.rows[id])
    {
      assert Projects(t.fills, id, t.rows[id]) && Projects(t.fills, id, t'.rows[id]);
    }
  }

  lemma SameFillsNoMoreRows(t: Tables, t': Tables)
    requires Consistent(t) && Consistent(t') && t.fills == t'.fills
    ensures |t.rows| <= |t'.rows|
  {
    if t.rows != [] {
      var i := RowHasAFill(t, |t.rows| - 1);
    }
  }

  lemma RowHasAFill(t: Tables, id: nat) returns (i: nat)
    requires Consistent(t) && id < |t.rows|
    ensures i < |t.fills| && t.fills[i].positionId == id
  {
    assert Projects(t.fills, id, t.rows[id]);
    if forall i :: 0 <= i < |t.fills| ==> t.fills[i].positionId != id {
      UnknownIdHasNoFills(t.fills, id);
    }
    i :| 0 <= i < |t.fills| && t.fills[i].positionId == id;
  }

  // One call with what no fill carries taken out of it.
  function Stripped(op: Op): Op {
    match op
    case OpenOp(a) => OpenOp(a.(origin := Origin("", "", Entry(None, None, None, None, None))))
    case SellOp(id, a) => SellOp(id, a.(reason := ""))
    case CloseOp(id, a) => CloseOp(id, a.(reason := ""))
  }

  ghost predicate SameButForStripped(ops: seq<Op>, ops': seq<Op>) {
    |ops| == |ops'| && forall i :: 0 <= i < |ops| ==> Stripped(ops[i]) == Stripped(ops'[i])
  }

  // And no other column is: whatever origins and close reasons a run of calls names, it leaves the
  // same fills, and rows equal in the columns the fills carry.
  lemma {:induction false} FillsForgetOriginsAndReasons(ops: seq<Op>, ops': seq<Op>)
    requires SameButForStripped(ops, ops')
    ensures Run(ops).fills == Run(ops').fills && |Run(ops).rows| == |Run(ops').rows|
    ensures forall id :: 0 <= id < |Run(ops).rows| ==> OnFills(Run(ops).rows[id]) == OnFills(Run(ops').rows[id])
  {
    if ops != [] {
      var n := |ops| - 1;
      FillsForgetOriginsAndReasons(ops[..n], ops'[..n]);
      SameStep(Run(ops[..n]), Run(ops'[..n]), ops[n], ops'[n]);
    }
  }

  lemma SameStep(t: Tables, t': Tables, op: Op, op': Op)
    requires t.fills == t'.fills && |t.rows| == |t'.rows| && Stripped(op) == Stripped(op')
    requires forall id :: 0 <= id < |t.rows| ==> OnFills(t.rows[id]) == OnFills(t'.rows[id])
    ensures Apply(t, op).fills == Apply(t', op').fills && |Apply(t, op).rows| == |Apply(t', op').rows|
    ensures forall id :: 0 <= id < |Apply(t, op).rows| ==>
                OnFills(Apply(t, op).rows[id]) == OnFills(Apply(t', op').rows[id])
  {
    match op
    case OpenOp(a) =>
      SameIndex(t, t', a.market, a.side);
      SameIndex(t', t, a.market, a.side);
    case _ =>
      if op.id < |t.rows| {
        assert OnFills(t.rows[op.id]) == OnFills(t'.rows[op.id]);
      }
  }

  lemma SameIndex(t: Tables, t': Tables, market: string, side: Side)
    requires |t.rows| == |t'.rows| && forall id :: 0 <= id < |t.rows| ==> OnFills(t.rows[id]) == OnFills(t'.rows[id])
    ensures HasOpenRow(t, market, side) ==> HasOpenRow(t', market, side)
  {
    if HasOpenRow(t, market, side) {
      var i :| 0 <= i < |t.rows| && t.rows[i].market == market && t.rows[i].side == side && t.rows[i].status == Open;
      assert OnFills(t.rows[i]) == OnFills(t'.rows[i]);
    }
  }

  // ---------- when the rest can be rebuilt too ----------

  // Which triggers a family of sellers passes beside which close reasons, and what a family of buyers
  // opens.
  type Stamps = iset<(Option<string>, CloseReason)>

  type Opens = iset<OpenArgs>

  ghost predicate Uses(op: Op, opens: Opens, stamps: Stamps) {
    if op.OpenOp? then op.open in opens && BuysShares(op) else (op.sell.trigger, op.sell.reason) in stamps
  }

  ghost predicate UsesOnly(ops: seq<Op>, opens: Opens, stamps: Stamps) {
    forall i :: 0 <= i < |ops| ==> Uses(ops[i], opens, stamps)
  }

  ghost function BuyRefs(fills: seq<Fill>, id: nat): Refs {
    if fills == [] then NO_REFS
    else if Counts(fills[|fills| - 1], id, Buy) then fills[|fills| - 1].refs
    else BuyRefs(fills[..|fills| - 1], id)
  }

  // The row was opened by `a`.
  ghost predicate OpenedBy(fills: seq<Fill>, id: nat, row: Row, a: OpenArgs) {
    a == OpenArgs(row.market, row.side, row.avgEntryPrice, QtySum(fills, id, Buy), row.openedAt, FeeSum(fills, id, Buy),
                  BuyRefs(fills, id), row.origin)
  }

  ghost predicate HasOpener(t: Tables, id: nat, opens: Opens)
    requires id < |t.rows|
  {
    exists a :: a in opens && OpenedBy(t.fills, id, t.rows[id], a)
  }

  ghost predicate ReasonIsStamped(t: Tables, id: nat, stamps: Stamps)
    requires id < |t.rows|
  {
    t.rows[id].status == Closed ==>
      && LastSell(t.fills, id).Some? && t.rows[id].closeReason.Some?
      && (LastSell(t.fills, id).value.trigger, t.rows[id].closeReason.value) in stamps
  }

  ghost predicate IsAccounted(t: Tables, opens: Opens, stamps: Stamps) {
    forall id: nat :: id < |t.rows| ==> HasOpener(t, id, opens) && ReasonIsStamped(t, id, stamps)
  }

  lemma OneStepAccounts(t: Tables, op: Op, opens: Opens, stamps: Stamps)
    requires Consistent(t) && IsAccounted(t, opens, stamps) && Uses(op, opens, stamps)
    ensures IsAccounted(Apply(t, op), opens, stamps)
  {
    var t' := Apply(t, op);
    if t' != t {
      var f := t'.fills[|t.fills|];
      assert t'.fills == t.fills + [f] && (t.fills + [f])[..|t.fills|] == t.fills;
      forall id: nat | id < |t'.rows| ensures HasOpener(t', id, opens) && ReasonIsStamped(t', id, stamps) {
        if id < |t.rows| {
          assert HasOpener(t, id, opens) && ReasonIsStamped(t, id, stamps);
          var a :| a in opens && OpenedBy(t.fills, id, t.rows[id], a);
          if f.positionId == id { OwnFillAddsUp(t.fills, id, f); } else { ForeignFillIsInvisible(t.fills, id, f); }
          assert OpenedBy(t'.fills, id, t'.rows[id], a);
        } else {
          UnknownIdHasNoFills(t.fills, id);
          OwnFillAddsUp(t.fills, id, f);
          assert OpenedBy(t'.fills, id, t'.rows[id], op.open);
        }
      }
    }
  }

  lemma {:induction false} RunsAreAccounted(ops: seq<Op>, opens: Opens, stamps: Stamps)
    requires UsesOnly(ops, opens, stamps)
    ensures IsAccounted(Run(ops), opens, stamps) && Consistent(Run(ops))
  {
    EveryRunIsConsistent(ops);
    if ops != [] {
      RunsAreAccounted(ops[..|ops| - 1], opens, stamps);
      OneStepAccounts(Run(ops[..|ops| - 1]), ops[|ops| - 1], opens, stamps);
    }
  }

  // Two runs of these buyers and sellers that left the same fills.
  ghost predicate LeaveEqualFills(ops: seq<Op>, ops': seq<Op>, opens: Opens, stamps: Stamps) {
    UsesOnly(ops, opens, stamps) && UsesOnly(ops', opens, stamps) && Run(ops).fills == Run(ops').fills
  }

  // The close-reason column can be rebuilt from the fills, whoever opens positions.
  ghost predicate ReasonsRebuildable(stamps: Stamps) {
    forall ops, ops', opens, id: nat {:trigger LeaveEqualFills(ops, ops', opens, stamps), Run(ops).rows[id]} ::
      LeaveEqualFills(ops, ops', opens, stamps) && id < |Run(ops).rows| && id < |Run(ops').rows| ==>
        Run(ops).rows[id].closeReason == Run(ops').rows[id].closeReason
  }

  // The whole rows can: no two runs leave the same fills beside different rows.
  ghost predicate RowsRebuildable(opens: Opens, stamps: Stamps) {
    forall ops, ops' :: LeaveEqualFills(ops, ops', opens, stamps) ==> Run(ops).rows == Run(ops').rows
  }

  // No trigger stands beside two close reasons.
  ghost predicate TriggersNameReasons(stamps: Stamps) {
    forall s, s' :: s in stamps && s' in stamps && s.0 == s'.0 ==> s == s'
  }

  // No two opens of shares agree on everything a fill carries and differ in their origin.
  ghost predicate FillsNameOrigins(opens: Opens) {
    forall a, a' :: a in opens && a' in opens && a.qty > 0.0 && a.(origin := a'.origin) == a' ==> a == a'
  }

  ghost predicate BuysAnything(opens: Opens) { exists a :: a in opens && a.qty > 0.0 }

  lemma NamedReasonsRebuild(stamps: Stamps, opens: Opens, ops: seq<Op>, ops': seq<Op>, id: nat)
    requires TriggersNameReasons(stamps) && LeaveEqualFills(ops, ops', opens, stamps)
    requires id < |Run(ops).rows| && id < |Run(ops').rows|
    ensures Run(ops).rows[id].closeReason == Run(ops').rows[id].closeReason
  {
    var t, t' := Run(ops), Run(ops');
    RunsAreAccounted(ops, opens, stamps);
    RunsAreAccounted(ops', opens, stamps);
    FillsDetermineRows(t, t');
    assert OnFills(t.rows[id]) == OnFills(t'.rows[id]);
    assert ReasonIsStamped(t, id, stamps) && ReasonIsStamped(t', id, stamps);
    assert Balances(t.fills, id, t.rows[id]) && Balances(t.fills, id, t'.rows[id]);
  }

  lemma NamedOriginsRebuild(stamps: Stamps, opens: Opens, ops: seq<Op>, ops': seq<Op>, id: nat)
    requires FillsNameOrigins(opens) && LeaveEqualFills(ops, ops', opens, stamps)
    requires id < |Run(ops).rows| && id < |Run(ops').rows|
    ensures Run(ops).rows[id].origin == Run(ops').rows[id].origin
  {
    var t, t' := Run(ops), Run(ops');
    RunsAreAccounted(ops, opens, stamps);
    RunsAreAccounted(ops', opens, stamps);
    FillsDetermineRows(t, t');
    assert OnFills(t.rows[id]) == OnFills(t'.rows[id]);
    assert HasOpener(t, id, opens) && HasOpener(t', id, opens);
    var a :| a in opens && OpenedBy(t.fills, id, t.rows[id], a);
    var a' :| a' in opens && OpenedBy(t'.fills, id, t'.rows[id], a');
    assert Balances(t.fills, id, t.rows[id]);
    assert a.(origin := a'.origin) == a';
  }

  // Two reasons behind one trigger leave the same fills beside different rows, whatever was opened.
  lemma SharedTriggerLosesTheReason(open: OpenArgs, trigger: Option<string>, reason: CloseReason, reason': CloseReason)
    returns (ops: seq<Op>, ops': seq<Op>)
    requires reason != reason' && open.qty > 0.0
    ensures UsesOnly(ops, iset{open}, iset{(trigger, reason)}) && UsesOnly(ops', iset{open}, iset{(trigger, reason')})
    ensures Run(ops).fills == Run(ops').fills && |Run(ops).rows| == |Run(ops').rows| == 1
    ensures Run(ops).rows[0].closeReason == Some(reason) && Run(ops').rows[0].closeReason == Some(reason')
  {
    var sell := SellArgs(open.qty, 0.5, open.ts, reason, trigger, 0.0, None, None);
    ops, ops' := [OpenOp(open), SellOp(0, sell)], [OpenOp(open), SellOp(0, sell.(reason := reason'))];
    OneOpen(open);
    assert ops[..1] == [OpenOp(open)] == ops'[..1];
  }

  lemma OneOpen(open: OpenArgs)
    ensures Run([OpenOp(open)]) == Opened(EmptyTables(), open)
  {
    assert [OpenOp(open)][..0] == [];
  }

  // The close reason can be rebuilt from the fills exactly when no trigger is shared by two reasons:
  // the store records the reason on the row only, whatever trigger the fill carries.
  lemma ReasonsRebuildIffTriggersNameThem(stamps: Stamps)
    ensures ReasonsRebuildable(stamps) <==> TriggersNameReasons(stamps)
  {
    if TriggersNameReasons(stamps) {
      forall ops, ops', opens, id: nat {:trigger LeaveEqualFills(ops, ops', opens, stamps), Run(ops).rows[id]} |
        LeaveEqualFills(ops, ops', opens, stamps) && id < |Run(ops).rows| && id < |Run(ops').rows|
        ensures Run(ops).rows[id].closeReason == Run(ops').rows[id].closeReason
      {
        NamedReasonsRebuild(stamps, opens, ops, ops', id);
      }
    } else {
      var s, s' :| s in stamps && s' in stamps && s.0 == s'.0 && s != s';
      var open := OpenArgs("m", Yes, 0.5, 2.0, 1.0, 0.0, NO_REFS,
                           Origin("t", "c", Entry(None, None, None, None, None)));
      var ops, ops' := SharedTriggerLosesTheReason(open, s.0, s.1, s'.1);
      assert LeaveEqualFills(ops, ops', iset{open}, stamps);
      assert Run(ops).rows[0].closeReason != Run(ops').rows[0].closeReason;
    }
  }

  // Folding fills rebuilds whole rows exactly when, besides, no two opens agree on all a fill carries:
  // one trigger per reason alone is not enough, since token, condition and belief are on no fill.
  lemma RowsRebuildIffFillsNameTheRest(opens: Opens, stamps: Stamps)
    ensures RowsRebuildable(opens, stamps) <==>
            FillsNameOrigins(opens) && (BuysAnything(opens) ==> TriggersNameReasons(stamps))
  {
    if FillsNameOrigins(opens) && (BuysAnything(opens) ==> TriggersNameReasons(stamps)) {
      forall ops, ops' | LeaveEqualFills(ops, ops', opens, stamps) ensures Run(ops).rows == Run(ops').rows {
        NamedRestRebuilds(opens, stamps, ops, ops');
      }
    } else if !FillsNameOrigins(opens) {
      var a, a' :| a in opens && a' in opens && a.qty > 0.0 && a.(origin := a'.origin) == a' && a != a';
      TwoOriginsBreak(opens, stamps, a, a');
    } else {
      var s, s' :| s in stamps && s' in stamps && s.0 == s'.0 && s != s';
      var open :| open in opens && open.qty > 0.0;
      hide Run;
      var ops, ops' := SharedTriggerLosesTheReason(open, s.0, s.1, s'.1);
      assert LeaveEqualFills(ops, ops', opens, stamps);
      assert Run(ops).rows[0].closeReason != Run(ops').rows[0].closeReason;
    }
  }

  lemma TwoOriginsBreak(opens: Opens, stamps: Stamps, a: OpenArgs, a': OpenArgs)
    requires a in opens && a' in opens && a.qty > 0.0 && a.(origin := a'.origin) == a' && a != a'
    ensures !RowsRebuildable(opens, stamps)
  {
    OneOpen(a);
    OneOpen(a');
    hide Run;
    assert LeaveEqualFills([OpenOp(a)], [OpenOp(a')], opens, stamps);
    assert Run([OpenOp(a)]).rows[0].origin != Run([OpenOp(a')]).rows[0].origin;
  }

  lemma NamedRestRebuilds(opens: Opens, stamps: Stamps, ops: seq<Op>, ops': seq<Op>)
    requires FillsNameOrigins(opens) && (BuysAnything(opens) ==> TriggersNameReasons(stamps))
    requires LeaveEqualFills(ops, ops', opens, stamps)
    ensures Run(ops).rows == Run(ops').rows
  {
    var t, t' := Run(ops), Run(ops');
    RunsAreAccounted(ops, opens, stamps);
    RunsAreAccounted(ops', opens, stamps);
    FillsDetermineRows(t, t');
    forall id: nat | id < |t.rows| ensures t.rows[id] == t'.rows[id] {
      assert OnFills(t.rows[id]) == OnFills(t'.rows[id]);
      assert HasOpener(t, id, opens);
      var a :| a in opens && OpenedBy(t.fills, id, t.rows[id], a);
      assert Balances(t.fills, id, t.rows[id]);
      assert BuysAnything(opens);
      NamedReasonsRebuild(stamps, opens, ops, ops', id);
      NamedOriginsRebuild(stamps, opens, ops, ops', id);
    }
  }

  // The whole row is not rebuildable for the repository's buyers: two entries that differ in the
  // model's probability alone leave the same fill.
  lemma BeliefsAreOnNoFill()
    ensures var open := OpenArgs("m", Yes, 0.5, 2.0, 1.0, 0.0, NO_REFS,
                                 Origin("t", "c", Entry(Some(0.7), None, None, None, None)));
            var other := open.(origin := open.origin.(entry := open.origin.entry.(pModel := Some(0.9))));
            Run([OpenOp(open)]).fills == Run([OpenOp(other)]).fills
              && Run([OpenOp(open)]).rows != Run([OpenOp(other)]).rows
  {
    var open := OpenArgs("m", Yes, 0.5, 2.0, 1.0, 0.0, NO_REFS,
                         Origin("t", "c", Entry(Some(0.7), None, None, None, None)));
    var other := open.(origin := open.origin.(entry := open.origin.entry.(pModel := Some(0.9))));
    OneOpen(open);
    OneOpen(other);
    assert Run([OpenOp(open)]).rows[0].origin != Run([OpenOp(other)]).rows[0].origin;
  }

  // What the repository's own sellers pass: the manual routes no trigger beside "manual", the exit
  // monitor, the settlement and the reconciliation sweeps the same string as trigger and as reason.
  ghost predicate AreSellers(stamps: Stamps) {
    forall s :: s in stamps ==> s == (None, "manual") || s.0 == Some(s.1)
  }

  // For them the close reason is rebuildable, whatever triggers an exit section names.
  lemma SellersReasonsRebuild(stamps: Stamps)
    requires AreSellers(stamps)
    ensures ReasonsRebuildable(stamps)
  {
    ReasonsRebuildIffTriggersNameThem(stamps);
  }

  // The close reasons portfolio/models.py:20-28 lists.
  const LISTED_REASONS: set<CloseReason> :=
    {"take_profit", "stop_loss", "max_hold", "settlement", "kill_switch", "manual", "reconciled"}

  // The monitor's sell of a whole row on a trigger outside the list leaves that trigger as the row's
  // close reason.
  lemma UnlistedReasonsAreStored(open: OpenArgs, trigger: string) returns (ops: seq<Op>)
    requires open.qty > 0.0
    ensures UsesOnly(ops, iset{open}, iset{(Some(trigger), trigger)})
    ensures |Run(ops).rows| == 1 && Run(ops).rows[0].closeReason == Some(trigger)
    ensures "peak_drawdown" !in LISTED_REASONS
  {
    var other;
    ops, other := SharedTriggerLosesTheReason(open, Some(trigger), trigger, trigger + "!");
    assert |"peak_drawdown"| == 13;
  }

  // ---------- splitting an exit ----------

  // Sell proceeds are the reported exit price times the shares sold.
  lemma ProceedsAreExitPriceTimesSold(fills: seq<Fill>, id: nat)
    requires ExitPrice(fills, id).Some?
    ensures NotionalSum(fills, id, Sell) == ExitPrice(fills, id).value * QtySum(fills, id, Sell)
  {}

  lemma {:induction false} EqualPriceLegs(fills: seq<Fill>, id: nat, price: real)
    requires forall i :: 0 <= i < |fills| && Counts(fills[i], id, Sell) ==> fills[i].price == price
    ensures NotionalSum(fills, id, Sell) == Worth(price, QtySum(fills, id, Sell))
  {
    if fills != [] {
      EqualPriceLegs(fills[..|fills| - 1], id, price);
      var last, sold := fills[|fills| - 1], QtySum(fills[..|fills| - 1], id, Sell);
      assert Worth(price, sold) + Worth(price, last.qty) == Worth(price, sold + last.qty);
    }
  }

  // However an exit is split into legs at one price, it books the profit of a single sell of the
  // same shares with the same total fee.
  lemma SplitExitsBookTheSameProfit(t: Tables, id: nat, t': Tables, id': nat, price: real)
    requires Consistent(t) && Consistent(t') && id < |t.rows| && id' < |t'.rows|
    requires forall i :: 0 <= i < |t.fills| && Counts(t.fills[i], id, Sell) ==> t.fills[i].price == price
    requires forall i :: 0 <= i < |t'.fills| && Counts(t'.fills[i], id', Sell) ==> t'.fills[i].price == price
    requires QtySum(t.fills, id, Buy) == QtySum(t'.fills, id', Buy)
             && BuyCostBasis(t.fills, id) == BuyCostBasis(t'.fills, id')
    requires QtySum(t.fills, id, Sell) == QtySum(t'.fills, id', Sell)
             && FeeSum(t.fills, id, Sell) == FeeSum(t'.fills, id', Sell)
    requires LastSell(t.fills, id).Some? && LastSell(t'.fills, id').Some?
    ensures t.rows[id].realizedPnl == t'.rows[id'].realizedPnl
  {
    hide Worth;
    EqualPriceLegs(t.fills, id, price);
    EqualPriceLegs(t'.fills, id', price);
    assert Balances(t.fills, id, t.rows[id]) && Balances(t'.fills, id', t'.rows[id']);
    assert ProfitConserved(t.fills, id, t.rows[id]) && ProfitConserved(t'.fills, id', t'.rows[id']);
  }
}
