/**
 * The PnL report (pnl_calculator.py): unrealized PnL of the inventory at
 * the current price, realized PnL against a running average cost over the
 * trade history, and the combined figures.
 */
module PnlCalculator {
  import opened Numeric
  import opened Sorting
  import opened Wrappers

  /** Inventory quantities below this are treated as none. */
  const QtyEps: real := Eps9

  datatype Unrealized = Unrealized(usd: real, pct: real)

  /**
   * `calculate_unrealized_pnl`: market value less cost value of the
   * inventory, and that as a percentage of the cost when the cost is positive.
   */
  function UnrealizedPnl(inventory: real, avgBuyPrice: real, currentPrice: real): (u: Unrealized)
    ensures inventory == 0.0 ==> u == Unrealized(0.0, 0.0)
    ensures inventory != 0.0 ==> u.usd == inventory * currentPrice - inventory * avgBuyPrice
    ensures inventory != 0.0 && inventory * avgBuyPrice <= 0.0 ==> u.pct == 0.0
  {
    if inventory == 0.0 then Unrealized(0.0, 0.0)
    else
      var atCost := inventory * avgBuyPrice;
      var atMarket := inventory * currentPrice;
      var usd := atMarket - atCost;
      Unrealized(usd, if atCost > 0.0 then usd / atCost * 100.0 else 0.0)
  }

  /**
   * For a held inventory bought at a positive price the percentage is the
   * price change relative to the buy price, and the PnL is positive exactly
   * when the price has risen.
   */
  lemma UnrealizedIsPriceChange(inventory: real, avgBuyPrice: real, currentPrice: real)
    requires inventory > 0.0 && avgBuyPrice > 0.0
    ensures UnrealizedPnl(inventory, avgBuyPrice, currentPrice).pct == (currentPrice - avgBuyPrice) / avgBuyPrice * 100.0
    ensures UnrealizedPnl(inventory, avgBuyPrice, currentPrice).usd > 0.0 <==> currentPrice > avgBuyPrice
  {
    var atCost := inventory * avgBuyPrice;
    var usd := inventory * currentPrice - atCost;
    assert atCost > 0.0 by {
      MulLt(0.0, inventory, avgBuyPrice);
    }
    assert usd == inventory * (currentPrice - avgBuyPrice);
    assert usd / atCost == (currentPrice - avgBuyPrice) / avgBuyPrice;
    if currentPrice > avgBuyPrice {
      MulLt(0.0, currentPrice - avgBuyPrice, inventory);
    } else {
      MulLe(currentPrice - avgBuyPrice, 0.0, inventory);
    }
  }

  /** A trade fee as reported: its cost (0 when missing) and currency. */
  datatype Fee = Fee(cost: real, currency: Option<string>)

  /** One trade of the history: `side`, `price`, `amount`, `cost`, `timestamp` and the optional fee. */
  datatype HistTrade = HistTrade(side: string, price: real, amount: real, cost: real, timestamp: int, fee: Option<Fee>)

  /**
   * The running state of `calculate_realized_pnl`: inventory quantity and
   * cost, realized PnL, quote-currency fees, and the per-side counts and volumes.
   */
  datatype AvgLedger = AvgLedger(
    qty: real, cost: real, realized: real, fees: real,
    buys: nat, sells: nat, buyVolume: real, sellVolume: real)

  const EmptyLedger := AvgLedger(0.0, 0.0, 0.0, 0.0, 0, 0, 0.0, 0.0)

  /** The fee of a trade counted in the total: a non-zero cost charged in the quote currency. */
  function QuoteFee(t: HistTrade, quote: string): real
  {
    if t.fee.Some? && t.fee.value.cost != 0.0 && t.fee.value.currency == Some(quote) then t.fee.value.cost else 0.0
  }

  /**
   * One trade of the loop: a buy adds its amount and its cost to the
   * inventory; a sell of a held inventory books its cost less the amount at
   * the average cost, removes that much cost, and clears the inventory when
   * less than 1e-9 is left.
   */
  function StepAvg(l: AvgLedger, t: HistTrade, quote: string): AvgLedger
  {
    var l := WithFee(l, t, quote);
    if t.side == "buy" then BuyStep(l, t)
    else if t.side == "sell" then SellStep(l, t)
    else l
  }

  function WithFee(l: AvgLedger, t: HistTrade, quote: string): AvgLedger
  {
    l.(fees := l.fees + QuoteFee(t, quote))
  }

  /** `current_value`: the inventory valued at its average cost (zero without inventory). */
  function HeldValue(qty: real, cost: real): real
  {
    qty * (if qty > 0.0 then cost / qty else 0.0)
  }

  /** The cost of the goods sold: `amount` units at the average cost `cost / qty`. */
  function Cogs(amount: real, cost: real, qty: real): real
    requires qty > 0.0
  {
    amount * (cost / qty)
  }

  function BuyStep(l: AvgLedger, t: HistTrade): AvgLedger
  {
    l.(buys := l.buys + 1, buyVolume := l.buyVolume + t.cost, qty := l.qty + t.amount, cost := HeldValue(l.qty, l.cost) + t.cost)
  }

  function SellStep(l: AvgLedger, t: HistTrade): AvgLedger
  {
    var sells := l.sells + 1;
    var sellVolume := l.sellVolume + t.cost;
    if l.qty > 0.0 then
      var cogs := Cogs(t.amount, l.cost, l.qty);
      var qty := l.qty - t.amount;
      var realized := l.realized + (t.cost - cogs);
      if qty < QtyEps then AvgLedger(0.0, 0.0, realized, l.fees, l.buys, sells, l.buyVolume, sellVolume)
      else AvgLedger(qty, l.cost - cogs, realized, l.fees, l.buys, sells, l.buyVolume, sellVolume)
    else l.(sells := sells, sellVolume := sellVolume)
  }

  /** The ledger after the trades in order. */
  function AvgFold(trades: seq<HistTrade>, quote: string): AvgLedger
  {
    if trades == [] then EmptyLedger
    else StepAvg(AvgFold(trades[..|trades| - 1], quote), trades[|trades| - 1], quote)
  }

  /** Trade order of the report: by timestamp. */
  predicate TsLe(a: HistTrade, b: HistTrade)
  {
    a.timestamp <= b.timestamp
  }

  /** `sorted(trades, key=timestamp)`. */
  function ByTime(trades: seq<HistTrade>): (r: seq<HistTrade>)
    ensures multiset(r) == multiset(trades)
  {
    SortBy(trades, TsLe)
  }

  lemma ByTimeSorted(trades: seq<HistTrade>)
    ensures var r := ByTime(trades);
      forall i, j :: 0 <= i < j < |r| ==> r[i].timestamp <= r[j].timestamp
  {
    assert TotalPreorder(TsLe);
    SortBySorted(trades, TsLe);
  }

  function CountSide(trades: seq<HistTrade>, side: string): nat
  {
    if trades == [] then 0
    else CountSide(trades[..|trades| - 1], side) + (if trades[|trades| - 1].side == side then 1 else 0)
  }

  function VolumeSide(trades: seq<HistTrade>, side: string): real
  {
    if trades == [] then 0.0
    else VolumeSide(trades[..|trades| - 1], side) + (if trades[|trades| - 1].side == side then trades[|trades| - 1].cost else 0.0)
  }

  /** The per-side counts and volumes are the counts and cost sums of the buy and the sell trades. */
  lemma {:induction false} FoldCounts(trades: seq<HistTrade>, quote: string)
    ensures var l := AvgFold(trades, quote);
      l.buys == CountSide(trades, "buy") && l.sells == CountSide(trades, "sell")
      && l.buyVolume == VolumeSide(trades, "buy") && l.sellVolume == VolumeSide(trades, "sell")
  {
    if trades != [] {
      FoldCounts(trades[..|trades| - 1], quote);
    }
  }

  /** Over buys of non-negative amounts the inventory is never negative: it is either 0 or at least 1e-9 after each sell. */
  lemma {:induction false} FoldQtyNonNegative(trades: seq<HistTrade>, quote: string)
    requires forall i :: 0 <= i < |trades| && trades[i].side == "buy" ==> trades[i].amount >= 0.0
    ensures AvgFold(trades, quote).qty >= 0.0
  {
    if trades != [] {
      FoldQtyNonNegative(trades[..|trades| - 1], quote);
    }
  }

  /** A sell with no inventory is counted but books no profit and leaves the inventory alone. */
  lemma SellWithoutInventory(l: AvgLedger, t: HistTrade, quote: string)
    requires t.side == "sell" && l.qty <= 0.0
    ensures var n := StepAvg(l, t, quote);
      n.realized == l.realized && n.qty == l.qty && n.cost == l.cost
      && n.sells == l.sells + 1 && n.sellVolume == l.sellVolume + t.cost
  {
  }

  /** A partial sell leaves the average cost of the inventory as it was. */
  lemma SellKeepsAverageCost(l: AvgLedger, t: HistTrade, quote: string)
    requires t.side == "sell" && l.qty > 0.0 && l.qty - t.amount >= QtyEps
    ensures var n := StepAvg(l, t, quote);
      n.qty == l.qty - t.amount && n.cost / n.qty == l.cost / l.qty
      && n.realized == l.realized + (t.cost - t.amount * (l.cost / l.qty))
  {
    var avg := l.cost / l.qty;
    var q := l.qty - t.amount;
    assert l.cost == avg * l.qty;
    assert l.cost - t.amount * avg == avg * q;
  }

  /** A sell that empties the inventory (below 1e-9) resets quantity and cost to zero. */
  lemma SellBelowEpsResets(l: AvgLedger, t: HistTrade, quote: string)
    requires t.side == "sell" && l.qty > 0.0 && l.qty - t.amount < QtyEps
    ensures var n := StepAvg(l, t, quote);
      n.qty == 0.0 && n.cost == 0.0
  {
  }

  datatype RealizedReport = RealizedReport(
    realized: real, fees: real, buys: nat, sells: nat, buyVolume: real, sellVolume: real)

  function ReportOf(l: AvgLedger): RealizedReport
  {
    RealizedReport(l.realized, l.fees, l.buys, l.sells, l.buyVolume, l.sellVolume)
  }

  /**
   * `calculate_realized_pnl` over the fetched trades (`None` when the fetch
   * raised, which reports zeros); `quote` is the pair's quote currency.
   */
  method CalculateRealizedPnl(fetched: Option<seq<HistTrade>>, quote: string) returns (rep: RealizedReport)
    ensures fetched.None? ==> rep == RealizedReport(0.0, 0.0, 0, 0, 0.0, 0.0)
    ensures fetched.Some? ==> rep == ReportOf(AvgFold(ByTime(fetched.value), quote))
    ensures fetched.Some? ==>
      rep.buys == CountSide(ByTime(fetched.value), "buy") && rep.sells == CountSide(ByTime(fetched.value), "sell")
  {
    if fetched.None? {
      return RealizedReport(0.0, 0.0, 0, 0, 0.0, 0.0);
    }
    var trades := ByTime(fetched.value);
    var realized, fees := 0.0, 0.0;
    var buys, sells: nat := 0, 0;
    var buyVolume, sellVolume := 0.0, 0.0;
    var qty, cost := 0.0, 0.0;
    for i := 0 to |trades|
      invariant AvgFold(trades[..i], quote) == AvgLedger(qty, cost, realized, fees, buys, sells, buyVolume, sellVolume)
    {
      var t := trades[i];
      assert trades[..i + 1][..i] == trades[..i];
      qty, cost, realized, fees, buys, sells, buyVolume, sellVolume :=
        ApplyTrade(qty, cost, realized, fees, buys, sells, buyVolume, sellVolume, t, quote);
    }
    assert trades[..|trades|] == trades;
    rep := RealizedReport(realized, fees, buys, sells, buyVolume, sellVolume);
    FoldCounts(trades, quote);
  }

  /** The body of the trade loop of `calculate_realized_pnl`, one trade at a time. */
  method ApplyTrade(qty0: real, cost0: real, realized0: real, fees0: real,
                    buys0: nat, sells0: nat, buyVolume0: real, sellVolume0: real, t: HistTrade, quote: string)
    returns (qty: real, cost: real, realized: real, fees: real,
             buys: nat, sells: nat, buyVolume: real, sellVolume: real)
    ensures AvgLedger(qty, cost, realized, fees, buys, sells, buyVolume, sellVolume)
         == StepAvg(AvgLedger(qty0, cost0, realized0, fees0, buys0, sells0, buyVolume0, sellVolume0), t, quote)
  {
    qty, cost, realized, fees, buys, sells, buyVolume, sellVolume :=
      qty0, cost0, realized0, fees0, buys0, sells0, buyVolume0, sellVolume0;
    if t.fee.Some? && t.fee.value.cost != 0.0 {
      if t.fee.value.currency == Some(quote) {
        fees := fees + t.fee.value.cost;
      }
    }
    if t.side == "buy" {
      buys := buys + 1;
      buyVolume := buyVolume + t.cost;
      var newTotalCost := HeldValue(qty, cost) + t.cost;
      qty := qty + t.amount;
      cost := newTotalCost;
    } else if t.side == "sell" {
      sells := sells + 1;
      sellVolume := sellVolume + t.cost;
      if qty > 0.0 {
        var cogs := Cogs(t.amount, cost, qty);
        realized := realized + (t.cost - cogs);
        qty := qty - t.amount;
        cost := cost - cogs;
        if qty < QtyEps {
          qty := 0.0;
          cost := 0.0;
        }
      }
    }
  }

  datatype AllPnlReport = AllPnlReport(
    realized: real, unrealized: real, grid: real, fees: real, total: real, pct: real, sells: nat)

  /** `calculate_all_pnl`'s combination of a realized report and the unrealized PnL. */
  function CombinePnl(r: RealizedReport, u: Unrealized, initialInvestment: real): (a: AllPnlReport)
    ensures a.total == r.realized + u.usd && a.grid == r.realized && a.realized == r.realized
    ensures initialInvestment <= 0.0 ==> a.pct == 0.0
    ensures initialInvestment > 0.0 ==> a.pct * initialInvestment == a.total * 100.0
  {
    var total := r.realized + u.usd;
    AllPnlReport(r.realized, u.usd, r.realized, r.fees, total,
                 if initialInvestment > 0.0 then total / initialInvestment * 100.0 else 0.0, r.sells)
  }

  /** With a positive initial investment the percentage has the sign of the total profit. */
  lemma PctSignIsProfitSign(r: RealizedReport, u: Unrealized, initialInvestment: real)
    requires initialInvestment > 0.0
    ensures CombinePnl(r, u, initialInvestment).pct > 0.0 <==> CombinePnl(r, u, initialInvestment).total > 0.0
  {
    var a := CombinePnl(r, u, initialInvestment);
    if a.pct > 0.0 {
      MulLt(0.0, a.pct, initialInvestment);
    } else {
      MulLe(a.pct, 0.0, initialInvestment);
    }
  }

  /** `calculate_all_pnl`. */
  method CalculateAllPnl(fetched: Option<seq<HistTrade>>, quote: string,
                         inventory: real, avgBuyPrice: real, currentPrice: real, initialInvestment: real)
    returns (a: AllPnlReport)
    ensures var r := if fetched.None? then RealizedReport(0.0, 0.0, 0, 0, 0.0, 0.0)
                     else ReportOf(AvgFold(ByTime(fetched.value), quote));
      a == CombinePnl(r, UnrealizedPnl(inventory, avgBuyPrice, currentPrice), initialInvestment)
    ensures fetched.None? && inventory == 0.0 ==> a.total == 0.0 && a.pct == 0.0
  {
    var realized := CalculateRealizedPnl(fetched, quote);
    var unrealized := UnrealizedPnl(inventory, avgBuyPrice, currentPrice);
    a := CombinePnl(realized, unrealized, initialInvestment);
  }
}
