/**
 * The profit watcher (profit_watcher.py): a FIFO ledger of bought lots that
 * sells consume front-first, the pass over a batch of exchange trades that
 * books realized profit, and the trade-id checkpoint of the polling loop.
 */
module ProfitWatcher {
  import opened Numeric
  import opened Sorting
  import opened Strings
  import opened Wrappers
  import Pnl

  /** The trading pair when none is configured. */
  const DefaultPair: string := "DOGE/USDT"

  /** `realized_profit_on_match`: gross profit less the fee on the buy and on the sell notional. */
  function RealizedProfitOnMatch(buyPrice: real, sellPrice: real, qty: real, feeRate: real): real
  {
    var gross := (sellPrice - buyPrice) * qty;
    var fees := (buyPrice * qty + sellPrice * qty) * feeRate;
    gross - fees
  }

  /** The watcher's profit of a matched slice is the two-sided-fee profit of the PnL module. */
  lemma MatchProfitAgreesWithPnl(buyPrice: real, sellPrice: real, qty: real, feeRate: real)
    ensures RealizedProfitOnMatch(buyPrice, sellPrice, qty, feeRate)
         == Pnl.RealizedProfitUsd(buyPrice, sellPrice, qty, feeRate)
  {
    assert (buyPrice * qty + sellPrice * qty) * feeRate == buyPrice * qty * feeRate + sellPrice * qty * feeRate;
  }

  /** One inventory entry `{"qty": ..., "price": ...}`. */
  datatype Lot = Lot(qty: real, price: real)

  function Total(lots: seq<Lot>): real
  {
    if lots == [] then 0.0 else lots[0].qty + Total(lots[1..])
  }

  /** Every lot holds a positive quantity, as every lot the watcher appends does. */
  predicate AllPositive(lots: seq<Lot>)
  {
    forall i :: 0 <= i < |lots| ==> lots[i].qty > 0.0
  }

  /**
   * The outcome of matching a sell against the lots: the quantity left
   * unmatched, the lots left, the slices taken (quantity and the lot's
   * price, in the order taken) and the dust dropped with popped lots.
   */
  datatype Match = Match(remaining: real, lots: seq<Lot>, taken: seq<Lot>, dust: real)

  /**
   * The matching loop of `fifo_match_sell`: while more than 1e-12 is left
   * and a lot exists, take the smaller of the two from the first lot, and
   * pop that lot once it holds 1e-12 or less.
   */
  function FifoMatch(lots: seq<Lot>, remaining: real): Match
    decreases |lots|, if remaining > Eps12 then 1 else 0
  {
    if remaining <= Eps12 || lots == [] then Match(remaining, lots, [], 0.0)
    else
      var lot := lots[0];
      var take := Min(remaining, lot.qty);
      var left := lot.qty - take;
      var reduced := lots[0 := Lot(left, lot.price)];
      if left <= Eps12 then
        var m := FifoMatch(reduced[1..], remaining - take);
        Match(m.remaining, m.lots, [Lot(take, lot.price)] + m.taken, left + m.dust)
      else
        var m := FifoMatch(reduced, remaining - take);
        Match(m.remaining, m.lots, [Lot(take, lot.price)] + m.taken, m.dust)
  }

  /** The profit of the taken slices against one sell price. */
  function SumProfit(taken: seq<Lot>, sellPrice: real, feeRate: real): real
  {
    if taken == [] then 0.0
    else RealizedProfitOnMatch(taken[0].price, sellPrice, taken[0].qty, feeRate) + SumProfit(taken[1..], sellPrice, feeRate)
  }

  /**
   * Conservation: the lots before the sell are the lots after it, the
   * matched quantity (which is what was taken) and the dust dropped.
   */
  lemma {:induction false} FifoConservation(lots: seq<Lot>, remaining: real)
    ensures var m := FifoMatch(lots, remaining);
      Total(m.taken) == remaining - m.remaining
      && Total(lots) == Total(m.lots) + (remaining - m.remaining) + m.dust
    decreases |lots|, if remaining > Eps12 then 1 else 0
  {
    if remaining > Eps12 && lots != [] {
      var lot := lots[0];
      var take := Min(remaining, lot.qty);
      var left := lot.qty - take;
      var reduced := lots[0 := Lot(left, lot.price)];
      assert Total(lots) == lot.qty + Total(lots[1..]);
      assert reduced[1..] == lots[1..];
      if left <= Eps12 {
        FifoConservation(reduced[1..], remaining - take);
      } else {
        FifoConservation(reduced, remaining - take);
        assert Total(reduced) == left + Total(lots[1..]);
      }
    }
  }

  /**
   * Bounds over positive lots: the matched quantity is between 0 and the
   * sell quantity (0 when that is negative) and at most what the lots held;
   * every slice taken and every lot left is positive, and the dust is not negative.
   */
  lemma {:induction false} FifoBounds(lots: seq<Lot>, remaining: real)
    requires AllPositive(lots)
    ensures var m := FifoMatch(lots, remaining);
      0.0 <= remaining - m.remaining <= Max(remaining, 0.0)
      && remaining - m.remaining <= Total(lots)
      && AllPositive(m.lots) && AllPositive(m.taken) && m.dust >= 0.0
    decreases |lots|, if remaining > Eps12 then 1 else 0
  {
    var m := FifoMatch(lots, remaining);
    TotalNonNegative(lots);
    if remaining > Eps12 && lots != [] {
      var lot := lots[0];
      var take := Min(remaining, lot.qty);
      var left := lot.qty - take;
      var reduced := lots[0 := Lot(left, lot.price)];
      assert lot.qty > 0.0;
      if left <= Eps12 {
        FifoBounds(reduced[1..], remaining - take);
      } else {
        FifoBounds(reduced, remaining - take);
      }
      FifoConservation(lots, remaining);
      TotalNonNegative(m.lots);
      assert left >= 0.0;
      assert m.dust >= 0.0;
      assert Total(lots) == Total(m.lots) + (remaining - m.remaining) + m.dust;
    }
  }

  lemma {:induction false} TotalNonNegative(lots: seq<Lot>)
    requires AllPositive(lots)
    ensures Total(lots) >= 0.0
  {
    if lots != [] {
      TotalNonNegative(lots[1..]);
    }
  }

  /**
   * FIFO order: slices are taken from the lots in insertion order, and the
   * lots left are a suffix of the old ones except that the first of them may
   * be partly consumed (same price, its own quantity reduced).
   */
  lemma FifoOrder(lots: seq<Lot>, remaining: real)
    ensures var m := FifoMatch(lots, remaining);
      |m.taken| <= |lots| && |m.lots| <= |lots|
      && (forall i :: 0 <= i < |m.taken| ==> m.taken[i].price == lots[i].price)
      && (m.lots != [] ==>
            m.lots[0].price == lots[|lots| - |m.lots|].price
            && m.lots[1..] == lots[|lots| - |m.lots| + 1..])
  {
    FifoTakenOrder(lots, remaining);
    FifoLeftOrder(lots, remaining);
  }

  /** The slices are taken from the lots in insertion order. */
  lemma {:induction false} FifoTakenOrder(lots: seq<Lot>, remaining: real)
    ensures var m := FifoMatch(lots, remaining);
      |m.taken| <= |lots| && forall i :: 0 <= i < |m.taken| ==> m.taken[i].price == lots[i].price
    decreases |lots|, if remaining > Eps12 then 1 else 0
  {
    if remaining > Eps12 && lots != [] {
      var lot := lots[0];
      var take := Min(remaining, lot.qty);
      var left := lot.qty - take;
      var reduced := lots[0 := Lot(left, lot.price)];
      if left <= Eps12 {
        var tail := reduced[1..];
        assert tail == lots[1..];
        FifoTakenOrder(tail, remaining - take);
        var m := FifoMatch(tail, remaining - take);
        var taken := [Lot(take, lot.price)] + m.taken;
        assert FifoMatch(lots, remaining).taken == taken;
        forall i | 0 <= i < |taken|
          ensures taken[i].price == lots[i].price
        {
          if i > 0 {
            assert taken[i] == m.taken[i - 1];
            assert tail[i - 1] == lots[i];
          }
        }
      } else {
        assert remaining - take <= Eps12;
        assert FifoMatch(reduced, remaining - take).taken == [];
      }
    }
  }

  /** The lots left are a suffix of the old ones, the first of them possibly partly consumed. */
  lemma {:induction false} FifoLeftOrder(lots: seq<Lot>, remaining: real)
    ensures var m := FifoMatch(lots, remaining);
      |m.lots| <= |lots|
      && (m.lots != [] ==>
            m.lots[0].price == lots[|lots| - |m.lots|].price
            && m.lots[1..] == lots[|lots| - |m.lots| + 1..])
    decreases |lots|, if remaining > Eps12 then 1 else 0
  {
    if remaining > Eps12 && lots != [] {
      var lot := lots[0];
      var take := Min(remaining, lot.qty);
      var left := lot.qty - take;
      var reduced := lots[0 := Lot(left, lot.price)];
      if left <= Eps12 {
        var tail := reduced[1..];
        assert tail == lots[1..];
        FifoLeftOrder(tail, remaining - take);
        var m := FifoMatch(tail, remaining - take);
        assert FifoMatch(lots, remaining).lots == m.lots;
        if m.lots != [] {
          assert lots[|lots| - |m.lots|] == tail[|tail| - |m.lots|];
          assert lots[|lots| - |m.lots| + 1..] == tail[|tail| - |m.lots| + 1..];
        }
      } else {
        assert remaining - take <= Eps12;
        assert FifoMatch(reduced, remaining - take).lots == reduced;
        assert reduced[1..] == lots[1..];
      }
    }
  }

  /** A sell against an empty inventory matches nothing and books nothing. */
  lemma FifoEmptyInventory(remaining: real, sellPrice: real, feeRate: real)
    ensures var m := FifoMatch([], remaining);
      remaining - m.remaining == 0.0 && SumProfit(m.taken, sellPrice, feeRate) == 0.0 && m.lots == []
  {
  }

  /**
   * Two lots of one unit at 100 and 110, and a sell of 1.5 at 120 with a
   * 0.1% fee: the whole first lot and half of the second are matched,
   * booking 19.78 + 4.885, and half a unit at 110 stays.
   */
  lemma FifoExample()
    ensures var m := FifoMatch([Lot(1.0, 100.0), Lot(1.0, 110.0)], 1.5);
      m.lots == [Lot(0.5, 110.0)] && m.remaining == 0.0
      && m.taken == [Lot(1.0, 100.0), Lot(0.5, 110.0)]
      && SumProfit(m.taken, 120.0, Pnl.DefaultFeeRate) == 24.665
  {
    var lots := [Lot(1.0, 100.0), Lot(1.0, 110.0)];
    var second := [Lot(1.0, 110.0)];
    assert lots[0 := Lot(0.0, 100.0)][1..] == second;
    var m2 := FifoMatch(second, 0.5);
    assert second[0 := Lot(0.5, 110.0)] == [Lot(0.5, 110.0)];
    assert FifoMatch([Lot(0.5, 110.0)], 0.0) == Match(0.0, [Lot(0.5, 110.0)], [], 0.0);
    assert m2 == Match(0.0, [Lot(0.5, 110.0)], [Lot(0.5, 110.0)], 0.0);
    var taken := [Lot(1.0, 100.0), Lot(0.5, 110.0)];
    assert taken[1..] == [Lot(0.5, 110.0)];
    assert [Lot(0.5, 110.0)][1..] == [];
  }

  /** Python's `str.lower()` on ASCII letters, which is all that `"buy"` and `"sell"` can equal. */
  function LowerAscii(s: string): (r: string)
    ensures |r| == |s|
    ensures forall i :: 0 <= i < |s| ==> r[i] == (if 'A' <= s[i] <= 'Z' then (s[i] as int + 32) as char else s[i])
  {
    if s == [] then []
    else [if 'A' <= s[0] <= 'Z' then (s[0] as int + 32) as char else s[0]] + LowerAscii(s[1..])
  }

  /**
   * One exchange trade as the watcher reads it: `id` is `str(id or "")`,
   * `price` and `amount` are `0.0` when missing, `timestamp` is
   * `int(timestamp or 0)`, and `symbol` may be missing.
   */
  datatype Trade = Trade(id: string, symbol: Option<string>, side: string, price: real, amount: real, timestamp: int)

  predicate IsBuy(t: Trade)
  {
    LowerAscii(t.side) == "buy"
  }

  predicate IsSell(t: Trade)
  {
    LowerAscii(t.side) == "sell"
  }

  /** A trade with a non-positive amount or price is skipped. */
  predicate Skipped(t: Trade)
  {
    t.amount <= 0.0 || t.price <= 0.0
  }

  /** The running results of `process_trades_sequence`. */
  datatype Ledger = Ledger(realized: real, sellTrades: nat, lots: seq<Lot>)

  /** One trade of `process_trades_sequence`: a buy appends a lot, a sell is matched FIFO. */
  function StepTrade(l: Ledger, t: Trade, feeRate: real): Ledger
  {
    if Skipped(t) then l
    else if IsBuy(t) then l.(lots := l.lots + [Lot(t.amount, t.price)])
    else if IsSell(t) then
      var m := FifoMatch(l.lots, t.amount);
      Ledger(l.realized + SumProfit(m.taken, t.price, feeRate),
             l.sellTrades + (if t.amount - m.remaining > 0.0 then 1 else 0),
             m.lots)
    else l
  }

  /** The ledger after the trades in order, from the given lots. */
  function ProcessTrades(lots: seq<Lot>, trades: seq<Trade>, feeRate: real): Ledger
  {
    if trades == [] then Ledger(0.0, 0, lots)
    else StepTrade(ProcessTrades(lots, trades[..|trades| - 1], feeRate), trades[|trades| - 1], feeRate)
  }

  /** The checkpoint after a batch: the last trade's id, skipped or not, or the old checkpoint for no trades. */
  function LastId(trades: seq<Trade>, checkpoint: Option<string>): (r: Option<string>)
    ensures trades == [] ==> r == checkpoint
    ensures trades != [] ==> r == Some(trades[|trades| - 1].id)
  {
    if trades == [] then checkpoint else Some(trades[|trades| - 1].id)
  }

  function CountSells(trades: seq<Trade>): nat
  {
    if trades == [] then 0
    else CountSells(trades[..|trades| - 1]) + (if IsSell(trades[|trades| - 1]) then 1 else 0)
  }

  /** `inc_sell_trades` counts only sells, so it never exceeds the number of sell trades. */
  lemma {:induction false} SellTradesBounded(lots: seq<Lot>, trades: seq<Trade>, feeRate: real)
    ensures ProcessTrades(lots, trades, feeRate).sellTrades <= CountSells(trades)
  {
    if trades != [] {
      SellTradesBounded(lots, trades[..|trades| - 1], feeRate);
    }
  }

  /** A batch processed in two parts books what the whole batch books. */
  lemma {:induction false} BatchesCompose(lots: seq<Lot>, a: seq<Trade>, b: seq<Trade>, feeRate: real)
    ensures var la := ProcessTrades(lots, a, feeRate);
      var lb := ProcessTrades(la.lots, b, feeRate);
      ProcessTrades(lots, a + b, feeRate) == Ledger(la.realized + lb.realized, la.sellTrades + lb.sellTrades, lb.lots)
  {
    if b == [] {
      assert a + b == a;
    } else {
      var b0 := b[..|b| - 1];
      assert (a + b)[..|a + b| - 1] == a + b0;
      assert (a + b)[|a + b| - 1] == b[|b| - 1];
      BatchesCompose(lots, a, b0, feeRate);
    }
  }

  /** The trades that are not skipped, in order. */
  function Counted(trades: seq<Trade>): seq<Trade>
  {
    if trades == [] then []
    else Counted(trades[..|trades| - 1]) + (if Skipped(trades[|trades| - 1]) then [] else [trades[|trades| - 1]])
  }

  /** Skipped trades change nothing but the checkpoint: dropping them gives the same ledger. */
  lemma {:induction false} SkippedTradesIgnored(lots: seq<Lot>, trades: seq<Trade>, feeRate: real)
    ensures ProcessTrades(lots, Counted(trades), feeRate) == ProcessTrades(lots, trades, feeRate)
  {
    if trades != [] {
      var init := trades[..|trades| - 1];
      var t := trades[|trades| - 1];
      SkippedTradesIgnored(lots, init, feeRate);
      if !Skipped(t) {
        var c := Counted(init) + [t];
        assert Counted(trades) == c;
        assert c[..|c| - 1] == Counted(init) && c[|c| - 1] == t;
        assert ProcessTrades(lots, c, feeRate) == StepTrade(ProcessTrades(lots, Counted(init), feeRate), t, feeRate);
      } else {
        assert Counted(trades) == Counted(init) + [];
        assert Counted(init) + [] == Counted(init);
      }
    }
  }

  /** The lots a run of buys appends. */
  function BoughtLots(trades: seq<Trade>): seq<Lot>
  {
    if trades == [] then []
    else BoughtLots(trades[..|trades| - 1]) + [Lot(trades[|trades| - 1].amount, trades[|trades| - 1].price)]
  }

  /** Buys are appended at the back of the inventory, in trade order, and book nothing. */
  lemma {:induction false} BuysAppend(lots: seq<Lot>, trades: seq<Trade>, feeRate: real)
    requires forall i :: 0 <= i < |trades| ==> IsBuy(trades[i]) && !Skipped(trades[i])
    ensures ProcessTrades(lots, trades, feeRate) == Ledger(0.0, 0, lots + BoughtLots(trades))
  {
    if trades != [] {
      BuysAppend(lots, trades[..|trades| - 1], feeRate);
      assert IsBuy(trades[|trades| - 1]) && !Skipped(trades[|trades| - 1]);
    }
  }

  /** The inventory invariant: starting from positive lots, every lot stays positive. */
  lemma {:induction false} ProcessKeepsPositive(lots: seq<Lot>, trades: seq<Trade>, feeRate: real)
    requires AllPositive(lots)
    ensures AllPositive(ProcessTrades(lots, trades, feeRate).lots)
  {
    if trades != [] {
      ProcessKeepsPositive(lots, trades[..|trades| - 1], feeRate);
      var l := ProcessTrades(lots, trades[..|trades| - 1], feeRate);
      FifoBounds(l.lots, trades[|trades| - 1].amount);
    }
  }

  /** `(timestamp, id)` tuple order, the sort key of `normalize_trades`. */
  predicate KeyLe(a: Trade, b: Trade)
  {
    a.timestamp < b.timestamp || (a.timestamp == b.timestamp && StrLe(a.id, b.id))
  }

  lemma KeyLeTotalPreorder()
    ensures TotalPreorder(KeyLe)
  {
    forall a: Trade, b: Trade
      ensures KeyLe(a, b) || KeyLe(b, a)
    {
      StrLeTotal(a.id, b.id);
    }
    forall a: Trade, b: Trade, c: Trade | KeyLe(a, b) && KeyLe(b, c)
      ensures KeyLe(a, c)
    {
      if a.timestamp == b.timestamp == c.timestamp {
        StrLeTrans(a.id, b.id, c.id);
      }
    }
  }

  /** The trades of the pair, in their original order. */
  function ForPair(trades: seq<Trade>, pair: string): (r: seq<Trade>)
    ensures forall t :: t in r <==> t in trades && t.symbol == Some(pair)
  {
    if trades == [] then []
    else if trades[0].symbol == Some(pair) then [trades[0]] + ForPair(trades[1..], pair)
    else ForPair(trades[1..], pair)
  }

  /** `normalize_trades`: the trades of the pair, stably sorted by `(timestamp, id)`. */
  function NormalizeTrades(trades: seq<Trade>, pair: string): seq<Trade>
  {
    SortBy(ForPair(trades, pair), KeyLe)
  }

  /** Normalizing keeps exactly the pair's trades, each as often as it came, in key order. */
  lemma NormalizeTradesSpec(trades: seq<Trade>, pair: string)
    ensures var r := NormalizeTrades(trades, pair);
      multiset(r) == multiset(ForPair(trades, pair))
      && (forall t :: t in r <==> t in trades && t.symbol == Some(pair))
      && (forall i, j :: 0 <= i < j < |r| ==> KeyLe(r[i], r[j]))
  {
    KeyLeTotalPreorder();
    SortBySorted(ForPair(trades, pair), KeyLe);
    SortByMembers(ForPair(trades, pair), KeyLe);
  }

  /** The new-trade test of the polling loop as written: `tid > str(last_id)` on strings. */
  function NewTradesAsWritten(all: seq<Trade>, lastId: Option<string>): (r: seq<Trade>)
    ensures forall t :: t in r <==> t in all && (lastId.None? || StrLt(lastId.value, t.id))
  {
    if all == [] then []
    else if lastId.None? || StrLt(lastId.value, all[0].id) then [all[0]] + NewTradesAsWritten(all[1..], lastId)
    else NewTradesAsWritten(all[1..], lastId)
  }

  /** Trade `id` comes after the checkpoint `last`: by value for numeric ids, by string order otherwise. */
  predicate IdAfter(id: string, last: string)
  {
    if IsCanonicalNat(id) && IsCanonicalNat(last) then |last| < |id| || (|last| == |id| && StrLt(last, id))
    else StrLt(last, id)
  }

  /** For numeric ids the corrected test is exactly "greater as a number". */
  lemma IdAfterIsNumeric(id: string, last: string)
    requires IsCanonicalNat(id) && IsCanonicalNat(last)
    ensures IdAfter(id, last) <==> DecValue(last) < DecValue(id)
  {
    CanonicalOrder(last, id);
  }

  /** The new-trade filter with the corrected id test. */
  function NewTrades(all: seq<Trade>, lastId: Option<string>): (r: seq<Trade>)
    ensures forall t :: t in r <==> t in all && (lastId.None? || IdAfter(t.id, lastId.value))
  {
    if all == [] then []
    else if lastId.None? || IdAfter(all[0].id, lastId.value) then [all[0]] + NewTrades(all[1..], lastId)
    else NewTrades(all[1..], lastId)
  }

  /**
   * As written, a checkpoint of "999" hides the later trade "1000": the
   * string "1000" sorts before "999". The corrected filter keeps it.
   */
  lemma StringIdsDropLaterTrade(sym: Option<string>, side: string, price: real, amount: real, ts: int)
    ensures var t := Trade("1000", sym, side, price, amount, ts);
      NewTradesAsWritten([t], Some("999")) == [] && NewTrades([t], Some("999")) == [t]
  {
    var t := Trade("1000", sym, side, price, amount, ts);
    assert StrLe("1000", "999");
    assert !StrLe("999", "1000") by {
      assert "999"[0] == '9' && "1000"[0] == '1';
    }
    assert IsCanonicalNat("1000") && IsCanonicalNat("999");
    assert NewTradesAsWritten([t], Some("999")) == NewTradesAsWritten([], Some("999"));
  }

  /**
   * With numeric ids that increase along the list, checkpointing at the last
   * id leaves nothing new to process when the same trades come back.
   */
  lemma NoReprocessing(all: seq<Trade>)
    requires all != []
    requires forall i :: 0 <= i < |all| ==> IsCanonicalNat(all[i].id) && NumLe(all[i].id, all[|all| - 1].id)
    ensures NewTrades(all, Some(all[|all| - 1].id)) == []
  {
    var r := NewTrades(all, Some(all[|all| - 1].id));
    if r != [] {
      assert r[0] in all;
      var i :| 0 <= i < |all| && all[i] == r[0];
      assert IsCanonicalNat(all[|all| - 1].id) && NumLe(all[i].id, all[|all| - 1].id);
      IdAfterIsNumeric(all[i].id, all[|all| - 1].id);
      assert false;
    }
  }

  /** What one poll of the live loop did. */
  datatype PollOutcome =
    | NoTrades
    | NoNewTrades
    | Processed(realized: real, sellTrades: nat, updateStats: bool, splitProfit: bool)

  /**
   * A poll that found `newTrades` after the checkpoint, from inventory `inv0`
   * and checkpoint `last0` to `inv` and `last`: nothing new changes nothing;
   * otherwise the inventory is the FIFO ledger over the new trades and the
   * checkpoint is the last new id unless that id is empty.
   */
  predicate PolledNew(newTrades: seq<Trade>, feeRate: real, inv0: seq<Lot>, last0: Option<string>,
                      inv: seq<Lot>, last: Option<string>, outcome: PollOutcome)
  {
    if newTrades == [] then outcome == NoNewTrades && inv == inv0 && last == last0
    else
      var l := ProcessTrades(inv0, newTrades, feeRate);
      var newLast := newTrades[|newTrades| - 1].id;
      var update := Abs(l.realized) > Eps12 || l.sellTrades > 0;
      inv == l.lots
      && last == (if newLast != "" then Some(newLast) else last0)
      && outcome == Processed(l.realized, l.sellTrades, update, update && l.realized > 0.0)
  }

  /** The watcher's persisted state: the trade-id checkpoint and the FIFO inventory. */
  class Watcher {
    var lastTradeId: Option<string>
    var inventory: seq<Lot>

    constructor ()
      ensures lastTradeId == None && inventory == []
    {
      lastTradeId := None;
      inventory := [];
    }

    /**
     * `fifo_match_sell` on the inventory: returns the realized profit and
     * the matched quantity `qty - remaining`.
     */
    method FifoMatchSell(sellPrice: real, qty: real, feeRate: real) returns (realized: real, matched: real)
      modifies this
      ensures var m := FifoMatch(old(inventory), qty);
        inventory == m.lots && realized == SumProfit(m.taken, sellPrice, feeRate) && matched == qty - m.remaining
      ensures old(inventory) == [] ==> realized == 0.0 && matched == 0.0
      ensures lastTradeId == old(lastTradeId)
    {
      var remaining := qty;
      realized := 0.0;
      while remaining > Eps12 && |inventory| > 0
        invariant var m0 := FifoMatch(old(inventory), qty);
          var m := FifoMatch(inventory, remaining);
          m.remaining == m0.remaining && m.lots == m0.lots
          && realized + SumProfit(m.taken, sellPrice, feeRate) == SumProfit(m0.taken, sellPrice, feeRate)
        invariant lastTradeId == old(lastTradeId)
        decreases |inventory|, if remaining > Eps12 then 1 else 0
      {
        var lot := inventory[0];
        var take := Min(remaining, lot.qty);
        realized := realized + RealizedProfitOnMatch(lot.price, sellPrice, take, feeRate);
        inventory := inventory[0 := Lot(lot.qty - take, lot.price)];
        remaining := remaining - take;
        if inventory[0].qty <= Eps12 {
          inventory := inventory[1..];
        }
      }
      matched := qty - remaining;
    }

    /**
     * `process_trades_sequence`: buys become lots, sells are matched FIFO,
     * skipped trades only move the returned checkpoint. The stored
     * checkpoint itself is not written here.
     */
    method ProcessTradesSequence(trades: seq<Trade>, feeRate: real)
      returns (realizedTotal: real, incSellTrades: nat, lastId: Option<string>)
      modifies this
      ensures var l := ProcessTrades(old(inventory), trades, feeRate);
        inventory == l.lots && realizedTotal == l.realized && incSellTrades == l.sellTrades
      ensures lastId == LastId(trades, old(lastTradeId))
      ensures lastTradeId == old(lastTradeId)
    {
      realizedTotal := 0.0;
      incSellTrades := 0;
      lastId := lastTradeId;
      for i := 0 to |trades|
        invariant var l := ProcessTrades(old(inventory), trades[..i], feeRate);
          inventory == l.lots && realizedTotal == l.realized && incSellTrades == l.sellTrades
        invariant lastId == LastId(trades[..i], old(lastTradeId))
        invariant lastTradeId == old(lastTradeId)
      {
        var t := trades[i];
        assert trades[..i + 1][..i] == trades[..i];
        if t.amount <= 0.0 || t.price <= 0.0 {
          lastId := Some(t.id);
          continue;
        }
        var side := LowerAscii(t.side);
        if side == "buy" {
          inventory := inventory + [Lot(t.amount, t.price)];
        } else if side == "sell" {
          var pnl, matched := FifoMatchSell(t.price, t.amount, feeRate);
          realizedTotal := realizedTotal + pnl;
          if matched > 0.0 {
            incSellTrades := incSellTrades + 1;
          }
        }
        lastId := Some(t.id);
      }
      assert trades[..|trades|] == trades;
    }

    /** The bootstrap of the live loop: with no checkpoint, start from the most recent trade's id. */
    method Bootstrap(recent: seq<Trade>)
      modifies this
      ensures old(lastTradeId).None? && recent != [] ==> lastTradeId == Some(recent[|recent| - 1].id)
      ensures old(lastTradeId).Some? || recent == [] ==> lastTradeId == old(lastTradeId)
      ensures inventory == old(inventory)
    {
      if lastTradeId.None? && recent != [] {
        lastTradeId := Some(recent[|recent| - 1].id);
      }
    }

    /**
     * One poll of `live_tail_loop` over the fetched trades, as written: the
     * new ones are those whose id string sorts after the checkpoint string.
     * They are processed, then the checkpoint becomes `new_last_id or last_id`.
     */
    method LiveTailStep(allTrades: seq<Trade>, feeRate: real) returns (outcome: PollOutcome)
      modifies this
      ensures allTrades == [] ==> outcome == NoTrades && inventory == old(inventory) && lastTradeId == old(lastTradeId)
      ensures allTrades != [] ==> PolledNew(NewTradesAsWritten(allTrades, old(lastTradeId)), feeRate,
                                            old(inventory), old(lastTradeId), inventory, lastTradeId, outcome)
    {
      if allTrades == [] {
        return NoTrades;
      }
      outcome := ProcessPoll(NewTradesAsWritten(allTrades, lastTradeId), feeRate);
    }

    /** The same poll with the trade ids compared by value (`IdAfter`) instead of as strings. */
    method LiveTailStepCorrected(allTrades: seq<Trade>, feeRate: real) returns (outcome: PollOutcome)
      modifies this
      ensures allTrades == [] ==> outcome == NoTrades && inventory == old(inventory) && lastTradeId == old(lastTradeId)
      ensures allTrades != [] ==> PolledNew(NewTrades(allTrades, old(lastTradeId)), feeRate,
                                            old(inventory), old(lastTradeId), inventory, lastTradeId, outcome)
    {
      if allTrades == [] {
        return NoTrades;
      }
      outcome := ProcessPoll(NewTrades(allTrades, lastTradeId), feeRate);
    }

    /**
     * The rest of a poll once the new trades are known: none changes nothing;
     * otherwise they are processed, stats are updated when the profit is not
     * negligible or a sell matched, a positive profit goes to the splitter,
     * and the checkpoint becomes `new_last_id or last_id`.
     */
    method ProcessPoll(newTrades: seq<Trade>, feeRate: real) returns (outcome: PollOutcome)
      modifies this
      ensures PolledNew(newTrades, feeRate, old(inventory), old(lastTradeId), inventory, lastTradeId, outcome)
    {
      var lastId := lastTradeId;
      if newTrades == [] {
        return NoNewTrades;
      }
      var realized, sellTrades, newLastId := ProcessTradesSequence(newTrades, feeRate);
      var update := Abs(realized) > Eps12 || sellTrades > 0;
      outcome := Processed(realized, sellTrades, update, update && realized > 0.0);
      lastTradeId := if newLastId.Some? && newLastId.value != "" then newLastId else lastId;
    }
  }
}
