/**
 * The regrid tool (regrid.py): a geometric ladder between two prices,
 * rounded to 8 decimals and de-duplicated, split at the last price into
 * buy and sell layers sized from a dollar amount per order.
 */
module Regrid {
  import opened Numeric
  import opened Sorting
  import opened Wrappers

  /** `max_levels`: the ladder generates at most this many levels before `pmax` is added. */
  const MaxLevels: nat := 5000

  /** The ladder elements grown after `last` while the list holds `len` levels. */
  function Grow(last: real, r: real, pmax: real, len: nat): seq<real>
    decreases MaxLevels - len
  {
    if len < MaxLevels && last * r < pmax then [last * r] + Grow(last * r, r, pmax, len + 1)
    else []
  }

  /** The unrounded ladder: `pmin`, its geometric successors below `pmax`, then `pmax`. */
  function RawLadder(pmin: real, pmax: real, stepPct: real): seq<real>
  {
    var generated := [pmin] + Grow(pmin, 1.0 + stepPct / 100.0, pmax, 1);
    if generated[|generated| - 1] != pmax then generated + [pmax] else generated
  }

  /** `round(x, 8)` on every level. */
  function Round8All(s: seq<real>): (r: seq<real>)
    ensures |r| == |s|
    ensures forall i :: 0 <= i < |s| ==> r[i] == RoundDigits(s[i], 8)
  {
    if s == [] then [] else [RoundDigits(s[0], 8)] + Round8All(s[1..])
  }

  predicate ValidRange(pmin: real, pmax: real)
  {
    pmin > 0.0 && pmax > 0.0 && pmax > pmin
  }

  /** Every grown element is below `pmax`, and at most `MaxLevels - len` are grown. */
  lemma {:induction false} GrowFacts(last: real, r: real, pmax: real, len: nat)
    ensures var g := Grow(last, r, pmax, len);
      (forall x :: x in g ==> x < pmax)
      && |g| <= (if len <= MaxLevels then MaxLevels - len else 0)
    decreases MaxLevels - len
  {
    if len < MaxLevels && last * r < pmax {
      GrowUnfold(last, r, pmax, len);
      GrowFacts(last * r, r, pmax, len + 1);
    } else {
      GrowStop(last, r, pmax, len);
    }
  }

  lemma GrowUnfold(last: real, r: real, pmax: real, len: nat)
    requires len < MaxLevels && last * r < pmax
    ensures Grow(last, r, pmax, len) == [last * r] + Grow(last * r, r, pmax, len + 1)
  {
  }

  lemma GrowStop(last: real, r: real, pmax: real, len: nat)
    requires !(len < MaxLevels && last * r < pmax)
    ensures Grow(last, r, pmax, len) == []
  {
  }

  /**
   * For a valid range the raw ladder starts at `pmin`, ends at `pmax`,
   * holds at most 5001 levels, and every level but the last is below `pmax`.
   */
  lemma RawLadderShape(pmin: real, pmax: real, stepPct: real)
    requires ValidRange(pmin, pmax)
    ensures var raw := RawLadder(pmin, pmax, stepPct);
      2 <= |raw| <= MaxLevels + 1
      && raw[0] == pmin
      && raw[|raw| - 1] == pmax
      && (forall i :: 0 <= i < |raw| - 1 ==> raw[i] < pmax)
  {
    var r := 1.0 + stepPct / 100.0;
    var g := Grow(pmin, r, pmax, 1);
    GrowFacts(pmin, r, pmax, 1);
    var generated := [pmin] + g;
    assert forall i :: 0 <= i < |generated| ==> generated[i] < pmax by {
      forall i | 0 <= i < |generated|
        ensures generated[i] < pmax
      {
        if i > 0 { assert generated[i] == g[i - 1] && g[i - 1] in g; }
      }
    }
    var raw := RawLadder(pmin, pmax, stepPct);
    assert raw == generated + [pmax];
  }

  /** The loop's levels, with `pmax` appended when missing, are the raw ladder. */
  lemma LoopLadder(levels: seq<real>, pmin: real, pmax: real, stepPct: real)
    requires levels == [pmin] + Grow(pmin, 1.0 + stepPct / 100.0, pmax, 1)
    ensures (if levels[|levels| - 1] != pmax then levels + [pmax] else levels) == RawLadder(pmin, pmax, stepPct)
  {
  }

  lemma DropEmpty(levels: seq<real>, rest: seq<real>, whole: seq<real>)
    requires rest == [] && levels + rest == whole
    ensures levels == whole
  {
  }

  /** The rounded, de-duplicated raw ladder is what `geometric_levels` returns for a valid range. */
  lemma LadderLevelsOf(raw: seq<real>, pmin: real, pmax: real, stepPct: real)
    requires ValidRange(pmin, pmax) && raw == RawLadder(pmin, pmax, stepPct)
    ensures SortedSet(Round8All(raw)) == LadderLevels(pmin, pmax, stepPct)
  {
  }

  /** One pass of the ladder loop: the levels so far and the rest of the growth still make up the whole ladder. */
  lemma GrowStep(levels: seq<real>, last: real, r: real, pmax: real, whole: seq<real>)
    requires |levels| < MaxLevels && last * r < pmax
    requires levels + Grow(last, r, pmax, |levels|) == whole
    ensures (levels + [last * r]) + Grow(last * r, r, pmax, |levels| + 1) == whole
  {
    GrowUnfold(last, r, pmax, |levels|);
    ConcatAssoc(levels, [last * r], Grow(last * r, r, pmax, |levels| + 1));
  }

  /** The levels `geometric_levels` returns. */
  function LadderLevels(pmin: real, pmax: real, stepPct: real): seq<real>
  {
    if ValidRange(pmin, pmax) then SortedSet(Round8All(RawLadder(pmin, pmax, stepPct))) else []
  }

  /**
   * `geometric_levels`: the levels, rounded to 8 decimals, without
   * duplicates and in increasing order; nothing for an invalid range.
   */
  method GeometricLevels(pmin: real, pmax: real, stepPct: real) returns (uniq: seq<real>)
    ensures uniq == LadderLevels(pmin, pmax, stepPct)
    ensures !ValidRange(pmin, pmax) ==> uniq == []
    ensures StrictlyIncreasing(uniq)
  {
    if pmin <= 0.0 || pmax <= 0.0 || pmax <= pmin {
      return [];
    }
    var r := 1.0 + stepPct / 100.0;
    ghost var whole := [pmin] + Grow(pmin, r, pmax, 1);
    var levels := [pmin];
    var last := pmin;
    while last * r < pmax && |levels| < MaxLevels
      invariant 1 <= |levels| <= MaxLevels && last == levels[|levels| - 1]
      invariant levels + Grow(last, r, pmax, |levels|) == whole
      decreases MaxLevels - |levels|
    {
      GrowStep(levels, last, r, pmax, whole);
      last := last * r;
      levels := levels + [last];
    }
    GrowStop(last, r, pmax, |levels|);
    DropEmpty(levels, Grow(last, r, pmax, |levels|), whole);
    LoopLadder(levels, pmin, pmax, stepPct);
    if levels[|levels| - 1] != pmax {
      levels := levels + [pmax];
    }
    uniq := SortedSet(Round8All(levels));
    LadderLevelsOf(levels, pmin, pmax, stepPct);
  }

  /** The output is exactly the set of rounded raw levels and contains both rounded ends. */
  lemma GeometricLevelsEnds(pmin: real, pmax: real, stepPct: real)
    requires ValidRange(pmin, pmax)
    ensures var uniq := LadderLevels(pmin, pmax, stepPct);
      RoundDigits(pmin, 8) in uniq && RoundDigits(pmax, 8) in uniq
      && 1 <= |uniq| <= MaxLevels + 1
  {
    var raw := RawLadder(pmin, pmax, stepPct);
    RawLadderShape(pmin, pmax, stepPct);
    var rounded := Round8All(raw);
    var uniq := SortedSet(rounded);
    assert rounded[0] in Elems(rounded) && rounded[|raw| - 1] in Elems(rounded);
    assert Elems(uniq) == Elems(rounded);
    assert RoundDigits(pmin, 8) in Elems(uniq);
    assert RoundDigits(pmax, 8) in Elems(uniq);
    DistinctLength(uniq, rounded);
  }

  /** A duplicate-free list is no longer than any list holding the same values. */
  lemma DistinctLength(u: seq<real>, s: seq<real>)
    requires StrictlyIncreasing(u)
    requires Elems(u) == Elems(s)
    ensures |u| <= |s|
  {
    DistinctCard(u);
    CardElems(s);
  }

  lemma {:induction false} DistinctCard(u: seq<real>)
    requires StrictlyIncreasing(u)
    ensures |Elems(u)| == |u|
  {
    if u != [] {
      DistinctCard(u[1..]);
      assert u == [u[0]] + u[1..];
      assert u[0] !in u[1..];
      assert Elems(u) == Elems(u[1..]) + {u[0]};
    }
  }

  lemma {:induction false} CardElems(s: seq<real>)
    ensures |Elems(s)| <= |s|
  {
    if s != [] {
      CardElems(s[1..]);
      assert s == [s[0]] + s[1..];
      assert Elems(s) == Elems(s[1..]) + {s[0]};
    }
  }

  /** The amount limits of the market: decimal places and the minimum amount, each possibly absent. */
  datatype Market = Market(amountPrecision: Option<nat>, minAmount: Option<real>)

  /**
   * `lot_from_usd`: the base amount bought with `usd` at `price`,
   * formatted to the market's decimal places and raised to the market
   * minimum; 0 for a non-positive price.
   */
  function LotFromUsd(market: Market, price: real, usd: real): real
  {
    if price <= 0.0 then 0.0
    else
      var amt := usd / price;
      var rounded := match market.amountPrecision
        case Some(q) => RoundDigits(amt, q)
        case None => amt;
      match market.minAmount
      case Some(step) =>
        if step != 0.0 && rounded < step then step else rounded
      case None => rounded
  }

  /**
   * A lot is 0 for a non-positive price. Otherwise it is at least a
   * non-zero market minimum, and it is either that minimum or `usd / price`
   * formatted to the market's decimals (within half a unit of the last place).
   */
  lemma LotFromUsdBounds(market: Market, price: real, usd: real)
    ensures price <= 0.0 ==> LotFromUsd(market, price, usd) == 0.0
    ensures price > 0.0 && market.minAmount.Some? && market.minAmount.value != 0.0 ==>
      LotFromUsd(market, price, usd) >= market.minAmount.value
    ensures price > 0.0 && market.amountPrecision.Some? ==>
      (market.minAmount.Some? && LotFromUsd(market, price, usd) == market.minAmount.value)
      || Abs(LotFromUsd(market, price, usd) - usd / price) * Pow10Nat(market.amountPrecision.value) <= 0.5
    ensures price > 0.0 && market.amountPrecision.None? ==>
      (market.minAmount.Some? && LotFromUsd(market, price, usd) == market.minAmount.value)
      || LotFromUsd(market, price, usd) == usd / price
  {
  }

  /** `fetch_last_price`: the first non-zero of last, close, bid and ask, else 0. */
  function LastPrice(last: Option<real>, close: Option<real>, bid: Option<real>, ask: Option<real>): (p: real)
    ensures p != 0.0 ==> Some(p) in [last, close, bid, ask]
    ensures p == 0.0 <==> forall o :: o in [last, close, bid, ask] ==> o.None? || o.value == 0.0
  {
    if last.Some? && last.value != 0.0 then last.value
    else if close.Some? && close.value != 0.0 then close.value
    else if bid.Some? && bid.value != 0.0 then bid.value
    else if ask.Some? && ask.value != 0.0 then ask.value
    else 0.0
  }

  /** An order `seed_grid` sends to the exchange. */
  datatype Placement = LimitBuy(price: real, amount: real) | LimitSell(price: real, amount: real)

  /** How `seed_grid` ends: aborted for want of a price or of levels, or with a plan (and the orders it sent). */
  datatype SeedOutcome =
    | NoLastPrice
    | TooFewLevels
    | Planned(buys: seq<(real, real)>, sells: seq<(real, real)>, sent: seq<Placement>)

  /** The sizing `seed_grid` applies to every level: `lot_from_usd` with the market and the dollar amount per order. */
  function Lot(market: Market, usd: real): real -> real
  {
    px => LotFromUsd(market, px, usd)
  }

  /** The (price, amount) layers on one side of `last`: below it for buys, above it for sells, positive amounts only. */
  function Layers(levels: seq<real>, last: real, lot: real -> real, buySide: bool): seq<(real, real)>
  {
    if levels == [] then []
    else LayerAt(levels[0], last, lot, buySide) + Layers(levels[1..], last, lot, buySide)
  }

  /** The layer one level contributes: itself with its amount, when on the right side and the amount is positive. */
  function LayerAt(px: real, last: real, lot: real -> real, buySide: bool): seq<(real, real)>
  {
    var amt := lot(px);
    if (if buySide then px < last else px > last) && amt > 0.0 then [(px, amt)] else []
  }

  /**
   * A layer is a level on the requested side of the last price with its
   * positive lot amount, and every such level gives a layer.
   */
  lemma LayersFacts(levels: seq<real>, last: real, lot: real -> real, buySide: bool)
    ensures var r := Layers(levels, last, lot, buySide);
      (forall i :: 0 <= i < |r| ==> r[i].0 in levels && r[i].1 > 0.0 && r[i].1 == lot(r[i].0))
      && (forall i :: 0 <= i < |r| ==> if buySide then r[i].0 < last else r[i].0 > last)
      && (forall px ::
            px in levels && (if buySide then px < last else px > last) && lot(px) > 0.0 ==> (px, lot(px)) in r)
  {
    LayersSound(levels, last, lot, buySide);
    LayersComplete(levels, last, lot, buySide);
    var r := Layers(levels, last, lot, buySide);
    assert forall i :: 0 <= i < |r| ==> r[i] in r;
  }

  lemma {:induction false} LayersSound(levels: seq<real>, last: real, lot: real -> real, buySide: bool)
    ensures forall l :: l in Layers(levels, last, lot, buySide) ==>
      l.0 in levels && l.1 > 0.0 && l.1 == lot(l.0) && (if buySide then l.0 < last else l.0 > last)
  {
    if levels != [] {
      LayersSound(levels[1..], last, lot, buySide);
      var here := LayerAt(levels[0], last, lot, buySide);
      var rest := Layers(levels[1..], last, lot, buySide);
      assert Layers(levels, last, lot, buySide) == here + rest;
      assert forall x :: x in levels[1..] ==> x in levels;
    }
  }

  lemma {:induction false} LayersComplete(levels: seq<real>, last: real, lot: real -> real, buySide: bool)
    ensures forall px ::
      px in levels && (if buySide then px < last else px > last) && lot(px) > 0.0
      ==> (px, lot(px)) in Layers(levels, last, lot, buySide)
  {
    if levels != [] {
      LayersComplete(levels[1..], last, lot, buySide);
      var here := LayerAt(levels[0], last, lot, buySide);
      var rest := Layers(levels[1..], last, lot, buySide);
      var r := here + rest;
      assert Layers(levels, last, lot, buySide) == r;
      forall px | px in levels && (if buySide then px < last else px > last) && lot(px) > 0.0
        ensures (px, lot(px)) in r
      {
        if px == levels[0] {
          assert r[0] == (px, lot(px));
        } else {
          assert px in levels[1..];
          var k :| 0 <= k < |rest| && rest[k] == (px, lot(px));
          assert r[|here| + k] == rest[k];
        }
      }
    }
  }

  /** The orders sent when applying a plan: every buy layer, then every sell layer. */
  function Placements(buys: seq<(real, real)>, sells: seq<(real, real)>): (r: seq<Placement>)
    ensures |r| == |buys| + |sells|
    ensures forall i :: 0 <= i < |buys| ==> r[i] == LimitBuy(buys[i].0, buys[i].1)
    ensures forall i :: 0 <= i < |sells| ==> r[|buys| + i] == LimitSell(sells[i].0, sells[i].1)
  {
    if buys != [] then [LimitBuy(buys[0].0, buys[0].1)] + Placements(buys[1..], sells)
    else if sells != [] then [LimitSell(sells[0].0, sells[0].1)] + Placements([], sells[1..])
    else []
  }

  /**
   * `seed_grid`, given the fetched last price: abort on a non-positive
   * price or fewer than two levels; otherwise split the levels at the last
   * price and, only when `apply` is set, send every layer as a limit order.
   * A failed placement is reported and skipped, so it changes nothing here.
   */
  method SeedGrid(last: real, pmin: real, pmax: real, stepPct: real, baseOrderUsd: real,
                  market: Market, apply: bool) returns (outcome: SeedOutcome)
    ensures last <= 0.0 ==> outcome == NoLastPrice
    ensures last > 0.0 && |LadderLevels(pmin, pmax, stepPct)| < 2 ==> outcome == TooFewLevels
    ensures last > 0.0 && |LadderLevels(pmin, pmax, stepPct)| >= 2 ==>
      var levels := LadderLevels(pmin, pmax, stepPct);
      var buys := Layers(levels, last, Lot(market, baseOrderUsd), true);
      var sells := Layers(levels, last, Lot(market, baseOrderUsd), false);
      outcome == Planned(buys, sells, if apply then Placements(buys, sells) else [])
  {
    if last <= 0.0 {
      return NoLastPrice;
    }
    var levels := GeometricLevels(pmin, pmax, stepPct);
    if |levels| < 2 {
      return TooFewLevels;
    }
    var buys, sells := SplitLevels(levels, last, Lot(market, baseOrderUsd));
    var sent: seq<Placement> := [];
    if apply {
      sent := PlaceLayers(buys, sells);
    }
    outcome := Planned(buys, sells, sent);
  }

  /** The loop of `seed_grid` that sorts the levels into buy and sell layers. */
  method SplitLevels(levels: seq<real>, last: real, lot: real -> real)
    returns (buys: seq<(real, real)>, sells: seq<(real, real)>)
    ensures buys == Layers(levels, last, lot, true)
    ensures sells == Layers(levels, last, lot, false)
  {
    buys := [];
    sells := [];
    for i := 0 to |levels|
      invariant buys + Layers(levels[i..], last, lot, true) == Layers(levels, last, lot, true)
      invariant sells + Layers(levels[i..], last, lot, false) == Layers(levels, last, lot, false)
    {
      var px := levels[i];
      SplitStep(buys, sells, levels, i, last, lot);
      if px < last {
        var amt := lot(px);
        if amt > 0.0 {
          buys := buys + [(px, amt)];
        }
      } else if px > last {
        var amt := lot(px);
        if amt > 0.0 {
          sells := sells + [(px, amt)];
        }
      }
    }
    assert levels[|levels|..] == [];
  }

  /** The loops of `seed_grid` that send every buy layer, then every sell layer. */
  method PlaceLayers(buys: seq<(real, real)>, sells: seq<(real, real)>) returns (sent: seq<Placement>)
    ensures sent == Placements(buys, sells)
  {
    sent := [];
    for i := 0 to |buys|
      invariant |sent| == i
      invariant forall k :: 0 <= k < i ==> sent[k] == LimitBuy(buys[k].0, buys[k].1)
    {
      sent := sent + [LimitBuy(buys[i].0, buys[i].1)];
    }
    for i := 0 to |sells|
      invariant |sent| == |buys| + i
      invariant forall k :: 0 <= k < |buys| ==> sent[k] == LimitBuy(buys[k].0, buys[k].1)
      invariant forall k :: 0 <= k < i ==> sent[|buys| + k] == LimitSell(sells[k].0, sells[k].1)
    {
      sent := sent + [LimitSell(sells[i].0, sells[i].1)];
    }
    var p := Placements(buys, sells);
    assert |sent| == |p|;
    forall k | 0 <= k < |p|
      ensures sent[k] == p[k]
    {
      if k >= |buys| {
        var j := k - |buys|;
        assert p[|buys| + j] == LimitSell(sells[j].0, sells[j].1);
        assert sent[|buys| + j] == LimitSell(sells[j].0, sells[j].1);
      }
    }
  }

  /** Peeling one level off the unprocessed suffix. */
  lemma LayersStep(levels: seq<real>, i: nat, last: real, lot: real -> real)
    requires i < |levels|
    ensures Layers(levels[i..], last, lot, true)
         == LayerAt(levels[i], last, lot, true) + Layers(levels[i + 1..], last, lot, true)
    ensures Layers(levels[i..], last, lot, false)
         == LayerAt(levels[i], last, lot, false) + Layers(levels[i + 1..], last, lot, false)
  {
    assert levels[i..][1..] == levels[i + 1..];
  }

  /** A level gives a layer on its own side of the last price only, and none at the last price. */
  lemma LayerAtSides(px: real, last: real, lot: real -> real)
    ensures var amt := lot(px);
      (px < last ==> LayerAt(px, last, lot, false) == []
                     && LayerAt(px, last, lot, true) == if amt > 0.0 then [(px, amt)] else [])
      && (px > last ==> LayerAt(px, last, lot, true) == []
                        && LayerAt(px, last, lot, false) == if amt > 0.0 then [(px, amt)] else [])
      && (px == last ==> LayerAt(px, last, lot, true) == [] && LayerAt(px, last, lot, false) == [])
  {
  }

  /** One pass of the splitting loop on one side: the layers so far, this level's and the rest's still make up the side. */
  lemma SideStep(acc: seq<(real, real)>, levels: seq<real>, i: nat, last: real, lot: real -> real, buySide: bool,
                 whole: seq<(real, real)>)
    requires i < |levels|
    requires acc + Layers(levels[i..], last, lot, buySide) == whole
    ensures (acc + LayerAt(levels[i], last, lot, buySide)) + Layers(levels[i + 1..], last, lot, buySide) == whole
  {
    LayersStep(levels, i, last, lot);
    ConcatAssoc(acc, LayerAt(levels[i], last, lot, buySide), Layers(levels[i + 1..], last, lot, buySide));
  }

  /** One pass of the splitting loop: the level joins the buys below the last price, the sells above it, and neither at it. */
  lemma SplitStep(buys: seq<(real, real)>, sells: seq<(real, real)>, levels: seq<real>, i: nat, last: real, lot: real -> real)
    requires i < |levels|
    requires buys + Layers(levels[i..], last, lot, true) == Layers(levels, last, lot, true)
    requires sells + Layers(levels[i..], last, lot, false) == Layers(levels, last, lot, false)
    ensures var px := levels[i];
      var buys' := if px < last && lot(px) > 0.0 then buys + [(px, lot(px))] else buys;
      var sells' := if px > last && lot(px) > 0.0 then sells + [(px, lot(px))] else sells;
      buys' + Layers(levels[i + 1..], last, lot, true) == Layers(levels, last, lot, true)
      && sells' + Layers(levels[i + 1..], last, lot, false) == Layers(levels, last, lot, false)
  {
    var px := levels[i];
    SideStep(buys, levels, i, last, lot, true, Layers(levels, last, lot, true));
    SideStep(sells, levels, i, last, lot, false, Layers(levels, last, lot, false));
    LayerAtSides(px, last, lot);
    ConcatNil(buys);
    ConcatNil(sells);
  }

  lemma ConcatNil(s: seq<(real, real)>)
    ensures s + [] == s
  {
  }

  /** No level is sent on both sides, and a level equal to the last price on neither. */
  lemma LayersPartition(levels: seq<real>, last: real, lot: real -> real)
    ensures var buys := Layers(levels, last, lot, true);
      var sells := Layers(levels, last, lot, false);
      (forall i, j :: 0 <= i < |buys| && 0 <= j < |sells| ==> buys[i].0 < sells[j].0)
      && (forall i :: 0 <= i < |buys| ==> buys[i].0 != last)
      && (forall j :: 0 <= j < |sells| ==> sells[j].0 != last)
  {
    LayersFacts(levels, last, lot, true);
    LayersFacts(levels, last, lot, false);
  }
}
