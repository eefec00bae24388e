/**
 * The grid bot of main.py: rounding to the exchange's tick and lot step,
 * the geometric grid, the bootstrap of buy orders below the price, and the
 * fill handler that pairs every filled buy with a sell one step higher and
 * books the profit of every filled sell.
 *
 * Exchange calls are inputs: the ticker and the balance as optional values
 * (absent when the call raised), the order list as it was fetched, and the
 * placement of an order as a function saying whether (and under which id)
 * the exchange took it.
 */
module MainBot {
  import opened Numeric
  import opened Sorting
  import opened Wrappers
  import GridEngine

  // ==================== configuration ====================

  /** The environment settings the bot reads: grid range and step, order size, cycle budget, fee buffer. */
  datatype Config = Config(low: real, high: real, stepPct: real, baseOrderUsd: real, maxCycleUsd: real, feeBuffer: real)

  /** `GRID_LOW`, `GRID_HIGH`, `STEP_PCT`, `BASE_ORDER_USD`, `MAX_CYCLE_USD` and `FEE_BUFFER` when not set. */
  const Defaults: Config := Config(0.13, 0.32, 1.0, 5.0, 40.0, 0.001)

  /** The bootstrap never sends more than this many buy orders. */
  const MaxBootstrapOrders: nat := 7

  /** What the bot loads about the market: price tick, lot step and minimum notional. */
  datatype Market = Market(priceTick: real, amountStep: real, minCost: real)

  // ==================== rounding ====================

  /**
   * `round_price_down` and `round_amount_down`: the largest whole number of
   * ticks that does not exceed `x`; a non-positive tick leaves `x` as it is.
   * (The `quantize` that follows only fixes the exponent of a value that is
   * already a multiple of the tick.)
   */
  function RoundDown(x: real, tick: real): (r: real)
    ensures tick <= 0.0 ==> r == x
    ensures tick > 0.0 ==> IsMultipleOf(r, tick) && r <= x < r + tick
    ensures r <= x
  {
    if tick <= 0.0 then x else FloorToStep(x, tick)
  }

  /** No multiple of the tick at or below `x` is above the rounded value. */
  lemma RoundDownIsLargest(x: real, tick: real, k: int)
    requires tick > 0.0 && k as real * tick <= x
    ensures k as real * tick <= RoundDown(x, tick)
  {
    var j := (x / tick).Floor;
    assert RoundDown(x, tick) == j as real * tick;
    DivLe(k as real * tick, x, tick);
    assert (k as real * tick) / tick == k as real;
    assert k <= j;
    MulLe(k as real, j as real, tick);
  }

  /** Rounding an already rounded value changes nothing. */
  lemma RoundDownIdempotent(x: real, tick: real)
    ensures RoundDown(RoundDown(x, tick), tick) == RoundDown(x, tick)
  {
    if tick > 0.0 {
      FloorToStepFixed(RoundDown(x, tick), tick);
    }
  }

  /** Rounding down keeps the order of its arguments. */
  lemma RoundDownMonotone(x: real, y: real, tick: real)
    requires x <= y
    ensures RoundDown(x, tick) <= RoundDown(y, tick)
  {
    if tick > 0.0 {
      FloorToStepMonotone(x, y, tick);
    }
  }

  /** Dividing both sides by a positive number keeps `<=`. */
  lemma DivLe(a: real, b: real, c: real)
    requires a <= b && c > 0.0
    ensures a / c <= b / c
  {
    MulLe(a, b, 1.0 / c);
    assert a / c == a * (1.0 / c) && b / c == b * (1.0 / c);
  }

  // ==================== grid levels ====================

  /** `1 + step/100`, the ratio between neighbouring levels. */
  function Multiplier(stepPct: real): real
  {
    1.0 + stepPct / 100.0
  }

  /** The arguments for which `compute_grid_levels` returns: invalid bounds, or a positive step (the loop has no iteration cap). */
  predicate ValidGridArgs(low: real, high: real, stepPct: real)
  {
    low <= 0.0 || high <= 0.0 || high <= low || stepPct > 0.0
  }

  /** Each level above `low` is at least `low * (m - 1)` above the level before it. */
  lemma ClimbGap(p: real, m: real, low: real)
    requires 0.0 < low <= p && m > 1.0
    ensures low * (m - 1.0) > 0.0
    ensures p * m >= p + low * (m - 1.0)
  {
    MulLe(low, p, m - 1.0);
    MulLt(0.0, low, m - 1.0);
    assert p * (m - 1.0) == p * m - p;
  }

  /** How many more levels fit below `bound`, at most: the loop's termination measure. */
  function ClimbMeasure(p: real, bound: real, m: real, low: real): nat
    requires low > 0.0 && m > 1.0
  {
    if p <= bound then
      ClimbGap(low, m, low);
      DivLe(0.0, bound - p, low * (m - 1.0));
      ((bound - p) / (low * (m - 1.0))).Floor + 1
    else 0
  }

  /** `b <= a - d` puts `b / d` a whole unit below `a / d`, so its floor is smaller. */
  lemma DivStepDown(a: real, b: real, d: real)
    requires d > 0.0 && b <= a - d
    ensures (b / d).Floor < (a / d).Floor
  {
    DivLe(b, a - d, d);
    DivSub(a, d);
  }

  lemma DivSub(a: real, d: real)
    requires d > 0.0
    ensures (a - d) / d == a / d - 1.0
  {
    var inv := 1.0 / d;
    assert d * inv == 1.0;
    assert (a - d) / d == (a - d) * inv;
    assert a / d == a * inv;
    assert (a - d) * inv == a * inv - d * inv;
  }

  /** One more level strictly lowers the measure. */
  lemma ClimbDecreases(p: real, bound: real, m: real, low: real)
    requires 0.0 < low <= p && m > 1.0 && p <= bound
    ensures low <= p * m
    ensures ClimbMeasure(p * m, bound, m, low) < ClimbMeasure(p, bound, m, low)
  {
    ClimbGap(p, m, low);
    if p * m <= bound {
      DivStepDown(bound - p, bound - p * m, low * (m - 1.0));
    }
  }

  /** The levels the loop appends from `p` on: `p, p*m, p*m*m, ...` while they stay within `bound`. */
  function Climb(p: real, bound: real, m: real, low: real): seq<real>
    requires 0.0 < low <= p && m > 1.0
    decreases ClimbMeasure(p, bound, m, low)
  {
    if p <= bound then
      ClimbDecreases(p, bound, m, low);
      [p] + Climb(p * m, bound, m, low)
    else []
  }

  /** One step of the climb. */
  lemma ClimbUnfold(p: real, bound: real, m: real, low: real)
    requires 0.0 < low <= p && m > 1.0 && p <= bound
    ensures low <= p * m
    ensures ClimbMeasure(p * m, bound, m, low) < ClimbMeasure(p, bound, m, low)
    ensures Climb(p, bound, m, low) == [p] + Climb(p * m, bound, m, low)
  {
    ClimbDecreases(p, bound, m, low);
  }

  /** The climb from `p` is empty exactly when `p` is out of range, and otherwise starts at `p`. */
  lemma ClimbHead(p: real, bound: real, m: real, low: real)
    requires 0.0 < low <= p && m > 1.0
    ensures var s := Climb(p, bound, m, low);
      (|s| > 0 <==> p <= bound) && (|s| > 0 ==> s[0] == p)
  {
  }

  /** The climb stops only where the next level would leave the range. */
  lemma {:induction false} ClimbLast(p: real, bound: real, m: real, low: real)
    requires 0.0 < low <= p && m > 1.0
    ensures var s := Climb(p, bound, m, low);
      |s| > 0 ==> s[|s| - 1] * m > bound
    decreases ClimbMeasure(p, bound, m, low)
  {
    if p <= bound {
      ClimbDecreases(p, bound, m, low);
      ClimbLast(p * m, bound, m, low);
      ClimbHead(p * m, bound, m, low);
      var t := Climb(p * m, bound, m, low);
      var s := [p] + t;
      assert Climb(p, bound, m, low) == s;
      if |t| > 0 {
        assert s[|s| - 1] == t[|t| - 1];
      }
    }
  }

  /** Every level of the climb lies in `[low, bound]`. */
  lemma {:induction false} ClimbWithin(p: real, bound: real, m: real, low: real)
    requires 0.0 < low <= p && m > 1.0
    ensures forall x :: x in Climb(p, bound, m, low) ==> low <= x <= bound
    decreases ClimbMeasure(p, bound, m, low)
  {
    if p <= bound {
      ClimbDecreases(p, bound, m, low);
      ClimbWithin(p * m, bound, m, low);
      var t := Climb(p * m, bound, m, low);
      assert Climb(p, bound, m, low) == [p] + t;
    }
  }

  /** Each level of the climb is the one before it times `m`. */
  lemma {:induction false} ClimbGeometric(p: real, bound: real, m: real, low: real)
    requires 0.0 < low <= p && m > 1.0
    ensures GridEngine.Geometric(Climb(p, bound, m, low), m)
    decreases ClimbMeasure(p, bound, m, low)
  {
    if p <= bound {
      ClimbDecreases(p, bound, m, low);
      ClimbGeometric(p * m, bound, m, low);
      ClimbHead(p * m, bound, m, low);
      var t := Climb(p * m, bound, m, low);
      GridEngine.ConsGeometric(p, t, m);
      assert Climb(p, bound, m, low) == [p] + t;
    }
  }

  /** The climb is strictly increasing. */
  lemma {:induction false} ClimbIncreasing(p: real, bound: real, m: real, low: real)
    requires 0.0 < low <= p && m > 1.0
    ensures StrictlyIncreasing(Climb(p, bound, m, low))
    decreases ClimbMeasure(p, bound, m, low)
  {
    if p <= bound {
      GridEngine.Grows(p, m);
      var t := Climb(p * m, bound, m, low);
      assert StrictlyIncreasing([p] + t) by {
        ClimbDecreases(p, bound, m, low);
        ClimbIncreasing(p * m, bound, m, low);
        ClimbClimbs(p, bound, m, low);
        GridEngine.HeadBelowAll(p, t);
        ConsIncreasing(p, t);
      }
      assert Climb(p, bound, m, low) == [p] + t;
    }
  }

  /** With a ratio above one, the climb after `p` starts above `p`. */
  lemma ClimbClimbs(p: real, bound: real, m: real, low: real)
    requires 0.0 < low <= p && m > 1.0
    ensures var t := Climb(p * m, bound, m, low); |t| > 0 ==> p < t[0]
  {
    GridEngine.Grows(p, m);
    ClimbHead(p * m, bound, m, low);
    FirstAbove(p, m, Climb(p * m, bound, m, low));
  }

  /** A list that starts at `p * m`, for a ratio above one, starts above `p`. */
  lemma FirstAbove(p: real, m: real, t: seq<real>)
    requires p > 0.0 && m > 1.0 && (|t| > 0 ==> t[0] == p * m)
    ensures |t| > 0 ==> p < t[0]
  {
    GridEngine.Grows(p, m);
  }

  /** The whole shape of a climb, gathered from the lemmas above. */
  lemma ClimbShape(p: real, bound: real, m: real, low: real)
    requires 0.0 < low <= p && m > 1.0
    ensures var s := Climb(p, bound, m, low);
      (|s| > 0 <==> p <= bound)
      && (|s| > 0 ==> s[0] == p && s[|s| - 1] * m > bound)
      && (forall x :: x in s ==> low <= x <= bound)
      && GridEngine.Geometric(s, m)
      && StrictlyIncreasing(s)
  {
    ClimbHead(p, bound, m, low);
    ClimbLast(p, bound, m, low);
    ClimbWithin(p, bound, m, low);
    ClimbGeometric(p, bound, m, low);
    ClimbIncreasing(p, bound, m, low);
  }

  /**
   * `compute_grid_levels`: no levels for invalid bounds; otherwise the climb
   * from `low` within `high + 1e-18`, with `high` appended when the last
   * level falls short of it.
   */
  function GridLevels(low: real, high: real, stepPct: real): seq<real>
    requires ValidGridArgs(low, high, stepPct)
  {
    if low <= 0.0 || high <= 0.0 || high <= low then []
    else
      var g := Climb(low, high + Eps18, Multiplier(stepPct), low);
      ClimbHead(low, high + Eps18, Multiplier(stepPct), low);
      if g[|g| - 1] < high then g + [high] else g
  }

  /** The grid is the climb from `low`, with `high` appended when the climb falls short of it. */
  lemma GridLevelsUnfold(low: real, high: real, stepPct: real)
    requires 0.0 < low < high && stepPct > 0.0
    ensures var g := Climb(low, high + Eps18, Multiplier(stepPct), low);
      |g| > 0 && GridLevels(low, high, stepPct) == if g[|g| - 1] < high then g + [high] else g
  {
    ClimbHead(low, high + Eps18, Multiplier(stepPct), low);
  }

  /**
   * The shape of the grid: empty for invalid bounds; otherwise it starts at
   * `low`, is strictly increasing, stays within `[low, high + 1e-18]` and
   * ends at or above `high`.
   */
  lemma GridLevelsShape(low: real, high: real, stepPct: real)
    requires ValidGridArgs(low, high, stepPct)
    ensures low <= 0.0 || high <= 0.0 || high <= low ==> GridLevels(low, high, stepPct) == []
    ensures 0.0 < low < high ==>
      var r := GridLevels(low, high, stepPct);
      |r| > 0 && r[0] == low
      && StrictlyIncreasing(r)
      && (forall x :: x in r ==> low <= x <= high + Eps18)
      && r[|r| - 1] >= high
  {
    if 0.0 < low < high {
      var m := Multiplier(stepPct);
      var bound := high + Eps18;
      var g := Climb(low, bound, m, low);
      GridLevelsUnfold(low, high, stepPct);
      ClimbHead(low, bound, m, low);
      ClimbWithin(low, bound, m, low);
      ClimbIncreasing(low, bound, m, low);
      if g[|g| - 1] < high {
        AppendHighShape(g, low, high, bound, m);
      }
    }
  }

  /**
   * The grid is geometric with ratio `1 + step/100` up to its last loop
   * level, which is the last level or the one before an appended `high`;
   * one more step from there would leave `[low, high + 1e-18]`.
   */
  lemma GridLevelsGeometric(low: real, high: real, stepPct: real)
    requires 0.0 < low < high && stepPct > 0.0
    ensures GeometricUpToLoop(GridLevels(low, high, stepPct), high, high + Eps18, Multiplier(stepPct))
  {
    GridLevelsUnfold(low, high, stepPct);
    ClimbLast(low, high + Eps18, Multiplier(stepPct), low);
    ClimbGeometric(low, high + Eps18, Multiplier(stepPct), low);
    LadderTail(Climb(low, high + Eps18, Multiplier(stepPct), low), high, high + Eps18, Multiplier(stepPct));
  }

  /**
   * `r` is geometric with ratio `m` up to its last loop level, and one more
   * step from that level would pass `bound`: either the whole list is the
   * loop's, or `high` was appended after a last loop level below it.
   */
  ghost predicate GeometricUpToLoop(r: seq<real>, high: real, bound: real, m: real)
  {
    (|r| > 0 && GridEngine.Geometric(r, m) && r[|r| - 1] * m > bound)
    || (|r| >= 2 && r[|r| - 1] == high && r[|r| - 2] < high
        && GridEngine.Geometric(r[..|r| - 1], m) && r[|r| - 2] * m > bound)
  }

  /** A complete geometric ladder with `high` appended when it falls short: geometric up to its last loop level. */
  lemma LadderTail(g: seq<real>, high: real, bound: real, m: real)
    requires |g| > 0 && GridEngine.Geometric(g, m) && g[|g| - 1] * m > bound
    ensures GeometricUpToLoop(if g[|g| - 1] < high then g + [high] else g, high, bound, m)
  {
    if g[|g| - 1] < high {
      var r := g + [high];
      assert r[..|r| - 1] == g;
      assert r[|r| - 2] == g[|g| - 1];
    }
  }

  /** Appending `high` to a ladder that falls short of it: still increasing, and geometric up to the appended level. */
  lemma AppendHighShape(g: seq<real>, low: real, high: real, bound: real, m: real)
    requires |g| > 0 && g[0] == low && g[|g| - 1] < high <= bound
    requires forall x :: x in g ==> low <= x <= bound
    requires StrictlyIncreasing(g)
    ensures var r := g + [high];
      r[0] == low && r[|r| - 2] == g[|g| - 1] && r[..|r| - 1] == g
    ensures StrictlyIncreasing(g + [high])
    ensures forall x :: x in g + [high] ==> low <= x <= bound
  {
    var r := g + [high];
    GridEngine.AppendIncreasing(g, high);
    assert r[..|r| - 1] == g;
    assert forall x :: x in r ==> x in g || x == high;
    assert g[0] in g;
  }

  /** Every grid level is positive, so dividing by one is safe. */
  lemma GridLevelsPositive(low: real, high: real, stepPct: real)
    requires ValidGridArgs(low, high, stepPct)
    ensures forall x :: x in GridLevels(low, high, stepPct) ==> x > 0.0
  {
    GridLevelsShape(low, high, stepPct);
  }

  /** One pass of the `while` loop: the levels so far and the rest of the climb still make up the whole climb. */
  lemma ClimbStep(levels: seq<real>, p: real, bound: real, m: real, low: real, whole: seq<real>)
    requires 0.0 < low <= p && m > 1.0 && p <= bound
    requires levels + Climb(p, bound, m, low) == whole
    ensures low <= p * m
    ensures ClimbMeasure(p * m, bound, m, low) < ClimbMeasure(p, bound, m, low)
    ensures (levels + [p]) + Climb(p * m, bound, m, low) == whole
  {
    ClimbUnfold(p, bound, m, low);
    ConcatAssoc(levels, [p], Climb(p * m, bound, m, low));
  }

  /** A level past `bound` ends the climb. */
  lemma ClimbPast(p: real, bound: real, m: real, low: real)
    requires 0.0 < low <= p && m > 1.0 && p > bound
    ensures Climb(p, bound, m, low) == []
  {
  }

  /** `compute_grid_levels`, with the source's `while` loop. */
  method ComputeGridLevels(low: real, high: real, stepPct: real) returns (levels: seq<real>)
    requires ValidGridArgs(low, high, stepPct)
    ensures levels == GridLevels(low, high, stepPct)
  {
    if low <= 0.0 || high <= 0.0 || high <= low {
      return [];
    }
    var multiplier := Multiplier(stepPct);
    var bound := high + Eps18;
    ghost var whole := Climb(low, bound, multiplier, low);
    levels := [];
    var price := low;
    while price <= bound
      invariant low <= price
      invariant levels + Climb(price, bound, multiplier, low) == whole
      decreases ClimbMeasure(price, bound, multiplier, low)
    {
      ClimbStep(levels, price, bound, multiplier, low, whole);
      levels := levels + [price];
      price := price * multiplier;
    }
    ClimbPast(price, bound, multiplier, low);
    assert levels == whole;
    GridLevelsUnfold(low, high, stepPct);
    if levels[|levels| - 1] < high {
      levels := levels + [high];
    }
  }

  // ==================== orders and sizing ====================

  /**
   * An order record as `fetch_orders` returns it: only the fields the fill
   * handler reads. `symbol` and the four numbers may be missing.
   */
  datatype Order = Order(
    id: string, symbol: Option<string>, side: string, status: string,
    filled: Option<real>, amount: Option<real>, average: Option<real>, price: Option<real>)

  /** `order.get("filled") or order.get("amount") or 0`. */
  function FilledAmount(o: Order): (r: real)
    ensures Truthy(o.filled) ==> r == o.filled.value
    ensures !Truthy(o.filled) && Truthy(o.amount) ==> r == o.amount.value
    ensures !Truthy(o.filled) && !Truthy(o.amount) ==> r == 0.0
  {
    OrElse(o.filled, OrElse(o.amount, 0.0))
  }

  /** `order.get("average") or order.get("price") or 0`. */
  function AveragePrice(o: Order): (r: real)
    ensures Truthy(o.average) ==> r == o.average.value
    ensures !Truthy(o.average) && Truthy(o.price) ==> r == o.price.value
    ensures !Truthy(o.average) && !Truthy(o.price) ==> r == 0.0
  {
    OrElse(o.average, OrElse(o.price, 0.0))
  }

  /** The order is for `symbol`, on `side`, and closed. */
  predicate IsClosed(o: Order, symbol: string, side: string)
  {
    o.symbol == Some(symbol) && o.side == side && o.status == "closed"
  }

  /** How an order was sized: the Decimal division by a zero price raised, or a quantity at a price. */
  datatype Sizing = SizingRaises | Sized(qty: real, price: real)

  /**
   * The minimum-notional rule shared by buys and sells: a quantity whose
   * value at `price` is below the market's minimum cost is replaced by the
   * minimum cost's worth plus the fee buffer, rounded down to the lot step.
   * Dividing by a zero price raises.
   */
  function MeetMinCost(qty: real, price: real, feeBuffer: real, mkt: Market): (s: Sizing)
    ensures qty * price >= mkt.minCost ==> s == Sized(qty, price)
    ensures s.SizingRaises? <==> qty * price < mkt.minCost && price == 0.0
    ensures s.Sized? ==> s.price == price
  {
    if qty * price < mkt.minCost then
      if price == 0.0 then SizingRaises
      else Sized(RoundDown(mkt.minCost / price * (1.0 + feeBuffer), mkt.amountStep), price)
    else Sized(qty, price)
  }

  /**
   * A topped-up quantity is the largest lot multiple within the minimum cost
   * plus the fee buffer: its value lies within one lot of `minCost * (1 + fee)`.
   */
  lemma TopUpBounds(qty: real, price: real, feeBuffer: real, mkt: Market)
    requires mkt.amountStep > 0.0 && price > 0.0 && qty * price < mkt.minCost
    ensures var s := MeetMinCost(qty, price, feeBuffer, mkt);
      s.Sized? && IsMultipleOf(s.qty, mkt.amountStep)
      && s.qty * price <= mkt.minCost * (1.0 + feeBuffer)
      && mkt.minCost * (1.0 + feeBuffer) < (s.qty + mkt.amountStep) * price
  {
    var need := mkt.minCost / price * (1.0 + feeBuffer);
    var q := RoundDown(need, mkt.amountStep);
    assert need * price == mkt.minCost * (1.0 + feeBuffer);
    MulLe(q, need, price);
    MulLt(need, q + mkt.amountStep, price);
  }

  /** The sell target: one grid step above the buy's average price, rounded down to the tick. */
  function SellTarget(avg: real, cfg: Config, mkt: Market): (t: real)
    ensures mkt.priceTick > 0.0 ==>
      IsMultipleOf(t, mkt.priceTick) && t <= avg * Multiplier(cfg.stepPct) < t + mkt.priceTick
    ensures mkt.priceTick <= 0.0 ==> t == avg * Multiplier(cfg.stepPct)
  {
    RoundDown(avg * Multiplier(cfg.stepPct), mkt.priceTick)
  }

  /** The sell for a filled buy: the fill less the fee buffer, rounded to the lot, topped up to the minimum notional. */
  function SellSizing(filled: real, avg: real, cfg: Config, mkt: Market): Sizing
  {
    MeetMinCost(SellQty(filled, cfg, mkt), SellTarget(avg, cfg, mkt), cfg.feeBuffer, mkt)
  }

  /** The fill less the fee buffer, rounded down to the lot step. */
  function SellQty(filled: real, cfg: Config, mkt: Market): (q: real)
    ensures mkt.amountStep > 0.0 ==>
      IsMultipleOf(q, mkt.amountStep) && q <= filled * (1.0 - cfg.feeBuffer) < q + mkt.amountStep
    ensures mkt.amountStep <= 0.0 ==> q == filled * (1.0 - cfg.feeBuffer)
  {
    RoundDown(filled * (1.0 - cfg.feeBuffer), mkt.amountStep)
  }

  /**
   * A sell that already meets the minimum notional never offers more than
   * the fill less the fee buffer, and the lot rounding loses less than one step.
   */
  lemma SellWithinFill(filled: real, avg: real, cfg: Config, mkt: Market)
    requires mkt.amountStep > 0.0
    requires SellQty(filled, cfg, mkt) * SellTarget(avg, cfg, mkt) >= mkt.minCost
    ensures var s := SellSizing(filled, avg, cfg, mkt);
      s.Sized? && s.price == SellTarget(avg, cfg, mkt)
      && IsMultipleOf(s.qty, mkt.amountStep)
      && s.qty <= filled * (1.0 - cfg.feeBuffer) < s.qty + mkt.amountStep
  {
    assert SellSizing(filled, avg, cfg, mkt) == Sized(SellQty(filled, cfg, mkt), SellTarget(avg, cfg, mkt));
  }

  // ==================== trading state ====================

  /** What `buy_fills` and `sell_fills` keep of a fill. */
  datatype Fill = Fill(price: real, amount: real)

  /** One entry of `child_sells`: the sell placed for a buy. */
  datatype Link = Link(buy: string, sell: string)

  /**
   * The trading state as values: the processed buy ids, `child_sells` as an
   * insertion-ordered list of entries (a Python dict keeps that order), the
   * buy and sell fills, and the realized profit.
   */
  datatype Book = Book(
    processedBuys: seq<string>, childSells: seq<Link>,
    buyFills: map<string, Fill>, sellFills: map<string, Fill>, realizedProfitUsd: real)

  /** The state `load_trading_state` starts from when there is no file. */
  const EmptyBook: Book := Book([], [], map[], map[], 0.0)

  /** `child_sells.get(buy)`: the value of the entry for `buy`. */
  function LinkOf(links: seq<Link>, buy: string): Option<string>
  {
    if links == [] then None
    else if links[0].buy == buy then Some(links[0].sell)
    else LinkOf(links[1..], buy)
  }

  /** `child_sells[buy] = sell`: an existing entry is updated in place, a new one goes last. */
  function PutLink(links: seq<Link>, buy: string, sell: string): (r: seq<Link>)
    ensures LinkOf(r, buy) == Some(sell)
    ensures forall k :: k != buy ==> LinkOf(r, k) == LinkOf(links, k)
    ensures |r| == |links| || |r| == |links| + 1
  {
    if links == [] then [Link(buy, sell)]
    else if links[0].buy == buy then [Link(buy, sell)] + links[1..]
    else [links[0]] + PutLink(links[1..], buy, sell)
  }

  /** The position of the first entry whose sell is `sell`, or `|links|` when there is none. */
  function ParentIndex(links: seq<Link>, sell: string): (k: nat)
    ensures k <= |links|
    ensures k < |links| ==> links[k].sell == sell
    ensures forall j :: 0 <= j < k ==> links[j].sell != sell
  {
    if links == [] then 0
    else if links[0].sell == sell then 0
    else
      var k := 1 + ParentIndex(links[1..], sell);
      assert forall j :: 1 <= j < k ==> links[j] == links[1..][j - 1];
      k
  }

  /** The reverse lookup of a sell in `child_sells`: the first buy whose entry holds it. */
  function FindParent(links: seq<Link>, sell: string): (r: Option<string>)
    ensures r.None? <==> forall j :: 0 <= j < |links| ==> links[j].sell != sell
    ensures r.Some? ==> Link(r.value, sell) in links
  {
    var k := ParentIndex(links, sell);
    if k < |links| then Some(links[k].buy) else None
  }

  /** The first index without a match before it is the parent's index. */
  lemma ParentIndexIs(links: seq<Link>, sell: string, i: nat)
    requires i <= |links|
    requires forall j :: 0 <= j < i ==> links[j].sell != sell
    requires i < |links| ==> links[i].sell == sell
    ensures ParentIndex(links, sell) == i
  {
  }

  /**
   * The profit booked for a closed sell: the sell price over the parent's
   * buy price, on the smaller of the two quantities; nothing when no parent
   * with a recorded buy fill is found (an empty parent id counts as none).
   */
  function SellProfit(b: Book, sellId: string, filled: real, avg: real): real
  {
    var parent := FindParent(b.childSells, sellId);
    if parent.Some? && parent.value != "" && parent.value in b.buyFills then
      var bf := b.buyFills[parent.value];
      (avg - bf.price) * Min(filled, bf.amount)
    else 0.0
  }

  /** With a known parent and positive quantities, the profit is positive exactly when the sell beats the buy. */
  lemma SellProfitPositiveIff(b: Book, sellId: string, filled: real, avg: real)
    requires filled > 0.0
    requires var parent := FindParent(b.childSells, sellId);
      parent.Some? && parent.value != "" && parent.value in b.buyFills && b.buyFills[parent.value].amount > 0.0
    ensures var bf := b.buyFills[FindParent(b.childSells, sellId).value];
      SellProfit(b, sellId, filled, avg) > 0.0 <==> avg > bf.price
  {
    var bf := b.buyFills[FindParent(b.childSells, sellId).value];
    var q := Min(filled, bf.amount);
    if avg > bf.price {
      MulLt(0.0, avg - bf.price, q);
    } else {
      MulLe(avg - bf.price, 0.0, q);
    }
  }

  // ==================== the buy-fill pass ====================

  /** A sell placed for a filled buy. */
  datatype SellOrder = SellOrder(buyId: string, sellId: string, qty: real, price: real)

  /**
   * The exchange's answer to a sell for buy `buyId` of `qty` at `price`:
   * the new order's id, or nothing when placing it raised.
   */
  type SellPlacer = (string, real, real) -> Option<string>

  /** The effect of the buy-fill pass: the new state, the sells placed, and whether it stopped on an escaping exception. */
  datatype BuyPassResult = BuyPassResult(book: Book, created: seq<SellOrder>, aborted: bool)

  /** The state after a sell for buy `buyId` was placed: the buy is processed, linked and its fill kept. */
  function Recorded(b: Book, buyId: string, sellId: string, avg: real, filled: real): Book
  {
    b.(processedBuys := b.processedBuys + [buyId],
       childSells := PutLink(b.childSells, buyId, sellId),
       buyFills := b.buyFills[buyId := Fill(avg, filled)])
  }

  /** A closed buy of this symbol with a positive fill and price: the orders the buy pass opens a sell for. */
  predicate BuyQualifies(o: Order, symbol: string)
  {
    IsClosed(o, symbol, "buy") && FilledAmount(o) > 0.0 && AveragePrice(o) > 0.0
  }

  /** Sizing the sell for this buy raises (a division by a zero target). */
  predicate SellRaises(o: Order, cfg: Config, mkt: Market)
  {
    SellSizing(FilledAmount(o), AveragePrice(o), cfg, mkt).SizingRaises?
  }

  /** The sell for this buy is sized to a positive quantity and the exchange takes it. */
  predicate SellAccepted(o: Order, cfg: Config, mkt: Market, place: SellPlacer)
  {
    var s := SellSizing(FilledAmount(o), AveragePrice(o), cfg, mkt);
    s.Sized? && s.qty > 0.0 && place(o.id, s.qty, s.price).Some?
  }

  /** One order of `_process_filled_buy_orders`. */
  function BuyStep(b: Book, o: Order, symbol: string, cfg: Config, mkt: Market, place: SellPlacer): (r: BuyPassResult)
    // an order that is not a closed buy of this symbol, already processed, or without fill, changes nothing
    ensures !IsClosed(o, symbol, "buy") || o.id in b.processedBuys || FilledAmount(o) <= 0.0 || AveragePrice(o) <= 0.0 ==>
      r == BuyPassResult(b, [], false)
    // the state changes only through a placed sell, and then exactly by recording it
    ensures r.book != b ==> |r.created| == 1 && r.book == Recorded(b, o.id, r.created[0].sellId, AveragePrice(o), FilledAmount(o))
    ensures |r.created| <= 1
    ensures |r.created| == 1 ==>
      var c := r.created[0];
      c.buyId == o.id && o.id !in b.processedBuys
      && SellSizing(FilledAmount(o), AveragePrice(o), cfg, mkt) == Sized(c.qty, c.price)
      && c.qty > 0.0 && place(o.id, c.qty, c.price) == Some(c.sellId)
      && r.book == Recorded(b, o.id, c.sellId, AveragePrice(o), FilledAmount(o))
    ensures r.aborted ==> r.book == b && r.created == []
    // the step stops exactly on a new filled buy whose sizing raises
    ensures r.aborted <==> BuyQualifies(o, symbol) && o.id !in b.processedBuys && SellRaises(o, cfg, mkt)
    // a new filled buy whose sell is sized positive and accepted gets exactly that sell, and nothing else does
    ensures |r.created| == 1 <==> BuyQualifies(o, symbol) && o.id !in b.processedBuys && SellAccepted(o, cfg, mkt, place)
  {
    if !IsClosed(o, symbol, "buy") || o.id in b.processedBuys then BuyPassResult(b, [], false)
    else
      var filled, avg := FilledAmount(o), AveragePrice(o);
      if filled <= 0.0 || avg <= 0.0 then BuyPassResult(b, [], false)
      else match SellSizing(filled, avg, cfg, mkt)
        case SizingRaises => BuyPassResult(b, [], true)
        case Sized(qty, target) =>
          if qty <= 0.0 then BuyPassResult(b, [], false)
          else match place(o.id, qty, target)
            case None => BuyPassResult(b, [], false)
            case Some(sellId) =>
              BuyPassResult(Recorded(b, o.id, sellId, avg, filled), [SellOrder(o.id, sellId, qty, target)], false)
  }

  /** `_process_filled_buy_orders` over the orders in their fetched order, stopping where an exception escapes. */
  function BuyPass(b: Book, orders: seq<Order>, symbol: string, cfg: Config, mkt: Market, place: SellPlacer): BuyPassResult
    decreases |orders|
  {
    if orders == [] then BuyPassResult(b, [], false)
    else
      var r := BuyPass(b, orders[..|orders| - 1], symbol, cfg, mkt, place);
      if r.aborted then r
      else
        var s := BuyStep(r.book, orders[|orders| - 1], symbol, cfg, mkt, place);
        BuyPassResult(s.book, r.created + s.created, s.aborted)
  }

  /** The buy ids of the placed sells, in order. */
  function BuyIds(cs: seq<SellOrder>): (ids: seq<string>)
    ensures |ids| == |cs|
    ensures forall i :: 0 <= i < |cs| ==> ids[i] == cs[i].buyId
  {
    if cs == [] then [] else BuyIds(cs[..|cs| - 1]) + [cs[|cs| - 1].buyId]
  }

  /** No id occurs twice. */
  predicate Distinct(s: seq<string>)
  {
    forall i, j :: 0 <= i < j < |s| ==> s[i] != s[j]
  }

  lemma BuyIdsAppend(a: seq<SellOrder>, c: seq<SellOrder>)
    ensures BuyIds(a + c) == BuyIds(a) + BuyIds(c)
  {
    assert |BuyIds(a + c)| == |BuyIds(a) + BuyIds(c)|;
    forall i | 0 <= i < |a + c|
      ensures BuyIds(a + c)[i] == (BuyIds(a) + BuyIds(c))[i]
    {
      if i < |a| {
        assert (a + c)[i] == a[i];
      } else {
        assert (a + c)[i] == c[i - |a|];
      }
    }
  }

  /** One step seen from the pass: what it adds to the processed list and what it leaves alone. */
  lemma BuyStepFacts(b: Book, o: Order, symbol: string, cfg: Config, mkt: Market, place: SellPlacer)
    ensures var s := BuyStep(b, o, symbol, cfg, mkt, place);
      (forall i :: 0 <= i < |s.created| ==> s.created[i].buyId !in b.processedBuys)
      && s.book.processedBuys == b.processedBuys + BuyIds(s.created)
      && s.book.sellFills == b.sellFills
      && s.book.realizedProfitUsd == b.realizedProfitUsd
  {
    var s := BuyStep(b, o, symbol, cfg, mkt, place);
    if |s.created| == 1 {
      assert BuyIds(s.created) == [o.id];
    } else {
      assert s.created == [];
      assert BuyIds(s.created) == [];
    }
  }

  /** Appending ids absent from a distinct list keeps it distinct. */
  lemma DistinctAppend(a: seq<string>, c: seq<string>)
    requires Distinct(a) && Distinct(c)
    requires forall i :: 0 <= i < |c| ==> c[i] !in a
    ensures Distinct(a + c)
  {
    forall i, j | 0 <= i < j < |a + c|
      ensures (a + c)[i] != (a + c)[j]
    {
      if j >= |a| && i < |a| {
        assert (a + c)[i] == a[i] && (a + c)[j] == c[j - |a|];
      } else if i >= |a| {
        assert (a + c)[i] == c[i - |a|] && (a + c)[j] == c[j - |a|];
      } else {
        assert (a + c)[i] == a[i] && (a + c)[j] == a[j];
      }
    }
  }

  /**
   * What the buy-fill pass does to the state: every sell it places is for a
   * buy not processed before, no buy gets two sells, the processed list grows
   * by exactly the placed buys, and the sell side and the profit are untouched;
   * every filled buy whose sell is accepted is processed unless the pass
   * stopped, and it stops only on a new filled buy whose sizing raises.
   */
  lemma BuyPassFacts(b: Book, orders: seq<Order>, symbol: string, cfg: Config, mkt: Market, place: SellPlacer)
    ensures var r := BuyPass(b, orders, symbol, cfg, mkt, place);
      (forall i :: 0 <= i < |r.created| ==> r.created[i].buyId !in b.processedBuys)
      && Distinct(BuyIds(r.created))
      && r.book.processedBuys == b.processedBuys + BuyIds(r.created)
      && r.book.sellFills == b.sellFills
      && r.book.realizedProfitUsd == b.realizedProfitUsd
      && (!r.aborted ==>
            forall o :: o in orders && BuyQualifies(o, symbol) && SellAccepted(o, cfg, mkt, place) ==> o.id in r.book.processedBuys)
      && (r.aborted ==>
            exists o :: o in orders && BuyQualifies(o, symbol) && o.id !in b.processedBuys && SellRaises(o, cfg, mkt))
  {
    BuyPassIds(b, orders, symbol, cfg, mkt, place);
    BuyPassSellSide(b, orders, symbol, cfg, mkt, place);
    BuyPassRecords(b, orders, symbol, cfg, mkt, place);
    BuyPassAborts(b, orders, symbol, cfg, mkt, place);
  }

  /** Every sell placed is for a buy not processed before, no buy gets two, and the processed list grows by exactly those buys. */
  lemma {:induction false} BuyPassIds(b: Book, orders: seq<Order>, symbol: string, cfg: Config, mkt: Market, place: SellPlacer)
    ensures var r := BuyPass(b, orders, symbol, cfg, mkt, place);
      (forall i :: 0 <= i < |r.created| ==> r.created[i].buyId !in b.processedBuys)
      && Distinct(BuyIds(r.created))
      && r.book.processedBuys == b.processedBuys + BuyIds(r.created)
    decreases |orders|
  {
    if orders != [] {
      var init := orders[..|orders| - 1];
      var r := BuyPass(b, init, symbol, cfg, mkt, place);
      BuyPassIds(b, init, symbol, cfg, mkt, place);
      if !r.aborted {
        var s := BuyStep(r.book, orders[|orders| - 1], symbol, cfg, mkt, place);
        BuyStepFacts(r.book, orders[|orders| - 1], symbol, cfg, mkt, place);
        assert |s.created| <= 1;
        CreatedStep(b.processedBuys, r.created, r.book.processedBuys, s.created, s.book.processedBuys);
      }
    }
  }

  /** Adding one step's placed sells to the pass so far keeps the facts `BuyPassIds` states. */
  lemma CreatedStep(p0: seq<string>, created: seq<SellOrder>, p1: seq<string>, step: seq<SellOrder>, p2: seq<string>)
    requires (forall i :: 0 <= i < |created| ==> created[i].buyId !in p0)
    requires Distinct(BuyIds(created)) && p1 == p0 + BuyIds(created)
    requires |step| <= 1 && (forall i :: 0 <= i < |step| ==> step[i].buyId !in p1)
    requires p2 == p1 + BuyIds(step)
    ensures forall i :: 0 <= i < |created + step| ==> (created + step)[i].buyId !in p0
    ensures Distinct(BuyIds(created + step)) && p2 == p0 + BuyIds(created + step)
  {
    BuyIdsAppend(created, step);
    var ids, more := BuyIds(created), BuyIds(step);
    forall i | 0 <= i < |more|
      ensures more[i] !in ids && more[i] !in p0
    {
      assert more[i] !in p1;
    }
    DistinctAppend(ids, more);
    forall i | 0 <= i < |created + step|
      ensures (created + step)[i].buyId !in p0
    {
      if i < |created| {
        assert (created + step)[i] == created[i];
      } else {
        assert (created + step)[i] == step[i - |created|];
        assert more[i - |created|] == step[i - |created|].buyId;
      }
    }
    ConcatAssoc(p0, ids, more);
  }

  /** The pass leaves the sell fills and the profit alone. */
  lemma {:induction false} BuyPassSellSide(b: Book, orders: seq<Order>, symbol: string, cfg: Config, mkt: Market, place: SellPlacer)
    ensures var r := BuyPass(b, orders, symbol, cfg, mkt, place);
      r.book.sellFills == b.sellFills && r.book.realizedProfitUsd == b.realizedProfitUsd
    decreases |orders|
  {
    if orders != [] {
      var init := orders[..|orders| - 1];
      var r := BuyPass(b, init, symbol, cfg, mkt, place);
      BuyPassSellSide(b, init, symbol, cfg, mkt, place);
      if !r.aborted {
        BuyStepFacts(r.book, orders[|orders| - 1], symbol, cfg, mkt, place);
      }
    }
  }

  /**
   * Every filled buy whose sell is sized positive and accepted ends up
   * processed, unless the pass stopped on an exception.
   */
  lemma {:induction false} BuyPassRecords(b: Book, orders: seq<Order>, symbol: string, cfg: Config, mkt: Market, place: SellPlacer)
    ensures var r := BuyPass(b, orders, symbol, cfg, mkt, place);
      !r.aborted ==>
        forall o :: o in orders && BuyQualifies(o, symbol) && SellAccepted(o, cfg, mkt, place) ==> o.id in r.book.processedBuys
    decreases |orders|
  {
    if orders != [] {
      var init, last := orders[..|orders| - 1], orders[|orders| - 1];
      var r := BuyPass(b, init, symbol, cfg, mkt, place);
      if !r.aborted {
        BuyPassRecords(b, init, symbol, cfg, mkt, place);
        var s := BuyStep(r.book, last, symbol, cfg, mkt, place);
        BuyStepFacts(r.book, last, symbol, cfg, mkt, place);
        if |s.created| == 1 {
          assert BuyIds(s.created) == [last.id];
        }
        forall o | o in orders && BuyQualifies(o, symbol) && SellAccepted(o, cfg, mkt, place)
          ensures o.id in s.book.processedBuys
        {
          if o in init {
            assert o.id in r.book.processedBuys;
          } else {
            assert o == last;
          }
        }
      }
    }
  }

  /** The pass stops only on a filled buy, new to the state it started from, whose sizing raises. */
  lemma {:induction false} BuyPassAborts(b: Book, orders: seq<Order>, symbol: string, cfg: Config, mkt: Market, place: SellPlacer)
    ensures var r := BuyPass(b, orders, symbol, cfg, mkt, place);
      r.aborted ==>
        exists o :: o in orders && BuyQualifies(o, symbol) && o.id !in b.processedBuys && SellRaises(o, cfg, mkt)
    decreases |orders|
  {
    if orders != [] {
      var init, last := orders[..|orders| - 1], orders[|orders| - 1];
      var r := BuyPass(b, init, symbol, cfg, mkt, place);
      BuyPassAborts(b, init, symbol, cfg, mkt, place);
      BuyPassIds(b, init, symbol, cfg, mkt, place);
      if r.aborted {
        var o :| o in init && BuyQualifies(o, symbol) && o.id !in b.processedBuys && SellRaises(o, cfg, mkt);
        assert o in orders;
      } else if BuyStep(r.book, last, symbol, cfg, mkt, place).aborted {
        assert last.id !in r.book.processedBuys;
        assert last in orders;
      }
    }
  }

  /**
   * Running the pass twice on the same orders, with whatever the exchange
   * answers each time, places at most one sell per buy id.
   */
  lemma AtMostOneSellPerBuy(b: Book, orders: seq<Order>, symbol: string, cfg: Config, mkt: Market, first: SellPlacer, second: SellPlacer)
    ensures var r1 := BuyPass(b, orders, symbol, cfg, mkt, first);
      var r2 := BuyPass(r1.book, orders, symbol, cfg, mkt, second);
      Distinct(BuyIds(r1.created) + BuyIds(r2.created))
  {
    var r1 := BuyPass(b, orders, symbol, cfg, mkt, first);
    var r2 := BuyPass(r1.book, orders, symbol, cfg, mkt, second);
    BuyPassFacts(b, orders, symbol, cfg, mkt, first);
    BuyPassFacts(r1.book, orders, symbol, cfg, mkt, second);
    var a, c := BuyIds(r1.created), BuyIds(r2.created);
    forall i | 0 <= i < |c|
      ensures c[i] !in a
    {
      assert c[i] == r2.created[i].buyId;
      assert c[i] !in r1.book.processedBuys;
    }
    DistinctAppend(a, c);
  }

  /** When the exchange takes no sell, the pass leaves the state as it was. */
  lemma {:induction false} NoPlacementNoChange(b: Book, orders: seq<Order>, symbol: string, cfg: Config, mkt: Market, place: SellPlacer)
    requires forall id, q, p :: place(id, q, p).None?
    ensures var r := BuyPass(b, orders, symbol, cfg, mkt, place);
      r.book == b && r.created == []
    decreases |orders|
  {
    if orders != [] {
      NoPlacementNoChange(b, orders[..|orders| - 1], symbol, cfg, mkt, place);
    }
  }

  /** Once the pass has stopped on an exception, later orders are not looked at. */
  lemma {:induction false} BuyPassAbortSticks(b: Book, orders: seq<Order>, k: nat, symbol: string, cfg: Config, mkt: Market, place: SellPlacer)
    requires k <= |orders|
    requires BuyPass(b, orders[..k], symbol, cfg, mkt, place).aborted
    ensures BuyPass(b, orders, symbol, cfg, mkt, place) == BuyPass(b, orders[..k], symbol, cfg, mkt, place)
    decreases |orders| - k
  {
    if k < |orders| {
      var init := orders[..|orders| - 1];
      assert init[..k] == orders[..k];
      BuyPassAbortSticks(b, init, k, symbol, cfg, mkt, place);
    } else {
      assert orders[..k] == orders;
    }
  }

  // ==================== the sell-fill pass ====================

  /** The effect of the sell-fill pass: the new state and the profits booked. */
  datatype SellPassResult = SellPassResult(book: Book, booked: seq<real>)

  /** A closed sell of this symbol with a positive fill and price: the orders the sell pass records. */
  predicate SellQualifies(o: Order, symbol: string)
  {
    IsClosed(o, symbol, "sell") && FilledAmount(o) > 0.0 && AveragePrice(o) > 0.0
  }

  /** One order of `_process_filled_sell_orders`. */
  function SellStep(b: Book, o: Order, symbol: string): (r: SellPassResult)
    // anything but a new qualifying sell changes nothing
    ensures !SellQualifies(o, symbol) || o.id in b.sellFills ==> r == SellPassResult(b, [])
    // a new qualifying sell is recorded once; the profit is added, and booked on, only when positive
    ensures SellQualifies(o, symbol) && o.id !in b.sellFills ==>
      var profit := SellProfit(b, o.id, FilledAmount(o), AveragePrice(o));
      r.book.sellFills == b.sellFills[o.id := Fill(AveragePrice(o), FilledAmount(o))]
      && (profit > 0.0 ==> r.book.realizedProfitUsd == b.realizedProfitUsd + profit && r.booked == [profit])
      && (profit <= 0.0 ==> r.book.realizedProfitUsd == b.realizedProfitUsd && r.booked == [])
    ensures r.book.processedBuys == b.processedBuys && r.book.childSells == b.childSells && r.book.buyFills == b.buyFills
  {
    if !IsClosed(o, symbol, "sell") || o.id in b.sellFills then SellPassResult(b, [])
    else
      var filled, avg := FilledAmount(o), AveragePrice(o);
      if filled <= 0.0 || avg <= 0.0 then SellPassResult(b, [])
      else
        var profit := SellProfit(b, o.id, filled, avg);
        var recorded := b.(sellFills := b.sellFills[o.id := Fill(avg, filled)]);
        if profit > 0.0 then
          SellPassResult(recorded.(realizedProfitUsd := b.realizedProfitUsd + profit), [profit])
        else SellPassResult(recorded, [])
  }

  /** `_process_filled_sell_orders` over the orders in their fetched order. */
  function SellPass(b: Book, orders: seq<Order>, symbol: string): SellPassResult
    decreases |orders|
  {
    if orders == [] then SellPassResult(b, [])
    else
      var r := SellPass(b, orders[..|orders| - 1], symbol);
      var s := SellStep(r.book, orders[|orders| - 1], symbol);
      SellPassResult(s.book, r.booked + s.booked)
  }

  function Sum(s: seq<real>): real
  {
    if s == [] then 0.0 else Sum(s[..|s| - 1]) + s[|s| - 1]
  }

  lemma SumAppend(a: seq<real>, c: seq<real>)
    requires |c| <= 1
    ensures Sum(a + c) == Sum(a) + Sum(c)
  {
    if c != [] {
      assert (a + c)[..|a + c| - 1] == a;
      assert c[..0] == [];
    } else {
      assert a + c == a;
    }
  }

  /**
   * What the sell-fill pass does: the realized profit grows by exactly the
   * positive profits it books, the recorded sell fills
   * are kept, every qualifying sell ends up recorded, and the buy side is untouched.
   */
  lemma SellPassFacts(b: Book, orders: seq<Order>, symbol: string)
    ensures var r := SellPass(b, orders, symbol);
      r.book.realizedProfitUsd == b.realizedProfitUsd + Sum(r.booked)
      && (forall i :: 0 <= i < |r.booked| ==> r.booked[i] > 0.0)
      && (forall k :: k in b.sellFills ==> k in r.book.sellFills && r.book.sellFills[k] == b.sellFills[k])
      && (forall o :: o in orders && SellQualifies(o, symbol) ==> o.id in r.book.sellFills)
      && r.book.processedBuys == b.processedBuys && r.book.childSells == b.childSells && r.book.buyFills == b.buyFills
  {
    SellPassProfit(b, orders, symbol);
    SellPassKeeps(b, orders, symbol);
    SellPassRecords(b, orders, symbol);
  }

  /** The profit grows by exactly the booked profits, each of them positive. */
  lemma {:induction false} SellPassProfit(b: Book, orders: seq<Order>, symbol: string)
    ensures var r := SellPass(b, orders, symbol);
      r.book.realizedProfitUsd == b.realizedProfitUsd + Sum(r.booked)
      && (forall i :: 0 <= i < |r.booked| ==> r.booked[i] > 0.0)
    decreases |orders|
  {
    if orders != [] {
      var init := orders[..|orders| - 1];
      var r := SellPass(b, init, symbol);
      SellPassProfit(b, init, symbol);
      var s := SellStep(r.book, orders[|orders| - 1], symbol);
      SumAppend(r.booked, s.booked);
      forall i | 0 <= i < |r.booked + s.booked|
        ensures (r.booked + s.booked)[i] > 0.0
      {
        if i < |r.booked| {
          assert (r.booked + s.booked)[i] == r.booked[i];
        }
      }
    }
  }

  /** Recorded sell fills are kept as they were, and the buy side is untouched. */
  lemma {:induction false} SellPassKeeps(b: Book, orders: seq<Order>, symbol: string)
    ensures var r := SellPass(b, orders, symbol);
      (forall k :: k in b.sellFills ==> k in r.book.sellFills && r.book.sellFills[k] == b.sellFills[k])
      && r.book.processedBuys == b.processedBuys && r.book.childSells == b.childSells && r.book.buyFills == b.buyFills
    decreases |orders|
  {
    if orders != [] {
      var init := orders[..|orders| - 1];
      SellPassKeeps(b, init, symbol);
    }
  }

  /** Every qualifying sell of the orders ends up recorded. */
  lemma {:induction false} SellPassRecords(b: Book, orders: seq<Order>, symbol: string)
    ensures var r := SellPass(b, orders, symbol);
      forall o :: o in orders && SellQualifies(o, symbol) ==> o.id in r.book.sellFills
    decreases |orders|
  {
    if orders != [] {
      var init := orders[..|orders| - 1];
      SellPassRecords(b, init, symbol);
      assert forall o :: o in orders ==> o in init || o == orders[|orders| - 1];
    }
  }

  /** The realized profit never decreases. */
  lemma RealizedNeverDecreases(b: Book, orders: seq<Order>, symbol: string)
    ensures SellPass(b, orders, symbol).book.realizedProfitUsd >= b.realizedProfitUsd
  {
    var r := SellPass(b, orders, symbol);
    SellPassFacts(b, orders, symbol);
    SumPositive(r.booked);
  }

  lemma {:induction false} SumPositive(s: seq<real>)
    requires forall i :: 0 <= i < |s| ==> s[i] > 0.0
    ensures Sum(s) >= 0.0
    ensures s != [] ==> Sum(s) > 0.0
    decreases |s|
  {
    if s != [] {
      SumPositive(s[..|s| - 1]);
    }
  }

  /** When every qualifying sell is already recorded, the pass changes nothing. */
  lemma {:induction false} SellPassNoop(b: Book, orders: seq<Order>, symbol: string)
    requires forall o :: o in orders && SellQualifies(o, symbol) ==> o.id in b.sellFills
    ensures SellPass(b, orders, symbol) == SellPassResult(b, [])
    decreases |orders|
  {
    if orders != [] {
      var init := orders[..|orders| - 1];
      assert forall o :: o in init ==> o in orders;
      SellPassNoop(b, init, symbol);
    }
  }

  /** Every sell is booked once: a second pass over the same orders changes nothing and books no profit. */
  lemma SellPassIdempotent(b: Book, orders: seq<Order>, symbol: string)
    ensures var r := SellPass(b, orders, symbol);
      SellPass(r.book, orders, symbol) == SellPassResult(r.book, [])
  {
    SellPassFacts(b, orders, symbol);
    SellPassNoop(SellPass(b, orders, symbol).book, orders, symbol);
  }

  // ==================== one round of fill handling ====================

  /** The effect of `handle_order_fills_and_create_sells`. */
  datatype FillsResult = FillsResult(book: Book, created: seq<SellOrder>, aborted: bool, booked: seq<real>)

  /**
   * One round: nothing when fetching the orders failed; otherwise the buy
   * pass and then, unless an exception escaped it, the sell pass over the same orders.
   */
  function HandleFills(b: Book, fetched: Option<seq<Order>>, symbol: string, cfg: Config, mkt: Market, place: SellPlacer): FillsResult
  {
    if fetched.None? then FillsResult(b, [], false, [])
    else
      var r := BuyPass(b, fetched.value, symbol, cfg, mkt, place);
      if r.aborted then FillsResult(r.book, r.created, true, [])
      else
        var s := SellPass(r.book, fetched.value, symbol);
        FillsResult(s.book, r.created, false, s.booked)
  }

  /**
   * Running a second round over the same orders books no profit a second
   * time and places no second sell for a buy, whatever the exchange answers.
   */
  lemma NothingCountedTwice(b: Book, orders: seq<Order>, symbol: string, cfg: Config, mkt: Market, first: SellPlacer, second: SellPlacer)
    ensures var r1 := HandleFills(b, Some(orders), symbol, cfg, mkt, first);
      var r2 := HandleFills(r1.book, Some(orders), symbol, cfg, mkt, second);
      Distinct(BuyIds(r1.created) + BuyIds(r2.created))
      && (!r1.aborted ==> r2.booked == [] && r2.book.realizedProfitUsd == r1.book.realizedProfitUsd)
  {
    var p1 := BuyPass(b, orders, symbol, cfg, mkt, first);
    var r1 := HandleFills(b, Some(orders), symbol, cfg, mkt, first);
    var p2 := BuyPass(r1.book, orders, symbol, cfg, mkt, second);
    BuyPassFacts(b, orders, symbol, cfg, mkt, first);
    BuyPassFacts(r1.book, orders, symbol, cfg, mkt, second);
    var a, c := BuyIds(p1.created), BuyIds(p2.created);
    forall i | 0 <= i < |c|
      ensures c[i] !in a
    {
      assert c[i] == p2.created[i].buyId;
      assert c[i] !in r1.book.processedBuys;
      if !p1.aborted {
        SellPassFacts(p1.book, orders, symbol);
      }
    }
    DistinctAppend(a, c);
    if !r1.aborted {
      SellPassFacts(p1.book, orders, symbol);
      assert forall o :: o in orders && SellQualifies(o, symbol) ==> o.id in p2.book.sellFills;
      SellPassNoop(p2.book, orders, symbol);
    }
  }

  // ==================== the trading state object ====================

  /**
   * The persisted trading state. Each change of the source is followed by
   * `save_trading_state`; here the object itself is the saved state.
   */
  class TradingState {
    var processedBuys: seq<string>
    var childSells: seq<Link>
    var buyFills: map<string, Fill>
    var sellFills: map<string, Fill>
    var realizedProfitUsd: real

    /** The state `load_trading_state` returns when there is no state file. */
    constructor ()
      ensures Snapshot() == EmptyBook
    {
      processedBuys := [];
      childSells := [];
      buyFills := map[];
      sellFills := map[];
      realizedProfitUsd := 0.0;
    }

    /** The fields as a value. */
    function Snapshot(): Book
      reads this
    {
      Book(processedBuys, childSells, buyFills, sellFills, realizedProfitUsd)
    }

    /** One order of `_process_filled_buy_orders`; `aborted` when the sizing raised. */
    method HandleFilledBuy(o: Order, symbol: string, cfg: Config, mkt: Market, place: SellPlacer)
      returns (created: seq<SellOrder>, aborted: bool)
      modifies this
      ensures BuyStep(old(Snapshot()), o, symbol, cfg, mkt, place) == BuyPassResult(Snapshot(), created, aborted)
      ensures aborted <==> BuyQualifies(o, symbol) && o.id !in old(processedBuys) && SellRaises(o, cfg, mkt)
      ensures |created| == 1 <==> BuyQualifies(o, symbol) && o.id !in old(processedBuys) && SellAccepted(o, cfg, mkt, place)
      ensures |created| == 1 ==> processedBuys == old(processedBuys) + [o.id]
    {
      created, aborted := [], false;
      if !IsClosed(o, symbol, "buy") || o.id in processedBuys {
        return;
      }
      var filled := FilledAmount(o);
      var avg := AveragePrice(o);
      if filled <= 0.0 || avg <= 0.0 {
        return;
      }
      var sizing := SellSizing(filled, avg, cfg, mkt);
      if sizing.SizingRaises? {
        aborted := true;
        return;
      }
      var qty, target := sizing.qty, sizing.price;
      if qty <= 0.0 {
        return;
      }
      var placed := place(o.id, qty, target);
      if placed.Some? {
        var sellId := placed.value;
        processedBuys := processedBuys + [o.id];
        childSells := PutLink(childSells, o.id, sellId);
        buyFills := buyFills[o.id := Fill(avg, filled)];
        created := [SellOrder(o.id, sellId, qty, target)];
      }
    }

    /** `_process_filled_buy_orders`: the orders in turn, stopping where an exception escapes. */
    method ProcessFilledBuyOrders(orders: seq<Order>, symbol: string, cfg: Config, mkt: Market, place: SellPlacer)
      returns (created: seq<SellOrder>, aborted: bool)
      modifies this
      ensures BuyPass(old(Snapshot()), orders, symbol, cfg, mkt, place) == BuyPassResult(Snapshot(), created, aborted)
      ensures !aborted ==>
        forall o :: o in orders && BuyQualifies(o, symbol) && SellAccepted(o, cfg, mkt, place) ==> o.id in processedBuys
      ensures processedBuys == old(processedBuys) + BuyIds(created)
    {
      ghost var b0 := Snapshot();
      created, aborted := [], false;
      var i := 0;
      while i < |orders|
        invariant 0 <= i <= |orders|
        invariant BuyPass(b0, orders[..i], symbol, cfg, mkt, place) == BuyPassResult(Snapshot(), created, false)
      {
        var more, stop := HandleFilledBuy(orders[i], symbol, cfg, mkt, place);
        assert orders[..i + 1][..i] == orders[..i];
        created := created + more;
        if stop {
          aborted := true;
          BuyPassAbortSticks(b0, orders, i + 1, symbol, cfg, mkt, place);
          BuyPassIds(b0, orders, symbol, cfg, mkt, place);
          return;
        }
        i := i + 1;
      }
      assert orders[..i] == orders;
      BuyPassIds(b0, orders, symbol, cfg, mkt, place);
      BuyPassRecords(b0, orders, symbol, cfg, mkt, place);
    }

    /** One order of `_process_filled_sell_orders`, with its reverse lookup of the parent buy. */
    method HandleFilledSell(o: Order, symbol: string) returns (booked: seq<real>)
      modifies this
      ensures SellStep(old(Snapshot()), o, symbol) == SellPassResult(Snapshot(), booked)
    {
      ghost var b0 := Snapshot();
      booked := [];
      if !IsClosed(o, symbol, "sell") || o.id in sellFills {
        return;
      }
      var filled := FilledAmount(o);
      var avg := AveragePrice(o);
      if filled <= 0.0 || avg <= 0.0 {
        return;
      }
      var parent: Option<string> := None;
      var k := 0;
      while k < |childSells|
        invariant 0 <= k <= |childSells|
        invariant forall j :: 0 <= j < k ==> childSells[j].sell != o.id
        invariant parent.None?
      {
        if childSells[k].sell == o.id {
          parent := Some(childSells[k].buy);
          break;
        }
        k := k + 1;
      }
      ParentIndexIs(childSells, o.id, k);
      assert parent == FindParent(childSells, o.id);
      var profit := 0.0;
      if parent.Some? && parent.value != "" && parent.value in buyFills {
        var bf := buyFills[parent.value];
        profit := (avg - bf.price) * Min(filled, bf.amount);
      }
      assert profit == SellProfit(b0, o.id, filled, avg);
      sellFills := sellFills[o.id := Fill(avg, filled)];
      if profit > 0.0 {
        realizedProfitUsd := realizedProfitUsd + profit;
        booked := [profit];
      }
    }

    /** `_process_filled_sell_orders`: the orders in turn. */
    method ProcessFilledSellOrders(orders: seq<Order>, symbol: string) returns (booked: seq<real>)
      modifies this
      ensures SellPass(old(Snapshot()), orders, symbol) == SellPassResult(Snapshot(), booked)
    {
      ghost var b0 := Snapshot();
      booked := [];
      var i := 0;
      while i < |orders|
        invariant 0 <= i <= |orders|
        invariant SellPass(b0, orders[..i], symbol) == SellPassResult(Snapshot(), booked)
      {
        var more := HandleFilledSell(orders[i], symbol);
        assert orders[..i + 1][..i] == orders[..i];
        booked := booked + more;
        i := i + 1;
      }
      assert orders[..i] == orders;
    }

    /**
     * `handle_order_fills_and_create_sells`: `fetched` is the answer of
     * `fetch_orders`, `None` when it raised. An exception escaping the buy
     * pass leaves the sell pass undone.
     */
    method HandleOrderFillsAndCreateSells(fetched: Option<seq<Order>>, symbol: string, cfg: Config, mkt: Market, place: SellPlacer)
      returns (created: seq<SellOrder>, aborted: bool, booked: seq<real>)
      modifies this
      ensures HandleFills(old(Snapshot()), fetched, symbol, cfg, mkt, place) == FillsResult(Snapshot(), created, aborted, booked)
    {
      created, aborted, booked := [], false, [];
      if fetched.None? {
        return;
      }
      created, aborted := ProcessFilledBuyOrders(fetched.value, symbol, cfg, mkt, place);
      if aborted {
        return;
      }
      booked := ProcessFilledSellOrders(fetched.value, symbol);
    }
  }

  // ==================== bootstrap buy orders ====================

  /** Whether the bot trades for real or only simulates the orders. */
  datatype Mode = Live | Paper

  /** A buy order placed by the bootstrap. */
  datatype BuyOrder = BuyOrder(qty: real, price: real)

  /** The buys the bootstrap placed, and whether an exception escaped it. */
  datatype Placement = Placement(orders: seq<BuyOrder>, raised: bool)

  /** The exchange's answer to a limit buy of `qty` at `price`: accepted, or placing it raised. */
  type BuyPlacer = (real, real) -> bool

  /** The value of `qty` at `price`, as the balance is charged for an order. */
  function Notional(qty: real, price: real): real
  {
    qty * price
  }

  /** The buy at a grid level: a base order's worth rounded to the lot, at the level rounded to the tick, topped up to the minimum notional. */
  function BuyAt(level: real, cfg: Config, mkt: Market): Sizing
  {
    if level == 0.0 then SizingRaises
    else MeetMinCost(BuyQty(level, cfg, mkt), BuyPrice(level, mkt), cfg.feeBuffer, mkt)
  }

  /** A base order's worth at the level, rounded down to the lot step. */
  function BuyQty(level: real, cfg: Config, mkt: Market): (q: real)
    requires level != 0.0
    ensures mkt.amountStep > 0.0 ==>
      IsMultipleOf(q, mkt.amountStep) && q <= cfg.baseOrderUsd / level < q + mkt.amountStep
  {
    RoundDown(cfg.baseOrderUsd / level, mkt.amountStep)
  }

  /** The level rounded down to the price tick. */
  function BuyPrice(level: real, mkt: Market): (p: real)
    ensures p <= level
    ensures mkt.priceTick > 0.0 ==> IsMultipleOf(p, mkt.priceTick) && level < p + mkt.priceTick
  {
    RoundDown(level, mkt.priceTick)
  }

  /** A buy at a level is priced at that level rounded down; only a zero level or a zero price with a cost floor raises. */
  lemma BuyAtPrice(level: real, cfg: Config, mkt: Market)
    ensures BuyAt(level, cfg, mkt).Sized? ==> BuyAt(level, cfg, mkt).price == BuyPrice(level, mkt)
    ensures BuyAt(level, cfg, mkt).SizingRaises? <==>
      level == 0.0 || (BuyPrice(level, mkt) == 0.0 && BuyQty(level, cfg, mkt) * 0.0 < mkt.minCost)
  {
  }

  /** The levels at or below the last price, in grid order. */
  function AtOrBelow(levels: seq<real>, last: real): (r: seq<real>)
    ensures forall x :: x in r <==> x in levels && x <= last
    ensures |r| <= |levels|
  {
    if levels == [] then []
    else if levels[0] <= last then [levels[0]] + AtOrBelow(levels[1..], last)
    else AtOrBelow(levels[1..], last)
  }

  /** A sub-list of a strictly increasing list, taken in order, is strictly increasing. */
  lemma {:induction false} AtOrBelowIncreasing(levels: seq<real>, last: real)
    requires StrictlyIncreasing(levels)
    ensures StrictlyIncreasing(AtOrBelow(levels, last))
    decreases |levels|
  {
    if levels != [] {
      var t := levels[1..];
      assert StrictlyIncreasing(t) by {
        forall i, j | 0 <= i < j < |t| ensures t[i] < t[j] {
          assert t[i] == levels[i + 1] && t[j] == levels[j + 1];
        }
      }
      AtOrBelowIncreasing(t, last);
      if levels[0] <= last {
        forall v | v in AtOrBelow(t, last) ensures levels[0] < v {
          var k :| 0 <= k < |t| && t[k] == v;
          assert t[k] == levels[k + 1];
        }
        ConsIncreasing(levels[0], AtOrBelow(t, last));
      }
    }
  }

  /** The bootstrap's candidate levels: those at or below the last price, closest to it first. */
  function Candidates(levels: seq<real>, last: real): seq<real>
  {
    GridEngine.Reverse(AtOrBelow(levels, last))
  }

  /** Over a strictly increasing grid the candidates are exactly the levels at or below the price, strictly decreasing. */
  lemma CandidatesClosestFirst(levels: seq<real>, last: real)
    requires StrictlyIncreasing(levels)
    ensures var c := Candidates(levels, last);
      (forall x :: x in c <==> x in levels && x <= last)
      && (forall i, j :: 0 <= i < j < |c| ==> c[i] > c[j])
  {
    var a := AtOrBelow(levels, last);
    var c := Candidates(levels, last);
    AtOrBelowIncreasing(levels, last);
    forall x ensures x in c <==> x in a {
      if x in a {
        var k :| 0 <= k < |a| && a[k] == x;
        assert c[|a| - 1 - k] == x;
      }
      if x in c {
        var k :| 0 <= k < |c| && c[k] == x;
      }
    }
    forall i, j | 0 <= i < j < |c| ensures c[i] > c[j] {
      assert c[i] == a[|a| - 1 - i] && c[j] == a[|a| - 1 - j];
    }
  }

  /** `s[:n]`. */
  function Head(s: seq<real>, n: nat): (r: seq<real>)
    ensures |r| == if |s| <= n then |s| else n
    ensures forall i :: 0 <= i < |r| ==> r[i] == s[i]
  {
    if |s| <= n then s else s[..n]
  }

  /**
   * The placement loop of `bootstrap_buy_orders` over the candidate levels:
   * it stops when the budget or the free balance is under one base order,
   * skips a level whose quantity is not positive or whose order the exchange
   * refused, and places the rest, charging a base order to the budget and
   * the order's value to the free balance. A raising sizing escapes.
   */
  function PlaceAll(levels: seq<real>, budget: real, free: real, cfg: Config, mkt: Market, accepts: BuyPlacer): Placement
    decreases |levels|
  {
    if levels == [] || budget < cfg.baseOrderUsd || free < cfg.baseOrderUsd then Placement([], false)
    else match BuyAt(levels[0], cfg, mkt)
      case SizingRaises => Placement([], true)
      case Sized(qty, price) =>
        if qty <= 0.0 || !accepts(qty, price) then PlaceAll(levels[1..], budget, free, cfg, mkt, accepts)
        else
          var rest := PlaceAll(levels[1..], budget - cfg.baseOrderUsd, free - Notional(qty, price), cfg, mkt, accepts);
          Placement([BuyOrder(qty, price)] + rest.orders, rest.raised)
  }

  /** Each order is positive, was accepted, and is at a tick multiple no higher than `cap`. */
  predicate OrdersWithin(orders: seq<BuyOrder>, accepts: BuyPlacer, cap: real, mkt: Market)
  {
    forall o :: o in orders ==>
      o.qty > 0.0 && accepts(o.qty, o.price) && o.price <= cap
      && (mkt.priceTick > 0.0 ==> IsMultipleOf(o.price, mkt.priceTick))
  }

  /** The budget charged for `n` base orders. */
  function Spent(n: nat, baseOrderUsd: real): real
  {
    n as real * baseOrderUsd
  }

  lemma SpentOneMore(n: nat, baseOrderUsd: real)
    ensures Spent(n + 1, baseOrderUsd) == Spent(n, baseOrderUsd) + baseOrderUsd
  {
    AddOneMul(n as real, baseOrderUsd);
  }

  /**
   * The placement loop never places more orders than there are levels, nor
   * more base orders than the budget holds.
   */
  lemma {:induction false} PlaceAllBudget(levels: seq<real>, budget: real, free: real, cfg: Config, mkt: Market, accepts: BuyPlacer)
    ensures var p := PlaceAll(levels, budget, free, cfg, mkt, accepts);
      |p.orders| <= |levels| && (p.orders != [] ==> Spent(|p.orders|, cfg.baseOrderUsd) <= budget)
    decreases |levels|
  {
    if levels != [] && budget >= cfg.baseOrderUsd && free >= cfg.baseOrderUsd {
      var s := BuyAt(levels[0], cfg, mkt);
      if s.Sized? {
        if s.qty <= 0.0 || !accepts(s.qty, s.price) {
          PlaceAllSkip(levels, budget, free, cfg, mkt, accepts);
          PlaceAllBudget(levels[1..], budget, free, cfg, mkt, accepts);
        } else {
          var rest := PlaceAll(levels[1..], budget - cfg.baseOrderUsd, free - Notional(s.qty, s.price), cfg, mkt, accepts);
          PlaceAllPlace(levels, budget, free, cfg, mkt, accepts);
          PlaceAllBudget(levels[1..], budget - cfg.baseOrderUsd, free - Notional(s.qty, s.price), cfg, mkt, accepts);
          SpentOneMore(|rest.orders|, cfg.baseOrderUsd);
        }
      }
    }
  }

  /**
   * Every order the placement loop places is positive and accepted, at a
   * level rounded down to the tick, so never above a cap the levels respect.
   */
  lemma {:induction false} PlaceAllWithin(levels: seq<real>, budget: real, free: real, cfg: Config, mkt: Market, accepts: BuyPlacer, cap: real)
    requires forall x :: x in levels ==> x <= cap
    ensures OrdersWithin(PlaceAll(levels, budget, free, cfg, mkt, accepts).orders, accepts, cap, mkt)
    decreases |levels|
  {
    if levels != [] && budget >= cfg.baseOrderUsd && free >= cfg.baseOrderUsd {
      var t := levels[1..];
      assert forall x :: x in t ==> x in levels;
      var s := BuyAt(levels[0], cfg, mkt);
      if s.Sized? {
        if s.qty <= 0.0 || !accepts(s.qty, s.price) {
          PlaceAllSkip(levels, budget, free, cfg, mkt, accepts);
          PlaceAllWithin(t, budget, free, cfg, mkt, accepts, cap);
        } else {
          BuyAtPrice(levels[0], cfg, mkt);
          assert levels[0] in levels;
          var rest := PlaceAll(t, budget - cfg.baseOrderUsd, free - Notional(s.qty, s.price), cfg, mkt, accepts);
          PlaceAllPlace(levels, budget, free, cfg, mkt, accepts);
          PlaceAllWithin(t, budget - cfg.baseOrderUsd, free - Notional(s.qty, s.price), cfg, mkt, accepts, cap);
          OrdersWithinCons(BuyOrder(s.qty, s.price), rest.orders, accepts, cap, mkt);
        }
      }
    }
  }

  lemma OrdersWithinCons(o: BuyOrder, rest: seq<BuyOrder>, accepts: BuyPlacer, cap: real, mkt: Market)
    requires OrdersWithin(rest, accepts, cap, mkt)
    requires o.qty > 0.0 && accepts(o.qty, o.price) && o.price <= cap
    requires mkt.priceTick > 0.0 ==> IsMultipleOf(o.price, mkt.priceTick)
    ensures OrdersWithin([o] + rest, accepts, cap, mkt)
  {
    assert forall x :: x in [o] + rest ==> x == o || x in rest;
  }

  /** A level whose order is empty or refused is skipped with the budget and balance unchanged. */
  lemma PlaceAllSkip(levels: seq<real>, budget: real, free: real, cfg: Config, mkt: Market, accepts: BuyPlacer)
    requires levels != [] && budget >= cfg.baseOrderUsd && free >= cfg.baseOrderUsd
    requires var s := BuyAt(levels[0], cfg, mkt); s.Sized? && (s.qty <= 0.0 || !accepts(s.qty, s.price))
    ensures PlaceAll(levels, budget, free, cfg, mkt, accepts) == PlaceAll(levels[1..], budget, free, cfg, mkt, accepts)
  {
  }

  /** A level whose order is accepted is placed and charged to the budget and the balance. */
  lemma PlaceAllPlace(levels: seq<real>, budget: real, free: real, cfg: Config, mkt: Market, accepts: BuyPlacer)
    requires levels != [] && budget >= cfg.baseOrderUsd && free >= cfg.baseOrderUsd
    requires var s := BuyAt(levels[0], cfg, mkt); s.Sized? && s.qty > 0.0 && accepts(s.qty, s.price)
    ensures var s := BuyAt(levels[0], cfg, mkt);
      var rest := PlaceAll(levels[1..], budget - cfg.baseOrderUsd, free - Notional(s.qty, s.price), cfg, mkt, accepts);
      PlaceAll(levels, budget, free, cfg, mkt, accepts) == Placement([BuyOrder(s.qty, s.price)] + rest.orders, rest.raised)
  {
  }

  /** The placement prefixed by orders already placed. */
  function Prepend(orders: seq<BuyOrder>, p: Placement): Placement
  {
    Placement(orders + p.orders, p.raised)
  }

  /** The placement loop, placing orders one level at a time. */
  method PlaceBuyOrders(levels: seq<real>, budget: real, free: real, cfg: Config, mkt: Market, accepts: BuyPlacer)
    returns (orders: seq<BuyOrder>, raised: bool)
    ensures PlaceAll(levels, budget, free, cfg, mkt, accepts) == Placement(orders, raised)
  {
    orders, raised := [], false;
    var budgetRemaining, usdtFree := budget, free;
    var i := 0;
    while i < |levels|
      invariant 0 <= i <= |levels|
      invariant PlaceAll(levels, budget, free, cfg, mkt, accepts)
        == Prepend(orders, PlaceAll(levels[i..], budgetRemaining, usdtFree, cfg, mkt, accepts))
    {
      assert levels[i..][1..] == levels[i + 1..];
      if budgetRemaining < cfg.baseOrderUsd || usdtFree < cfg.baseOrderUsd {
        break;
      }
      var s := BuyAt(levels[i], cfg, mkt);
      if s.SizingRaises? {
        raised := true;
        return;
      }
      if s.qty > 0.0 && accepts(s.qty, s.price) {
        orders := orders + [BuyOrder(s.qty, s.price)];
        budgetRemaining := budgetRemaining - cfg.baseOrderUsd;
        usdtFree := usdtFree - Notional(s.qty, s.price);
      }
      i := i + 1;
    }
  }

  /** The balance check: the free balance is below the smaller of the expected need and the budget. */
  predicate ShortOfFunds(candidates: nat, free: real, cfg: Config)
  {
    var n := if candidates <= MaxBootstrapOrders then candidates else MaxBootstrapOrders;
    free < Min(Spent(n, cfg.baseOrderUsd), cfg.maxCycleUsd)
  }

  /** In paper mode the free balance is the budget, so the balance check never stops the bootstrap. */
  lemma PaperNeverShort(candidates: nat, cfg: Config)
    ensures !ShortOfFunds(candidates, cfg.maxCycleUsd, cfg)
  {
  }

  /**
   * `bootstrap_buy_orders`: `ticker` is the last price, `None` when fetching
   * it failed; `balance` the free USDT in live mode, `None` when fetching it
   * failed. Both failures, and a short balance, place nothing.
   */
  function Bootstrap(cfg: Config, mkt: Market, mode: Mode, ticker: Option<real>, balance: Option<real>, accepts: BuyPlacer): Placement
    requires ValidGridArgs(cfg.low, cfg.high, cfg.stepPct)
  {
    if ticker.None? || (mode == Live && balance.None?) then Placement([], false)
    else
      var cands := Candidates(GridLevels(cfg.low, cfg.high, cfg.stepPct), ticker.value);
      var free := if mode == Live then balance.value else cfg.maxCycleUsd;
      if ShortOfFunds(|cands|, free, cfg) then Placement([], false)
      else PlaceAll(Head(cands, MaxBootstrapOrders), cfg.maxCycleUsd, free, cfg, mkt, accepts)
  }

  /**
   * The bootstrap places at most seven orders, no more base orders than the
   * cycle budget holds, each positive, accepted and at or below the last price.
   */
  lemma BootstrapBounds(cfg: Config, mkt: Market, mode: Mode, ticker: Option<real>, balance: Option<real>, accepts: BuyPlacer)
    requires ValidGridArgs(cfg.low, cfg.high, cfg.stepPct)
    ensures var p := Bootstrap(cfg, mkt, mode, ticker, balance, accepts);
      |p.orders| <= MaxBootstrapOrders
      && (p.orders != [] ==> Spent(|p.orders|, cfg.baseOrderUsd) <= cfg.maxCycleUsd)
      && (p.orders != [] ==> ticker.Some? && OrdersWithin(p.orders, accepts, ticker.value, mkt))
  {
    if ticker.Some? && !(mode == Live && balance.None?) {
      var cands := Candidates(GridLevels(cfg.low, cfg.high, cfg.stepPct), ticker.value);
      var free := if mode == Live then balance.value else cfg.maxCycleUsd;
      HeadOfCandidates(GridLevels(cfg.low, cfg.high, cfg.stepPct), ticker.value, MaxBootstrapOrders);
      PlaceAllBudget(Head(cands, MaxBootstrapOrders), cfg.maxCycleUsd, free, cfg, mkt, accepts);
      PlaceAllWithin(Head(cands, MaxBootstrapOrders), cfg.maxCycleUsd, free, cfg, mkt, accepts, ticker.value);
    }
  }

  /** The first candidates are all at or below the price. */
  lemma HeadOfCandidates(levels: seq<real>, last: real, n: nat)
    ensures forall x :: x in Head(Candidates(levels, last), n) ==> x <= last
  {
    var a := AtOrBelow(levels, last);
    var c := Candidates(levels, last);
    var h := Head(c, n);
    forall x | x in h ensures x <= last {
      var k :| 0 <= k < |h| && h[k] == x;
      assert c[k] == a[|a| - 1 - k];
      assert a[|a| - 1 - k] in a;
    }
  }

  /** With the default settings on a paper account the balance check always passes. */
  lemma PaperBootstrapPlaces(mkt: Market, ticker: real, accepts: BuyPlacer)
    ensures Bootstrap(Defaults, mkt, Paper, Some(ticker), None, accepts)
      == PlaceAll(Head(Candidates(GridLevels(Defaults.low, Defaults.high, Defaults.stepPct), ticker), MaxBootstrapOrders),
                  Defaults.maxCycleUsd, Defaults.maxCycleUsd, Defaults, mkt, accepts)
  {
    PaperNeverShort(|Candidates(GridLevels(Defaults.low, Defaults.high, Defaults.stepPct), ticker)|, Defaults);
  }

  /** The bootstrap as the source runs it: the grid, the candidates, the balance check and the placement loop. */
  method BootstrapBuyOrders(cfg: Config, mkt: Market, mode: Mode, ticker: Option<real>, balance: Option<real>, accepts: BuyPlacer)
    returns (placed: nat, orders: seq<BuyOrder>, raised: bool)
    requires ValidGridArgs(cfg.low, cfg.high, cfg.stepPct)
    ensures Bootstrap(cfg, mkt, mode, ticker, balance, accepts) == Placement(orders, raised)
    ensures placed == |orders| <= MaxBootstrapOrders
  {
    placed, orders, raised := 0, [], false;
    if ticker.None? {
      return;
    }
    var gridLevels := ComputeGridLevels(cfg.low, cfg.high, cfg.stepPct);
    var buyLevels := Candidates(gridLevels, ticker.value);
    var usdtFree: real;
    if mode == Live {
      if balance.None? {
        return;
      }
      usdtFree := balance.value;
    } else {
      usdtFree := cfg.maxCycleUsd;
    }
    if ShortOfFunds(|buyLevels|, usdtFree, cfg) {
      return;
    }
    orders, raised := PlaceBuyOrders(Head(buyLevels, MaxBootstrapOrders), cfg.maxCycleUsd, usdtFree, cfg, mkt, accepts);
    BootstrapBounds(cfg, mkt, mode, ticker, balance, accepts);
    placed := |orders|;
  }
}
