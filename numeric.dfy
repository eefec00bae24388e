/**
 * Arithmetic shared by the trading-bot model: the tolerance constants the
 * Python code writes as float literals, powers of ten, floor-to-a-multiple
 * and round-half-to-even at a number of decimal places.
 *
 * Prices, quantities and dollar amounts are exact reals here; the float and
 * Decimal rounding noise of the original is not modelled.
 */
module Numeric {

  /** The tolerances written as `1e-9`, `1e-12` and `1e-18` in the source. */
  const Eps9: real := 1.0e-9
  const Eps12: real := 1.0e-12
  const Eps18: real := 1.0e-18

  function Min(a: real, b: real): (r: real)
    ensures r <= a && r <= b && (r == a || r == b)
  {
    if a <= b then a else b
  }

  function Max(a: real, b: real): (r: real)
    ensures r >= a && r >= b && (r == a || r == b)
  {
    if a >= b then a else b
  }

  function Abs(x: real): (r: real)
    ensures r >= 0.0 && (r == x || r == -x)
  {
    if x >= 0.0 then x else -x
  }

  /** 10 to a natural power. */
  function Pow10Nat(n: nat): (r: real)
    ensures r >= 1.0
  {
    if n == 0 then 1.0 else 10.0 * Pow10Nat(n - 1)
  }

  /** 10 to an integer power, as Python's `10 ** p` for an int `p`. */
  function Pow10(p: int): (r: real)
    ensures r > 0.0
    ensures p >= 0 ==> r >= 1.0
  {
    if p >= 0 then Pow10Nat(p) else 1.0 / Pow10Nat(-p)
  }

  /** `x` is a whole multiple of `step`. */
  predicate IsMultipleOf(x: real, step: real)
    requires step > 0.0
  {
    (x / step).Floor as real == x / step
  }

  /** Concatenation is associative. */
  lemma ConcatAssoc<T>(a: seq<T>, b: seq<T>, c: seq<T>)
    ensures (a + b) + c == a + (b + c)
  {
  }

  lemma FloorBounds(q: real)
    ensures q.Floor as real <= q < q.Floor as real + 1.0
  {
  }

  /** Multiplying both sides by a positive factor keeps `<=`. */
  lemma MulLe(a: real, b: real, c: real)
    requires a <= b && c > 0.0
    ensures a * c <= b * c
  {
  }

  /** Multiplying both sides by a positive factor keeps `<`. */
  lemma MulLt(a: real, b: real, c: real)
    requires a < b && c > 0.0
    ensures a * c < b * c
  {
  }

  /** Dividing both sides by a positive divisor keeps `<=`. */
  lemma DivLe(x: real, y: real, s: real)
    requires s > 0.0 && x <= y
    ensures x / s <= y / s
  {
    MulLe(x, y, 1.0 / s);
    assert x / s == x * (1.0 / s);
    assert y / s == y * (1.0 / s);
  }

  /** If `k <= q < k + 1` then scaling by `s` brackets `q * s` the same way. */
  lemma Bracket(k: real, q: real, s: real, x: real)
    requires k <= q < k + 1.0 && s > 0.0 && q * s == x
    ensures k * s <= x
    ensures x < k * s + s
  {
    BracketLow(k, q, s, x);
    BracketHigh(k, q, s, x);
  }

  lemma BracketLow(k: real, q: real, s: real, x: real)
    requires k <= q && s > 0.0 && q * s == x
    ensures k * s <= x
  {
    MulLe(k, q, s);
  }

  lemma BracketHigh(k: real, q: real, s: real, x: real)
    requires q < k + 1.0 && s > 0.0 && q * s == x
    ensures x < k * s + s
  {
    MulLt(q, k + 1.0, s);
    AddOneMul(k, s);
  }

  lemma AddOneMul(a: real, c: real)
    ensures (a + 1.0) * c == a * c + c
  {
  }

  /** A whole number of steps is a multiple of the step. */
  lemma WholeStepsAreMultiple(k: int, step: real)
    requires step > 0.0
    ensures IsMultipleOf(k as real * step, step)
  {
    assert (k as real * step) / step == k as real;
  }

  /**
   * The largest whole multiple of `step` that does not exceed `x`
   * (`floor(x / step) * step`).
   */
  function FloorToStep(x: real, step: real): (r: real)
    requires step > 0.0
    ensures IsMultipleOf(r, step)
    ensures r <= x < r + step
  {
    var k: int := (x / step).Floor;
    WholeStepsAreMultiple(k, step);
    Bracket(k as real, x / step, step, x);
    k as real * step
  }

  /** A multiple of the step rounds down to itself. */
  lemma {:induction false} FloorToStepFixed(x: real, step: real)
    requires step > 0.0 && IsMultipleOf(x, step)
    ensures FloorToStep(x, step) == x
  {
    var k := (x / step).Floor;
    assert k as real * step == (x / step) * step;
  }

  /** Rounding down is monotone. */
  lemma {:induction false} FloorToStepMonotone(x: real, y: real, step: real)
    requires step > 0.0 && x <= y
    ensures FloorToStep(x, step) <= FloorToStep(y, step)
  {
    var rx, ry := FloorToStep(x, step), FloorToStep(y, step);
    DivLe(x, y, step);
    assert (x / step).Floor <= (y / step).Floor;
    assert rx == (x / step).Floor as real * step;
    assert ry == (y / step).Floor as real * step;
  }

  /**
   * Round `x` to the nearest integer, ties to the even neighbour
   * (the rounding Python's `round` and `format` perform).
   */
  function RoundHalfEvenInt(x: real): (r: int)
    ensures (r as real - x) <= 0.5 && (x - r as real) <= 0.5
    ensures x - x.Floor as real != 0.5 ==> (x - r as real) < 0.5 && (r as real - x) < 0.5
    ensures x - x.Floor as real == 0.5 ==> r % 2 == 0
  {
    var f := x.Floor;
    var frac := x - f as real;
    if frac < 0.5 then f
    else if frac > 0.5 then f + 1
    else if f % 2 == 0 then f else f + 1
  }

  /** `r` is a whole number of `1 / scale` units (`r * scale` has no fractional part). */
  predicate WholeUnits(r: real, scale: real)
  {
    (r * scale).Floor as real == r * scale
  }

  /** Dividing a whole number by a positive scale and multiplying back is exact, distances included. */
  lemma ScaleBack(n: int, scale: real, x: real)
    requires scale > 0.0
    ensures WholeUnits(n as real / scale, scale)
    ensures Abs(n as real / scale - x) * scale == Abs(n as real - x * scale)
  {
    var r := n as real / scale;
    assert r * scale == n as real;
    assert (r - x) * scale == r * scale - x * scale;
    assert (x - r) * scale == x * scale - r * scale;
  }

  /** Round half-to-even to a whole number of `1 / scale` units. */
  function RoundAtScale(x: real, scale: real): (r: real)
    requires scale > 0.0
    ensures WholeUnits(r, scale)
    ensures Abs(r - x) * scale <= 0.5
  {
    var n := RoundHalfEvenInt(x * scale);
    ScaleBack(n, scale, x);
    n as real / scale
  }

  /** `round(x, digits)`: half-to-even at `digits` decimal places. */
  function RoundDigits(x: real, digits: nat): (r: real)
    ensures WholeUnits(r, Pow10Nat(digits))
    ensures Abs(r - x) * Pow10Nat(digits) <= 0.5
  {
    RoundAtScale(x, Pow10Nat(digits))
  }
}
