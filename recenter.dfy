/**
 * The recenter policy (recenter.py): when the price has sat near an edge of
 * the grid range long enough, or has drifted far enough from its centre,
 * the range is moved so that the price is in the middle again.
 */
module Recenter {
  import opened Numeric
  import opened Wrappers

  /** The defaults of `need_recenter`. */
  const DefaultDwellSeconds: real := 600.0
  const DefaultEdgePct: real := 90.0

  /**
   * `_edge_hit`: the price is within `edgePct` percent of the range width
   * of the lower or of the upper bound. An empty or inverted range is never hit.
   */
  function EdgeHit(lastPrice: real, lower: real, upper: real, edgePct: real): (hit: bool)
    ensures upper - lower <= 0.0 ==> !hit
    ensures upper - lower > 0.0 ==>
      (hit <==> Min(lastPrice - lower, upper - lastPrice) <= (upper - lower) * (edgePct / 100.0))
  {
    var width := upper - lower;
    if width <= 0.0 then false
    else
      var lowerEdge := lower + width * (edgePct / 100.0);
      var upperEdge := upper - width * (edgePct / 100.0);
      lastPrice <= lowerEdge || lastPrice >= upperEdge
  }

  /** With an edge of half the width or more, the two edge zones cover the range: every price is a hit. */
  lemma WideEdgeAlwaysHits(lastPrice: real, lower: real, upper: real, edgePct: real)
    requires upper > lower && edgePct >= 50.0
    ensures EdgeHit(lastPrice, lower, upper, edgePct)
  {
    var width := upper - lower;
    MulLe(0.5, edgePct / 100.0, width);
    assert width * (edgePct / 100.0) >= width * 0.5;
  }

  /** The default edge (90%) therefore fires on every price of a non-empty range. */
  lemma DefaultEdgeAlwaysHits(lastPrice: real, lower: real, upper: real)
    requires upper > lower
    ensures EdgeHit(lastPrice, lower, upper, DefaultEdgePct)
  {
    WideEdgeAlwaysHits(lastPrice, lower, upper, DefaultEdgePct);
  }

  /** The drift criterion: a drift percentage is configured, the range is non-empty and the price is that far from the centre. */
  function DriftOk(lastPrice: real, lower: real, upper: real, driftPct: Option<real>): (ok: bool)
    ensures ok <==> (driftPct.Some? && upper - lower > 0.0
                     && Abs(lastPrice - (lower + upper) / 2.0) >= (upper - lower) * (driftPct.value / 100.0))
  {
    match driftPct
    case None => false
    case Some(pct) =>
      var width := upper - lower;
      width > 0.0 && Abs(lastPrice - (lower + upper) / 2.0) >= width * (pct / 100.0)
  }

  /**
   * The `dwell_state` dictionary of `need_recenter`: the time of the last
   * decision and the time the price was first seen at an edge, each possibly absent.
   */
  class DwellTracker {
    var now: Option<real>
    var hitSince: Option<real>

    constructor (now0: Option<real>, hitSince0: Option<real>)
      ensures now == now0 && hitSince == hitSince0
    {
      now := now0;
      hitSince := hitSince0;
    }

    /**
     * `need_recenter`. `clock` stands for `time.time()`, read when the
     * tracker holds no (or a zero) time.
     */
    method NeedRecenter(lastPrice: real, lower: real, upper: real, clock: real,
                        dwellSeconds: real, edgePct: real, driftPct: Option<real>)
      returns (recenter: bool)
      modifies this
      ensures now == Some(OrElse(old(now), clock))
      // the first hit starts the dwell clock, consecutive hits keep it, a miss clears it
      ensures EdgeHit(lastPrice, lower, upper, edgePct) && old(hitSince).None? ==> hitSince == now
      ensures EdgeHit(lastPrice, lower, upper, edgePct) && old(hitSince).Some? ==> hitSince == old(hitSince)
      ensures !EdgeHit(lastPrice, lower, upper, edgePct) ==> hitSince == None
      ensures recenter <==>
        (EdgeHit(lastPrice, lower, upper, edgePct) && now.value - OrElse(hitSince, now.value) >= dwellSeconds)
        || DriftOk(lastPrice, lower, upper, driftPct)
      // with a real start time on record, the edge criterion is exactly "dwelt at least dwellSeconds"
      ensures Truthy(hitSince) ==>
        (recenter <==> (now.value - hitSince.value >= dwellSeconds) || DriftOk(lastPrice, lower, upper, driftPct))
    {
      var t := OrElse(now, clock);
      now := Some(t);
      var hit := EdgeHit(lastPrice, lower, upper, edgePct);
      if hit {
        if hitSince.None? {
          hitSince := Some(t);
        }
      } else {
        hitSince := None;
      }
      var edgeOk := hit && t - OrElse(hitSince, t) >= dwellSeconds;
      var driftOk := DriftOk(lastPrice, lower, upper, driftPct);
      recenter := edgeOk || driftOk;
    }
  }

  /**
   * `recenter_bounds`: a range of the old width (at least 1e-9) around the
   * price, with the lower bound kept at 1e-9 or above.
   */
  function RecenterBounds(aroundPrice: real, lower: real, upper: real): (r: (real, real))
    ensures r.1 - r.0 == Max(upper - lower, Eps9)
    ensures r.0 >= Eps9 && r.0 < r.1
    ensures aroundPrice - Max(upper - lower, Eps9) / 2.0 >= Eps9 ==> (r.0 + r.1) / 2.0 == aroundPrice
  {
    var width := Max(upper - lower, Eps9);
    var newLower := Max(Eps9, aroundPrice - width / 2.0);
    (newLower, newLower + width)
  }

  /** Recentering an already recentred range around the same price changes nothing. */
  lemma RecenterBoundsIdempotent(aroundPrice: real, lower: real, upper: real)
    ensures var r := RecenterBounds(aroundPrice, lower, upper);
      RecenterBounds(aroundPrice, r.0, r.1) == r
  {
  }
}
