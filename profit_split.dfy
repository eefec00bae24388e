/**
 * The profit splitter (profit_split.py): realized profit accumulates until
 * whole chunks of it can be split between a BNB purchase fund and a
 * reinvestment pool; the BNB fund is spent once it reaches the market's
 * minimum order cost.
 */
module ProfitSplit {
  import opened Numeric
  import opened Wrappers

  /** `SPLIT_CHUNK_USD` and `SPLIT_RATIO` when not configured. */
  const DefaultChunkUsd: real := 4.0
  const DefaultRatio: real := 0.5

  /** The minimum cost used when the market reports none. */
  const FallbackMinCost: real := 10.0

  /** How one accumulator value is split: what stays accumulated and what goes to each bucket. */
  datatype Distribution = Distribution(accumulator: real, toBnb: real, toReinvest: real)

  /**
   * The chunking step of `handle_profit`: `chunks = int(acc // chunk)`; when
   * that is positive, `chunk * ratio` per chunk goes to BNB, the rest of each
   * chunk to reinvestment, and the remainder stays accumulated.
   */
  function Distribute(acc: real, chunk: real, ratio: real): (d: Distribution)
    requires chunk != 0.0
    // no dollar is lost or created
    ensures d.accumulator + d.toBnb + d.toReinvest == acc
    // what leaves the accumulator is split by the ratio
    ensures d.toBnb == (acc - d.accumulator) * ratio
    // a non-negative accumulator ends below one chunk, having released whole chunks only
    ensures chunk > 0.0 && acc >= 0.0 ==> 0.0 <= d.accumulator < chunk
    ensures chunk > 0.0 ==> IsMultipleOf(acc - d.accumulator, chunk)
  {
    var chunks: int := (acc / chunk).Floor;
    var remainder := acc - chunks as real * chunk;
    if chunks > 0 then
      var perChunkToBnb := chunk * ratio;
      var perChunkToRe := chunk - perChunkToBnb;
      ChunkShares(chunk, ratio, chunks as real);
      DistributeBounds(acc, chunk);
      Released(acc, chunk, chunks, remainder);
      Distribution(remainder, perChunkToBnb * chunks as real, perChunkToRe * chunks as real)
    else
      DistributeBounds(acc, chunk);
      Released(acc, chunk, 0, acc);
      Distribution(acc, 0.0, 0.0)
  }

  /** Taking `k` whole chunks out of `acc` releases a multiple of the chunk. */
  lemma Released(acc: real, chunk: real, k: int, remainder: real)
    requires remainder == acc - k as real * chunk
    ensures chunk > 0.0 ==> IsMultipleOf(acc - remainder, chunk)
  {
    if chunk > 0.0 {
      WholeStepsAreMultiple(k, chunk);
      assert acc - remainder == k as real * chunk;
    }
  }

  /** The two per-chunk shares of `n` chunks add up to `n` chunks, the BNB one being the ratio of them. */
  lemma ChunkShares(chunk: real, ratio: real, n: real)
    ensures (chunk * ratio) * n + (chunk - chunk * ratio) * n == n * chunk
    ensures (chunk * ratio) * n == (n * chunk) * ratio
  {
  }

  /** With a positive chunk the `acc // chunk` floor leaves a remainder in `[0, chunk)`, and a zero count means `acc < chunk`. */
  lemma DistributeBounds(acc: real, chunk: real)
    requires chunk != 0.0
    ensures chunk > 0.0 ==> IsMultipleOf((acc / chunk).Floor as real * chunk, chunk)
    ensures chunk > 0.0 ==> 0.0 <= acc - (acc / chunk).Floor as real * chunk < chunk
    ensures chunk > 0.0 && acc >= 0.0 ==> (acc / chunk).Floor >= 0
  {
    if chunk > 0.0 {
      var f := FloorToStep(acc, chunk);
      assert f == (acc / chunk).Floor as real * chunk;
      if acc >= 0.0 {
        assert acc / chunk >= 0.0;
      }
    }
  }

  /** The documented example: 8.5 with chunks of 4 split half and half is two chunks, 4 to each bucket and 0.5 left. */
  lemma DistributeExample()
    ensures Distribute(8.5, DefaultChunkUsd, DefaultRatio) == Distribution(0.5, 4.0, 4.0)
  {
    assert (8.5 / 4.0).Floor == 2;
  }

  /** `_get_min_cost`: the market's minimum cost when it reports a non-zero one, else the fallback. */
  function MinCost(marketMin: Option<real>): (m: real)
    ensures marketMin.Some? && marketMin.value != 0.0 ==> m == marketMin.value
    ensures marketMin.None? || marketMin.value == 0.0 ==> m == FallbackMinCost
  {
    if marketMin.Some? && marketMin.value != 0.0 then marketMin.value else FallbackMinCost
  }

  /**
   * How the BNB market order went: fetching the ticker, sizing or placing
   * the order raised, or the order was sized to `qty` (and placed when `qty > 0`).
   */
  datatype BnbBuy = BuyRaised | BuySized(qty: real)

  /** What a call of `handle_profit` did. */
  datatype SplitOutcome = NotPositive | ZeroChunk | Split(attempted: bool, bought: bool)

  /**
   * `pull_reinvestment`'s amount: nothing for a non-positive request,
   * otherwise the smaller of the pool and the request.
   */
  function ReinvestAmount(pool: real, maxAddUsd: real): (add: real)
    ensures maxAddUsd <= 0.0 ==> add == 0.0
    ensures maxAddUsd > 0.0 ==> add <= pool && add <= maxAddUsd && (add == pool || add == maxAddUsd)
    ensures add > 0.0 ==> add <= pool
  {
    if maxAddUsd <= 0.0 then 0.0 else Min(pool, maxAddUsd)
  }

  /**
   * The persisted `SplitState`. Each call of the source loads it from its
   * file and saves it back; here the object itself is the saved state.
   */
  class SplitState {
    var accumulator: real
    var bnbPending: real
    var reinvestPool: real
    var totalSentToBnb: real
    var totalReinvested: real
    var lastUpdateTs: real

    /** The state of a missing file: everything zero. */
    constructor ()
      ensures accumulator == 0.0 && bnbPending == 0.0 && reinvestPool == 0.0
      ensures totalSentToBnb == 0.0 && totalReinvested == 0.0 && lastUpdateTs == 0.0
    {
      accumulator := 0.0;
      bnbPending := 0.0;
      reinvestPool := 0.0;
      totalSentToBnb := 0.0;
      totalReinvested := 0.0;
      lastUpdateTs := 0.0;
    }

    /** The dollars the splitter accounts for: undistributed, waiting for BNB, waiting for reinvestment, spent on BNB. */
    function Held(): real
      reads this
    {
      accumulator + bnbPending + reinvestPool + totalSentToBnb
    }

    /** The accumulator holds less than one chunk. */
    predicate BelowChunk(chunk: real)
      reads this
    {
      0.0 <= accumulator < chunk
    }

    /**
     * `handle_profit`. A non-positive profit returns at once; a zero chunk
     * raises before anything is saved. Otherwise the profit is chunked,
     * a BNB buy is tried once the pending fund reaches the minimum cost,
     * and the state is saved with the time `now`.
     */
    method HandleProfit(profitUsd: real, chunk: real, ratio: real, marketMin: Option<real>, buy: BnbBuy, now: real)
      returns (outcome: SplitOutcome)
      modifies this
      ensures profitUsd <= 0.0 ==> outcome == NotPositive && unchanged(this)
      ensures profitUsd > 0.0 && chunk == 0.0 ==> outcome == ZeroChunk && unchanged(this)
      ensures profitUsd > 0.0 && chunk != 0.0 ==>
        var d := Distribute(old(accumulator) + profitUsd, chunk, ratio);
        var pending := old(bnbPending) + d.toBnb;
        var attempted := pending >= MinCost(marketMin);
        var bought := attempted && buy.BuySized? && buy.qty > 0.0;
        outcome == Split(attempted, bought)
        && accumulator == d.accumulator
        && reinvestPool == old(reinvestPool) + d.toReinvest
        // a successful buy moves the whole pending fund to the BNB total
        && (bought ==> bnbPending == 0.0 && totalSentToBnb == old(totalSentToBnb) + pending)
        // a failed, empty or skipped buy keeps the fund for the next call
        && (!bought ==> bnbPending == pending && totalSentToBnb == old(totalSentToBnb))
        && totalReinvested == old(totalReinvested)
        && lastUpdateTs == now
      // every dollar of profit is accounted for
      ensures profitUsd > 0.0 && chunk != 0.0 ==> Held() == old(Held()) + profitUsd
      ensures profitUsd > 0.0 && chunk > 0.0 && old(accumulator) >= 0.0 ==> BelowChunk(chunk)
    {
      if profitUsd <= 0.0 {
        return NotPositive;
      }
      if chunk == 0.0 {
        // `acc // chunk` raises ZeroDivisionError before the state is saved
        return ZeroChunk;
      }
      var d := Distribute(accumulator + profitUsd, chunk, ratio);
      bnbPending := bnbPending + d.toBnb;
      reinvestPool := reinvestPool + d.toReinvest;
      accumulator := d.accumulator;
      var attempted := bnbPending >= MinCost(marketMin);
      var bought := false;
      if attempted {
        var usdToSpend := bnbPending;
        match buy {
          case BuyRaised =>
          case BuySized(qty) =>
            if qty > 0.0 {
              totalSentToBnb := totalSentToBnb + usdToSpend;
              bnbPending := 0.0;
              bought := true;
            }
        }
      }
      lastUpdateTs := now;
      outcome := Split(attempted, bought);
    }

    /**
     * `pull_reinvestment`: take up to `maxAddUsd` out of the reinvestment
     * pool, moving it to the reinvested total; the state is saved, with the
     * time `now`, only when something was taken.
     */
    method PullReinvestment(maxAddUsd: real, now: real) returns (add: real)
      modifies this
      ensures add == ReinvestAmount(old(reinvestPool), maxAddUsd)
      ensures add > 0.0 ==>
        reinvestPool == old(reinvestPool) - add && totalReinvested == old(totalReinvested) + add && lastUpdateTs == now
        && accumulator == old(accumulator) && bnbPending == old(bnbPending) && totalSentToBnb == old(totalSentToBnb)
      ensures add <= 0.0 ==> unchanged(this)
      // the pool and the reinvested total move together
      ensures reinvestPool + totalReinvested == old(reinvestPool) + old(totalReinvested)
    {
      if maxAddUsd <= 0.0 {
        return 0.0;
      }
      add := Min(reinvestPool, maxAddUsd);
      if add > 0.0 {
        reinvestPool := reinvestPool - add;
        totalReinvested := totalReinvested + add;
        lastUpdateTs := now;
      }
    }
  }

  /**
   * The first profit of 8.5 on a fresh state with the default chunk and
   * ratio and no market minimum: 4 dollars wait for BNB, which is below
   * the fallback minimum of 10, so no buy is tried.
   */
  lemma FirstProfitExample()
    ensures var d := Distribute(0.0 + 8.5, DefaultChunkUsd, DefaultRatio);
      d == Distribution(0.5, 4.0, 4.0) && 0.0 + d.toBnb < MinCost(None)
  {
    DistributeExample();
  }
}
