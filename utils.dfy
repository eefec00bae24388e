/**
 * The bot utilities (utils.py): rounding quantities and prices down to what
 * the exchange accepts, and the additive update of the runtime stats.
 */
module Utils {
  import opened Numeric
  import opened JsonValues
  import opened Wrappers
  import UtilsStats

  /** `x` floored to a whole number of `1 / factor` units: `floor(x * factor) / factor`. */
  function FloorAtScale(x: real, factor: real): (r: real)
    requires factor > 0.0
    ensures WholeUnits(r, factor)
    ensures r <= x < r + 1.0 / factor
  {
    var k: int := (x * factor).Floor;
    ScaleBack(k, factor, x);
    DivBracket(k as real, x * factor, factor, x);
    k as real / factor
  }

  /** `k <= x * f < k + 1` divided by a positive `f`. */
  lemma DivBracket(k: real, q: real, f: real, x: real)
    requires f > 0.0 && q == x * f && k <= q < k + 1.0
    ensures k / f <= x < k / f + 1.0 / f
  {
    var g := 1.0 / f;
    assert q * g == x;
    MulLe(k, q, g);
    MulLt(q, k + 1.0, g);
    assert (k + 1.0) * g == k / f + 1.0 / f;
  }

  /**
   * `round_down_qty`: a positive step wins and floors to its multiples;
   * then a given precision floors to that many decimals (`10 ** p`, so a
   * negative precision floors to tens, hundreds, ...); otherwise `math.floor`.
   */
  function RoundDownQty(qty: real, amountPrecision: Option<int>, amountStep: Option<real>): (r: real)
    ensures amountStep.Some? && amountStep.value > 0.0 ==>
      IsMultipleOf(r, amountStep.value) && r <= qty < r + amountStep.value
    ensures !(amountStep.Some? && amountStep.value > 0.0) && amountPrecision.Some? ==>
      WholeUnits(r, Pow10(amountPrecision.value)) && r <= qty < r + 1.0 / Pow10(amountPrecision.value)
    ensures !(amountStep.Some? && amountStep.value > 0.0) && amountPrecision.None? ==>
      r == qty.Floor as real
  {
    if amountStep.Some? && amountStep.value > 0.0 then FloorToStep(qty, amountStep.value)
    else if amountPrecision.Some? then FloorAtScale(qty, Pow10(amountPrecision.value))
    else qty.Floor as real
  }

  /**
   * `round_price`: a positive tick wins and floors to its multiples; then a
   * given precision floors to that many decimals; otherwise the price is unchanged.
   */
  function RoundPrice(price: real, pricePrecision: Option<int>, priceTick: Option<real>): (r: real)
    ensures priceTick.Some? && priceTick.value > 0.0 ==>
      IsMultipleOf(r, priceTick.value) && r <= price < r + priceTick.value
    ensures !(priceTick.Some? && priceTick.value > 0.0) && pricePrecision.Some? ==>
      WholeUnits(r, Pow10(pricePrecision.value)) && r <= price < r + 1.0 / Pow10(pricePrecision.value)
    ensures !(priceTick.Some? && priceTick.value > 0.0) && pricePrecision.None? ==> r == price
  {
    if priceTick.Some? && priceTick.value > 0.0 then FloorToStep(price, priceTick.value)
    else if pricePrecision.Some? then FloorAtScale(price, Pow10(pricePrecision.value))
    else price
  }

  /** Rounding a price is idempotent: an already rounded price stays. */
  lemma RoundPriceIdempotent(price: real, pricePrecision: Option<int>, priceTick: Option<real>)
    ensures var r := RoundPrice(price, pricePrecision, priceTick);
      RoundPrice(r, pricePrecision, priceTick) == r
  {
    var r := RoundPrice(price, pricePrecision, priceTick);
    if priceTick.Some? && priceTick.value > 0.0 {
      FloorToStepFixed(r, priceTick.value);
    } else if pricePrecision.Some? {
      FloorAtScaleFixed(r, Pow10(pricePrecision.value));
    }
  }

  /** A whole number of units floors to itself. */
  lemma FloorAtScaleFixed(x: real, factor: real)
    requires factor > 0.0 && WholeUnits(x, factor)
    ensures FloorAtScale(x, factor) == x
  {
    var k: int := (x * factor).Floor;
    assert k as real == x * factor;
    DivideBack(x, factor);
  }

  lemma DivideBack(x: real, factor: real)
    requires factor > 0.0
    ensures (x * factor) / factor == x
  {
  }

  /** Two decimals: 1.2399 rounds down to 1.23. */
  lemma RoundPriceExampleTruncates()
    ensures RoundPrice(1.2399, Some(2), None) == 1.23
  {
    assert Pow10(2) == 100.0;
    assert (1.2399 * 100.0).Floor == 123;
  }

  /** Two decimals: 1.235 rounds down to 1.23, never up to 1.24. */
  lemma RoundPriceExampleHalfGoesDown()
    ensures RoundPrice(1.235, Some(2), None) == 1.23
  {
    assert Pow10(2) == 100.0;
    assert (1.235 * 100.0).Floor == 123;
  }

  /** The stats of a missing, unreadable or non-object file in utils.py: five keys, all zero. */
  function LegacyDefaultStats(): map<string, Json>
  {
    map["cumulative_profit_usd" := JFloat(0.0), "splits_count" := JInt(0), "bnb_converted_usd" := JFloat(0.0),
        "trade_count" := JInt(0), "trigger_amount_usd" := JFloat(0.0)]
  }

  /** `_read_stats` of utils.py: the decoded object as it is, or the defaults. */
  function RawStats(file: Option<Doc>): map<string, Json>
  {
    match file
    case Some(DictDoc(entries)) => entries
    case _ => LegacyDefaultStats()
  }

  /** `float(v or 0.0)`: falsy values count as zero; `None` where `float` raises. */
  function FloatOrZero(v: Json): (r: Option<real>)
    ensures Falsy(v) ==> r == Some(0.0)
  {
    if Falsy(v) then Some(0.0) else PyFloat(v)
  }

  /** `int(v or 0)`. */
  function IntOrZero(v: Json): (r: Option<int>)
    ensures Falsy(v) ==> r == Some(0)
  {
    if Falsy(v) then Some(0) else PyInt(v)
  }

  /**
   * `add_realized_profit` of utils.py on the stats file: the three counters
   * grow by the deltas and every other key is written back as read. A
   * stored counter that `float`/`int` refuse raises before anything is
   * written (`false` here).
   */
  method AddRealizedProfit(stats: UtilsStats.StatsFile, profitUsd: real, incSplits: int, addBnbUsd: real)
    returns (ok: bool)
    modifies stats
    ensures var raw := RawStats(old(stats.file));
      var p := FloatOrZero(Get(raw, UtilsStats.CumulativeProfitKey, JFloat(0.0)));
      var s := IntOrZero(Get(raw, UtilsStats.SplitsCountKey, JInt(0)));
      var b := FloatOrZero(Get(raw, UtilsStats.BnbConvertedKey, JFloat(0.0)));
      ok == (p.Some? && s.Some? && b.Some?)
      && (!ok ==> stats.file == old(stats.file))
      && (ok ==> stats.file == Some(DictDoc(raw[UtilsStats.CumulativeProfitKey := JFloat(p.value + profitUsd)]
                                                [UtilsStats.SplitsCountKey := JInt(s.value + incSplits)]
                                                [UtilsStats.BnbConvertedKey := JFloat(b.value + addBnbUsd)])))
  {
    var raw := RawStats(stats.file);
    var p := FloatOrZero(Get(raw, UtilsStats.CumulativeProfitKey, JFloat(0.0)));
    var s := IntOrZero(Get(raw, UtilsStats.SplitsCountKey, JInt(0)));
    var b := FloatOrZero(Get(raw, UtilsStats.BnbConvertedKey, JFloat(0.0)));
    if p.None? || s.None? || b.None? {
      return false;
    }
    raw := raw[UtilsStats.CumulativeProfitKey := JFloat(p.value + profitUsd)];
    raw := raw[UtilsStats.SplitsCountKey := JInt(s.value + incSplits)];
    raw := raw[UtilsStats.BnbConvertedKey := JFloat(b.value + addBnbUsd)];
    stats.file := Some(DictDoc(raw));
    ok := true;
  }

  /** The update of utils.py leaves every key other than the three counters exactly as it was. */
  lemma AddKeepsOtherKeys(raw: map<string, Json>, p: real, s: int, b: real, k: string)
    requires k !in UtilsStats.StatKeys()
    ensures var m := raw[UtilsStats.CumulativeProfitKey := JFloat(p)][UtilsStats.SplitsCountKey := JInt(s)]
                        [UtilsStats.BnbConvertedKey := JFloat(b)];
      (k in m <==> k in raw) && (k in raw ==> m[k] == raw[k])
      && m.Keys == raw.Keys + UtilsStats.StatKeys()
  {
  }
}
