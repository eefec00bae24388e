/**
 * The dashboard stats file (utils_stats.py): three counters, normalised on
 * every read and every write, and an additive update of them.
 */
module UtilsStats {
  import opened JsonValues
  import opened Wrappers

  const CumulativeProfitKey: string := "cumulative_profit_usd"
  const SplitsCountKey: string := "splits_count"
  const BnbConvertedKey: string := "bnb_converted_usd"

  /** The keys of the normalised stats. */
  function StatKeys(): set<string>
  {
    {CumulativeProfitKey, SplitsCountKey, BnbConvertedKey}
  }

  /** `_safe_float`: `float(x)`, or the default where that raises. */
  function SafeFloat(v: Json, default: real): (r: real)
    ensures PyFloat(v).Some? ==> r == PyFloat(v).value
    ensures PyFloat(v).None? ==> r == default
  {
    match PyFloat(v)
    case Some(f) => f
    case None => default
  }

  /** `_safe_int`: `int(x)`, or the default where that raises. */
  function SafeInt(v: Json, default: int): (r: int)
    ensures PyInt(v).Some? ==> r == PyInt(v).value
    ensures PyInt(v).None? ==> r == default
  {
    match PyInt(v)
    case Some(i) => i
    case None => default
  }

  /** The three counters as they are stored. */
  function StatsMap(profit: real, splits: int, bnb: real): (m: map<string, Json>)
    ensures m.Keys == StatKeys()
    ensures m[CumulativeProfitKey] == JFloat(profit) && m[SplitsCountKey] == JInt(splits) && m[BnbConvertedKey] == JFloat(bnb)
  {
    map[CumulativeProfitKey := JFloat(profit), SplitsCountKey := JInt(splits), BnbConvertedKey := JFloat(bnb)]
  }

  /** `_DEFAULT`: all three counters zero. */
  function DefaultStats(): map<string, Json>
  {
    StatsMap(0.0, 0, 0.0)
  }

  /**
   * The normalisation of `read_stats` and `write_stats`: exactly the three
   * keys, each converted safely from the entry present (missing ones count as zero).
   */
  function Normalize(data: map<string, Json>): (m: map<string, Json>)
    ensures m.Keys == StatKeys()
    ensures m[CumulativeProfitKey] == JFloat(SafeFloat(Get(data, CumulativeProfitKey, JFloat(0.0)), 0.0))
    ensures m[SplitsCountKey] == JInt(SafeInt(Get(data, SplitsCountKey, JInt(0)), 0))
    ensures m[BnbConvertedKey] == JFloat(SafeFloat(Get(data, BnbConvertedKey, JFloat(0.0)), 0.0))
  {
    StatsMap(SafeFloat(Get(data, CumulativeProfitKey, JFloat(0.0)), 0.0),
             SafeInt(Get(data, SplitsCountKey, JInt(0)), 0),
             SafeFloat(Get(data, BnbConvertedKey, JFloat(0.0)), 0.0))
  }

  /** Normalised stats are kept as they are by another normalisation. */
  lemma NormalizeIdempotent(data: map<string, Json>)
    ensures Normalize(Normalize(data)) == Normalize(data)
  {
    var n := Normalize(data);
    var nn := Normalize(n);
    assert nn.Keys == n.Keys;
    assert nn[CumulativeProfitKey] == n[CumulativeProfitKey];
    assert nn[SplitsCountKey] == n[SplitsCountKey];
    assert nn[BnbConvertedKey] == n[BnbConvertedKey];
  }

  /**
   * `read_stats` over the stats file: `None` when it is missing or cannot be
   * read or decoded; a document that is not an object gives the defaults too.
   */
  function ReadStats(file: Option<Doc>): (m: map<string, Json>)
    ensures m.Keys == StatKeys()
    ensures file.None? || file.value.NonDict? ==> m == DefaultStats()
    ensures file.Some? && file.value.DictDoc? ==> m == Normalize(file.value.entries)
  {
    match file
    case Some(DictDoc(entries)) => Normalize(entries)
    case _ => DefaultStats()
  }

  /** Reading back what `write_stats` wrote returns it unchanged. */
  lemma ReadAfterWrite(data: map<string, Json>)
    ensures ReadStats(Some(DictDoc(Normalize(data)))) == Normalize(data)
  {
    NormalizeIdempotent(data);
  }

  /** The stats file, `None` when it is missing or unreadable. */
  class StatsFile {
    var file: Option<Doc>

    constructor (file0: Option<Doc>)
      ensures file == file0
    {
      file := file0;
    }

    /** `write_stats`: the file holds the normalised stats. */
    method WriteStats(data: map<string, Json>)
      modifies this
      ensures file == Some(DictDoc(Normalize(data)))
    {
      file := Some(DictDoc(Normalize(data)));
    }

    /**
     * `add_realized_profit`: read the stats, add the three deltas, write
     * them back. The file then holds exactly the three counters.
     */
    method AddRealizedProfit(profitUsd: real, incSplits: int, addBnbUsd: real)
      modifies this
      ensures var s := ReadStats(old(file));
        file == Some(DictDoc(StatsMap(
          SafeFloat(s[CumulativeProfitKey], 0.0) + profitUsd,
          SafeInt(s[SplitsCountKey], 0) + incSplits,
          SafeFloat(s[BnbConvertedKey], 0.0) + addBnbUsd)))
    {
      var s := ReadStats(file);
      s := s[CumulativeProfitKey := JFloat(SafeFloat(Get(s, CumulativeProfitKey, JFloat(0.0)), 0.0) + profitUsd)];
      s := s[SplitsCountKey := JInt(SafeInt(Get(s, SplitsCountKey, JInt(0)), 0) + incSplits)];
      s := s[BnbConvertedKey := JFloat(SafeFloat(Get(s, BnbConvertedKey, JFloat(0.0)), 0.0) + addBnbUsd)];
      WriteStats(s);
      NormalizeStats(s);
    }
  }

  /** Stats already holding the three typed counters normalise to themselves. */
  lemma NormalizeStats(m: map<string, Json>)
    requires m.Keys == StatKeys()
    requires m[CumulativeProfitKey].JFloat? && m[SplitsCountKey].JInt? && m[BnbConvertedKey].JFloat?
    ensures Normalize(m) == m
  {
    var n := Normalize(m);
    assert n.Keys == m.Keys;
    forall k | k in m
      ensures n[k] == m[k]
    {
    }
  }

  /**
   * The counters add up: the stored values after an update are the counters
   * read before plus the deltas, however many updates are made.
   */
  lemma AddComposes(file: Option<Doc>, p1: real, s1: int, b1: real, p2: real, s2: int, b2: real)
    ensures var r := ReadStats(file);
      var once := StatsMap(SafeFloat(r[CumulativeProfitKey], 0.0) + p1, SafeInt(r[SplitsCountKey], 0) + s1,
                           SafeFloat(r[BnbConvertedKey], 0.0) + b1);
      var r2 := ReadStats(Some(DictDoc(once)));
      r2 == once
      && SafeFloat(r2[CumulativeProfitKey], 0.0) + p2 == SafeFloat(r[CumulativeProfitKey], 0.0) + (p1 + p2)
      && SafeInt(r2[SplitsCountKey], 0) + s2 == SafeInt(r[SplitsCountKey], 0) + (s1 + s2)
      && SafeFloat(r2[BnbConvertedKey], 0.0) + b2 == SafeFloat(r[BnbConvertedKey], 0.0) + (b1 + b2)
  {
    var r := ReadStats(file);
    var once := StatsMap(SafeFloat(r[CumulativeProfitKey], 0.0) + p1, SafeInt(r[SplitsCountKey], 0) + s1,
                         SafeFloat(r[BnbConvertedKey], 0.0) + b1);
    NormalizeStats(once);
  }
}
