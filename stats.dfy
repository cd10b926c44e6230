/**
 * The statistics of getStats: counts by level, category and source over the
 * newest-first snapshot list, and the mean risk score rounded to hundredths.
 */
module Stats {
  import opened RiskTypes

  /**
   * One counter of a stats map. A JavaScript counter that starts out missing
   * (a level, category or source outside the enum) becomes NaN on `++` and
   * stays NaN.
   */
  datatype Tally = Count(n: nat) | NaN

  /** The counter map a stats field starts from: each known key at 0. */
  function Zeros(keys: seq<string>): (m: map<string, Tally>)
    ensures forall k | k in keys :: k in m && m[k] == Count(0)
  {
    map k | k in keys :: Count(0)
  }

  /** `counters[k]++` on a JavaScript object. */
  function Bump(m: map<string, Tally>, k: string): (r: map<string, Tally>)
    ensures r.Keys == m.Keys + {k}
    ensures forall j | j in m && j != k :: r[j] == m[j]
    ensures k in m && m[k].Count? ==> r[k] == Count(m[k].n + 1)
    ensures !(k in m && m[k].Count?) ==> r[k] == NaN
  {
    m[k := if k in m && m[k].Count? then Count(m[k].n + 1) else NaN]
  }

  function LevelKey(s: Snapshot): string { s.risk.riskLevel }
  function CategoryKey(s: Snapshot): string { s.risk.category }
  function SourceKey(s: Snapshot): string { s.source }

  /** The counters after the forEach has visited every snapshot of `xs`. */
  function TallyBy(xs: seq<Snapshot>, key: Snapshot -> string, keys: seq<string>): map<string, Tally>
  {
    if xs == [] then Zeros(keys)
    else Bump(TallyBy(xs[..|xs| - 1], key, keys), key(xs[|xs| - 1]))
  }

  /** How many snapshots of `xs` have key `k`. */
  function Occurrences(xs: seq<Snapshot>, key: Snapshot -> string, k: string): nat
  {
    if xs == [] then 0
    else Occurrences(xs[..|xs| - 1], key, k) + if key(xs[|xs| - 1]) == k then 1 else 0
  }

  /** The running `totalScore`. */
  function ScoreSum(xs: seq<Snapshot>): int
  {
    if xs == [] then 0 else ScoreSum(xs[..|xs| - 1]) + xs[|xs| - 1].risk.riskScore
  }

  /**
   * Math.round(sum / n * 100), the mean in hundredths, rounded half up
   * (Math.round is floor(x + 0.5)), in exact arithmetic.
   */
  function RoundedMeanCents(sum: int, n: nat): (c: int)
    requires n > 0
    ensures 2 * n * c <= 200 * sum + n < 2 * n * c + 2 * n
  {
    (200 * sum + n) / (2 * n)
  }

  /**
   * The result of getStats. `averageCents` is averageRiskScore times 100:
   * the source divides Math.round(mean * 100) by 100.
   */
  datatype Stats = Stats(
    total: nat,
    byLevel: map<string, Tally>,
    byCategory: map<string, Tally>,
    bySource: map<string, Tally>,
    averageCents: int)

  /** The stats of the newest-first snapshot list `xs`. */
  function StatsOf(xs: seq<Snapshot>): Stats
  {
    Stats(
      |xs|,
      TallyBy(xs, LevelKey, LevelNames),
      TallyBy(xs, CategoryKey, CategoryNames),
      TallyBy(xs, SourceKey, SourceNames),
      if |xs| == 0 then 0 else RoundedMeanCents(ScoreSum(xs), |xs|))
  }

  /** The counters of the known keys that are numbers, added up. */
  function SumCounts(m: map<string, Tally>, keys: seq<string>): nat
  {
    if keys == [] then 0
    else (if keys[0] in m && m[keys[0]].Count? then m[keys[0]].n else 0) + SumCounts(m, keys[1..])
  }

  predicate Distinct(keys: seq<string>)
  {
    forall i, j | 0 <= i < j < |keys| :: keys[i] != keys[j]
  }

  /** Every known key is present in the counters, whatever the snapshots. */
  lemma {:induction false} TallyKeysPresent(xs: seq<Snapshot>, key: Snapshot -> string, keys: seq<string>)
    ensures forall k | k in keys :: k in TallyBy(xs, key, keys)
  {
    if xs != [] {
      TallyKeysPresent(xs[..|xs| - 1], key, keys);
    }
  }

  /**
   * When every snapshot's key is a known key, each known key counts exactly
   * the snapshots that carry it, and no other key appears.
   */
  lemma {:induction false} TallyCounts(xs: seq<Snapshot>, key: Snapshot -> string, keys: seq<string>)
    requires forall s | s in xs :: key(s) in keys
    ensures forall k | k in keys ::
      (k in TallyBy(xs, key, keys) && TallyBy(xs, key, keys)[k] == Count(Occurrences(xs, key, k)))
    ensures forall k | k in TallyBy(xs, key, keys) :: k in keys
  {
    if xs != [] {
      var init := xs[..|xs| - 1];
      assert forall s | s in init :: s in xs;
      TallyCounts(init, key, keys);
    }
  }

  /** Bumping a key outside `keys` leaves their sum alone. */
  lemma {:induction false} SumCountsOther(m: map<string, Tally>, keys: seq<string>, k: string, t: Tally)
    requires k !in keys
    ensures SumCounts(m[k := t], keys) == SumCounts(m, keys)
  {
    if keys != [] {
      SumCountsOther(m, keys[1..], k, t);
    }
  }

  /** Bumping a known, numeric key adds one to the sum. */
  lemma {:induction false} SumCountsBump(m: map<string, Tally>, keys: seq<string>, k: string)
    requires Distinct(keys) && k in keys
    requires k in m && m[k].Count?
    ensures SumCounts(Bump(m, k), keys) == SumCounts(m, keys) + 1
  {
    if keys[0] == k {
      assert k !in keys[1..];
      SumCountsOther(m, keys[1..], k, Count(m[k].n + 1));
    } else {
      SumCountsBump(m, keys[1..], k);
    }
  }

  /** When every snapshot's key is known, the counters add up to the number of snapshots. */
  lemma {:induction false} TallySum(xs: seq<Snapshot>, key: Snapshot -> string, keys: seq<string>)
    requires Distinct(keys)
    requires forall s | s in xs :: key(s) in keys
    ensures SumCounts(TallyBy(xs, key, keys), keys) == |xs|
  {
    if xs == [] {
      SumCountsZero(Zeros(keys), keys);
    } else {
      var init := xs[..|xs| - 1];
      assert forall s | s in init :: s in xs;
      TallySum(init, key, keys);
      TallyCounts(init, key, keys);
      SumCountsBump(TallyBy(init, key, keys), keys, key(xs[|xs| - 1]));
    }
  }

  /** Counters that are all zero add up to zero. */
  lemma {:induction false} SumCountsZero(m: map<string, Tally>, keys: seq<string>)
    requires forall k | k in keys :: k in m && m[k] == Count(0)
    ensures SumCounts(m, keys) == 0
  {
    if keys != [] {
      SumCountsZero(m, keys[1..]);
    }
  }

  /** With scores on 1..25, the total lies between n and 25n. */
  lemma {:induction false} ScoreSumBounds(xs: seq<Snapshot>)
    requires forall s | s in xs :: 1 <= s.risk.riskScore <= 25
    ensures |xs| <= ScoreSum(xs) <= 25 * |xs|
  {
    if xs != [] {
      var init := xs[..|xs| - 1];
      assert forall s | s in init :: s in xs;
      ScoreSumBounds(init);
    }
  }

  /** getStats of an empty store: total 0, mean 0, every known key at 0. */
  lemma StatsOfEmpty()
    ensures StatsOf([]).total == 0 && StatsOf([]).averageCents == 0
    ensures forall k | k in LevelNames :: StatsOf([]).byLevel[k] == Count(0)
    ensures forall k | k in CategoryNames :: StatsOf([]).byCategory[k] == Count(0)
    ensures forall k | k in SourceNames :: StatsOf([]).bySource[k] == Count(0)
  {
  }

  /** All four level, six category and two source keys are always present. */
  lemma StatsKeysPresent(xs: seq<Snapshot>)
    ensures forall k | k in LevelNames :: k in StatsOf(xs).byLevel
    ensures forall k | k in CategoryNames :: k in StatsOf(xs).byCategory
    ensures forall k | k in SourceNames :: k in StatsOf(xs).bySource
  {
    TallyKeysPresent(xs, LevelKey, LevelNames);
    TallyKeysPresent(xs, CategoryKey, CategoryNames);
    TallyKeysPresent(xs, SourceKey, SourceNames);
  }

  /** No level, category or source name is listed twice. */
  lemma KnownKeysDistinct()
    ensures Distinct(LevelNames) && Distinct(CategoryNames) && Distinct(SourceNames)
  {
  }

  /** Each family of counters adds up to the total when its keys are all known. */
  lemma StatsCountsSumToTotal(xs: seq<Snapshot>)
    ensures (forall s | s in xs :: s.risk.riskLevel in LevelNames) ==>
      SumCounts(StatsOf(xs).byLevel, LevelNames) == StatsOf(xs).total
    ensures (forall s | s in xs :: s.risk.category in CategoryNames) ==>
      SumCounts(StatsOf(xs).byCategory, CategoryNames) == StatsOf(xs).total
    ensures (forall s | s in xs :: s.source in SourceNames) ==>
      SumCounts(StatsOf(xs).bySource, SourceNames) == StatsOf(xs).total
  {
    KnownKeysDistinct();
    if forall s | s in xs :: s.risk.riskLevel in LevelNames {
      TallySum(xs, LevelKey, LevelNames);
    }
    if forall s | s in xs :: s.risk.category in CategoryNames {
      TallySum(xs, CategoryKey, CategoryNames);
    }
    if forall s | s in xs :: s.source in SourceNames {
      TallySum(xs, SourceKey, SourceNames);
    }
  }

  /** A product with a positive factor is positive only if the other factor is. */
  lemma PositiveFactor(k: int, d: int)
    requires k > 0 && k * d > 0
    ensures d > 0
  {
  }

  /** With every score on 1..25 the mean lies between 1.00 and 25.00. */
  lemma AverageInRange(xs: seq<Snapshot>)
    requires xs != []
    requires forall s | s in xs :: 1 <= s.risk.riskScore <= 25
    ensures 100 <= StatsOf(xs).averageCents <= 2500
  {
    ScoreSumBounds(xs);
    var n, sum := |xs|, ScoreSum(xs);
    var c := RoundedMeanCents(sum, n);
    assert 2 * n * (2501 - c) == 2 * n * 2501 - 2 * n * c;
    PositiveFactor(2 * n, 2501 - c);
    assert 2 * n * (c + 1 - 100) == 2 * n * c + 2 * n - 2 * n * 100;
    PositiveFactor(2 * n, c + 1 - 100);
  }
}
