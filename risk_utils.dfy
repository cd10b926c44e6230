/**
 * The pure helpers of src/lib/utils.ts: the risk-level classifier and the two
 * display lookups. `cn` and `formatDate` wrap foreign libraries and are not
 * modelled.
 */
module RiskUtils {
  import opened RiskTypes

  /** Lowest score of a level's band. */
  function BandLow(l: Level): int
  {
    match l
    case Low => 1
    case Medium => 5
    case High => 10
    case Critical => 17
  }

  /** Highest score of a level's band. */
  function BandHigh(l: Level): int
  {
    match l
    case Low => 4
    case Medium => 9
    case High => 16
    case Critical => 25
  }

  /** A score that one of the four bands covers. */
  predicate InBands(score: int)
  {
    1 <= score <= 25
  }

  /**
   * calculateRiskLevel: a score in [1,25] gets the level whose band holds it;
   * any other score, zero and negatives included, falls back to Low.
   */
  function CalculateRiskLevel(score: int): (l: Level)
    ensures InBands(score) ==> BandLow(l) <= score <= BandHigh(l)
    ensures !InBands(score) ==> l == Low
  {
    if 1 <= score <= 4 then Low
    else if 5 <= score <= 9 then Medium
    else if 10 <= score <= 16 then High
    else if 17 <= score <= 25 then Critical
    else Low
  }

  /** The bands are consecutive, ordered by rank, and cover exactly [1,25]. */
  lemma BandsPartitionRange(l: Level, m: Level)
    ensures BandLow(l) <= BandHigh(l)
    ensures Rank(l) < Rank(m) ==> BandHigh(l) < BandLow(m)
    ensures Rank(m) == Rank(l) + 1 ==> BandLow(m) == BandHigh(l) + 1
    ensures InBands(BandLow(l)) && InBands(BandHigh(l))
    ensures BandLow(Low) == 1 && BandHigh(Critical) == 25
  {
  }

  /** On [1,25] a higher score never gets a lower level. */
  lemma CalculateRiskLevelMonotone(a: int, b: int)
    requires 1 <= a <= b <= 25
    ensures Rank(CalculateRiskLevel(a)) <= Rank(CalculateRiskLevel(b))
  {
    var la, lb := CalculateRiskLevel(a), CalculateRiskLevel(b);
    if Rank(lb) < Rank(la) {
      BandsPartitionRange(lb, la);
      assert false;
    }
  }

  /** Every level is the classification of the whole of its band. */
  lemma CalculateRiskLevelOnBand(l: Level, score: int)
    requires BandLow(l) <= score <= BandHigh(l)
    ensures CalculateRiskLevel(score) == l
  {
    var k := CalculateRiskLevel(score);
    if k != l {
      if Rank(k) < Rank(l) {
        BandsPartitionRange(k, l);
      } else {
        BandsPartitionRange(l, k);
      }
      assert false;
    }
  }

  const DefaultColor: string := "text-foreground"

  /** getRiskLevelColor: a colour class per level name, a default otherwise. */
  function RiskLevelColor(level: string): (c: string)
    ensures c == DefaultColor <==> level !in LevelNames
  {
    match level
    case "LOW" => "text-neon-green"
    case "MEDIUM" => "text-yellow-400"
    case "HIGH" => "text-orange-400"
    case "CRITICAL" => "text-neon-pink"
    case _ => DefaultColor
  }

  /** Different levels are shown in different colours. */
  lemma RiskLevelColorsDistinct(l: Level, m: Level)
    requires l != m
    ensures RiskLevelColor(LevelName(l)) != RiskLevelColor(LevelName(m))
  {
  }

  /** The Spanish display label of a category. */
  function CategoryDisplay(c: Category): string
  {
    match c
    case Invasion => "Invasión"
    case Abduction => "Abducción"
    case VirusXeno => "Virus Xenomorfo"
    case UfoCrash => "Accidente OVNI"
    case MindControl => "Control Mental"
    case QuantumAnomaly => "Anomalía Cuántica"
  }

  /**
   * The label table of getRiskCategoryLabel, keyed by category name, as the
   * lookup builds it; `RiskCategoryLabelOfCategory` proves it agrees with
   * `CategoryDisplay`, the label of each category stated case by case.
   */
  const CategoryLabels: map<string, string> :=
    map["INVASION" := "Invasión",
        "ABDUCTION" := "Abducción",
        "VIRUS_XENO" := "Virus Xenomorfo",
        "UFO_CRASH" := "Accidente OVNI",
        "MIND_CONTROL" := "Control Mental",
        "QUANTUM_ANOMALY" := "Anomalía Cuántica"]

  /**
   * getRiskCategoryLabel: the label of a known category name; any other
   * string comes back unchanged (the `|| category` fallback).
   */
  function RiskCategoryLabel(category: string): (shown: string)
    ensures shown == category <==> category !in CategoryNames
  {
    if category in CategoryLabels && CategoryLabels[category] != "" then CategoryLabels[category]
    else category
  }

  /** Each of the six categories gets its own fixed label. */
  lemma RiskCategoryLabelOfCategory(c: Category)
    ensures RiskCategoryLabel(CategoryName(c)) == CategoryDisplay(c)
  {
  }
}
