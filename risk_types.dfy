/**
 * The record shapes of src/types/risk.ts that the local snapshot store uses.
 *
 * Category, level and provenance are enums in the TypeScript types, but a
 * stored snapshot keeps them as strings: the store never checks them, and an
 * imported file can carry any value there.
 */
module RiskTypes {
  import opened Wrappers

  /** The six risk categories, in declaration order. */
  datatype Category = Invasion | Abduction | VirusXeno | UfoCrash | MindControl | QuantumAnomaly

  function CategoryName(c: Category): string
  {
    match c
    case Invasion => "INVASION"
    case Abduction => "ABDUCTION"
    case VirusXeno => "VIRUS_XENO"
    case UfoCrash => "UFO_CRASH"
    case MindControl => "MIND_CONTROL"
    case QuantumAnomaly => "QUANTUM_ANOMALY"
  }

  const CategoryNames: seq<string> :=
    ["INVASION", "ABDUCTION", "VIRUS_XENO", "UFO_CRASH", "MIND_CONTROL", "QUANTUM_ANOMALY"]

  /** The four severity levels, ordered Low < Medium < High < Critical. */
  datatype Level = Low | Medium | High | Critical

  function LevelName(l: Level): string
  {
    match l
    case Low => "LOW"
    case Medium => "MEDIUM"
    case High => "HIGH"
    case Critical => "CRITICAL"
  }

  const LevelNames: seq<string> := ["LOW", "MEDIUM", "HIGH", "CRITICAL"]

  /** Position of a level in the severity order. */
  function Rank(l: Level): nat
  {
    match l
    case Low => 0
    case Medium => 1
    case High => 2
    case Critical => 3
  }

  /** Provenance of a snapshot: saved without or with a server-confirmed record. */
  datatype Source = Frontend | Backend

  function SourceName(s: Source): string
  {
    match s
    case Frontend => "frontend"
    case Backend => "backend"
  }

  const SourceNames: seq<string> := ["frontend", "backend"]

  /** The risk embedded in a snapshot; `id` links it to a server-side record. */
  datatype RiskData = RiskData(
    id: Option<string>,
    title: string,
    description: Option<string>,
    category: string,
    likelihood: int,
    impact: int,
    riskScore: int,
    riskLevel: string)

  /**
   * A saved snapshot. Timestamps are instants (the ISO-8601 strings of the
   * source, already parsed). A missing `tags` or `note` is written `[]` or "".
   */
  datatype Snapshot = Snapshot(
    id: string,
    version: int,
    risk: RiskData,
    tags: seq<string>,
    note: string,
    createdAt: int,
    updatedAt: int,
    source: string)

  /** What the risk form hands to the store. */
  datatype FormData = FormData(
    title: string,
    description: Option<string>,
    category: string,
    likelihood: int,
    impact: int)
}
