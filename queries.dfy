/**
 * The two read-only queries of the store, over a newest-first snapshot list:
 * case-insensitive text search and the structured filter.
 */
module Queries {
  import opened Wrappers
  import opened RiskTypes
  import opened Text
  import opened SnapshotSeqs

  /**
   * One snapshot against an already lower-cased search term: the title, the
   * description, the note or any tag contains it, ignoring case.
   */
  predicate MatchesTerm(s: Snapshot, term: string)
  {
    || Includes(Lower(s.risk.title), term)
    || (s.risk.description.Some? && Includes(Lower(s.risk.description.value), term))
    || Includes(Lower(s.note), term)
    || exists k | 0 <= k < |s.tags| :: Includes(Lower(s.tags[k]), term)
  }

  function Matching(term: string): Snapshot -> bool
  {
    s => MatchesTerm(s, term)
  }

  /** search over `xs`: the snapshots whose text fields contain the query, ignoring case. */
  function SearchIn(xs: seq<Snapshot>, query: string): (r: seq<Snapshot>)
    ensures IsSubsequence(r, xs)
    ensures forall s :: s in r <==> s in xs && MatchesTerm(s, Lower(query))
    ensures forall s :: multiset(r)[s] == if MatchesTerm(s, Lower(query)) then multiset(xs)[s] else 0
  {
    WhereIsSubsequence(xs, Matching(Lower(query)));
    WhereCount(xs, Matching(Lower(query)));
    Where(xs, Matching(Lower(query)))
  }

  /** The empty query keeps every snapshot: every title contains "". */
  lemma SearchEmptyKeepsAll(xs: seq<Snapshot>)
    ensures SearchIn(xs, "") == xs
  {
    forall s | s in xs
      ensures Matching(Lower(""))(s)
    {
      IncludesEmpty(Lower(s.risk.title));
    }
    WhereAll(xs, Matching(Lower("")));
  }

  /** The query's case does not matter. */
  lemma SearchIgnoresQueryCase(xs: seq<Snapshot>, query: string)
    ensures SearchIn(xs, Lower(query)) == SearchIn(xs, query)
  {
    LowerIdempotent(query);
  }

  /** A match in a tag is found whatever the case of tag and query. */
  lemma SearchFindsTagIgnoringCase()
    ensures var s := Snapshot("a", 1, RiskData(None, "Ship", None, "INVASION", 1, 1, 1, "LOW"), ["Quantum"], "", 0, 0, "frontend");
      SearchIn([s], "quantum") == [s] && SearchIn([s], "QUANTUM") == [s]
  {
    var s := Snapshot("a", 1, RiskData(None, "Ship", None, "INVASION", 1, 1, 1, "LOW"), ["Quantum"], "", 0, 0, "frontend");
    assert Lower("Quantum") == "quantum";
    assert Lower("QUANTUM") == "quantum";
    assert Includes(Lower(s.tags[0]), "quantum");
    assert MatchesTerm(s, "quantum");
  }

  /**
   * The filter criteria. A category, level or source that is absent or ""
   * is no constraint (the source tests their truthiness); the dates are
   * instants, None when absent.
   */
  datatype Criteria = Criteria(
    category: Option<string>,
    level: Option<string>,
    source: Option<string>,
    dateFrom: Option<int>,
    dateTo: Option<int>)

  const NoCriteria: Criteria := Criteria(None, None, None, None, None)

  predicate Given(o: Option<string>)
  {
    o.Some? && o.value != ""
  }

  /** Every present criterion holds: exact category, level and source, inclusive dates. */
  predicate MeetsCriteria(c: Criteria, s: Snapshot)
  {
    && (Given(c.category) ==> s.risk.category == c.category.value)
    && (Given(c.level) ==> s.risk.riskLevel == c.level.value)
    && (Given(c.source) ==> s.source == c.source.value)
    && (c.dateFrom.Some? ==> s.createdAt >= c.dateFrom.value)
    && (c.dateTo.Some? ==> s.createdAt <= c.dateTo.value)
  }

  function Meeting(c: Criteria): Snapshot -> bool
  {
    s => MeetsCriteria(c, s)
  }

  /** One `if (filters.x) snapshots = snapshots.filter(…)` step. */
  function Narrow(xs: seq<Snapshot>, given: bool, p: Snapshot -> bool): seq<Snapshot>
  {
    if given then Where(xs, p) else xs
  }

  /** A step applied after a filter is one filter by both conditions. */
  lemma NarrowAfterWhere(xs: seq<Snapshot>, p: Snapshot -> bool, given: bool, q: Snapshot -> bool, r: Snapshot -> bool)
    requires forall x :: r(x) == (p(x) && (!given || q(x)))
    ensures Narrow(Where(xs, p), given, q) == Where(xs, r)
  {
    if given {
      WhereFusion(xs, p, q);
      WhereSameCondition(xs, x => p(x) && q(x), r);
    } else {
      WhereSameCondition(xs, p, r);
    }
  }

  /** The first `k` of the five criteria hold. */
  predicate MeetsFirst(c: Criteria, k: nat, s: Snapshot)
  {
    && (k >= 1 && Given(c.category) ==> s.risk.category == c.category.value)
    && (k >= 2 && Given(c.level) ==> s.risk.riskLevel == c.level.value)
    && (k >= 3 && Given(c.source) ==> s.source == c.source.value)
    && (k >= 4 && c.dateFrom.Some? ==> s.createdAt >= c.dateFrom.value)
    && (k >= 5 && c.dateTo.Some? ==> s.createdAt <= c.dateTo.value)
  }

  function MeetingFirst(c: Criteria, k: nat): Snapshot -> bool
  {
    s => MeetsFirst(c, k, s)
  }

  function CategoryIs(c: Criteria): Snapshot -> bool
  {
    (s: Snapshot) => c.category.Some? && s.risk.category == c.category.value
  }

  function LevelIs(c: Criteria): Snapshot -> bool
  {
    (s: Snapshot) => c.level.Some? && s.risk.riskLevel == c.level.value
  }

  function SourceIs(c: Criteria): Snapshot -> bool
  {
    (s: Snapshot) => c.source.Some? && s.source == c.source.value
  }

  function CreatedFrom(c: Criteria): Snapshot -> bool
  {
    (s: Snapshot) => c.dateFrom.Some? && s.createdAt >= c.dateFrom.value
  }

  function CreatedTo(c: Criteria): Snapshot -> bool
  {
    (s: Snapshot) => c.dateTo.Some? && s.createdAt <= c.dateTo.value
  }

  /**
   * filter over `xs`: the five steps of the source, one after the other,
   * keep exactly the snapshots meeting every present criterion, in order.
   */
  function FilterIn(xs: seq<Snapshot>, c: Criteria): (r: seq<Snapshot>)
    ensures r == Where(xs, Meeting(c))
    ensures IsSubsequence(r, xs)
    ensures forall s :: s in r <==> s in xs && MeetsCriteria(c, s)
    ensures forall s :: multiset(r)[s] == if MeetsCriteria(c, s) then multiset(xs)[s] else 0
  {
    var a := Narrow(xs, Given(c.category), CategoryIs(c));
    var b := Narrow(a, Given(c.level), LevelIs(c));
    var d := Narrow(b, Given(c.source), SourceIs(c));
    var e := Narrow(d, c.dateFrom.Some?, CreatedFrom(c));
    var f := Narrow(e, c.dateTo.Some?, CreatedTo(c));
    FilterSteps(xs, c);
    WhereSameCondition(xs, MeetingFirst(c, 5), Meeting(c));
    WhereIsSubsequence(xs, Meeting(c));
    WhereCount(xs, Meeting(c));
    f
  }

  /** The chained steps are one filter by the conjunction of the criteria. */
  lemma FilterSteps(xs: seq<Snapshot>, c: Criteria)
    ensures
      var a := Narrow(xs, Given(c.category), CategoryIs(c));
      var b := Narrow(a, Given(c.level), LevelIs(c));
      var d := Narrow(b, Given(c.source), SourceIs(c));
      var e := Narrow(d, c.dateFrom.Some?, CreatedFrom(c));
      Narrow(e, c.dateTo.Some?, CreatedTo(c)) == Where(xs, MeetingFirst(c, 5))
  {
    WhereAll(xs, MeetingFirst(c, 0));
    NarrowAfterWhere(xs, MeetingFirst(c, 0), Given(c.category), CategoryIs(c), MeetingFirst(c, 1));
    NarrowAfterWhere(xs, MeetingFirst(c, 1), Given(c.level), LevelIs(c), MeetingFirst(c, 2));
    NarrowAfterWhere(xs, MeetingFirst(c, 2), Given(c.source), SourceIs(c), MeetingFirst(c, 3));
    NarrowAfterWhere(xs, MeetingFirst(c, 3), c.dateFrom.Some?, CreatedFrom(c), MeetingFirst(c, 4));
    NarrowAfterWhere(xs, MeetingFirst(c, 4), c.dateTo.Some?, CreatedTo(c), MeetingFirst(c, 5));
  }

  /** No criteria keep every snapshot. */
  lemma FilterNoCriteriaKeepsAll(xs: seq<Snapshot>)
    ensures FilterIn(xs, NoCriteria) == xs
  {
    WhereAll(xs, Meeting(NoCriteria));
  }
}
