/**
 * The export envelope and the per-record rules of import in
 * src/services/localStorage.ts: what each element of an imported `data`
 * array turns into, and what a whole batch adds to the store.
 */
module ImportExport {
  import opened Wrappers
  import opened RiskTypes
  import opened SnapshotSeqs

  /** STORAGE_VERSION: the snapshot format version, also the envelope's. */
  const StorageVersion: int := 1

  /** The exported document: `version`, `exportDate`, `count`, `data`. */
  datatype Envelope = Envelope(version: int, exportDate: int, count: nat, data: seq<Snapshot>)

  /**
   * One element of an imported `data` array, as JSON.parse produced it. A
   * `null` element makes reading its `id` throw; any other value is an
   * object whose missing properties are None (a number, string or boolean
   * element has none of them).
   */
  datatype Candidate =
    | NullEntry
    | Entry(
        id: Option<string>,
        version: Option<int>,
        risk: Option<RiskData>,
        tags: seq<string>,
        note: string,
        createdAt: int,
        updatedAt: int,
        source: string)

  /** The imported file, after JSON.parse: `data` is None when missing or not an array. */
  datatype ImportInput = Unparsable | Parsed(data: Option<seq<Candidate>>)

  /** The messages import reports, one constructor per message template. */
  datatype ImportError =
    | FormatError               // "Error de formato: …": thrown outside the per-record try
    | InvalidFile               // "Formato de archivo inválido"
    | InvalidSnapshot(name: string)   // "Snapshot inválido: <id or ID desconocido>"
    | DuplicateSkipped(name: string)  // "Snapshot duplicado omitido: <title or id>"
    | ProcessingError           // "Error procesando snapshot: …"

  datatype ImportResult = ImportResult(success: bool, imported: nat, errors: seq<ImportError>)

  const UnknownId: string := "ID desconocido"

  /** A JavaScript string property that is truthy: present and non-empty. */
  predicate Truthy(s: Option<string>)
  {
    s.Some? && s.value != ""
  }

  /** The structure check: `id`, `risk` and `version` are all truthy. */
  predicate WellFormed(c: Candidate)
  {
    c.Entry? && Truthy(c.id) && c.risk.Some? && c.version.Some? && c.version.value != 0
  }

  /** A well-formed candidate as the snapshot that is pushed. */
  function AsSnapshot(c: Candidate): (s: Snapshot)
    requires WellFormed(c)
    ensures s.id == c.id.value && s.id != ""
    ensures AsCandidate(s) == c
  {
    Snapshot(c.id.value, c.version.value, c.risk.value, c.tags, c.note, c.createdAt, c.updatedAt, c.source)
  }

  /** `snapshot.id || "ID desconocido"` */
  function InvalidLabel(c: Candidate): (name: string)
    requires c.Entry?
    ensures name != ""
    ensures Truthy(c.id) ==> name == c.id.value
    ensures !Truthy(c.id) ==> name == UnknownId
  {
    if Truthy(c.id) then c.id.value else UnknownId
  }

  /** `snapshot.risk?.title || snapshot.id` */
  function DuplicateLabel(c: Candidate): (name: string)
    requires WellFormed(c)
    ensures name != ""
    ensures name == c.risk.value.title || (c.risk.value.title == "" && name == c.id.value)
  {
    if c.risk.value.title != "" then c.risk.value.title else c.id.value
  }

  datatype Verdict = Accept(snapshot: Snapshot) | Reject(error: ImportError)

  /** What import does with one candidate, given the ids stored before the import. */
  function Judge(c: Candidate, existing: set<string>): (v: Verdict)
    ensures v.Accept? <==> WellFormed(c) && c.id.value !in existing
    ensures v.Accept? ==> v.snapshot.id !in existing && v.snapshot.id == c.id.value
  {
    if c.NullEntry? then Reject(ProcessingError)
    else if !WellFormed(c) then Reject(InvalidSnapshot(InvalidLabel(c)))
    else if c.id.value in existing then Reject(DuplicateSkipped(DuplicateLabel(c)))
    else Accept(AsSnapshot(c))
  }

  /** The snapshots the loop pushes, in batch order. */
  function AcceptedOf(cs: seq<Candidate>, existing: set<string>): (accepted: seq<Snapshot>)
    ensures |accepted| <= |cs|
  {
    if cs == [] then []
    else
      AcceptedOf(cs[..|cs| - 1], existing) +
      match Judge(cs[|cs| - 1], existing)
      case Accept(s) => [s]
      case Reject(_) => []
  }

  /** The errors the loop reports, in batch order. */
  function RejectionsOf(cs: seq<Candidate>, existing: set<string>): (errors: seq<ImportError>)
    ensures |errors| <= |cs|
  {
    if cs == [] then []
    else
      RejectionsOf(cs[..|cs| - 1], existing) +
      match Judge(cs[|cs| - 1], existing)
      case Accept(_) => []
      case Reject(e) => [e]
  }

  /** Every candidate is either imported or reported, never both. */
  lemma {:induction false} ImportBalance(cs: seq<Candidate>, existing: set<string>)
    ensures |AcceptedOf(cs, existing)| + |RejectionsOf(cs, existing)| == |cs|
  {
    if cs != [] {
      ImportBalance(cs[..|cs| - 1], existing);
    }
  }

  /** Each imported snapshot comes from a candidate the batch accepts. */
  lemma {:induction false} AcceptedOrigin(cs: seq<Candidate>, existing: set<string>, s: Snapshot)
    requires s in AcceptedOf(cs, existing)
    ensures exists i :: 0 <= i < |cs| && Judge(cs[i], existing) == Accept(s)
  {
    var init := cs[..|cs| - 1];
    if s in AcceptedOf(init, existing) {
      AcceptedOrigin(init, existing, s);
      var i :| 0 <= i < |init| && Judge(init[i], existing) == Accept(s);
      assert cs[i] == init[i];
    } else {
      assert Judge(cs[|cs| - 1], existing) == Accept(s);
    }
  }

  /** Every candidate the batch accepts is imported. */
  lemma {:induction false} AcceptedComplete(cs: seq<Candidate>, existing: set<string>, i: int)
    requires 0 <= i < |cs| && Judge(cs[i], existing).Accept?
    ensures Judge(cs[i], existing).snapshot in AcceptedOf(cs, existing)
  {
    var init := cs[..|cs| - 1];
    if i < |cs| - 1 {
      assert init[i] == cs[i];
      AcceptedComplete(init, existing, i);
    }
  }

  /** A snapshot is imported exactly when some candidate of the batch is accepted as it. */
  lemma AcceptedIff(cs: seq<Candidate>, existing: set<string>)
    ensures forall s :: s in AcceptedOf(cs, existing) <==>
      exists i | 0 <= i < |cs| :: Judge(cs[i], existing) == Accept(s)
  {
    forall s
      ensures s in AcceptedOf(cs, existing) <==>
        exists i | 0 <= i < |cs| :: Judge(cs[i], existing) == Accept(s)
    {
      if s in AcceptedOf(cs, existing) {
        AcceptedOrigin(cs, existing, s);
      }
      if i :| 0 <= i < |cs| && Judge(cs[i], existing) == Accept(s) {
        AcceptedComplete(cs, existing, i);
      }
    }
  }

  /** Every candidate the batch rejects has its error reported. */
  lemma {:induction false} RejectedComplete(cs: seq<Candidate>, existing: set<string>, i: int)
    requires 0 <= i < |cs| && Judge(cs[i], existing).Reject?
    ensures Judge(cs[i], existing).error in RejectionsOf(cs, existing)
  {
    var init := cs[..|cs| - 1];
    if i < |cs| - 1 {
      assert init[i] == cs[i];
      RejectedComplete(init, existing, i);
    }
  }

  /** How many candidates of the batch are rejected, counted from the front. */
  function RejectCount(cs: seq<Candidate>, existing: set<string>): nat
  {
    if cs == [] then 0
    else (if Judge(cs[0], existing).Reject? then 1 else 0) + RejectCount(cs[1..], existing)
  }

  /** Counting rejections splits over a concatenation. */
  lemma {:induction false} RejectCountAppend(a: seq<Candidate>, b: seq<Candidate>, existing: set<string>)
    ensures RejectCount(a + b, existing) == RejectCount(a, existing) + RejectCount(b, existing)
  {
    if a == [] {
      assert a + b == b;
    } else {
      assert (a + b)[0] == a[0];
      assert (a + b)[1..] == a[1..] + b;
      RejectCountAppend(a[1..], b, existing);
    }
  }

  /** Exactly one error per rejected candidate. */
  lemma {:induction false} RejectionsCount(cs: seq<Candidate>, existing: set<string>)
    ensures |RejectionsOf(cs, existing)| == RejectCount(cs, existing)
  {
    if cs != [] {
      var init := cs[..|cs| - 1];
      RejectionsCount(init, existing);
      assert cs == init + [cs[|cs| - 1]];
      RejectCountAppend(init, [cs[|cs| - 1]], existing);
      assert RejectCount([cs[|cs| - 1]], existing) == if Judge(cs[|cs| - 1], existing).Reject? then 1 else 0;
    }
  }

  /** Importing two batches one after the other imports them in batch order. */
  lemma {:induction false} AcceptedOfAppend(a: seq<Candidate>, b: seq<Candidate>, existing: set<string>)
    ensures AcceptedOf(a + b, existing) == AcceptedOf(a, existing) + AcceptedOf(b, existing)
    ensures RejectionsOf(a + b, existing) == RejectionsOf(a, existing) + RejectionsOf(b, existing)
  {
    if b != [] {
      var init := b[..|b| - 1];
      AcceptedOfAppend(a, init, existing);
      assert (a + b)[..|a + b| - 1] == a + init;
      assert (a + b)[|a + b| - 1] == b[|b| - 1];
    } else {
      assert a + b == a;
    }
  }

  /** No imported snapshot has an id that was in the store before. */
  lemma AcceptedAreNew(cs: seq<Candidate>, existing: set<string>)
    ensures forall s | s in AcceptedOf(cs, existing) :: s.id !in existing && s.id != ""
  {
    forall s | s in AcceptedOf(cs, existing)
      ensures s.id !in existing && s.id != ""
    {
      AcceptedOrigin(cs, existing, s);
    }
  }

  /** No two candidates of the batch that carry an id carry the same one. */
  predicate BatchIdsDistinct(cs: seq<Candidate>)
  {
    forall i, j | 0 <= i < j < |cs| :: cs[i].Entry? && cs[j].Entry? && cs[i].id.Some? ==> cs[i].id != cs[j].id
  }

  /** A batch with distinct ids imports snapshots with distinct ids. */
  lemma {:induction false} AcceptedUniqueIds(cs: seq<Candidate>, existing: set<string>)
    requires BatchIdsDistinct(cs)
    ensures UniqueIds(AcceptedOf(cs, existing))
  {
    if cs != [] {
      var init := cs[..|cs| - 1];
      var last := cs[|cs| - 1];
      assert BatchIdsDistinct(init);
      AcceptedUniqueIds(init, existing);
      var before := AcceptedOf(init, existing);
      if Judge(last, existing).Accept? {
        var s := Judge(last, existing).snapshot;
        forall t | t in before
          ensures t.id != s.id
        {
          AcceptedOrigin(init, existing, t);
          var i :| 0 <= i < |init| && Judge(init[i], existing) == Accept(t);
          assert cs[i] == init[i];
        }
        assert AcceptedOf(cs, existing) == before + [s];
        UniqueIdsAppend(before, s);
      } else {
        assert AcceptedOf(cs, existing) == before;
      }
    }
  }

  /**
   * Import keeps ids unique exactly under a batch with distinct ids: the
   * store's old snapshots followed by the imported ones repeat no id.
   */
  lemma ImportKeepsUniqueIds(xs: seq<Snapshot>, cs: seq<Candidate>)
    requires UniqueIds(xs) && BatchIdsDistinct(cs)
    ensures UniqueIds(xs + AcceptedOf(cs, IdSet(xs)))
  {
    var acc := AcceptedOf(cs, IdSet(xs));
    AcceptedUniqueIds(cs, IdSet(xs));
    AcceptedAreNew(cs, IdSet(xs));
    IdsAppend(xs, acc);
    forall id | id in multiset(Ids(xs + acc))
      ensures multiset(Ids(xs + acc))[id] == 1
    {
      if id in Ids(xs) {
        assert id !in Ids(acc);
      }
    }
  }

  /** A sample record with the given id, for the counterexample below. */
  function SampleEntry(id: string): Candidate
  {
    Entry(Some(id), Some(1), Some(RiskData(None, "t", None, "INVASION", 1, 1, 1, "LOW")), [], "", 0, 0, "frontend")
  }

  /**
   * The duplicate check looks only at the ids stored before the import: two
   * records with the same new id in one batch are both imported.
   */
  lemma SameBatchDuplicatesAreBothImported()
    ensures var cs := [SampleEntry("x"), SampleEntry("x")];
      |AcceptedOf(cs, {})| == 2 && !UniqueIds(AcceptedOf(cs, {}))
  {
    var cs := [SampleEntry("x"), SampleEntry("x")];
    assert cs[..1] == [SampleEntry("x")];
    assert [SampleEntry("x")][..0] == [];
    var acc := AcceptedOf(cs, {});
    assert acc == [AsSnapshot(SampleEntry("x")), AsSnapshot(SampleEntry("x"))];
    assert Ids(acc) == ["x", "x"];
    assert multiset(Ids(acc))["x"] == 2;
  }

  /** A stored snapshot read back as an import candidate. */
  function AsCandidate(s: Snapshot): Candidate
  {
    Entry(Some(s.id), Some(s.version), Some(s.risk), s.tags, s.note, s.createdAt, s.updatedAt, s.source)
  }

  function AsCandidates(xs: seq<Snapshot>): (cs: seq<Candidate>)
    ensures |cs| == |xs|
  {
    seq(|xs|, i requires 0 <= i < |xs| => AsCandidate(xs[i]))
  }

  /**
   * Re-importing snapshots whose ids are all stored already imports nothing:
   * each one is either rejected as malformed or skipped as a duplicate.
   */
  lemma {:induction false} ReimportAcceptsNothing(xs: seq<Snapshot>, existing: set<string>)
    requires forall s | s in xs :: s.id in existing
    ensures AcceptedOf(AsCandidates(xs), existing) == []
    ensures |RejectionsOf(AsCandidates(xs), existing)| == |xs|
  {
    if xs != [] {
      var init := xs[..|xs| - 1];
      assert forall s | s in init :: s in xs;
      assert AsCandidates(xs)[..|xs| - 1] == AsCandidates(init);
      ReimportAcceptsNothing(init, existing);
      assert xs[|xs| - 1] in xs;
    }
  }
}
