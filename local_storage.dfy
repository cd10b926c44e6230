/**
 * LocalStorageService of src/services/localStorage.ts: the store that keeps
 * every saved risk snapshot in one localStorage entry.
 *
 * save, update, delete, deleteMultiple and import read the whole entry,
 * change the list in memory and write the whole list back. update or delete
 * of an absent id, and an import that accepts nothing, write nothing; an
 * import of an unparsable file or one without a data array does not even
 * read the entry. clear removes the entry without reading it, and the
 * queries and getStats only read. The entry is the `payload` field; whether
 * a write succeeds (quota, disabled storage) is the `writeOk` argument, the
 * fresh uuid and the current instant are arguments too.
 */
module LocalStorage {
  import opened Wrappers
  import opened RiskTypes
  import opened RiskUtils
  import opened RiskValidation
  import opened Text
  import opened SnapshotSeqs
  import opened Stats
  import opened ImportExport
  import opened Queries

  /** STORAGE_KEY: the name of the entry. */
  const StorageKey: string := "alien-risk:v1:calculations"

  /**
   * What the entry holds: nothing (or ""), text that does not parse into an
   * array of snapshots, or the parsed array.
   */
  datatype Payload = Missing | Garbled | Items(items: seq<Snapshot>)

  /** The error `save` throws: "No se pudo guardar en el historial local". */
  datatype StoreError = SaveFailed

  datatype Outcome = Pass | Fail(error: StoreError)

  /** What saveFromForm returns: the saved snapshot, or the error save throws. */
  datatype Result = Saved(snapshot: Snapshot) | NotSaved(error: StoreError)

  /**
   * A Partial<SavedRiskSnapshot>: the top-level properties `update` spreads
   * over the stored snapshot; None is a property the object does not have.
   */
  datatype Patch = Patch(
    id: Option<string>,
    version: Option<int>,
    risk: Option<RiskData>,
    tags: Option<seq<string>>,
    note: Option<string>,
    createdAt: Option<int>,
    updatedAt: Option<int>,
    source: Option<string>)

  const EmptyPatch: Patch := Patch(None, None, None, None, None, None, None, None)

  function Over<T>(o: Option<T>, base: T): T
  {
    if o.Some? then o.value else base
  }

  /**
   * `{ ...snapshot, ...updates, updatedAt: now }`: each property the patch
   * has replaces the stored one, the rest stay, and updatedAt is always now.
   */
  function ApplyPatch(s: Snapshot, p: Patch, now: int): (r: Snapshot)
    ensures r.updatedAt == now
    ensures p == EmptyPatch ==> r == s.(updatedAt := now)
    ensures p.id.None? ==> r.id == s.id
    ensures p.id.Some? ==> r.id == p.id.value
    ensures p.version.None? ==> r.version == s.version
    ensures p.version.Some? ==> r.version == p.version.value
    ensures p.risk.None? ==> r.risk == s.risk
    ensures p.risk.Some? ==> r.risk == p.risk.value
    ensures p.tags.None? ==> r.tags == s.tags
    ensures p.tags.Some? ==> r.tags == p.tags.value
    ensures p.note.None? ==> r.note == s.note
    ensures p.note.Some? ==> r.note == p.note.value
    ensures p.createdAt.None? ==> r.createdAt == s.createdAt
    ensures p.createdAt.Some? ==> r.createdAt == p.createdAt.value
    ensures p.source.None? ==> r.source == s.source
    ensures p.source.Some? ==> r.source == p.source.value
  {
    Snapshot(
      Over(p.id, s.id),
      Over(p.version, s.version),
      Over(p.risk, s.risk),
      Over(p.tags, s.tags),
      Over(p.note, s.note),
      Over(p.createdAt, s.createdAt),
      now,
      Over(p.source, s.source))
  }

  /** Applying the same patch again changes nothing but updatedAt. */
  lemma ApplyPatchIdempotent(s: Snapshot, p: Patch, t1: int, t2: int)
    ensures ApplyPatch(ApplyPatch(s, p, t1), p, t2) == ApplyPatch(s, p, t2)
  {
  }

  /** The two derived risk fields agree with likelihood and impact. */
  predicate Consistent(s: Snapshot)
  {
    && s.risk.riskScore == s.risk.likelihood * s.risk.impact
    && s.risk.riskLevel == LevelName(CalculateRiskLevel(s.risk.riskScore))
  }

  /**
   * The snapshot saveFromForm builds: derived score and level, version 1, no
   * tags, an empty note, both timestamps now, and the server record's id
   * when there is one.
   */
  function NewSnapshot(form: FormData, source: Source, backendRiskId: Option<string>, id: string, now: int): (s: Snapshot)
    ensures Consistent(s)
    ensures s.id == id && s.version == StorageVersion && s.source == SourceName(source)
    ensures s.risk.id == backendRiskId
    ensures s.tags == [] && s.note == "" && s.createdAt == s.updatedAt == now
    ensures s.risk.title == form.title && s.risk.description == form.description
      && s.risk.category == form.category
      && s.risk.likelihood == form.likelihood && s.risk.impact == form.impact
  {
    var score := form.likelihood * form.impact;
    Snapshot(
      id,
      StorageVersion,
      RiskData(backendRiskId, form.title, form.description, form.category,
        form.likelihood, form.impact, score, LevelName(CalculateRiskLevel(score))),
      [],
      "",
      now,
      now,
      SourceName(source))
  }

  /** A form the schema accepts yields a score on 1..25 and a level from its band. */
  lemma NewSnapshotFromAcceptedForm(form: FormData, source: Source, backendRiskId: Option<string>, id: string, now: int)
    requires FormAccepted(form)
    ensures var s := NewSnapshot(form, source, backendRiskId, id, now);
      && 1 <= s.risk.riskScore <= 25
      && exists l: Level :: s.risk.riskLevel == LevelName(l) && BandLow(l) <= s.risk.riskScore <= BandHigh(l)
  {
    var s := NewSnapshot(form, source, backendRiskId, id, now);
    var l := CalculateRiskLevel(s.risk.riskScore);
    assert s.risk.riskLevel == LevelName(l);
  }

  /**
   * update does not re-derive the score and level: a patch whose risk has a
   * new likelihood but the old score is stored as given.
   */
  lemma PatchCanDesynchronise()
    ensures var s := NewSnapshot(FormData("t", None, "INVASION", 2, 2), Frontend, None, "a", 0);
      var p := EmptyPatch.(risk := Some(s.risk.(likelihood := 5)));
      Consistent(s) && !Consistent(ApplyPatch(s, p, 1))
  {
  }

  /** likelihood 5, impact 5 gives 25, CRITICAL; likelihood 1, impact 2 gives 2, LOW. */
  lemma NewSnapshotExamples(title: string, category: string, id: string, now: int)
    ensures var s := NewSnapshot(FormData(title, None, category, 5, 5), Frontend, None, id, now);
      s.risk.riskScore == 25 && s.risk.riskLevel == "CRITICAL"
    ensures var s := NewSnapshot(FormData(title, None, category, 1, 2), Frontend, None, id, now);
      s.risk.riskScore == 2 && s.risk.riskLevel == "LOW"
  {
  }

  /** `ids.includes(s.id)` */
  function IdIn(ids: seq<string>): Snapshot -> bool
  {
    (s: Snapshot) => s.id in ids
  }

  /** `!ids.includes(s.id)` */
  function IdNotIn(ids: seq<string>): Snapshot -> bool
  {
    (s: Snapshot) => s.id !in ids
  }

  /** `s.id !== id` */
  function IdIsNot(id: string): Snapshot -> bool
  {
    (s: Snapshot) => s.id != id
  }

  /**
   * With unique ids, deleteMultiple cannot remove more snapshots than it is
   * given ids: each removed snapshot uses up a different id of the list.
   */
  lemma RemovedAtMostIds(xs: seq<Snapshot>, ids: seq<string>)
    requires UniqueIds(xs)
    ensures |Where(xs, IdIn(ids))| <= |ids|
  {
    var removed := Where(xs, IdIn(ids));
    WhereUniqueIds(xs, IdIn(ids));
    var a, b := multiset(Ids(removed)), multiset(ids);
    forall id | id in a
      ensures a[id] <= b[id]
    {
      var k :| 0 <= k < |removed| && Ids(removed)[k] == id;
      assert removed[k] in removed;
      assert id in ids;
    }
    assert a <= b;
    assert |a| == |Ids(removed)| == |removed|;
    assert |b| == |ids|;
    assert b == a + (b - a);
  }

  /** Without unique ids it can: one id removes two snapshots that share it. */
  lemma RemovedCanExceedIds()
    ensures var s := Snapshot("x", 1, RiskData(None, "t", None, "INVASION", 1, 1, 1, "LOW"), [], "", 0, 0, "frontend");
      |Where([s, s], IdIn(["x"]))| == 2
  {
    var s := Snapshot("x", 1, RiskData(None, "t", None, "INVASION", 1, 1, 1, "LOW"), [], "", 0, 0, "frontend");
    assert Where([s, s], IdIn(["x"])) == [s] + Where([s], IdIn(["x"]));
  }

  /** update can break id uniqueness: the patch may carry another snapshot's id. */
  lemma PatchCanDuplicateIds()
    ensures var a := Snapshot("a", 1, RiskData(None, "t", None, "INVASION", 1, 1, 1, "LOW"), [], "", 0, 0, "frontend");
      var b := a.(id := "b");
      var p := EmptyPatch.(id := Some("b"));
      UniqueIds([a, b]) && !UniqueIds([a, b][0 := ApplyPatch(a, p, 1)])
  {
    var a := Snapshot("a", 1, RiskData(None, "t", None, "INVASION", 1, 1, 1, "LOW"), [], "", 0, 0, "frontend");
    var b := a.(id := "b");
    var p := EmptyPatch.(id := Some("b"));
    assert Ids([a, b]) == ["a", "b"];
    var after := [a, b][0 := ApplyPatch(a, p, 1)];
    assert Ids(after) == ["b", "b"];
    assert multiset(Ids(after))["b"] == 2;
  }

  /** No snapshot is dropped by `IdIsNot(id)` only when none has the id. */
  lemma IdAbsent(xs: seq<Snapshot>, id: string)
    requires forall x | x in xs :: IdIsNot(id)(x)
    ensures id !in Ids(xs)
  {
    forall k | 0 <= k < |xs|
      ensures Ids(xs)[k] != id
    {
      assert xs[k] in xs;
    }
  }

  /** Some snapshot is dropped by `IdIsNot(id)` only when one has the id. */
  lemma IdPresent(xs: seq<Snapshot>, id: string)
    requires exists x | x in xs :: !IdIsNot(id)(x)
    ensures id in Ids(xs)
  {
    var x :| x in xs && !IdIsNot(id)(x);
    var k :| 0 <= k < |xs| && xs[k] == x;
    assert Ids(xs)[k] == id;
  }

  /**
   * The loop of import: each record is judged against the ids stored before
   * the import (not against the records of this batch) and pushed or reported.
   */
  method ImportBatch(existing: seq<Snapshot>, data: seq<Candidate>, existingIds: set<string>)
    returns (all: seq<Snapshot>, imported: nat, errors: seq<ImportError>)
    ensures all == existing + AcceptedOf(data, existingIds)
    ensures imported == |AcceptedOf(data, existingIds)|
    ensures errors == RejectionsOf(data, existingIds)
  {
    all, imported, errors := existing, 0, [];
    var i := 0;
    while i < |data|
      invariant 0 <= i <= |data|
      invariant all == existing + AcceptedOf(data[..i], existingIds)
      invariant imported == |AcceptedOf(data[..i], existingIds)|
      invariant errors == RejectionsOf(data[..i], existingIds)
    {
      assert data[..i + 1][..i] == data[..i];
      match Judge(data[i], existingIds) {
        case Reject(e) =>
          errors := errors + [e];
        case Accept(snapshot) =>
          all := all + [snapshot];
          imported := imported + 1;
      }
      i := i + 1;
    }
    assert data[..|data|] == data;
  }

  /** A member's id is among the ids. */
  lemma IdOfMember(xs: seq<Snapshot>, x: Snapshot)
    requires x in xs
    ensures x.id in Ids(xs)
  {
    var k :| 0 <= k < |xs| && xs[k] == x;
    assert Ids(xs)[k] == x.id;
  }

  /** With unique ids, the snapshot at `k` is the only one carrying its id. */
  lemma SoleHolder(xs: seq<Snapshot>, k: int, x: Snapshot)
    requires UniqueIds(xs) && 0 <= k < |xs|
    requires x in xs && x.id == xs[k].id
    ensures x == xs[k]
  {
    var m :| 0 <= m < |xs| && xs[m] == x;
    if m < k {
      UniqueIdsAt(xs, m, k);
    } else if k < m {
      UniqueIdsAt(xs, k, m);
    }
  }

  /**
   * When only `w[k]` carries its id, looking that id up in the sorted list
   * (what getById does after a write of `w`) finds `w[k]`.
   */
  lemma LookupSole(w: seq<Snapshot>, k: int)
    requires 0 <= k < |w|
    requires forall x | x in w && x.id == w[k].id :: x == w[k]
    ensures 0 <= IndexOf(SortByNewest(w), w[k].id)
    ensures SortByNewest(w)[IndexOf(SortByNewest(w), w[k].id)] == w[k]
  {
    var g := SortByNewest(w);
    assert w[k] in multiset(g);
    IdOfMember(g, w[k]);
    var i := IndexOf(g, w[k].id);
    assert g[i] in multiset(w);
  }

  class SnapshotStore {
    var payload: Payload

    /** The store over whatever the entry currently holds. */
    constructor (initial: Payload)
      ensures payload == initial
    {
      payload := initial;
    }

    /** The parsed array, in the order it was written; nothing if missing or garbled. */
    function Stored(): seq<Snapshot>
      reads this
    {
      if payload.Items? then payload.items else []
    }

    /**
     * getAll: every stored snapshot, newest first; empty when the entry is
     * missing or does not parse.
     */
    function GetAll(): (r: seq<Snapshot>)
      reads this
      ensures NewestFirst(r)
      ensures multiset(r) == multiset(Stored())
      ensures multiset(Ids(r)) == multiset(Ids(Stored()))
      ensures !payload.Items? ==> r == []
    {
      SortByNewest(Stored())
    }

    /** getById: the first snapshot of getAll with this id, or null. */
    function GetById(id: string): (r: Option<Snapshot>)
      reads this
      ensures r.None? <==> id !in Ids(GetAll())
      ensures r.Some? ==> r.value in GetAll() && r.value.id == id
      ensures r.Some? ==> exists i | 0 <= i < |GetAll()| ::
        GetAll()[i] == r.value && forall j | 0 <= j < i :: GetAll()[j].id != id
    {
      var xs := GetAll();
      var i := IndexOf(xs, id);
      if i < 0 then None else Some(xs[i])
    }

    /**
     * save: a snapshot with a new id goes in front of getAll's list; one with
     * a stored id replaces that entry in place with updatedAt refreshed. A
     * failed write throws and leaves the entry as it was.
     */
    method Save(s: Snapshot, now: int, writeOk: bool) returns (r: Outcome)
      modifies this
      ensures !writeOk ==> r == Fail(SaveFailed) && payload == old(payload)
      ensures writeOk ==> r == Pass
      ensures writeOk && s.id !in Ids(old(GetAll())) ==>
        payload == Items([s] + old(GetAll())) && |GetAll()| == |old(GetAll())| + 1
      ensures writeOk && s.id in Ids(old(GetAll())) ==>
        payload == Items(old(GetAll())[IndexOf(old(GetAll()), s.id) := s.(updatedAt := now)])
        && |GetAll()| == |old(GetAll())|
      ensures old(UniqueIds(GetAll())) ==> UniqueIds(GetAll())
      ensures writeOk && s.id !in Ids(old(GetAll())) ==> GetById(s.id) == Some(s)
      ensures writeOk && s.id in Ids(old(GetAll())) && old(UniqueIds(GetAll())) ==>
        GetById(s.id) == Some(s.(updatedAt := now))
    {
      var snapshots := GetAll();
      var existingIndex := IndexOf(snapshots, s.id);
      if existingIndex >= 0 {
        IdsReplace(snapshots, existingIndex, s.(updatedAt := now));
        snapshots := snapshots[existingIndex := s.(updatedAt := now)];
      } else {
        if UniqueIds(snapshots) {
          UniqueIdsPrepend(s, snapshots);
        }
        snapshots := [s] + snapshots;
      }
      if !writeOk {
        return Fail(SaveFailed);
      }
      payload := Items(snapshots);
      r := Pass;
      if existingIndex < 0 {
        forall x | x in snapshots && x.id == s.id
          ensures x == s
        {
          if x != s {
            IdOfMember(old(GetAll()), x);
          }
        }
        LookupSole(snapshots, 0);
      } else if UniqueIds(snapshots) {
        forall x | x in snapshots && x.id == s.id
          ensures x == snapshots[existingIndex]
        {
          SoleHolder(snapshots, existingIndex, x);
        }
        LookupSole(snapshots, existingIndex);
      }
    }

    /**
     * saveFromForm: builds the snapshot from the form and saves it; the
     * result is the snapshot, or the error save throws.
     */
    method SaveFromForm(form: FormData, source: Source, backendRiskId: Option<string>, freshId: string, now: int, writeOk: bool)
      returns (r: Result)
      modifies this
      ensures r == (if writeOk then Saved(NewSnapshot(form, source, backendRiskId, freshId, now)) else NotSaved(SaveFailed))
      ensures !writeOk ==> payload == old(payload)
      ensures writeOk && freshId !in Ids(old(GetAll())) ==>
        payload == Items([r.snapshot] + old(GetAll()))
      ensures writeOk && freshId in Ids(old(GetAll())) ==>
        payload == Items(old(GetAll())[IndexOf(old(GetAll()), freshId) := r.snapshot])
      ensures old(UniqueIds(GetAll())) ==> UniqueIds(GetAll())
    {
      var snapshot := NewSnapshot(form, source, backendRiskId, freshId, now);
      var outcome := Save(snapshot, now, writeOk);
      if outcome.Fail? {
        return NotSaved(outcome.error);
      }
      r := Saved(snapshot);
    }

    /**
     * update: null, with nothing written, when the id is not stored or the
     * write fails; otherwise that one entry becomes the patched snapshot with
     * updatedAt now, and the patched snapshot is returned.
     */
    method Update(id: string, updates: Patch, now: int, writeOk: bool) returns (r: Option<Snapshot>)
      modifies this
      ensures (id !in Ids(old(GetAll())) || !writeOk) ==> r == None && payload == old(payload)
      ensures id in Ids(old(GetAll())) && writeOk ==>
        var i := IndexOf(old(GetAll()), id);
        && r == Some(ApplyPatch(old(GetAll())[i], updates, now))
        && payload == Items(old(GetAll())[i := r.value])
      ensures old(UniqueIds(GetAll())) && (updates.id.None? || updates.id == Some(id)) ==> UniqueIds(GetAll())
      ensures id in Ids(old(GetAll())) && writeOk && old(UniqueIds(GetAll())) && (updates.id.None? || updates.id == Some(id)) ==>
        GetById(id) == r
    {
      var snapshots := GetAll();
      var index := IndexOf(snapshots, id);
      if index == -1 {
        return None;
      }
      var updated := ApplyPatch(snapshots[index], updates, now);
      if updated.id == id {
        IdsReplace(snapshots, index, updated);
      }
      snapshots := snapshots[index := updated];
      if !writeOk {
        return None;
      }
      payload := Items(snapshots);
      r := Some(updated);
      if updated.id == id && UniqueIds(snapshots) {
        forall x | x in snapshots && x.id == id
          ensures x == snapshots[index]
        {
          SoleHolder(snapshots, index, x);
        }
        LookupSole(snapshots, index);
      }
    }

    /**
     * delete: true exactly when a snapshot with this id was stored and the
     * write succeeded; then getAll returns its former list without the
     * snapshots with that id. Otherwise nothing is written.
     */
    method Delete(id: string, writeOk: bool) returns (removed: bool)
      modifies this
      ensures removed == (id in Ids(old(GetAll())) && writeOk)
      ensures !removed ==> payload == old(payload)
      ensures removed ==> payload == Items(Where(old(GetAll()), IdIsNot(id)))
      ensures removed ==> GetAll() == Where(old(GetAll()), IdIsNot(id))
      ensures removed ==> forall x | x in GetAll() :: x.id != id
      ensures old(UniqueIds(GetAll())) ==> UniqueIds(GetAll())
    {
      var snapshots := GetAll();
      var filtered := Where(snapshots, IdIsNot(id));
      WhereNewestFirst(snapshots, IdIsNot(id));
      SortKeepsNewestFirst(filtered);
      if UniqueIds(snapshots) {
        WhereUniqueIds(snapshots, IdIsNot(id));
      }
      if |filtered| == |snapshots| {
        IdAbsent(snapshots, id);
        return false;
      }
      IdPresent(snapshots, id);
      if !writeOk {
        return false;
      }
      payload := Items(filtered);
      removed := true;
    }

    /**
     * deleteMultiple: writes getAll's list without the snapshots whose id is
     * listed, even when none is, and returns how many it dropped; a failed
     * write returns 0 and leaves the entry as it was.
     */
    method DeleteMultiple(ids: seq<string>, writeOk: bool) returns (count: nat)
      modifies this
      ensures !writeOk ==> count == 0 && payload == old(payload)
      ensures writeOk ==> payload == Items(Where(old(GetAll()), IdNotIn(ids)))
      ensures writeOk ==> GetAll() == Where(old(GetAll()), IdNotIn(ids))
      ensures writeOk ==> count == |old(GetAll())| - |GetAll()| == |Where(old(GetAll()), IdIn(ids))|
      ensures count <= |old(GetAll())|
      ensures writeOk ==> forall x | x in GetAll() :: x.id !in ids
      ensures old(UniqueIds(GetAll())) ==> count <= |ids| && UniqueIds(GetAll())
    {
      var snapshots := GetAll();
      var filtered := Where(snapshots, IdNotIn(ids));
      var deletedCount := |snapshots| - |filtered|;
      WhereNewestFirst(snapshots, IdNotIn(ids));
      SortKeepsNewestFirst(filtered);
      WhereSplit(snapshots, IdIn(ids));
      WhereSameCondition(snapshots, x => !IdIn(ids)(x), IdNotIn(ids));
      if UniqueIds(snapshots) {
        RemovedAtMostIds(snapshots, ids);
        WhereUniqueIds(snapshots, IdNotIn(ids));
      }
      if !writeOk {
        return 0;
      }
      payload := Items(filtered);
      count := deletedCount;
    }

    /** clear: removes the entry; a failure is swallowed and changes nothing. */
    method Clear(writeOk: bool)
      modifies this
      ensures writeOk ==> payload == Missing && GetAll() == []
      ensures !writeOk ==> payload == old(payload)
    {
      if writeOk {
        payload := Missing;
      }
    }

    /** export: version 1, the export instant, the count, and getAll's list. */
    function Export(now: int): (e: Envelope)
      reads this
      ensures e.version == StorageVersion && e.exportDate == now
      ensures e.count == |e.data| == |Stored()|
      ensures e.data == GetAll()
      ensures NewestFirst(e.data) && multiset(e.data) == multiset(Stored())
    {
      var snapshots := GetAll();
      Envelope(StorageVersion, now, |snapshots|, snapshots)
    }

    /** Importing this store's own export into it imports nothing. */
    lemma ExportThenImportImportsNothing(now: int)
      ensures AcceptedOf(AsCandidates(Export(now).data), IdSet(GetAll())) == []
      ensures |RejectionsOf(AsCandidates(Export(now).data), IdSet(GetAll()))| == Export(now).count
    {
      var xs := GetAll();
      assert forall s | s in xs :: s.id in Ids(xs) by {
        forall s | s in xs
          ensures s.id in Ids(xs)
        {
          var k :| 0 <= k < |xs| && xs[k] == s;
          assert Ids(xs)[k] == s.id;
        }
      }
      ReimportAcceptsNothing(xs, IdSet(xs));
    }

    /**
     * import: an unparsable file or one without a `data` array reports one
     * error and changes nothing. Otherwise each record is imported or
     * reported against the ids stored before the import; the list grows only
     * if something was imported, and a failed write turns the whole result
     * into the single format error.
     */
    method Import(input: ImportInput, writeOk: bool) returns (r: ImportResult)
      modifies this
      ensures input.Unparsable? ==> r == ImportResult(false, 0, [FormatError]) && payload == old(payload)
      ensures input.Parsed? && input.data.None? ==>
        r == ImportResult(false, 0, [InvalidFile]) && payload == old(payload)
      ensures input.Parsed? && input.data.Some? ==>
        var accepted := AcceptedOf(input.data.value, IdSet(old(GetAll())));
        var rejected := RejectionsOf(input.data.value, IdSet(old(GetAll())));
        && (accepted == [] ==> r == ImportResult(false, 0, rejected) && payload == old(payload))
        && (accepted != [] && writeOk ==>
              r == ImportResult(true, |accepted|, rejected) && payload == Items(old(GetAll()) + accepted))
        && (accepted != [] && !writeOk ==>
              r == ImportResult(false, 0, [FormatError]) && payload == old(payload))
      ensures r.success <==> r.imported > 0
      ensures old(UniqueIds(GetAll())) && (input.Parsed? && input.data.Some? ==> BatchIdsDistinct(input.data.value)) ==>
        UniqueIds(GetAll())
    {
      if input.Unparsable? {
        return ImportResult(false, 0, [FormatError]);
      }
      if input.data.None? {
        return ImportResult(false, 0, [InvalidFile]);
      }
      var data := input.data.value;
      var existingSnapshots := GetAll();
      var existingIds := IdSet(existingSnapshots);
      var errors: seq<ImportError>;
      var imported: nat;
      existingSnapshots, imported, errors := ImportBatch(existingSnapshots, data, existingIds);
      if UniqueIds(old(GetAll())) && BatchIdsDistinct(data) {
        ImportKeepsUniqueIds(old(GetAll()), data);
        SortKeepsUniqueIds(existingSnapshots);
      }
      if imported > 0 {
        if !writeOk {
          return ImportResult(false, 0, [FormatError]);
        }
        payload := Items(existingSnapshots);
      }
      r := ImportResult(imported > 0, imported, errors);
    }

    /**
     * search: getAll's snapshots whose title, description, note or a tag
     * contains the query, ignoring case, in getAll's order.
     */
    function Search(query: string): (r: seq<Snapshot>)
      reads this
      ensures IsSubsequence(r, GetAll())
      ensures forall s :: s in r <==> s in GetAll() && MatchesTerm(s, Lower(query))
      ensures forall s :: multiset(r)[s] == if MatchesTerm(s, Lower(query)) then multiset(GetAll())[s] else 0
      ensures query == "" ==> r == GetAll()
    {
      SearchEmptyKeepsAll(GetAll());
      SearchIn(GetAll(), query)
    }

    /**
     * filter: getAll's snapshots that meet every present criterion, in
     * getAll's order; no criteria keep them all.
     */
    function Filter(filters: Criteria): (r: seq<Snapshot>)
      reads this
      ensures IsSubsequence(r, GetAll())
      ensures r == Where(GetAll(), Meeting(filters))
      ensures forall s :: s in r <==> s in GetAll() && MeetsCriteria(filters, s)
      ensures forall s :: multiset(r)[s] == if MeetsCriteria(filters, s) then multiset(GetAll())[s] else 0
      ensures filters == NoCriteria ==> r == GetAll()
    {
      FilterNoCriteriaKeepsAll(GetAll());
      FilterIn(GetAll(), filters)
    }

    /**
     * getStats: one pass over getAll's list counting levels, categories and
     * sources from zero for every known key, summing the scores, and the
     * rounded mean (0 for an empty store).
     */
    method GetStats() returns (st: Stats)
      ensures st == StatsOf(GetAll())
      ensures st.total == |GetAll()|
    {
      var snapshots := GetAll();
      var byLevel := Zeros(LevelNames);
      var byCategory := Zeros(CategoryNames);
      var bySource := Zeros(SourceNames);
      var averageCents := 0;
      if |snapshots| > 0 {
        var totalScore := 0;
        var i := 0;
        while i < |snapshots|
          invariant 0 <= i <= |snapshots|
          invariant byLevel == TallyBy(snapshots[..i], LevelKey, LevelNames)
          invariant byCategory == TallyBy(snapshots[..i], CategoryKey, CategoryNames)
          invariant bySource == TallyBy(snapshots[..i], SourceKey, SourceNames)
          invariant totalScore == ScoreSum(snapshots[..i])
        {
          var snapshot := snapshots[i];
          assert snapshots[..i + 1][..i] == snapshots[..i];
          byLevel := Bump(byLevel, snapshot.risk.riskLevel);
          byCategory := Bump(byCategory, snapshot.risk.category);
          bySource := Bump(bySource, snapshot.source);
          totalScore := totalScore + snapshot.risk.riskScore;
          i := i + 1;
        }
        assert snapshots[..|snapshots|] == snapshots;
        averageCents := RoundedMeanCents(totalScore, |snapshots|);
      }
      st := Stats(|snapshots|, byLevel, byCategory, bySource, averageCents);
    }
  }
}
