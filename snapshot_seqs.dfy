/**
 * Sequence operations on snapshots that the store's methods are built from:
 * the id view, `findIndex`, `Array.prototype.filter`, and the newest-first
 * sort of getAll.
 */
module SnapshotSeqs {
  import opened RiskTypes

  /** The ids of a sequence of snapshots, in order. */
  function Ids(xs: seq<Snapshot>): (ids: seq<string>)
  {
    seq(|xs|, i requires 0 <= i < |xs| => xs[i].id)
  }

  lemma IdsAppend(a: seq<Snapshot>, b: seq<Snapshot>)
    ensures Ids(a + b) == Ids(a) + Ids(b)
  {
  }

  /** No id occurs twice. */
  ghost predicate UniqueIds(xs: seq<Snapshot>)
  {
    forall id | id in multiset(Ids(xs)) :: multiset(Ids(xs))[id] == 1
  }

  /** Two different positions never carry the same id. */
  lemma UniqueIdsAt(xs: seq<Snapshot>, i: int, j: int)
    requires UniqueIds(xs)
    requires 0 <= i < j < |xs|
    ensures xs[i].id != xs[j].id
  {
    var ids := Ids(xs);
    assert ids == ids[..i] + [ids[i]] + ids[i + 1..j] + [ids[j]] + ids[j + 1..];
    assert multiset(ids)[ids[i]] >= if ids[i] == ids[j] then 2 else 1;
  }

  /** findIndex by id: the first position holding `id`, or -1. */
  function IndexOf(xs: seq<Snapshot>, id: string): (i: int)
    ensures -1 <= i < |xs|
    ensures i < 0 <==> id !in Ids(xs)
    ensures 0 <= i ==> xs[i].id == id && forall j | 0 <= j < i :: xs[j].id != id
  {
    if xs == [] then -1
    else if xs[0].id == id then
      assert Ids(xs)[0] == id;
      0
    else
      var k := IndexOf(xs[1..], id);
      assert Ids(xs) == [xs[0].id] + Ids(xs[1..]);
      if k < 0 then -1 else k + 1
  }

  /** `a` is `b` with some elements left out, order kept. */
  ghost predicate IsSubsequence(a: seq<Snapshot>, b: seq<Snapshot>)
    decreases |b|
  {
    a == [] || (b != [] && if a[0] == b[0] then IsSubsequence(a[1..], b[1..]) else IsSubsequence(a, b[1..]))
  }

  /**
   * Array.prototype.filter: the elements of `xs` that satisfy `p`; nothing is
   * dropped exactly when every element satisfies `p`.
   */
  function Where(xs: seq<Snapshot>, p: Snapshot -> bool): (r: seq<Snapshot>)
    ensures forall x :: x in r <==> x in xs && p(x)
    ensures |r| <= |xs|
    ensures |r| == |xs| <==> forall x | x in xs :: p(x)
  {
    if xs == [] then []
    else if p(xs[0]) then [xs[0]] + Where(xs[1..], p)
    else Where(xs[1..], p)
  }

  /** The filtered elements keep their relative order. */
  lemma {:induction false} WhereIsSubsequence(xs: seq<Snapshot>, p: Snapshot -> bool)
    ensures IsSubsequence(Where(xs, p), xs)
  {
    if xs != [] {
      WhereIsSubsequence(xs[1..], p);
      var rest := Where(xs[1..], p);
      if p(xs[0]) {
        assert ([xs[0]] + rest)[1..] == rest;
      } else if rest != [] {
        assert rest[0] in rest;
      }
    }
  }

  /** Filtering only removes ids. */
  lemma {:induction false} WhereIds(xs: seq<Snapshot>, p: Snapshot -> bool)
    ensures multiset(Ids(Where(xs, p))) <= multiset(Ids(xs))
  {
    if xs != [] {
      WhereIds(xs[1..], p);
      var rest := Where(xs[1..], p);
      assert Ids(xs) == [xs[0].id] + Ids(xs[1..]);
      if p(xs[0]) {
        assert Ids([xs[0]] + rest) == [xs[0].id] + Ids(rest);
      }
    }
  }

  /** Filtering twice is filtering once by both conditions. */
  lemma {:induction false} WhereFusion(xs: seq<Snapshot>, p: Snapshot -> bool, q: Snapshot -> bool)
    ensures Where(Where(xs, p), q) == Where(xs, x => p(x) && q(x))
  {
    if xs != [] {
      WhereFusion(xs[1..], p, q);
    }
  }

  /** Filtering depends only on the values of the condition. */
  lemma {:induction false} WhereSameCondition(xs: seq<Snapshot>, p: Snapshot -> bool, q: Snapshot -> bool)
    requires forall x :: p(x) == q(x)
    ensures Where(xs, p) == Where(xs, q)
  {
    if xs != [] {
      WhereSameCondition(xs[1..], p, q);
    }
  }

  /** A filter and its complement split the sequence. */
  lemma {:induction false} WhereSplit(xs: seq<Snapshot>, p: Snapshot -> bool)
    ensures |Where(xs, p)| + |Where(xs, x => !p(x))| == |xs|
  {
    if xs != [] {
      WhereSplit(xs[1..], p);
    }
  }

  /**
   * filter keeps every copy of an element that passes and no copy of one
   * that fails.
   */
  lemma {:induction false} WhereCount(xs: seq<Snapshot>, p: Snapshot -> bool)
    ensures forall x :: multiset(Where(xs, p))[x] == if p(x) then multiset(xs)[x] else 0
  {
    if xs != [] {
      WhereCount(xs[1..], p);
      assert xs == [xs[0]] + xs[1..];
      assert multiset(xs) == multiset{xs[0]} + multiset(xs[1..]);
      if p(xs[0]) {
        assert multiset(Where(xs, p)) == multiset{xs[0]} + multiset(Where(xs[1..], p));
      }
    }
  }

  /** A filter that every element passes changes nothing. */
  lemma {:induction false} WhereAll(xs: seq<Snapshot>, p: Snapshot -> bool)
    requires forall x | x in xs :: p(x)
    ensures Where(xs, p) == xs
  {
    if xs != [] {
      assert forall x | x in xs[1..] :: x in xs;
      WhereAll(xs[1..], p);
    }
  }

  /** The ids occurring in `xs`. */
  function IdSet(xs: seq<Snapshot>): (ids: set<string>)
    ensures forall id :: id in ids <==> id in Ids(xs)
  {
    set id | id in Ids(xs)
  }

  /** Putting a snapshot with a new id in front keeps ids unique. */
  lemma UniqueIdsPrepend(s: Snapshot, xs: seq<Snapshot>)
    requires UniqueIds(xs) && s.id !in Ids(xs)
    ensures UniqueIds([s] + xs)
  {
    assert Ids([s] + xs) == [s.id] + Ids(xs);
  }

  /** Appending a snapshot with a new id keeps ids unique. */
  lemma UniqueIdsAppend(xs: seq<Snapshot>, s: Snapshot)
    requires UniqueIds(xs) && s.id !in Ids(xs)
    ensures UniqueIds(xs + [s])
  {
    assert Ids(xs + [s]) == Ids(xs) + [s.id];
  }

  /** Replacing a snapshot by one with the same id keeps the ids. */
  lemma IdsReplace(xs: seq<Snapshot>, i: int, s: Snapshot)
    requires 0 <= i < |xs| && xs[i].id == s.id
    ensures Ids(xs[i := s]) == Ids(xs)
  {
  }

  /** Filtering keeps ids unique. */
  lemma WhereUniqueIds(xs: seq<Snapshot>, p: Snapshot -> bool)
    requires UniqueIds(xs)
    ensures UniqueIds(Where(xs, p))
  {
    WhereIds(xs, p);
  }

  /** getAll's order: createdAt descending, newest first. */
  ghost predicate NewestFirst(xs: seq<Snapshot>)
  {
    forall i, j | 0 <= i < j < |xs| :: xs[i].createdAt >= xs[j].createdAt
  }

  /**
   * Places `x` before the first element that is not newer than it; on equal
   * timestamps `x` goes first, as a stable sort keeps an earlier element first.
   */
  function Insert(x: Snapshot, ys: seq<Snapshot>): (r: seq<Snapshot>)
    ensures |r| == |ys| + 1
    ensures forall z | z in r :: z == x || z in ys
  {
    if ys == [] || ys[0].createdAt <= x.createdAt then [x] + ys
    else [ys[0]] + Insert(x, ys[1..])
  }

  /** Inserting adds exactly the inserted snapshot. */
  lemma {:induction false} InsertPermutes(x: Snapshot, ys: seq<Snapshot>)
    ensures multiset(Insert(x, ys)) == multiset(ys) + multiset{x}
  {
    if ys != [] && ys[0].createdAt > x.createdAt {
      InsertPermutes(x, ys[1..]);
      assert ys == [ys[0]] + ys[1..];
    }
  }

  /** Inserting adds exactly the inserted snapshot's id. */
  lemma {:induction false} InsertIds(x: Snapshot, ys: seq<Snapshot>)
    ensures multiset(Ids(Insert(x, ys))) == multiset(Ids(ys)) + multiset{x.id}
  {
    if ys == [] || ys[0].createdAt <= x.createdAt {
      assert Ids([x] + ys) == [x.id] + Ids(ys);
    } else {
      InsertIds(x, ys[1..]);
      assert Ids(ys) == [ys[0].id] + Ids(ys[1..]);
      assert Ids([ys[0]] + Insert(x, ys[1..])) == [ys[0].id] + Ids(Insert(x, ys[1..]));
    }
  }

  /** Inserting into a newest-first sequence keeps it newest-first. */
  lemma {:induction false} InsertNewestFirst(x: Snapshot, ys: seq<Snapshot>)
    requires NewestFirst(ys)
    ensures NewestFirst(Insert(x, ys))
  {
    if ys != [] && ys[0].createdAt > x.createdAt {
      InsertNewestFirst(x, ys[1..]);
      var rest := Insert(x, ys[1..]);
      var r := [ys[0]] + rest;
      assert forall z | z in rest :: z.createdAt <= ys[0].createdAt;
      forall i, j | 0 <= i < j < |r|
        ensures r[i].createdAt >= r[j].createdAt
      {
        if i == 0 {
          assert r[j] in rest;
        } else {
          assert r[i] == rest[i - 1] && r[j] == rest[j - 1];
        }
      }
      assert Insert(x, ys) == r;
    }
  }

  /**
   * The sort of getAll: createdAt descending, a permutation of the input that
   * keeps its multiset of ids.
   */
  function SortByNewest(xs: seq<Snapshot>): (r: seq<Snapshot>)
    ensures NewestFirst(r)
    ensures |r| == |xs|
    ensures multiset(r) == multiset(xs)
    ensures multiset(Ids(r)) == multiset(Ids(xs))
  {
    if xs == [] then []
    else
      var rest := SortByNewest(xs[1..]);
      assert xs == [xs[0]] + xs[1..];
      assert Ids(xs) == [xs[0].id] + Ids(xs[1..]);
      InsertPermutes(xs[0], rest);
      InsertIds(xs[0], rest);
      InsertNewestFirst(xs[0], rest);
      Insert(xs[0], rest)
  }

  /** A filter of a newest-first sequence is newest-first. */
  lemma {:induction false} WhereNewestFirst(xs: seq<Snapshot>, p: Snapshot -> bool)
    requires NewestFirst(xs)
    ensures NewestFirst(Where(xs, p))
  {
    if xs != [] {
      WhereNewestFirst(xs[1..], p);
      var rest := Where(xs[1..], p);
      if p(xs[0]) {
        var r := [xs[0]] + rest;
        forall i, j | 0 <= i < j < |r|
          ensures r[i].createdAt >= r[j].createdAt
        {
          if i == 0 {
            assert r[j] in rest;
            var k :| 0 <= k < |xs[1..]| && xs[1..][k] == r[j];
            assert xs[k + 1] == r[j];
          } else {
            assert r[i] == rest[i - 1] && r[j] == rest[j - 1];
          }
        }
      }
    }
  }

  /** Sorting a newest-first sequence gives it back unchanged: getAll re-reads what it wrote. */
  lemma {:induction false} SortKeepsNewestFirst(xs: seq<Snapshot>)
    requires NewestFirst(xs)
    ensures SortByNewest(xs) == xs
  {
    if xs != [] {
      assert NewestFirst(xs[1..]) by {
        forall i, j | 0 <= i < j < |xs[1..]|
          ensures xs[1..][i].createdAt >= xs[1..][j].createdAt
        {
          assert xs[1..][i] == xs[i + 1] && xs[1..][j] == xs[j + 1];
        }
      }
      SortKeepsNewestFirst(xs[1..]);
      assert xs == [xs[0]] + xs[1..];
    }
  }

  /** Sorting neither creates nor removes duplicate ids. */
  lemma SortKeepsUniqueIds(xs: seq<Snapshot>)
    ensures UniqueIds(SortByNewest(xs)) <==> UniqueIds(xs)
  {
  }
}
