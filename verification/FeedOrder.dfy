/** The order of the activity feed, sorting by it, and merging two sorted lists. */
module FeedOrder {
  datatype Source = Log | Inflow

  /**
   * A row of the status log or of the unmatched inflows of one user. `id` is the rank of the row's id; `shown` says
   * that a log row's reason has a type in the feed, and that an inflow's unmatched reason is a trusted one.
   */
  datatype Row = Row(time: int, source: Source, id: nat, shown: bool)

  /** The order of the feed: newest first; at one instant "log:" ids sort above "inflow:" ids. */
  predicate Above(a: Row, b: Row) {
    || a.time > b.time
    || (a.time == b.time && ((a.source == Log && b.source == Inflow) || (a.source == b.source && a.id > b.id)))
  }

  function Insert(r: Row, sorted: seq<Row>): (s: seq<Row>)
    ensures multiset(s) == multiset(sorted) + multiset{r}
  {
    if sorted == [] || Above(r, sorted[0]) then [r] + sorted
    else
      assert sorted == [sorted[0]] + sorted[1..];
      [sorted[0]] + Insert(r, sorted[1..])
  }

  function Sort(rows: seq<Row>): (s: seq<Row>)
    ensures multiset(s) == multiset(rows)
  {
    if rows == [] then []
    else
      assert rows == [rows[0]] + rows[1..];
      Insert(rows[0], Sort(rows[1..]))
  }

  function Take(rows: seq<Row>, n: nat): (t: seq<Row>)
    ensures |t| == if |rows| <= n then |rows| else n
  {
    if |rows| <= n then rows else rows[..n]
  }

  // ── Sorting ───────────────────────────────────────────────────────────────────

  lemma SortHolds(rows: seq<Row>, r: Row)
    ensures r in Sort(rows) <==> r in rows
    ensures |Sort(rows)| == |rows|
  {
    assert r in Sort(rows) <==> r in multiset(Sort(rows));
    assert r in rows <==> r in multiset(rows);
    assert |multiset(Sort(rows))| == |multiset(rows)|;
  }

  predicate Descending(rows: seq<Row>) { forall i, j :: 0 <= i < j < |rows| ==> Above(rows[i], rows[j]) }

  /** Any two rows are ordered one way or the other. */
  predicate Ordered(rows: seq<Row>) {
    forall i, j :: 0 <= i < j < |rows| ==> Above(rows[i], rows[j]) || Above(rows[j], rows[i])
  }

  lemma {:induction false} InsertDescends(r: Row, sorted: seq<Row>)
    requires Descending(sorted)
    requires forall q :: q in sorted ==> Above(r, q) || Above(q, r)
    ensures Descending(Insert(r, sorted))
  {
    if sorted == [] {
    } else if Above(r, sorted[0]) {
      assert forall j :: 0 < j < |sorted| ==> Above(sorted[0], sorted[j]);
    } else {
      hide Insert, Above;
      var rest := Insert(r, sorted[1..]);
      assert forall q :: q in sorted[1..] ==> q in sorted;
      assert Descending(sorted[1..]);
      InsertDescends(r, sorted[1..]);
      assert sorted[0] in sorted;
      forall q | q in rest ensures Above(sorted[0], q) {
        assert q in multiset(rest) && (q == r || q in sorted[1..]);
      }
      InsertAtTail(r, sorted);
      assert forall j :: 0 <= j < |rest| ==> rest[j] in rest;
    }
  }

  lemma InsertAtTail(r: Row, sorted: seq<Row>)
    requires sorted != [] && !Above(r, sorted[0])
    ensures Insert(r, sorted) == [sorted[0]] + Insert(r, sorted[1..])
  {
  }

  lemma {:induction false} SortDescends(rows: seq<Row>)
    requires Ordered(rows)
    ensures Descending(Sort(rows))
  {
    if rows != [] {
      SortDescends(rows[1..]);
      forall q | q in Sort(rows[1..]) ensures Above(rows[0], q) || Above(q, rows[0]) {
        SortHolds(rows[1..], q);
        var j :| 0 <= j < |rows[1..]| && rows[1..][j] == q;
        assert rows[j + 1] == q;
      }
      InsertDescends(rows[0], Sort(rows[1..]));
    }
  }

  /** A strictly descending list is known by its elements. */
  lemma {:induction false} SameElementsSameList(a: seq<Row>, b: seq<Row>)
    requires Descending(a) && Descending(b)
    requires forall r :: r in a <==> r in b
    ensures a == b
  {
    assert b == [] || b[0] in b;
    if a != [] {
      assert a[0] in a && a[0] in b;
      assert b[0] in b && b[0] in a;
      assert a[0] == b[0];
      forall r ensures r in a[1..] <==> r in b[1..] {
        TailHolds(a, r);
        TailHolds(b, r);
      }
      SameElementsSameList(a[1..], b[1..]);
      assert a == [a[0]] + a[1..] && b == [b[0]] + b[1..];
    }
  }

  lemma TailHolds(a: seq<Row>, r: Row)
    requires Descending(a) && a != []
    ensures r in a[1..] <==> r in a && r != a[0]
  {
    if r in a && r != a[0] {
      var j :| 0 <= j < |a| && a[j] == r;
      assert a[1..][j - 1] == r;
    }
  }

  lemma OrderedConcat(a: seq<Row>, b: seq<Row>)
    requires Ordered(a) && Ordered(b)
    requires forall l, f :: l in a && f in b ==> Above(l, f) || Above(f, l)
    ensures Ordered(a + b)
  {
    hide Above;
    var s := a + b;
    forall i, j | 0 <= i < j < |s| ensures Above(s[i], s[j]) || Above(s[j], s[i]) {
      if i < |a| <= j {
        assert s[i] in a && s[j] in b;
      }
    }
  }

  // ── Merging ───────────────────────────────────────────────────────────────────

  function Merge(a: seq<Row>, b: seq<Row>): (m: seq<Row>)
    ensures multiset(m) == multiset(a) + multiset(b)
    decreases |a| + |b|
  {
    if a == [] then b
    else if b == [] then a
    else if Above(a[0], b[0]) then
      assert a == [a[0]] + a[1..];
      [a[0]] + Merge(a[1..], b)
    else
      assert b == [b[0]] + b[1..];
      [b[0]] + Merge(a, b[1..])
  }

  lemma MergeHolds(a: seq<Row>, b: seq<Row>, r: Row)
    ensures r in Merge(a, b) <==> r in a || r in b
    ensures |Merge(a, b)| == |a| + |b|
  {
    hide Merge;
    assert r in Merge(a, b) <==> r in multiset(Merge(a, b));
    assert |multiset(Merge(a, b))| == |multiset(a)| + |multiset(b)|;
  }

  /** Any row of one list is ordered with any row of the other. */
  predicate Across(a: seq<Row>, b: seq<Row>) {
    forall l, f :: l in a && f in b ==> Above(l, f) || Above(f, l)
  }

  lemma HeadDescends(r: Row, rest: seq<Row>)
    requires Descending(rest) && forall q :: q in rest ==> Above(r, q)
    ensures Descending([r] + rest)
  {
    hide Above;
    assert forall j :: 0 <= j < |rest| ==> rest[j] in rest;
  }

  lemma {:induction false} MergeDescends(a: seq<Row>, b: seq<Row>)
    requires Descending(a) && Descending(b) && Across(a, b)
    ensures Descending(Merge(a, b))
    decreases |a| + |b|
  {
    if a != [] && b != [] {
      assert a[0] in a && b[0] in b;
      if Above(a[0], b[0]) {
        TailAcross(a, b);
        MergeDescends(a[1..], b);
        MergeTailBelow(a[0], a[1..], b);
      } else {
        TailAcross(a, b);
        MergeDescends(a, b[1..]);
        MergeTailBelow(b[0], a, b[1..]);
      }
    }
  }

  lemma TailAcross(a: seq<Row>, b: seq<Row>)
    requires Across(a, b) && a != [] && b != []
    ensures Across(a[1..], b) && Across(a, b[1..])
  {
    hide Above;
    assert forall r :: r in a[1..] ==> r in a;
    assert forall r :: r in b[1..] ==> r in b;
  }

  lemma MergeTailBelow(r: Row, a: seq<Row>, b: seq<Row>)
    requires forall q :: q in a ==> Above(r, q)
    requires forall q :: q in b ==> Above(r, q)
    requires Descending(Merge(a, b))
    ensures Descending([r] + Merge(a, b))
  {
    hide Above, Merge;
    forall q | q in Merge(a, b) ensures Above(r, q) { MergeHolds(a, b, q); }
    HeadDescends(r, Merge(a, b));
  }

  /** The first k of a merge only depend on the first k of each side. */
  lemma {:induction false} MergeTake(a: seq<Row>, b: seq<Row>, ka: nat, kb: nat, k: nat)
    requires k <= ka && k <= kb
    ensures Take(Merge(Take(a, ka), Take(b, kb)), k) == Take(Merge(a, b), k)
    decreases k
  {
    hide Above, Merge, Take;
    if k == 0 {
    } else if a == [] || b == [] {
      MergeEmpty(a, b);
      MergeEmpty(Take(a, ka), Take(b, kb));
      TakeTake(a, ka, k);
      TakeTake(b, kb, k);
    } else {
      MergeStep(a, b);
      TakeTail(a, ka);
      TakeTail(b, kb);
      MergeStep(Take(a, ka), Take(b, kb));
      if Above(a[0], b[0]) {
        MergeTake(a[1..], b, ka - 1, kb, k - 1);
        TakeHead(a[0], Merge(a[1..], b), k);
        TakeHead(a[0], Merge(Take(a[1..], ka - 1), Take(b, kb)), k);
      } else {
        MergeTake(a, b[1..], ka, kb - 1, k - 1);
        TakeHead(b[0], Merge(a, b[1..]), k);
        TakeHead(b[0], Merge(Take(a, ka), Take(b[1..], kb - 1)), k);
      }
    }
  }

  lemma MergeEmpty(a: seq<Row>, b: seq<Row>)
    ensures a == [] ==> Merge(a, b) == b
    ensures b == [] ==> Merge(a, b) == a
  {
  }

  lemma MergeStep(a: seq<Row>, b: seq<Row>)
    requires a != [] && b != []
    ensures Above(a[0], b[0]) ==> Merge(a, b) == [a[0]] + Merge(a[1..], b)
    ensures !Above(a[0], b[0]) ==> Merge(a, b) == [b[0]] + Merge(a, b[1..])
  {
  }

  lemma TakeTake(a: seq<Row>, n: nat, k: nat)
    requires k <= n
    ensures Take(Take(a, n), k) == Take(a, k)
  {
  }

  lemma TakeTail(a: seq<Row>, n: nat)
    requires a != [] && n > 0
    ensures Take(a, n) != [] && Take(a, n)[0] == a[0] && Take(a, n)[1..] == Take(a[1..], n - 1)
  {
  }

  lemma TakeHead(r: Row, rest: seq<Row>, k: nat)
    requires k > 0
    ensures Take([r] + rest, k) == [r] + Take(rest, k - 1)
  {
  }

  lemma SortedIsMerge(rows: seq<Row>, a: seq<Row>, b: seq<Row>)
    requires Descending(a) && Descending(b) && Across(a, b)
    requires Descending(Sort(rows))
    requires forall r :: r in rows <==> r in a || r in b
    ensures Sort(rows) == Merge(a, b)
  {
    hide Above, Sort, Merge, Across;
    MergeDescends(a, b);
    forall r ensures r in Sort(rows) <==> r in Merge(a, b) {
      SortHolds(rows, r);
      MergeHolds(a, b, r);
    }
    SameElementsSameList(Sort(rows), Merge(a, b));
  }

  lemma DescendingIsOrdered(a: seq<Row>, b: seq<Row>)
    requires Descending(a) && Descending(b) && Across(a, b)
    ensures Ordered(a + b)
  {
    hide Above;
    OrderedConcat(a, b);
  }

  lemma TakeKeeps(a: seq<Row>, b: seq<Row>, n: nat)
    requires Descending(a) && Descending(b) && Across(a, b)
    ensures Descending(Take(a, n)) && Descending(Take(b, n)) && Across(Take(a, n), Take(b, n))
  {
    hide Above;
    assert forall r :: r in Take(a, n) ==> r in a;
    assert forall r :: r in Take(b, n) ==> r in b;
  }

  lemma SourcesOrdered(l: Row, f: Row)
    requires l.source == Log && f.source == Inflow
    ensures Above(l, f) || Above(f, l)
  {
  }

  lemma LengthOfMerge(a: seq<Row>, b: seq<Row>)
    ensures |Merge(a, b)| == |a| + |b|
  {
    hide Merge;
    MergeHolds(a, b, Row(0, Log, 0, true));
  }

  // ── Heads and tails ───────────────────────────────────────────────────────────

  lemma TakeSplits(rows: seq<Row>, n: nat)
    ensures rows == Take(rows, n) + rows[|Take(rows, n)|..]
    ensures Take(rows, n) != [] ==> rows[|Take(rows, n)| - 1] == Take(rows, n)[|Take(rows, n)| - 1]
  {
  }

  lemma DropHolds(all: seq<Row>, n: nat, r: Row)
    requires Descending(all) && 1 <= n <= |all|
    ensures r in all[n..] <==> r in all && Above(all[n - 1], r)
  {
    if r in all && Above(all[n - 1], r) {
      var j :| 0 <= j < |all| && all[j] == r;
      assert j >= n;
      assert all[n..][j - n] == r;
    }
  }

  lemma TakeOne(rows: seq<Row>)
    ensures Take(rows, 1) == if rows == [] then [] else [rows[0]]
  {
  }

  lemma SortOne(rows: seq<Row>)
    requires |rows| <= 1
    ensures Sort(rows) == rows
  {
    if rows != [] { assert rows[1..] == [] && rows == [rows[0]]; }
  }

  lemma SortTwo(l: Row, f: Row)
    ensures Sort([l, f]) == if Above(l, f) then [l, f] else [f, l]
  {
    hide Above;
    SortOne([f]);
    assert [l, f][1..] == [f] && [f][1..] == [];
    assert Insert(l, []) == [l];
  }

  lemma SameIndex(all: seq<Row>, i: nat, j: nat)
    requires Descending(all) && i < |all| && j < |all| && all[i] == all[j]
    ensures i == j
  {
  }

  lemma PrependCancels(r: Row, a: seq<Row>, b: seq<Row>)
    ensures [r] + a == [r] + b <==> a == b
  {
    assert ([r] + a)[1..] == a && ([r] + b)[1..] == b;
  }
}
