/** src/modules/me/activity.service.ts: when pages of any size show everything in spite of untrusted inflows. */
module Spacing {
  import opened Options
  import opened FeedOrder
  import opened Activity
  import opened Untrusted

  function Only(rows: seq<Row>, source: Source): seq<Row> {
    if rows == [] then [] else (if rows[0].source == source then [rows[0]] else []) + Only(rows[1..], source)
  }

  /** Between an untrusted inflow and any trusted one that follows it there are at least `n` logs. */
  predicate SpacedOut(rows: seq<Row>, n: nat) {
    forall i: nat, j: nat :: i < j < |rows| && !rows[i].shown && ShownInflow(rows[j]) ==> |Only(rows[i..j], Log)| >= n
  }

  // ── Filters of a descending list ───────────────────────────────────────────

  lemma {:induction false} OnlyHolds(rows: seq<Row>, source: Source, r: Row)
    ensures r in Only(rows, source) <==> r in rows && r.source == source
  {
    if rows != [] {
      OnlyHolds(rows[1..], source, r);
      assert r in rows <==> r == rows[0] || r in rows[1..];
    }
  }

  lemma {:induction false} OnlyConcat(a: seq<Row>, b: seq<Row>, source: Source)
    ensures Only(a + b, source) == Only(a, source) + Only(b, source)
  {
    if a == [] {
      assert a + b == b;
    } else {
      var head := if a[0].source == source then [a[0]] else [];
      assert (a + b)[1..] == a[1..] + b;
      assert Only(a + b, source) == head + Only(a[1..] + b, source);
      assert Only(a, source) == head + Only(a[1..], source);
      hide Only;
      OnlyConcat(a[1..], b, source);
      assert head + (Only(a[1..], source) + Only(b, source)) == (head + Only(a[1..], source)) + Only(b, source);
    }
  }

  lemma {:induction false} OnlyDescends(rows: seq<Row>, source: Source)
    requires Descending(rows)
    ensures Descending(Only(rows, source))
  {
    if rows != [] {
      OnlyDescends(rows[1..], source);
      var rest := Only(rows[1..], source);
      forall q | q in rest ensures Above(rows[0], q) {
        OnlyHolds(rows[1..], source, q);
        HeadAbove(rows, q);
      }
      HeadDescends(rows[0], rest);
      assert [] + rest == rest;
    }
  }

  lemma HeadAbove(rows: seq<Row>, q: Row)
    requires Descending(rows) && rows != [] && q in rows[1..]
    ensures Above(rows[0], q)
  {
  }

  lemma {:induction false} ShownHolds(rows: seq<Row>, r: Row)
    ensures r in OnlyShown(rows) <==> r in rows && r.shown
  {
    if rows != [] {
      ShownHolds(rows[1..], r);
      assert r in rows <==> r == rows[0] || r in rows[1..];
    }
  }

  lemma {:induction false} ShownConcat(a: seq<Row>, b: seq<Row>)
    ensures OnlyShown(a + b) == OnlyShown(a) + OnlyShown(b)
  {
    if a == [] {
      assert a + b == b;
    } else {
      var head := if a[0].shown then [a[0]] else [];
      assert (a + b)[1..] == a[1..] + b;
      assert OnlyShown(a + b) == head + OnlyShown(a[1..] + b);
      assert OnlyShown(a) == head + OnlyShown(a[1..]);
      hide OnlyShown;
      ShownConcat(a[1..], b);
      assert head + (OnlyShown(a[1..]) + OnlyShown(b)) == (head + OnlyShown(a[1..])) + OnlyShown(b);
    }
  }

  lemma {:induction false} ShownDescends(rows: seq<Row>)
    requires Descending(rows)
    ensures Descending(OnlyShown(rows))
  {
    if rows != [] {
      ShownDescends(rows[1..]);
      var rest := OnlyShown(rows[1..]);
      forall q | q in rest ensures Above(rows[0], q) {
        ShownHolds(rows[1..], q);
        HeadAbove(rows, q);
      }
      HeadDescends(rows[0], rest);
      assert [] + rest == rest;
    }
  }

  /** Without an unshown row nothing is filtered out. */
  lemma AllShown(rows: seq<Row>)
    requires forall r :: r in rows ==> r.shown
    ensures OnlyShown(rows) == rows
  {
    OnlyShownHolds(rows, Row(0, Log, 0, true));
  }

  lemma FirstUnshown(rows: seq<Row>) returns (p: nat)
    ensures p <= |rows|
    ensures forall i :: 0 <= i < p ==> rows[i].shown
    ensures p < |rows| ==> !rows[p].shown
  {
    p := 0;
    while p < |rows| && rows[p].shown
      invariant p <= |rows| && forall i :: 0 <= i < p ==> rows[i].shown
    {
      p := p + 1;
    }
  }

  // ── What is far down a merge does not matter ───────────────────────────────

  /** Rows of the second list that come below the first `n` of the first list cannot be among the first `n`. */
  lemma {:induction false} MergeDropsFar(a: seq<Row>, p: seq<Row>, far: seq<Row>, n: nat)
    requires Descending(a)
    requires far != [] && n > 0 ==> |a| >= n && forall x :: x in far ==> Above(a[n - 1], x)
    ensures Take(Merge(a, p + far), n) == Take(Merge(a, p), n)
    decreases n
  {
    hide Merge, Take, Above, Descending;
    if far == [] {
      assert p + far == p;
    } else if n > 0 {
      NearFirst(a, n);
      if p == [] {
        assert p + far == far;
        MergeEmpty(a, p);
        FarAlone(a, far, n);
      } else {
        ConcatHead(p, far);
        MergeStep(a, p);
        MergeStep(a, p + far);
        if Above(a[0], p[0]) {
          MergeDropsFar(a[1..], p, far, n - 1);
          SameTake(a[0], Merge(a[1..], p + far), Merge(a[1..], p), n);
        } else {
          StillFar(a, far, n);
          MergeDropsFar(a, p[1..], far, n - 1);
          SameTake(p[0], Merge(a, p[1..] + far), Merge(a, p[1..]), n);
        }
      }
    }
  }

  /** With nothing near, the first `n` are those of the first list. */
  lemma {:induction false} FarAlone(a: seq<Row>, far: seq<Row>, n: nat)
    requires Descending(a) && far != []
    requires n > 0 ==> |a| >= n && forall x :: x in far ==> Above(a[n - 1], x)
    ensures Take(Merge(a, far), n) == Take(a, n)
    decreases n
  {
    hide Merge, Take, Above, Descending;
    if n > 0 {
      NearFirst(a, n);
      assert far[0] in far;
      AboveTransits(a[0], a[n - 1], far[0]);
      MergeStep(a, far);
      FarAlone(a[1..], far, n - 1);
      SameTake(a[0], Merge(a[1..], far), a[1..], n);
      assert a == [a[0]] + a[1..];
    }
  }

  lemma ConcatHead(p: seq<Row>, far: seq<Row>)
    requires p != []
    ensures (p + far)[0] == p[0] && (p + far)[1..] == p[1..] + far
  {
  }

  lemma SameTake(h: Row, x: seq<Row>, y: seq<Row>, n: nat)
    requires n > 0 && Take(x, n - 1) == Take(y, n - 1)
    ensures Take([h] + x, n) == Take([h] + y, n)
  {
    TakeHead(h, x, n);
    TakeHead(h, y, n);
  }

  lemma NearFirst(a: seq<Row>, n: nat)
    requires Descending(a) && 0 < n <= |a|
    ensures Descending(a[1..]) && (n > 1 ==> a[1..][n - 2] == a[n - 1])
    ensures a[0] == a[n - 1] || Above(a[0], a[n - 1])
  {
  }

  lemma AboveTransits(a: Row, b: Row, c: Row)
    requires (a == b || Above(a, b)) && Above(b, c)
    ensures Above(a, c)
  {
  }

  lemma StillFar(a: seq<Row>, far: seq<Row>, n: nat)
    requires Descending(a) && 0 < n <= |a| && forall x :: x in far ==> Above(a[n - 1], x)
    ensures n > 1 ==> forall x :: x in far ==> Above(a[n - 2], x)
  {
    if n > 1 {
      forall x | x in far ensures Above(a[n - 2], x) { AboveTransits(a[n - 2], a[n - 1], x); }
    }
  }

  // ── A page is the head of what is to be shown ──────────────────────────────

  /** The two queries without their limit are the logs and the inflows of what remains. */
  lemma QueriesOfRemaining(db: seq<Row>, c: Option<Cursor>)
    requires Keyed(db)
    ensures Sort(Matching(db, Log, c)) == Only(Remaining(db, c), Log)
    ensures Sort(Matching(db, Inflow, c)) == Only(Remaining(db, c), Inflow)
  {
    hide Keyed, Matching, Sort, Remaining, Only;
    var a, b, all := Sort(Matching(db, Log, c)), Sort(Matching(db, Inflow, c)), Remaining(db, c);
    HeadsOfRemaining(db, c);
    RemainingDescends(db, c);
    QueriesMerge(db, c);
    OnlyDescends(all, Log);
    OnlyDescends(all, Inflow);
    forall r ensures (r in a <==> r in Only(all, Log)) && (r in b <==> r in Only(all, Inflow)) {
      OnlyHolds(all, Log, r);
      OnlyHolds(all, Inflow, r);
    }
    SameElementsSameList(a, Only(all, Log));
    SameElementsSameList(b, Only(all, Inflow));
  }

  /** Logs and inflows of what remains: all logs are shown, and any log is ordered with any inflow. */
  lemma Split(all: seq<Row>)
    requires Descending(all) && forall r :: r in all ==> Listed(r)
    ensures var a, b := Only(all, Log), Only(all, Inflow);
            && Descending(a) && Descending(b) && Across(a, b)
            && Descending(OnlyShown(b)) && Across(a, OnlyShown(b))
            && OnlyShown(all) == Merge(a, OnlyShown(b))
  {
    hide Only, OnlyShown, Merge;
    var a, b := Only(all, Log), Only(all, Inflow);
    OnlyDescends(all, Log);
    OnlyDescends(all, Inflow);
    ShownDescends(b);
    ShownDescends(all);
    forall l, f | l in a && f in b ensures Above(l, f) || Above(f, l) {
      OnlyHolds(all, Log, l);
      OnlyHolds(all, Inflow, f);
      SourcesOrdered(l, f);
    }
    forall f | f in OnlyShown(b) ensures f in b { ShownHolds(b, f); }
    MergeDescends(a, OnlyShown(b));
    forall r ensures r in OnlyShown(all) <==> r in Merge(a, OnlyShown(b)) {
      ShownHolds(all, r);
      ShownHolds(b, r);
      OnlyHolds(all, Log, r);
      OnlyHolds(all, Inflow, r);
      MergeHolds(a, OnlyShown(b), r);
    }
    SameElementsSameList(OnlyShown(all), Merge(a, OnlyShown(b)));
  }

  /** A trusted inflow behind an untrusted one is below the first `n` logs. */
  lemma BelowLogs(all: seq<Row>, n: nat, u: Row, x: Row)
    requires Descending(all) && SpacedOut(all, n) && n > 0
    requires u in all && x in all && !u.shown && ShownInflow(x) && Above(u, x)
    ensures |Only(all, Log)| >= n && Above(Only(all, Log)[n - 1], x)
  {
    var i :| 0 <= i < |all| && all[i] == u;
    var j :| 0 <= j < |all| && all[j] == x;
    InOrderOf(all, i, j);
    hide Only;
    assert |Only(all[i..j], Log)| >= n;
    hide SpacedOut;
    LogsUpTo(all, i, j, n);
    var log := Only(all, Log)[n - 1];
    var k :| 0 <= k < j && all[k] == log;
    assert Above(all[k], all[j]);
  }

  lemma InOrderOf(all: seq<Row>, i: nat, j: nat)
    requires Descending(all) && i < |all| && j < |all| && Above(all[i], all[j])
    ensures i < j
  {
  }

  /** With `n` logs within [i, j), the first `n` logs of the list all come before `j`. */
  lemma LogsUpTo(all: seq<Row>, i: nat, j: nat, n: nat)
    requires i <= j <= |all| && |Only(all[i..j], Log)| >= n > 0
    ensures |Only(all, Log)| >= n && exists k :: 0 <= k < j && all[k] == Only(all, Log)[n - 1]
  {
    hide Only;
    assert all == all[..j] + all[j..] && all[..j] == all[..i] + all[i..j];
    OnlyConcat(all[..i], all[i..j], Log);
    OnlyConcat(all[..j], all[j..], Log);
    var before := Only(all[..j], Log);
    var log := before[n - 1];
    assert Only(all, Log)[n - 1] == log;
    OnlyHolds(all[..j], Log, log);
    var k :| 0 <= k < |all[..j]| && all[..j][k] == log;
    assert all[k] == log;
  }

  /** The head of what is to be shown, whatever untrusted inflows the query brings. */
  lemma HeadOfShown(all: seq<Row>, n: nat)
    requires Descending(all) && SpacedOut(all, n) && n > 0 && forall r :: r in all ==> Listed(r)
    ensures var a, b := Only(all, Log), Only(all, Inflow);
            Take(Merge(Take(a, n), OnlyShown(Take(b, n))), n) == Take(OnlyShown(all), n)
  {
    var a, b := Only(all, Log), Only(all, Inflow);
    Split(all);
    var p := FirstUnshown(b);
    var head := b[..p];
    if p >= n || p == |b| {
      ShownHead(b, p, n);
      hide Only, OnlyShown, Merge, Take, SpacedOut;
      MergeTake(a, OnlyShown(b), n, n, n);
    } else {
      var tail, cut := OnlyShown(b[p..]), OnlyShown(Take(b[p..], n - p));
      ShownTail(b, p, n);
      forall x | x in tail ensures |a| >= n && Above(a[n - 1], x) {
        TailBehind(all, p, n, x);
      }
      hide Only, OnlyShown, Merge, SpacedOut, Take, Above;
      OnlyHeadMatters(a, head, tail, cut, n);
    }
  }

  lemma OnlyHeadMatters(a: seq<Row>, head: seq<Row>, tail: seq<Row>, cut: seq<Row>, n: nat)
    requires Descending(a) && |head| < n && forall x :: x in tail ==> |a| >= n && Above(a[n - 1], x)
    requires forall x :: x in cut ==> x in tail
    ensures Take(Merge(Take(a, n), head + cut), n) == Take(Merge(a, head + tail), n)
  {
    assert tail != [] ==> tail[0] in tail;
    assert cut != [] ==> cut[0] in cut;
    TakeDescends(a, n);
    assert Take(head, n) == head;
    hide Merge, Take, Above;
    MergeDropsFar(a, head, tail, n);
    MergeDropsFar(Take(a, n), head, cut, n);
    MergeTake(a, head, n, n, n);
  }

  lemma TakeDescends(a: seq<Row>, n: nat)
    requires Descending(a)
    ensures Descending(Take(a, n)) && (0 < n <= |a| ==> |Take(a, n)| == n && Take(a, n)[n - 1] == a[n - 1])
  {
  }

  /** When the query's rows are all trusted. */
  lemma ShownHead(b: seq<Row>, p: nat, n: nat)
    requires p <= |b| && (p >= n || p == |b|) && forall i :: 0 <= i < p ==> b[i].shown
    ensures OnlyShown(Take(b, n)) == Take(OnlyShown(b), n)
  {
    if n >= |b| {
      AllShown(b);
    } else {
      AllShown(b[..n]);
      assert b == b[..n] + b[n..];
      ShownConcat(b[..n], b[n..]);
      hide OnlyShown;
      TakeOfConcat(b[..n], OnlyShown(b[n..]));
    }
  }

  lemma TakeOfConcat(a: seq<Row>, b: seq<Row>)
    ensures Take(a + b, |a|) == a
  {
  }

  lemma TakeBeyond(b: seq<Row>, p: nat, n: nat)
    requires p <= n && p <= |b|
    ensures Take(b, n) == b[..p] + Take(b[p..], n - p)
  {
  }

  lemma TakeIn(b: seq<Row>, n: nat)
    ensures forall x :: x in Take(b, n) ==> x in b
  {
  }

  /** When the query brings an untrusted row at `p`. */
  lemma ShownTail(b: seq<Row>, p: nat, n: nat)
    requires p < n && p < |b| && forall i :: 0 <= i < p ==> b[i].shown
    ensures OnlyShown(b) == b[..p] + OnlyShown(b[p..])
    ensures OnlyShown(Take(b, n)) == b[..p] + OnlyShown(Take(b[p..], n - p))
    ensures forall x :: x in OnlyShown(Take(b[p..], n - p)) ==> x in OnlyShown(b[p..])
  {
    hide OnlyShown, Take;
    var head, rest := b[..p], b[p..];
    AllShown(head);
    assert b == head + rest;
    TakeBeyond(b, p, n);
    ShownConcat(head, rest);
    ShownConcat(head, Take(rest, n - p));
    TakeIn(rest, n - p);
    ShownSubset(Take(rest, n - p), rest);
  }

  lemma ShownSubset(a: seq<Row>, b: seq<Row>)
    requires forall x :: x in a ==> x in b
    ensures forall x :: x in OnlyShown(a) ==> x in OnlyShown(b)
  {
    hide OnlyShown;
    forall x | x in OnlyShown(a) ensures x in OnlyShown(b) {
      ShownHolds(a, x);
      ShownHolds(b, x);
    }
  }

  lemma TailBehind(all: seq<Row>, p: nat, n: nat, x: Row)
    requires Descending(all) && SpacedOut(all, n) && n > 0
    requires p < |Only(all, Inflow)| && !Only(all, Inflow)[p].shown && x in OnlyShown(Only(all, Inflow)[p..])
    ensures |Only(all, Log)| >= n && Above(Only(all, Log)[n - 1], x)
  {
    var b := Only(all, Inflow);
    ShownHolds(b[p..], x);
    OnlyDescends(all, Inflow);
    OnlyHolds(all, Inflow, b[p]);
    OnlyHolds(all, Inflow, x);
    assert b[p] in b && x in b;
    hide Only, SpacedOut;
    DropHead(b, p, x);
    BelowLogs(all, n, b[p], x);
  }

  lemma DropHead(b: seq<Row>, p: nat, x: Row)
    requires Descending(b) && p < |b| && x in b[p..] && x != b[p]
    ensures Above(b[p], x)
  {
    var k :| 0 <= k < |b[p..]| && b[p..][k] == x;
    assert b[p + k] == x;
  }

  lemma PageIsHeadOfShown(db: seq<Row>, c: Option<Cursor>, limit: nat)
    requires Keyed(db) && SpacedOut(Remaining(db, c), limit) && limit >= 1
    ensures PageOf(db, c, limit).items == Take(OnlyShown(Remaining(db, c)), limit)
    ensures PageOf(db, c, limit).next.None? ==> PageOf(db, c, limit).items == OnlyShown(Remaining(db, c))
  {
    var all := Remaining(db, c);
    var a, b := Only(all, Log), Only(all, Inflow);
    RemainingDescends(db, c);
    forall r | r in all ensures Listed(r) { RemainingHolds(db, c, r); }
    QueriesOfRemaining(db, c);
    HeadOfShown(all, limit);
    MergedIsMerge(all, limit);
    Split(all);
    hide Keyed, Matching, Sort, Only, Merge, OnlyShown, Remaining, SpacedOut;
    if PageOf(db, c, limit).next.None? && PageOf(db, c, limit).items != [] {
      assert Take(a, limit) == a && Take(b, limit) == b;
    }
  }

  /** The sorted page candidates are a merge. */
  lemma MergedIsMerge(all: seq<Row>, n: nat)
    requires Descending(all) && forall r :: r in all ==> Listed(r)
    ensures var ta, tb := Take(Only(all, Log), n), OnlyShown(Take(Only(all, Inflow), n));
            Sort(ta + tb) == Merge(ta, tb)
  {
    var a, b := Only(all, Log), Only(all, Inflow);
    Split(all);
    hide Only, Sort, Merge, OnlyShown;
    TakeKeeps(a, b, n);
    var ta, tb := Take(a, n), OnlyShown(Take(b, n));
    ShownDescends(Take(b, n));
    forall f | f in tb ensures f in Take(b, n) { ShownHolds(Take(b, n), f); }
    DescendingIsOrdered(ta, tb);
    SortDescends(ta + tb);
    SortedIsMerge(ta + tb, ta, tb);
  }

  // ── Completeness ───────────────────────────────────────────────────────────

  lemma SpacedOutSuffix(rows: seq<Row>, n: nat, m: nat)
    requires SpacedOut(rows, n) && m <= |rows|
    ensures SpacedOut(rows[m..], n)
  {
    hide Only;
    var rest := rows[m..];
    forall i: nat, j: nat | i < j < |rest| && !rest[i].shown && ShownInflow(rest[j])
      ensures |Only(rest[i..j], Log)| >= n
    {
      assert rest[i..j] == rows[m + i..m + j];
      assert !rows[m + i].shown && ShownInflow(rows[m + j]);
    }
  }

  /** The shown rows up to a shown row are the prefix of the shown rows that ends with it. */
  lemma ShownUpTo(all: seq<Row>, m: nat, q: nat)
    requires Descending(all) && m < |all| && all[m].shown
    requires 0 < q <= |OnlyShown(all)| && OnlyShown(all)[q - 1] == all[m]
    ensures OnlyShown(all) == OnlyShown(all)[..q] + OnlyShown(all[m + 1..])
  {
    assert all == all[..m + 1] + all[m + 1..] && all[..m + 1] == all[..m] + [all[m]];
    ShownConcat(all[..m + 1], all[m + 1..]);
    ShownConcat(all[..m], [all[m]]);
    assert OnlyShown([all[m]]) == [all[m]] by { assert [all[m]][1..] == []; }
    var front := OnlyShown(all[..m + 1]);
    ShownDescends(all);
    SameIndex(OnlyShown(all), q - 1, |front| - 1);
  }

  lemma {:induction false} FollowShowsAll(db: seq<Row>, c: Option<Cursor>, limit: nat)
    requires Keyed(db) && TiesAgree(db) && limit >= 1 && SpacedOut(Remaining(db, c), limit)
    ensures Follow(db, c, limit) == OnlyShown(Remaining(db, c))
    decreases Left(db, c)
  {
    hide Keyed, TiesAgree, SpacedOut, Remaining, Left, PageOf, OnlyShown;
    var page, all := PageOf(db, c, limit), Remaining(db, c);
    PageIsHeadOfShown(db, c, limit);
    NextIsLast(db, c, limit);
    if page.next.Some? {
      var x := page.items[|page.items| - 1];
      ShownHolds(all, x);
      assert x in OnlyShown(all);
      var m :| 0 <= m < |all| && all[m] == x;
      RemainingDescends(db, c);
      RemainingAfter(db, c, m + 1);
      SpacedOutSuffix(all, limit, m + 1);
      NextIsCloser(db, c, limit);
      FollowShowsAll(db, page.next, limit);
      assert page.items == OnlyShown(all)[..|page.items|];
      ShownUpTo(all, m, |page.items|);
    }
  }

  /**
   * For every page size: paging shows every typed log and every trusted inflow if, in the feed, any trusted inflow that
   * follows an untrusted one has at least that many logs between them. For page size 1 that is the exact condition.
   */
  lemma SpacedOutIsEnough(db: seq<Row>, limit: nat)
    requires Keyed(db) && TiesAgree(db) && limit >= 1 && SpacedOut(Feed(db), limit)
    ensures Follow(db, None, limit) == OnlyShown(Feed(db))
  {
    FollowShowsAll(db, None, limit);
  }

  lemma SpacedOutByOneIsNoneHidden(rows: seq<Row>)
    ensures SpacedOut(rows, 1) <==> NoneHidden(rows)
  {
    hide Only, LogWithin;
    forall i: nat, j: nat | i < j < |rows| ensures |Only(rows[i..j], Log)| >= 1 <==> LogWithin(rows, i, j) {
      SomeLogWithin(rows, i, j);
    }
  }

  lemma SomeLogWithin(rows: seq<Row>, i: nat, j: nat)
    requires i < j < |rows|
    ensures |Only(rows[i..j], Log)| >= 1 <==> LogWithin(rows, i, j)
  {
    hide Only;
    var logs := Only(rows[i..j], Log);
    if |logs| >= 1 {
      OnlyHolds(rows[i..j], Log, logs[0]);
      assert logs[0] in logs;
      var k :| 0 <= k < |rows[i..j]| && rows[i..j][k] == logs[0];
      assert rows[i + k].source == Log;
    }
    if LogWithin(rows, i, j) {
      var m :| i <= m < j && rows[m].source == Log;
      assert rows[i..j][m - i] == rows[m];
      OnlyHolds(rows[i..j], Log, rows[m]);
    }
  }
}
