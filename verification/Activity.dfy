/** src/modules/me/activity.service.ts: the activity feed, paged by cursor over two tables. */
module Activity {
  import opened Options
  import opened FeedOrder

  /** What the filter uses of a decoded cursor. */
  datatype Cursor = Cursor(time: int, id: nat)

  datatype Page = Page(items: seq<Row>, next: Option<Cursor>)

  function CursorOf(r: Row): Cursor { Cursor(r.time, r.id) }

  predicate Below(c: Option<Cursor>, r: Row) {
    c.None? || r.time < c.value.time || (r.time == c.value.time && r.id < c.value.id)
  }

  // ── Queries and pages ──────────────────────────────────────────────────────

  predicate Matches(r: Row, source: Source, c: Option<Cursor>) {
    r.source == source && (source == Log ==> r.shown) && Below(c, r)
  }

  function Matching(db: seq<Row>, source: Source, c: Option<Cursor>): seq<Row>
    decreases |db|
  {
    if db == [] then [] else (if Matches(db[0], source, c) then [db[0]] else []) + Matching(db[1..], source, c)
  }

  function FindMany(db: seq<Row>, source: Source, c: Option<Cursor>, limit: nat): seq<Row> {
    Take(Sort(Matching(db, source, c)), limit)
  }

  function OnlyShown(rows: seq<Row>): seq<Row> {
    if rows == [] then [] else (if rows[0].shown then [rows[0]] else []) + OnlyShown(rows[1..])
  }

  function PageOf(db: seq<Row>, c: Option<Cursor>, limit: nat): Page {
    var logs, inflows := FindMany(db, Log, c, limit), FindMany(db, Inflow, c, limit);
    var merged := Sort(logs + OnlyShown(inflows));
    var items := Take(merged, limit);
    var hasMore := |merged| > limit || |logs| == limit || |inflows| == limit;
    Page(items, if hasMore && items != [] then Some(CursorOf(items[|items| - 1])) else None)
  }

  /** getPage: the log rows become items one by one; the two queries and the sort are library calls. */
  method GetPage(db: seq<Row>, c: Option<Cursor>, limit: nat) returns (page: Page)
    ensures page == PageOf(db, c, limit)
  {
    hide Sort, Matching, Take, FindMany, OnlyShown;
    var logRows := FindMany(db, Log, c, limit);
    var inflowRows := FindMany(db, Inflow, c, limit);
    LogsAreShown(db, c, limit);
    var logItems := [];
    var i := 0;
    while i < |logRows|
      invariant 0 <= i <= |logRows| && logItems == logRows[..i]
    {
      if !logRows[i].shown {
        i := i + 1;
        continue;
      }
      logItems := logItems + [logRows[i]];
      i := i + 1;
    }
    assert logItems == logRows;
    var inflowItems := OnlyShown(inflowRows);
    var merged := Sort(logItems + inflowItems);
    var items := Take(merged, limit);
    var hasMore := |merged| > limit || |logRows| == limit || |inflowRows| == limit;
    var next := if hasMore && |items| > 0 then Some(CursorOf(items[|items| - 1])) else None;
    page := Page(items, next);
  }

  // ── Rows of queries ────────────────────────────────────────────────────────

  lemma {:induction false} MatchingHolds(db: seq<Row>, source: Source, c: Option<Cursor>, r: Row)
    ensures r in Matching(db, source, c) <==> r in db && Matches(r, source, c)
    decreases |db|
  {
    hide Matches;
    if db != [] {
      MatchingHolds(db[1..], source, c, r);
      assert r in db <==> r == db[0] || r in db[1..];
    }
  }

  lemma LogsAreShown(db: seq<Row>, c: Option<Cursor>, limit: nat)
    ensures forall r :: r in FindMany(db, Log, c, limit) ==> r.shown
  {
    forall r | r in FindMany(db, Log, c, limit) ensures r.shown {
      SortHolds(Matching(db, Log, c), r);
      MatchingHolds(db, Log, c, r);
    }
  }

  lemma {:induction false} OnlyShownHolds(rows: seq<Row>, r: Row)
    ensures r in OnlyShown(rows) ==> r in rows
    ensures (forall q :: q in rows ==> q.shown) ==> OnlyShown(rows) == rows
  {
    if rows != [] {
      OnlyShownHolds(rows[1..], r);
      assert forall q :: q in rows[1..] ==> q in rows;
      assert rows == [rows[0]] + rows[1..];
      assert rows[0] in rows;
    }
  }

  // ── Following the cursor ───────────────────────────────────────────────────

  lemma {:induction false} MatchingShrinks(db: seq<Row>, source: Source, c: Option<Cursor>, x: Row)
    requires Below(c, x)
    ensures |Matching(db, source, Some(CursorOf(x)))| <= |Matching(db, source, c)|
    ensures x in Matching(db, source, c) ==> |Matching(db, source, Some(CursorOf(x)))| < |Matching(db, source, c)|
    decreases |db|
  {
    if db != [] {
      MatchingShrinks(db[1..], source, c, x);
    }
  }

  /** Every item of a page comes from the rows below the cursor. */
  lemma ItemsMatch(db: seq<Row>, c: Option<Cursor>, limit: nat, x: Row)
    requires x in PageOf(db, c, limit).items
    ensures x in db && x.shown && Below(c, x) && x in Matching(db, x.source, c)
  {
    hide Sort, Matching, OnlyShown, FindMany;
    var logs, inflows := FindMany(db, Log, c, limit), FindMany(db, Inflow, c, limit);
    SortHolds(logs + OnlyShown(inflows), x);
    OnlyShownAreShown(inflows, x);
    SortHolds(Matching(db, x.source, c), x);
    LogsAreShown(db, c, limit);
    FromSource(db, Log, c, limit, x);
    FromSource(db, Inflow, c, limit, x);
  }

  lemma {:induction false} OnlyShownAreShown(rows: seq<Row>, r: Row)
    ensures r in OnlyShown(rows) ==> r in rows && r.shown
  {
    if rows != [] {
      OnlyShownAreShown(rows[1..], r);
    }
  }

  lemma FromSource(db: seq<Row>, source: Source, c: Option<Cursor>, limit: nat, r: Row)
    ensures r in FindMany(db, source, c, limit) ==> r in Matching(db, source, c) && r in db && Matches(r, source, c)
  {
    hide Sort, Matching;
    SortHolds(Matching(db, source, c), r);
    MatchingHolds(db, source, c, r);
  }

  function Left(db: seq<Row>, c: Option<Cursor>): nat { |Matching(db, Log, c)| + |Matching(db, Inflow, c)| }

  lemma NextIsCloser(db: seq<Row>, c: Option<Cursor>, limit: nat)
    ensures var next := PageOf(db, c, limit).next;
            next.Some? ==> Left(db, next) < Left(db, c)
  {
    hide Matching, Sort, Take, FindMany;
    var page := PageOf(db, c, limit);
    if page.next.Some? {
      var x := page.items[|page.items| - 1];
      ItemsMatch(db, c, limit, x);
      MatchingShrinks(db, Log, c, x);
      MatchingShrinks(db, Inflow, c, x);
      assert x.source == Log || x.source == Inflow;
    }
  }

  /** All items a client sees that follows next_cursor until there is none. It stops, whatever the rows. */
  function Follow(db: seq<Row>, c: Option<Cursor>, limit: nat): seq<Row>
    decreases Left(db, c)
  {
    var page := PageOf(db, c, limit);
    if page.next.None? then page.items
    else
      NextIsCloser(db, c, limit);
      page.items + Follow(db, page.next, limit)
  }

  // ── The feed ───────────────────────────────────────────────────────────────

  /** Everything the feed should show below the cursor. */
  function Remaining(db: seq<Row>, c: Option<Cursor>): seq<Row> {
    Sort(Matching(db, Log, c) + Matching(db, Inflow, c))
  }

  /** Everything the feed should show, newest first. */
  function Feed(db: seq<Row>): seq<Row> { Remaining(db, None) }

  /** Ids are unique in each table. */
  predicate Keyed(db: seq<Row>) {
    forall i, j :: 0 <= i < j < |db| && db[i].source == db[j].source ==> db[i].id != db[j].id
  }

  predicate Trusted(db: seq<Row>) { forall r :: r in db && r.source == Inflow ==> r.shown }

  /** A log and an inflow of the same instant: the inflow has the lower id. Holds when no instant is shared. */
  predicate TiesAgree(db: seq<Row>) {
    forall l, f :: l in db && f in db && l.source == Log && f.source == Inflow && l.shown && l.time == f.time ==>
                     f.id < l.id
  }

  lemma {:induction false} MatchingOrdered(db: seq<Row>, source: Source, c: Option<Cursor>)
    requires Keyed(db)
    ensures Ordered(Matching(db, source, c))
    decreases |db|
  {
    if db != [] {
      MatchingOrdered(db[1..], source, c);
      var rest := Matching(db[1..], source, c);
      forall r | r in rest ensures Matches(db[0], source, c) ==> Above(db[0], r) || Above(r, db[0]) {
        MatchingHolds(db[1..], source, c, r);
        var j :| 0 <= j < |db[1..]| && db[1..][j] == r;
        assert db[j + 1] == r;
      }
      assert forall j :: 0 <= j < |rest| ==> rest[j] in rest;
    }
  }

  lemma RemainingDescends(db: seq<Row>, c: Option<Cursor>)
    requires Keyed(db)
    ensures Descending(Remaining(db, c))
  {
    hide Matching, Sort, Keyed;
    var logs, inflows := Matching(db, Log, c), Matching(db, Inflow, c);
    MatchingOrdered(db, Log, c);
    MatchingOrdered(db, Inflow, c);
    forall l, f | l in logs && f in inflows ensures Above(l, f) || Above(f, l) {
      MatchingHolds(db, Log, c, l);
      MatchingHolds(db, Inflow, c, f);
    }
    OrderedConcat(logs, inflows);
    SortDescends(logs + inflows);
  }

  /** Rows a query can return: every unmatched inflow, and logs whose reason has a type. */
  predicate Listed(r: Row) { r.source == Log ==> r.shown }

  lemma RemainingHolds(db: seq<Row>, c: Option<Cursor>, r: Row)
    ensures r in Remaining(db, c) <==> r in db && Listed(r) && Below(c, r)
  {
    hide Sort, Matching;
    MatchingHolds(db, Log, c, r);
    MatchingHolds(db, Inflow, c, r);
    SortHolds(Matching(db, Log, c) + Matching(db, Inflow, c), r);
  }

  // ── A page is the head of what remains ─────────────────────────────────────

  /** The two queries without their limit: descending, and together all that remains. */
  lemma QueriesMerge(db: seq<Row>, c: Option<Cursor>)
    requires Keyed(db)
    ensures var a, b := Sort(Matching(db, Log, c)), Sort(Matching(db, Inflow, c));
            Descending(a) && Descending(b) && Across(a, b) && Remaining(db, c) == Merge(a, b)
  {
    hide Matching, Sort, Keyed, Above, Merge, Descending;
    var logs, inflows := Matching(db, Log, c), Matching(db, Inflow, c);
    var a, b := Sort(logs), Sort(inflows);
    MatchingOrdered(db, Log, c);
    MatchingOrdered(db, Inflow, c);
    SortDescends(logs);
    SortDescends(inflows);
    RemainingDescends(db, c);
    forall l, f | l in a && f in b ensures Above(l, f) || Above(f, l) {
      SortHolds(logs, l);
      SortHolds(inflows, f);
      MatchingHolds(db, Log, c, l);
      MatchingHolds(db, Inflow, c, f);
      SourcesOrdered(l, f);
    }
    forall r ensures r in logs + inflows <==> r in a || r in b {
      SortHolds(logs, r);
      SortHolds(inflows, r);
    }
    SortedIsMerge(logs + inflows, a, b);
  }

  /** Over-fetching `limit` rows of each table is enough: the page is the head of what remains below the cursor. */
  lemma PageIsHeadOfRemaining(db: seq<Row>, c: Option<Cursor>, limit: nat)
    requires Keyed(db) && Trusted(db)
    ensures PageOf(db, c, limit).items == Take(Remaining(db, c), limit)
    ensures limit >= 1 && PageOf(db, c, limit).next.None? ==> PageOf(db, c, limit).items == Remaining(db, c)
  {
    hide Matching, Sort, Keyed, Above, Merge, Descending, Across, Ordered, OnlyShown, Remaining;
    var a, b := Sort(Matching(db, Log, c)), Sort(Matching(db, Inflow, c));
    QueriesMerge(db, c);
    var ta, tb := Take(a, limit), Take(b, limit);
    InflowsAreShown(db, c, limit);
    assert OnlyShown(tb) == tb;
    TakeKeeps(a, b, limit);
    DescendingIsOrdered(ta, tb);
    SortDescends(ta + tb);
    SortedIsMerge(ta + tb, ta, tb);
    MergeTake(a, b, limit, limit, limit);
    if limit >= 1 && PageOf(db, c, limit).next.None? {
      LengthOfMerge(a, b);
      LengthOfMerge(ta, tb);
    }
  }

  lemma InflowsAreShown(db: seq<Row>, c: Option<Cursor>, limit: nat)
    requires Trusted(db)
    ensures OnlyShown(FindMany(db, Inflow, c, limit)) == FindMany(db, Inflow, c, limit)
  {
    hide Matching, Sort, OnlyShown, FindMany;
    var rows := FindMany(db, Inflow, c, limit);
    forall r | r in rows ensures r.shown { FromSource(db, Inflow, c, limit, r); }
    OnlyShownHolds(rows, Row(0, Inflow, 0, true));
  }

  /**
   * A page carries no cursor exactly when it is empty, or when both queries came back short and everything they brought
   * fits on the page.
   */
  lemma LastPageExactlyWhen(db: seq<Row>, c: Option<Cursor>, limit: nat)
    requires Keyed(db) && Trusted(db)
    ensures var logs, inflows := |Matching(db, Log, c)|, |Matching(db, Inflow, c)|;
            PageOf(db, c, limit).next.None?
            <==> limit == 0 || logs + inflows == 0 || (logs < limit && inflows < limit && logs + inflows <= limit)
  {
    hide Matching, Sort, Keyed, Trusted, OnlyShown, Remaining;
    SortHolds(Matching(db, Log, c), Row(0, Log, 0, true));
    SortHolds(Matching(db, Inflow, c), Row(0, Log, 0, true));
    InflowsAreShown(db, c, limit);
    var ta, tb := FindMany(db, Log, c, limit), FindMany(db, Inflow, c, limit);
    SortHolds(ta + tb, Row(0, Log, 0, true));
  }

  // ── Completeness ───────────────────────────────────────────────────────────

  /** The rows below the cursor of the last item of a page are what remains after the page. */
  lemma RemainingAfter(db: seq<Row>, c: Option<Cursor>, n: nat)
    requires Keyed(db) && TiesAgree(db) && 1 <= n <= |Remaining(db, c)|
    ensures Remaining(db, Some(CursorOf(Remaining(db, c)[n - 1]))) == Remaining(db, c)[n..]
  {
    hide Remaining, Keyed;
    var all := Remaining(db, c);
    var x := all[n - 1];
    var d := Some(CursorOf(x));
    RemainingDescends(db, c);
    RemainingDescends(db, d);
    RemainingHolds(db, c, x);
    forall r ensures r in Remaining(db, d) <==> r in all[n..] {
      RemainingHolds(db, c, r);
      RemainingHolds(db, d, r);
      DropHolds(all, n, r);
      if r in db && Listed(r) {
        TiesDecide(db, x, r);
      }
    }
    assert Descending(all[n..]);
    SameElementsSameList(Remaining(db, d), all[n..]);
  }

  /** When ties agree, the cursor filter of either table is the order of the feed. */
  lemma TiesDecide(db: seq<Row>, x: Row, r: Row)
    requires TiesAgree(db) && x in db && r in db && Listed(x) && Listed(r)
    ensures Below(Some(CursorOf(x)), r) <==> Above(x, r)
  {
  }

  lemma {:induction false} FollowIsRemaining(db: seq<Row>, c: Option<Cursor>, limit: nat)
    requires Keyed(db) && Trusted(db) && TiesAgree(db) && limit >= 1
    ensures Follow(db, c, limit) == Remaining(db, c)
    decreases Left(db, c)
  {
    hide Remaining, Keyed, Trusted, TiesAgree, Left, Take, PageOf;
    PageIsHeadOfRemaining(db, c, limit);
    var page := PageOf(db, c, limit);
    if page.next.Some? {
      NextIsLast(db, c, limit);
      NextIsCloser(db, c, limit);
      FollowIsRemaining(db, page.next, limit);
      RemainingAfter(db, c, |page.items|);
      TakeSplits(Remaining(db, c), limit);
    }
  }

  lemma NextIsLast(db: seq<Row>, c: Option<Cursor>, limit: nat)
    ensures var page := PageOf(db, c, limit);
            page.next.Some? ==> page.items != [] && page.next == Some(CursorOf(page.items[|page.items| - 1]))
  {
    hide FindMany, Sort, OnlyShown, Take;
  }

  lemma {:induction false} FollowStaysBelow(db: seq<Row>, c: Option<Cursor>, limit: nat, r: Row)
    requires r in Follow(db, c, limit)
    ensures Below(c, r)
    decreases Left(db, c)
  {
    hide PageOf, Left;
    var page := PageOf(db, c, limit);
    if r in page.items {
      ItemsMatch(db, c, limit, r);
    } else {
      NextIsLast(db, c, limit);
      NextIsCloser(db, c, limit);
      FollowStaysBelow(db, page.next, limit, r);
      ItemsMatch(db, c, limit, page.items[|page.items| - 1]);
    }
  }

  /** Paging one by one, every item is below the cursor of every earlier one. */
  lemma {:induction false} LaterIsBelow(db: seq<Row>, c: Option<Cursor>, j: nat, k: nat)
    requires j < k
    ensures k < |Follow(db, c, 1)| ==> Below(Some(CursorOf(Follow(db, c, 1)[j])), Follow(db, c, 1)[k])
    decreases Left(db, c)
  {
    hide Left, Sort, FindMany, OnlyShown, Below;
    var page := PageOf(db, c, 1);
    assert |page.items| <= 1;
    NextIsLast(db, c, 1);
    NextIsCloser(db, c, 1);
    hide PageOf;
    if page.next.Some? {
      var rest := Follow(db, page.next, 1);
      assert Follow(db, c, 1) == page.items + rest;
      hide Follow;
      if j > 0 {
        LaterIsBelow(db, page.next, j - 1, k - 1);
      } else if k < |Follow(db, c, 1)| {
        FollowStaysBelow(db, page.next, 1, rest[k - 1]);
      }
    } else {
      assert Follow(db, c, 1) == page.items;
    }
  }

  /** Page size 1 already shows every tie that does not agree. */
  lemma OneByOneNeedsTies(db: seq<Row>)
    requires Keyed(db) && Follow(db, None, 1) == Feed(db)
    ensures TiesAgree(db)
  {
    hide Remaining, Keyed, Follow;
    RemainingDescends(db, None);
    forall l, f | l in db && f in db && l.source == Log && f.source == Inflow && l.shown && l.time == f.time
      ensures f.id < l.id
    {
      RemainingHolds(db, None, l);
      RemainingHolds(db, None, f);
      var j :| 0 <= j < |Feed(db)| && Feed(db)[j] == l;
      var k :| 0 <= k < |Feed(db)| && Feed(db)[k] == f;
      assert j < k;
      LaterIsBelow(db, None, j, k);
    }
  }

  /** The feed lists every typed log and every unmatched inflow once, newest first. */
  lemma FeedListsEachOnce(db: seq<Row>)
    requires Keyed(db) && Trusted(db)
    ensures forall r :: r in Feed(db) <==> r in db && r.shown
    ensures forall i, j :: 0 <= i < j < |Feed(db)| ==>
              Feed(db)[i] != Feed(db)[j] && Feed(db)[i].time >= Feed(db)[j].time
  {
    hide Keyed, Remaining;
    RemainingDescends(db, None);
    forall r ensures r in Feed(db) <==> r in db && r.shown {
      RemainingHolds(db, None, r);
    }
  }

  /** Following next_cursor from the start, with this page size, returns the whole feed. */
  predicate CompleteFor(db: seq<Row>, limit: nat) { Follow(db, None, limit) == Feed(db) }

  /** The largest page size the query accepts; the smallest is 1. */
  const MAX_LIMIT: nat := 50

  /**
   * Following next_cursor from the start returns the whole feed, each item once, for every page size a client may ask
   * for, exactly when an inflow that shares its instant with a log always has the lower id; and one page size, 1, is
   * enough to tell.
   */
  lemma FollowingReturnsTheFeedExactlyWhen(db: seq<Row>)
    requires Keyed(db) && Trusted(db)
    ensures (forall limit: nat :: 1 <= limit <= MAX_LIMIT ==> CompleteFor(db, limit)) <==> TiesAgree(db)
    ensures CompleteFor(db, 1) <==> TiesAgree(db)
    ensures TiesAgree(db) ==> forall limit: nat :: limit >= 1 ==> CompleteFor(db, limit)
  {
    hide Keyed, Trusted, Remaining, Follow, TiesAgree;
    if TiesAgree(db) {
      forall limit: nat | limit >= 1 ensures CompleteFor(db, limit) {
        FollowIsRemaining(db, None, limit);
      }
    } else if CompleteFor(db, 1) {
      OneByOneNeedsTies(db);
    }
  }
}
