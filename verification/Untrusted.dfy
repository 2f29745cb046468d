/** src/modules/me/activity.service.ts: what paging shows when some inflows carry an untrusted reason. */
module Untrusted {
  import opened Options
  import opened FeedOrder
  import opened Activity

  /**
   * What page size 1 shows of a list: an unshown inflow uses up its query's limit, and everything up to the next log
   * is lost.
   */
  function Seen(rows: seq<Row>, blocked: bool): seq<Row>
    decreases |rows|
  {
    if rows == [] then []
    else if rows[0].source == Log then [rows[0]] + Seen(rows[1..], false)
    else if !rows[0].shown then Seen(rows[1..], true)
    else if blocked then Seen(rows[1..], true)
    else [rows[0]] + Seen(rows[1..], false)
  }

  lemma {:induction false} BlockedUntilLog(rows: seq<Row>, m: nat)
    requires m <= |rows| && forall i :: 0 <= i < m ==> rows[i].source == Inflow
    requires m < |rows| ==> rows[m].source == Log
    ensures Seen(rows, true) == if m < |rows| then [rows[m]] + Seen(rows[m + 1..], false) else []
    decreases m
  {
    if m > 0 {
      assert rows[1..][m - 1..] == rows[m..];
      assert m < |rows| ==> rows[1..][m..] == rows[m + 1..];
      BlockedUntilLog(rows[1..], m - 1);
    }
  }

  /** The only item of a page of size 1: the first log or the first inflow, whichever is above; no unshown inflow. */
  function First(a: seq<Row>, b: seq<Row>): seq<Row> {
    if b == [] || !b[0].shown then Take(a, 1)
    else if a == [] || !Above(a[0], b[0]) then [b[0]]
    else [a[0]]
  }

  lemma PageOfOne(db: seq<Row>, c: Option<Cursor>)
    ensures var a, b := Sort(Matching(db, Log, c)), Sort(Matching(db, Inflow, c));
            && PageOf(db, c, 1).items == First(a, b)
            && (PageOf(db, c, 1).next.Some? <==> First(a, b) != [])
  {
    hide Matching, Sort, Above, OnlyShown, First, Take;
    var a, b := Sort(Matching(db, Log, c)), Sort(Matching(db, Inflow, c));
    MergedOfOne(a, b);
  }

  lemma MergedOfOne(a: seq<Row>, b: seq<Row>)
    ensures Take(Sort(Take(a, 1) + OnlyShown(Take(b, 1))), 1) == First(a, b)
    ensures First(a, b) != [] ==> |Take(a, 1)| == 1 || |Take(b, 1)| == 1
  {
    var ta, tb := Take(a, 1), Take(b, 1);
    ShownOfOne(b);
    TakeOne(a);
    TakeOne(b);
    hide Above, Sort, OnlyShown, Take;
    if b == [] || !b[0].shown {
      assert ta + [] == ta;
      SortOne(ta);
      TakeTake(a, 1, 1);
    } else if a == [] {
      assert [] + tb == tb;
      SortOne(tb);
      TakeTake(b, 1, 1);
    } else {
      assert ta + tb == [a[0], b[0]];
      SortTwo(a[0], b[0]);
      TakeOne(Sort(ta + tb));
    }
  }

  lemma ShownOfOne(b: seq<Row>)
    ensures OnlyShown(Take(b, 1)) == if b == [] || !b[0].shown then [] else Take(b, 1)
  {
    if b != [] {
      assert Take(b, 1) == [b[0]] && [b[0]][1..] == [];
    }
  }

  /** The heads of the two queries are the first log and the first inflow of what remains. */
  lemma HeadsOfRemaining(db: seq<Row>, c: Option<Cursor>)
    requires Keyed(db)
    ensures var a, b, all := Sort(Matching(db, Log, c)), Sort(Matching(db, Inflow, c)), Remaining(db, c);
            && (forall r :: r in all <==> r in a || r in b)
            && (forall r :: r in a ==> r.source == Log && r.shown && (r == a[0] || Above(a[0], r)))
            && (forall r :: r in b ==> r.source == Inflow && (r == b[0] || Above(b[0], r)))
  {
    hide Keyed, Matching, Sort, Remaining;
    var a, b, all := Sort(Matching(db, Log, c)), Sort(Matching(db, Inflow, c)), Remaining(db, c);
    QueriesMerge(db, c);
    forall r ensures r in all <==> r in a || r in b { MergeHolds(a, b, r); }
    forall r ensures r in a ==> r.source == Log && r.shown {
      SortHolds(Matching(db, Log, c), r);
      MatchingHolds(db, Log, c, r);
    }
    forall r ensures r in b ==> r.source == Inflow {
      SortHolds(Matching(db, Inflow, c), r);
      MatchingHolds(db, Inflow, c, r);
    }
  }

  /** Page size 1 shows Seen of what remains, whatever is untrusted. */
  lemma {:induction false} OneByOneIsSeen(db: seq<Row>, c: Option<Cursor>)
    requires Keyed(db) && TiesAgree(db)
    ensures Follow(db, c, 1) == Seen(Remaining(db, c), false)
    decreases Left(db, c)
  {
    hide Keyed, TiesAgree, PageOf, Left, Sort, Matching, Remaining;
    var page, all := PageOf(db, c, 1), Remaining(db, c);
    var a, b := Sort(Matching(db, Log, c)), Sort(Matching(db, Inflow, c));
    PageOfOne(db, c);
    HeadsOfRemaining(db, c);
    RemainingDescends(db, c);
    NextIsLast(db, c, 1);
    if page.items == [] {
      NothingShown(all, a, b);
    } else {
      var x := page.items[0];
      var m := FirstIndex(all, a, b);
      NextIsCloser(db, c, 1);
      RemainingAfter(db, c, m + 1);
      OneByOneIsSeen(db, page.next);
      SeenStep(all, a, b, x, m);
    }
  }

  /** `a` and `b` are the logs and the inflows of `all`, in its order. */
  ghost predicate Heads(all: seq<Row>, a: seq<Row>, b: seq<Row>) {
    && Descending(all)
    && (forall r :: r in all <==> r in a || r in b)
    && (forall r :: r in a ==> r.source == Log && r.shown && (r == a[0] || Above(a[0], r)))
    && (forall r :: r in b ==> r.source == Inflow && (r == b[0] || Above(b[0], r)))
  }

  lemma AllFromHeads(all: seq<Row>, a: seq<Row>, b: seq<Row>, i: nat)
    requires Heads(all, a, b) && i < |all|
    ensures all[i] in a || all[i] in b
    ensures all[i].source == Log ==> a != [] && (all[i] == a[0] || Above(a[0], all[i]))
    ensures all[i].source == Inflow ==> b != [] && (all[i] == b[0] || Above(b[0], all[i]))
  {
    assert all[i] in all;
  }

  lemma NothingShown(all: seq<Row>, a: seq<Row>, b: seq<Row>)
    requires Heads(all, a, b) && First(a, b) == []
    ensures Seen(all, false) == []
  {
    assert a == [];
    if all != [] {
      forall i: nat | i < |all| ensures all[i].source == Inflow { AllFromHeads(all, a, b, i); }
      HeadIsFirstInflow(all, a, b);
      BlockedUntilLog(all[1..], |all| - 1);
    }
  }

  lemma HeadIsFirstInflow(all: seq<Row>, a: seq<Row>, b: seq<Row>)
    requires Heads(all, a, b) && all != [] && all[0].source == Inflow
    ensures b != [] && all[0] == b[0]
  {
    AllFromHeads(all, a, b, 0);
    assert b[0] in b && b[0] in all;
  }

  lemma HeadIsFirstLog(all: seq<Row>, a: seq<Row>, b: seq<Row>)
    requires Heads(all, a, b) && all != [] && all[0].source == Log
    ensures a != [] && all[0] == a[0]
  {
    AllFromHeads(all, a, b, 0);
    assert a[0] in a && a[0] in all;
  }

  /** Where the item of the page stands in what remains. */
  lemma FirstIndex(all: seq<Row>, a: seq<Row>, b: seq<Row>) returns (m: nat)
    requires Heads(all, a, b) && First(a, b) != []
    ensures m < |all| && all[m] == First(a, b)[0]
  {
    var x := First(a, b)[0];
    assert x in a || x in b;
    assert x in all;
    m :| 0 <= m < |all| && all[m] == x;
  }

  lemma SeenStep(all: seq<Row>, a: seq<Row>, b: seq<Row>, x: Row, m: nat)
    requires Heads(all, a, b) && First(a, b) == [x] && m < |all| && all[m] == x
    ensures Seen(all, false) == [x] + Seen(all[m + 1..], false)
  {
    hide Seen, Above;
    assert Descending(all);
    if all[0].source == Log {
      HeadIsFirstLog(all, a, b);
      FirstIsLogHead(all, a, b);
      SameIndex(all, 0, m);
      SeenHead(all);
    } else {
      HeadIsFirstInflow(all, a, b);
      if all[0].shown {
        FirstIsInflowHead(all, a, b);
        SameIndex(all, 0, m);
        SeenHead(all);
      } else {
        assert x == a[0] && x in a;
        forall i: nat | i < m ensures all[i].source == Inflow {
          BeforeFirstLog(all, a, b, m, i);
        }
        assert x.source == Log;
        SeenSkips(all, m);
      }
    }
  }

  lemma BeforeFirstLog(all: seq<Row>, a: seq<Row>, b: seq<Row>, m: nat, i: nat)
    requires Heads(all, a, b) && i < m < |all| && a != [] && all[m] == a[0]
    ensures all[i].source == Inflow
  {
    AllFromHeads(all, a, b, i);
    assert Above(all[i], all[m]);
  }

  lemma SeenHead(all: seq<Row>)
    requires all != [] && (all[0].source == Log || all[0].shown)
    ensures Seen(all, false) == [all[0]] + Seen(all[1..], false)
  {
  }

  lemma SeenSkips(all: seq<Row>, m: nat)
    requires m < |all| && all[m].source == Log && !all[0].shown
    requires forall i :: 0 <= i < m ==> all[i].source == Inflow
    requires m > 0
    ensures Seen(all, false) == [all[m]] + Seen(all[m + 1..], false)
  {
    assert all[1..][m..] == all[m + 1..];
    BlockedUntilLog(all[1..], m - 1);
  }

  lemma FirstIsLogHead(all: seq<Row>, a: seq<Row>, b: seq<Row>)
    requires Heads(all, a, b) && all != [] && a != [] && all[0] == a[0]
    ensures First(a, b) == [all[0]]
  {
    if b != [] { assert b[0] in b && b[0] in all; }
  }

  lemma FirstIsInflowHead(all: seq<Row>, a: seq<Row>, b: seq<Row>)
    requires Heads(all, a, b) && all != [] && b != [] && all[0] == b[0] && all[0].shown
    ensures First(a, b) == [all[0]]
  {
    if a != [] { assert a[0] in a && a[0] in all; }
  }

  predicate ShownInflow(r: Row) { r.source == Inflow && r.shown }

  predicate LogWithin(rows: seq<Row>, i: nat, j: nat)
    requires j <= |rows|
  {
    exists m :: i <= m < j && rows[m].source == Log
  }

  /** No trusted inflow follows an untrusted one without a log between them. */
  predicate NoneHidden(rows: seq<Row>) {
    forall i: nat, j: nat :: i < j < |rows| && !rows[i].shown && ShownInflow(rows[j]) ==> LogWithin(rows, i, j)
  }

  /** No trusted inflow comes before the first log. */
  predicate NoneBeforeLog(rows: seq<Row>) {
    forall j: nat :: j < |rows| && ShownInflow(rows[j]) ==> LogWithin(rows, 0, j)
  }

  lemma LogWithinTail(rows: seq<Row>, i: nat, j: nat)
    requires rows != [] && j < |rows|
    ensures LogWithin(rows, i + 1, j + 1) <==> LogWithin(rows[1..], i, j)
  {
    if LogWithin(rows[1..], i, j) {
      var m :| i <= m < j && rows[1..][m].source == Log;
      assert rows[m + 1].source == Log;
    }
    if LogWithin(rows, i + 1, j + 1) {
      var m :| i + 1 <= m < j + 1 && rows[m].source == Log;
      assert rows[1..][m - 1].source == Log;
    }
  }

  lemma LogWithinFrom(rows: seq<Row>, j: nat)
    requires rows != [] && rows[0].source == Inflow && j < |rows|
    ensures LogWithin(rows, 0, j) <==> LogWithin(rows, 1, j)
  {
  }

  lemma NoneBeforeLogTail(rows: seq<Row>)
    requires rows != []
    ensures rows[0].source == Log ==> NoneBeforeLog(rows)
    ensures rows[0].source == Inflow ==> (NoneBeforeLog(rows) <==> !rows[0].shown && NoneBeforeLog(rows[1..]))
  {
    hide LogWithin;
    forall j: nat | j < |rows| - 1 ensures LogWithin(rows, 1, j + 1) <==> LogWithin(rows[1..], 0, j) {
      LogWithinTail(rows, 0, j);
    }
    if rows[0].source == Log {
      forall j: nat | j < |rows| && ShownInflow(rows[j]) ensures LogWithin(rows, 0, j) { LogAtHead(rows, j); }
    } else {
      NoLogAtHead(rows);
      forall j: nat | j < |rows| ensures LogWithin(rows, 0, j) <==> LogWithin(rows, 1, j) { LogWithinFrom(rows, j); }
      if NoneBeforeLog(rows) {
        forall j: nat | j < |rows[1..]| && ShownInflow(rows[1..][j]) ensures LogWithin(rows[1..], 0, j) {
          assert ShownInflow(rows[j + 1]);
        }
      }
      if NoneBeforeLog(rows[1..]) && !rows[0].shown {
        forall j: nat | j < |rows| && ShownInflow(rows[j]) ensures LogWithin(rows, 0, j) {
          assert ShownInflow(rows[1..][j - 1]);
        }
      }
    }
  }

  lemma LogAtHead(rows: seq<Row>, j: nat)
    requires 0 < j < |rows| && rows[0].source == Log
    ensures LogWithin(rows, 0, j)
  {
  }

  lemma NoLogAtHead(rows: seq<Row>)
    requires rows != []
    ensures !LogWithin(rows, 0, 0)
  {
  }

  lemma NoneHiddenTail(rows: seq<Row>)
    requires rows != [] && Listed(rows[0])
    ensures NoneHidden(rows) <==> NoneHidden(rows[1..]) && (!rows[0].shown ==> NoneBeforeLog(rows[1..]))
  {
    hide LogWithin;
    forall i: nat, j: nat | j < |rows| - 1 ensures LogWithin(rows, i + 1, j + 1) <==> LogWithin(rows[1..], i, j) {
      LogWithinTail(rows, i, j);
    }
    if !rows[0].shown {
      forall j: nat | j < |rows| ensures LogWithin(rows, 0, j) <==> LogWithin(rows, 1, j) { LogWithinFrom(rows, j); }
    }
    if NoneHidden(rows) {
      forall i: nat, j: nat | i < j < |rows[1..]| && !rows[1..][i].shown && ShownInflow(rows[1..][j])
        ensures LogWithin(rows[1..], i, j)
      {
        assert ShownInflow(rows[j + 1]) && !rows[i + 1].shown;
      }
      forall j: nat | !rows[0].shown && j < |rows[1..]| && ShownInflow(rows[1..][j])
        ensures LogWithin(rows[1..], 0, j)
      {
        assert ShownInflow(rows[j + 1]);
      }
    }
    if NoneHidden(rows[1..]) && (!rows[0].shown ==> NoneBeforeLog(rows[1..])) {
      forall i: nat, j: nat | i < j < |rows| && !rows[i].shown && ShownInflow(rows[j]) ensures LogWithin(rows, i, j) {
        assert ShownInflow(rows[1..][j - 1]);
        if i > 0 { assert !rows[1..][i - 1].shown; }
      }
    }
  }

  lemma {:induction false} SeenShowsAllExactlyWhen(rows: seq<Row>, blocked: bool)
    requires forall r :: r in rows ==> Listed(r)
    ensures |Seen(rows, blocked)| <= |OnlyShown(rows)|
    ensures Seen(rows, blocked) == OnlyShown(rows) <==> NoneHidden(rows) && (blocked ==> NoneBeforeLog(rows))
    decreases |rows|
  {
    NoneOfEmpty([]);
    if rows != [] {
      var tail := rows[1..];
      assert rows[0] in rows && forall r :: r in tail ==> r in rows;
      NoneHiddenTail(rows);
      NoneBeforeLogTail(rows);
      hide NoneHidden, NoneBeforeLog;
      assert OnlyShown(rows) == (if rows[0].shown then [rows[0]] else []) + OnlyShown(tail);
      if rows[0].source == Log || (rows[0].shown && !blocked) {
        SeenShowsAllExactlyWhen(tail, false);
        PrependCancels(rows[0], Seen(tail, false), OnlyShown(tail));
      } else {
        SeenShowsAllExactlyWhen(tail, true);
        assert [] + OnlyShown(tail) == OnlyShown(tail);
      }
    }
  }

  lemma NoneOfEmpty(rows: seq<Row>)
    requires rows == []
    ensures NoneHidden(rows) && NoneBeforeLog(rows)
  {
  }

  /**
   * With untrusted inflows about, page size 1 still shows every typed log and every trusted inflow exactly when, in the
   * feed, no trusted inflow follows an untrusted one without a log between them.
   */
  lemma OneByOneShowsAllExactlyWhen(db: seq<Row>)
    requires Keyed(db) && TiesAgree(db)
    ensures Follow(db, None, 1) == OnlyShown(Feed(db)) <==> NoneHidden(Feed(db))
  {
    hide Keyed, TiesAgree, Remaining, NoneHidden, Follow;
    OneByOneIsSeen(db, None);
    forall r | r in Feed(db) ensures Listed(r) { RemainingHolds(db, None, r); }
    SeenShowsAllExactlyWhen(Feed(db), false);
  }

  /** The least feed that hides something: an untrusted inflow, and a trusted one behind it. */
  function SmallFeed(): seq<Row> { [Row(2, Inflow, 2, false), Row(1, Inflow, 1, true)] }

  lemma UntrustedRowHidesTheNext()
    ensures Feed(SmallFeed()) == SmallFeed() && OnlyShown(SmallFeed()) == [SmallFeed()[1]]
    ensures Follow(SmallFeed(), None, 1) == []
  {
    SmallFeedIsFeed();
    SmallFeedUnseen();
    hide Follow, Remaining, Keyed, TiesAgree, Seen, SmallFeed;
    OneByOneIsSeen(SmallFeed(), None);
  }

  lemma SmallFeedIsFeed()
    ensures Keyed(SmallFeed()) && TiesAgree(SmallFeed()) && Feed(SmallFeed()) == SmallFeed()
  {
    hide Remaining;
    RemainingDescends(SmallFeed(), None);
    forall r ensures r in Feed(SmallFeed()) <==> r in SmallFeed() { RemainingHolds(SmallFeed(), None, r); }
    SameElementsSameList(Feed(SmallFeed()), SmallFeed());
  }

  lemma SmallFeedUnseen()
    ensures Seen(SmallFeed(), false) == [] && OnlyShown(SmallFeed()) == [SmallFeed()[1]]
  {
    var tail := SmallFeed()[1..];
    assert tail == [SmallFeed()[1]] && tail[1..] == [];
    BlockedUntilLog(tail, 1);
  }
}
