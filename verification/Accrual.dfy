/**
 * src/modules/loans/accrual.service.ts: how much a loan owes at an instant.
 * Money is exact (real); time is in milliseconds (int).
 */
module Accrual {
  import opened Options
  import opened Sums

  const MS_PER_DAY: int := 86_400_000
  const BPS_DENOMINATOR: real := 10000.0

  /** One credited repayment: the waterfall's split of `amount`, stamped with its transaction time. */
  datatype Repayment = Repayment(
    inflowId: nat,
    amount: real,
    toCustody: real,
    toInterest: real,
    toPrincipal: real,
    overpay: real,
    createdAt: int)

  /** The loan columns accrual reads. `start` is collateral_received_at. */
  datatype Terms = Terms(principal: real, bps: nat, custodyFee: real, start: Option<int>)

  datatype Outstanding = Outstanding(
    principal: real,
    interest: real,
    custody: real,
    total: real,
    days: nat,
    asOf: int)

  /** Elapsed time rounded up to whole 24h buckets; never negative. */
  function CeilDays(from: int, to: int): (days: nat)
    ensures days == 0 <==> to <= from
  {
    if to <= from then 0 else (to - from + MS_PER_DAY - 1) / MS_PER_DAY
  }

  /** The bucket `days` is the one that `to` falls in, its right end included. */
  lemma CeilDaysBucket(from: int, to: int)
    requires to > from
    ensures var days := CeilDays(from, to);
            from + (days - 1) * 86_400_000 < to <= from + days * 86_400_000
  {
  }

  lemma CeilDaysMonotone(from: int, a: int, b: int)
    requires a <= b
    ensures CeilDays(from, a) <= CeilDays(from, b)
  {
  }

  // ── Specification: a plain sum over days ───────────────────────────────────

  function Rate(terms: Terms): real { terms.bps as real / BPS_DENOMINATOR }

  function ToPrincipal(): Repayment -> real { (r: Repayment) => r.toPrincipal }

  /** Principal a repayment has taken off the loan by day `d`. */
  function PrincipalByDay(start: int, d: int): Repayment -> real {
    (r: Repayment) => if CeilDays(start, r.createdAt) <= d then r.toPrincipal else 0.0
  }

  function ToInterest(): Repayment -> real { (r: Repayment) => r.toInterest }

  function PrincipalLanded(asOf: int): Repayment -> real {
    (r: Repayment) => if r.createdAt <= asOf then r.toPrincipal else 0.0
  }

  function InterestLanded(asOf: int): Repayment -> real {
    (r: Repayment) => if r.createdAt <= asOf then r.toInterest else 0.0
  }

  /** Principal that day `d` charges interest on. */
  function ChargedPrincipal(terms: Terms, start: int, reps: seq<Repayment>, d: int): real {
    terms.principal - Sum(PrincipalByDay(start, d), reps)
  }

  function DayInterest(rate: real, principal: real): real { rate * principal }

  /** Interest of the first `n` days: rate times the principal charged, day by day. */
  function DaySum(terms: Terms, start: int, reps: seq<Repayment>, n: nat): real {
    if n == 0 then 0.0
    else DaySum(terms, start, reps, n - 1) + DayInterest(Rate(terms), ChargedPrincipal(terms, start, reps, n - 1))
  }

  function GrossInterest(terms: Terms, reps: seq<Repayment>, asOf: int): real {
    if terms.start.None? then 0.0
    else DaySum(terms, terms.start.value, reps, CeilDays(terms.start.value, asOf))
  }

  /** What the loan owes at `asOf`, from the unordered collection of its repayments. */
  function Owed(terms: Terms, reps: seq<Repayment>, asOf: int): Outstanding {
    if terms.start.None? then
      Outstanding(terms.principal, 0.0, 0.0, terms.principal, 0, asOf)
    else
      var principal := Max(terms.principal - Sum(PrincipalLanded(asOf), reps), 0.0);
      var interest := Max(GrossInterest(terms, reps, asOf) - Sum(InterestLanded(asOf), reps), 0.0);
      Outstanding(principal, interest, 0.0, principal + interest, CeilDays(terms.start.value, asOf), asOf)
  }

  /** The balance adds up, nothing is owed for custody, and a loan without collateral owes its principal alone. */
  lemma OwedAddsUp(terms: Terms, reps: seq<Repayment>, asOf: int)
    ensures var o := Owed(terms, reps, asOf);
            && o.asOf == asOf && o.custody == 0.0 && o.total == o.principal + o.interest
            && (terms.start.None? ==> o.days == 0 && o.principal == terms.principal && o.interest == 0.0)
            && (terms.start.Some? ==>
                  o.days == CeilDays(terms.start.value, asOf) && o.principal >= 0.0 && o.interest >= 0.0)
  {
    hide DaySum, Sum, CeilDays;
  }

  // ── Facts about the day sum ────────────────────────────────────────────────

  lemma {:induction false} DaySumOfPermutation(terms: Terms, start: int, a: seq<Repayment>, b: seq<Repayment>, n: nat)
    requires multiset(a) == multiset(b)
    ensures DaySum(terms, start, a, n) == DaySum(terms, start, b, n)
  {
    if n > 0 {
      DaySumOfPermutation(terms, start, a, b, n - 1);
      SumOfPermutation(PrincipalByDay(start, n - 1), a, b);
    }
  }

  /** The result is the same for every ordering of the repayments list. */
  lemma OwedIgnoresOrder(terms: Terms, a: seq<Repayment>, b: seq<Repayment>, asOf: int)
    requires multiset(a) == multiset(b)
    ensures Owed(terms, a, asOf) == Owed(terms, b, asOf)
  {
    if terms.start.Some? {
      SumOfPermutation(PrincipalLanded(asOf), a, b);
      SumOfPermutation(InterestLanded(asOf), a, b);
      DaySumOfPermutation(terms, terms.start.value, a, b, CeilDays(terms.start.value, asOf));
    }
  }

  function SegmentInterest(principal: real, rate: real, days: int): real { principal * rate * days as real }

  lemma OneMoreDay(principal: real, rate: real, days: nat)
    ensures SegmentInterest(principal, rate, days + 1)
         == (if days > 0 then SegmentInterest(principal, rate, days) else 0.0) + DayInterest(rate, principal)
  {
  }

  /** While the charged principal is constant, a stretch of days charges principal * rate * days. */
  lemma {:induction false} DaySumSegment(terms: Terms, start: int, reps: seq<Repayment>, lo: nat, hi: nat,
                                         charged: real)
    requires lo <= hi
    requires forall d :: lo <= d < hi ==> ChargedPrincipal(terms, start, reps, d) == charged
    ensures DaySum(terms, start, reps, hi)
         == DaySum(terms, start, reps, lo) + (if hi > lo then SegmentInterest(charged, Rate(terms), hi - lo) else 0.0)
    decreases hi
  {
    hide SegmentInterest, DayInterest;
    if lo < hi {
      DaySumSegment(terms, start, reps, lo, hi - 1, charged);
      OneMoreDay(charged, Rate(terms), hi - 1 - lo);
    }
  }

  /** Lists that charge the same principal on every day below `n` have the same day sum. */
  lemma {:induction false} DaySumCongruent(terms: Terms, start: int, a: seq<Repayment>, b: seq<Repayment>, n: nat)
    requires forall d :: 0 <= d < n ==> ChargedPrincipal(terms, start, a, d) == ChargedPrincipal(terms, start, b, d)
    ensures DaySum(terms, start, a, n) == DaySum(terms, start, b, n)
  {
    if n > 0 {
      DaySumCongruent(terms, start, a, b, n - 1);
    }
  }

  // ── The service: filter, sort, walk segments ───────────────────────────────

  function Relevant(reps: seq<Repayment>, asOf: int): (landed: seq<Repayment>)
    ensures forall r :: r in landed ==> r in reps && r.createdAt <= asOf
  {
    if reps == [] then []
    else (if reps[0].createdAt <= asOf then [reps[0]] else []) + Relevant(reps[1..], asOf)
  }

  predicate Chronological(reps: seq<Repayment>) {
    forall i, j :: 0 <= i < j < |reps| ==> reps[i].createdAt <= reps[j].createdAt
  }

  /** Stable insertion: behind every row that is not later. */
  function Insert(r: Repayment, sorted: seq<Repayment>): (out: seq<Repayment>)
    ensures multiset(out) == multiset(sorted) + multiset{r}
    ensures forall x :: x in out ==> x == r || x in sorted
  {
    if sorted == [] || sorted[0].createdAt > r.createdAt then
      [r] + sorted
    else
      assert sorted == [sorted[0]] + sorted[1..];
      [sorted[0]] + Insert(r, sorted[1..])
  }

  lemma ConsChronological(r: Repayment, tail: seq<Repayment>)
    requires Chronological(tail)
    requires forall x :: x in tail ==> r.createdAt <= x.createdAt
    ensures Chronological([r] + tail)
  {
  }

  lemma {:induction false} InsertSorts(r: Repayment, sorted: seq<Repayment>)
    requires Chronological(sorted)
    ensures Chronological(Insert(r, sorted))
  {
    if sorted == [] || sorted[0].createdAt > r.createdAt {
      ConsChronological(r, sorted);
    } else {
      InsertSorts(r, sorted[1..]);
      ConsChronological(sorted[0], Insert(r, sorted[1..]));
    }
  }

  function SortByTime(reps: seq<Repayment>): (out: seq<Repayment>)
    ensures multiset(out) == multiset(reps)
  {
    if reps == [] then []
    else
      assert reps == reps[..|reps| - 1] + [reps[|reps| - 1]];
      Insert(reps[|reps| - 1], SortByTime(reps[..|reps| - 1]))
  }

  lemma {:induction false} SortSorts(reps: seq<Repayment>)
    ensures Chronological(SortByTime(reps))
  {
    if reps != [] {
      SortSorts(reps[..|reps| - 1]);
      InsertSorts(reps[|reps| - 1], SortByTime(reps[..|reps| - 1]));
    }
  }

  /** A column that is zero on the rows the filter drops sums the same before and after it. */
  lemma {:induction false} RelevantSum(column: Repayment -> real, reps: seq<Repayment>, asOf: int)
    requires forall r :: r in reps && r.createdAt > asOf ==> column(r) == 0.0
    ensures Sum(column, Relevant(reps, asOf)) == Sum(column, reps)
  {
    if reps != [] {
      RelevantSum(column, reps[1..], asOf);
      SumConcat(column, if reps[0].createdAt <= asOf then [reps[0]] else [], Relevant(reps[1..], asOf));
    }
  }

  lemma SortedRelevantSum(column: Repayment -> real, reps: seq<Repayment>, asOf: int)
    requires forall r :: r in reps && r.createdAt > asOf ==> column(r) == 0.0
    ensures Sum(column, SortByTime(Relevant(reps, asOf))) == Sum(column, reps)
  {
    RelevantSum(column, reps, asOf);
    SumOfPermutation(column, SortByTime(Relevant(reps, asOf)), Relevant(reps, asOf));
  }

  /** On a chronological list, the repayments taken off by day `d` are exactly a prefix. */
  lemma PrefixTakenOff(start: int, sorted: seq<Repayment>, k: nat, d: int)
    requires k <= |sorted|
    requires forall i :: 0 <= i < k ==> CeilDays(start, sorted[i].createdAt) <= d
    requires forall i :: k <= i < |sorted| ==> CeilDays(start, sorted[i].createdAt) > d
    ensures Sum(PrincipalByDay(start, d), sorted) == Sum(ToPrincipal(), sorted[..k])
  {
    var taken, later := sorted[..k], sorted[k..];
    assert sorted == taken + later;
    SumConcat(PrincipalByDay(start, d), taken, later);
    SumCongruent(PrincipalByDay(start, d), ToPrincipal(), taken);
    SumOfZeros(PrincipalByDay(start, d), later);
  }

  /** AccrualService.compute: the segment walk gives the day-by-day specification. */
  method Compute(terms: Terms, repayments: seq<Repayment>, asOf: int) returns (o: Outstanding)
    ensures o == Owed(terms, repayments, asOf)
  {
    if terms.start.None? {
      return Outstanding(terms.principal, 0.0, 0.0, terms.principal, 0, asOf);
    }
    hide DaySum, Sum, SortByTime, Relevant, CeilDays;
    var finalDay := CeilDays(terms.start.value, asOf);
    var relevant := SortByTime(Relevant(repayments, asOf));
    PaidSums(repayments, asOf);

    var grossInterest := WalkSegments(terms, terms.start.value, relevant, asOf);

    var paidPrincipal := Sum(ToPrincipal(), relevant);
    var paidInterest := Sum(ToInterest(), relevant);
    RelevantDaySum(terms, terms.start.value, repayments, asOf);

    var outstandingPrincipal := Max(terms.principal - paidPrincipal, 0.0);
    var outstandingInterest := Max(grossInterest - paidInterest, 0.0);
    var outstandingCustody := 0.0;
    o := Outstanding(
      outstandingPrincipal,
      outstandingInterest,
      outstandingCustody,
      outstandingPrincipal + outstandingInterest + outstandingCustody,
      finalDay,
      asOf);
  }

  /** The walk has charged the days before `day`, and the first `k` repayments have dropped the principal. */
  ghost predicate Walked(terms: Terms, start: int, relevant: seq<Repayment>, k: nat, day: nat, principal: real,
                         gross: real)
  {
    && k <= |relevant|
    && (if k == 0 then day == 0 else day == CeilDays(start, relevant[k - 1].createdAt))
    && principal == terms.principal - Sum(ToPrincipal(), relevant[..k])
    && gross == DaySum(terms, start, relevant, day)
  }

  /** Days `day` to `until`, up to the next repayment at most, are charged on the running principal. */
  lemma WalkDays(terms: Terms, start: int, relevant: seq<Repayment>, k: nat, day: nat, principal: real, gross: real,
                 until: nat)
    requires Chronological(relevant) && Walked(terms, start, relevant, k, day, principal, gross) && day <= until
    requires k < |relevant| ==> until <= CeilDays(start, relevant[k].createdAt)
    ensures DaySum(terms, start, relevant, until)
         == gross + (if until > day then SegmentInterest(principal, Rate(terms), until - day) else 0.0)
  {
    hide DaySum, Sum, SegmentInterest, CeilDays, Chronological;
    SegmentCharge(terms, start, relevant, k, day, until, principal);
  }

  lemma WalkNext(terms: Terms, start: int, relevant: seq<Repayment>, k: nat, day: nat, principal: real, gross: real)
    requires Chronological(relevant) && Walked(terms, start, relevant, k, day, principal, gross) && k < |relevant|
    ensures var next := CeilDays(start, relevant[k].createdAt);
            && day <= next
            && Walked(terms, start, relevant, k + 1, next, principal - relevant[k].toPrincipal,
                      gross + (if next > day then SegmentInterest(principal, Rate(terms), next - day) else 0.0))
  {
    hide DaySum, Sum, SegmentInterest;
    DaysAscend(start, relevant);
    WalkDays(terms, start, relevant, k, day, principal, gross, CeilDays(start, relevant[k].createdAt));
    SumTake(ToPrincipal(), relevant, k);
  }

  /** The loop of compute: each repayment drops the principal from its day forward. */
  method WalkSegments(terms: Terms, start: int, relevant: seq<Repayment>, asOf: int) returns (grossInterest: real)
    requires forall r :: r in relevant ==> r.createdAt <= asOf
    requires Chronological(relevant)
    ensures grossInterest == DaySum(terms, start, relevant, CeilDays(start, asOf))
  {
    var finalDay := CeilDays(start, asOf);
    var currentPrincipal := terms.principal;
    var curDay: nat := 0;
    grossInterest := 0.0;
    var rateFactor := Rate(terms);
    assert relevant[..0] == [];
    assert Walked(terms, start, relevant, 0, curDay, currentPrincipal, grossInterest);

    hide Walked, SegmentInterest, DaySum, CeilDays, Chronological;
    var k := 0;
    while k < |relevant|
      invariant 0 <= k <= |relevant| && curDay <= finalDay
      invariant Walked(terms, start, relevant, k, curDay, currentPrincipal, grossInterest)
    {
      var rep := relevant[k];
      var repDayRaw := CeilDays(start, rep.createdAt);
      var repDay := if repDayRaw < finalDay then repDayRaw else finalDay;

      CeilDaysMonotone(start, rep.createdAt, asOf);
      WalkNext(terms, start, relevant, k, curDay, currentPrincipal, grossInterest);
      var segmentDays := repDay - curDay;
      if segmentDays > 0 {
        grossInterest := grossInterest + SegmentInterest(currentPrincipal, rateFactor, segmentDays);
      }

      curDay := repDay;
      currentPrincipal := currentPrincipal - rep.toPrincipal;
      k := k + 1;

      if curDay >= finalDay { break; }
    }

    WalkEnds(terms, start, relevant, k, curDay, currentPrincipal, grossInterest, finalDay);
    if curDay < finalDay {
      var tailDays := finalDay - curDay;
      grossInterest := grossInterest + SegmentInterest(currentPrincipal, rateFactor, tailDays);
    }
  }

  /** Once the repayments or the days are used up, only the tail is left to charge. */
  lemma WalkEnds(terms: Terms, start: int, relevant: seq<Repayment>, k: nat, day: nat, principal: real, gross: real,
                 finalDay: nat)
    requires Chronological(relevant) && Walked(terms, start, relevant, k, day, principal, gross)
    requires day <= finalDay && (k == |relevant| || day == finalDay)
    ensures DaySum(terms, start, relevant, finalDay)
         == gross + (if finalDay > day then SegmentInterest(principal, Rate(terms), finalDay - day) else 0.0)
  {
    hide DaySum, SegmentInterest;
    if k == |relevant| {
      WalkDays(terms, start, relevant, k, day, principal, gross, finalDay);
    }
  }

  lemma PaidSums(reps: seq<Repayment>, asOf: int)
    ensures var relevant := SortByTime(Relevant(reps, asOf));
            && Chronological(relevant)
            && (forall r :: r in relevant ==> r.createdAt <= asOf)
            && Sum(ToPrincipal(), relevant) == Sum(PrincipalLanded(asOf), reps)
            && Sum(ToInterest(), relevant) == Sum(InterestLanded(asOf), reps)
  {
    var relevant := SortByTime(Relevant(reps, asOf));
    SortSorts(Relevant(reps, asOf));
    forall r | r in relevant ensures r.createdAt <= asOf {
      assert r in multiset(relevant);
    }
    SumCongruent(ToPrincipal(), PrincipalLanded(asOf), relevant);
    SumCongruent(ToInterest(), InterestLanded(asOf), relevant);
    SortedRelevantSum(PrincipalLanded(asOf), reps, asOf);
    SortedRelevantSum(InterestLanded(asOf), reps, asOf);
  }

  lemma DaysAscend(start: int, sorted: seq<Repayment>)
    requires Chronological(sorted)
    ensures forall i, j :: 0 <= i <= j < |sorted| ==>
              CeilDays(start, sorted[i].createdAt) <= CeilDays(start, sorted[j].createdAt)
  {
    forall i, j | 0 <= i <= j < |sorted|
      ensures CeilDays(start, sorted[i].createdAt) <= CeilDays(start, sorted[j].createdAt)
    {
      CeilDaysMonotone(start, sorted[i].createdAt, sorted[j].createdAt);
    }
  }

  /** Between the days of consecutive repayments, interest runs at the running principal. */
  lemma SegmentCharge(terms: Terms, start: int, sorted: seq<Repayment>, k: nat, lo: nat, hi: nat, running: real)
    requires k <= |sorted| && lo <= hi
    requires Chronological(sorted)
    requires k > 0 ==> CeilDays(start, sorted[k - 1].createdAt) <= lo
    requires k < |sorted| ==> hi <= CeilDays(start, sorted[k].createdAt)
    requires running == terms.principal - Sum(ToPrincipal(), sorted[..k])
    ensures DaySum(terms, start, sorted, hi)
         == DaySum(terms, start, sorted, lo) + (if hi > lo then SegmentInterest(running, Rate(terms), hi - lo) else 0.0)
  {
    hide SegmentInterest, DayInterest;
    DaysAscend(start, sorted);
    forall d | lo <= d < hi
      ensures ChargedPrincipal(terms, start, sorted, d) == running
    {
      PrefixTakenOff(start, sorted, k, d);
    }
    DaySumSegment(terms, start, sorted, lo, hi, running);
  }

  /** Filtering and sorting leaves the day sum up to `asOf` unchanged. */
  lemma RelevantDaySum(terms: Terms, start: int, reps: seq<Repayment>, asOf: int)
    ensures DaySum(terms, start, SortByTime(Relevant(reps, asOf)), CeilDays(start, asOf))
         == DaySum(terms, start, reps, CeilDays(start, asOf))
  {
    var n := CeilDays(start, asOf);
    forall d | 0 <= d < n
      ensures ChargedPrincipal(terms, start, SortByTime(Relevant(reps, asOf)), d)
           == ChargedPrincipal(terms, start, reps, d)
    {
      forall r | r in reps && r.createdAt > asOf
        ensures PrincipalByDay(start, d)(r) == 0.0
      {
        CeilDaysMonotone(start, asOf, r.createdAt);
      }
      SortedRelevantSum(PrincipalByDay(start, d), reps, asOf);
    }
    DaySumCongruent(terms, start, SortByTime(Relevant(reps, asOf)), reps, n);
  }
}
