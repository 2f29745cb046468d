/** workers/liquidation-monitor.worker.ts: the sweep over ACTIVE loans and its throttled customer notices. */
module Monitor {
  import opened Options
  import opened Accrual
  import opened Loans
  import opened Coverage

  const COVERAGE_WARN_TIER: real := 1.20
  const COVERAGE_MARGIN_CALL_TIER: real := 1.15
  const COVERAGE_NOTIFY_COOLDOWN: int := 28_800_000
  const ALERT_COOLDOWN: int := 86_400_000
  const WINDOW: int := 86_400_000

  datatype Tier = Warn | MarginCall

  datatype Notice = Notice(loan: nat, tier: Tier, at: int)

  /** The two cooldown keys of every loan (the instant each was last set) and every notice issued so far. */
  datatype Nudges = Nudges(warnSet: map<nat, int>, marginSet: map<nat, int>, notices: seq<Notice>)

  predicate Live(keys: map<nat, int>, loan: nat, now: int, ttl: int) {
    loan in keys && now < keys[loan] + ttl
  }

  // ── Specification of one evaluation ────────────────────────────────────────

  function WarnOnce(n: Nudges, loan: nat, now: int): Nudges {
    if Live(n.warnSet, loan, now, COVERAGE_NOTIFY_COOLDOWN) then n
    else n.(warnSet := n.warnSet[loan := now], notices := n.notices + [Notice(loan, Warn, now)])
  }

  function MarginCallOnce(n: Nudges, loan: nat, now: int): Nudges {
    if Live(n.marginSet, loan, now, COVERAGE_NOTIFY_COOLDOWN) then n
    else n.(marginSet := n.marginSet[loan := now], notices := n.notices + [Notice(loan, MarginCall, now)])
  }

  function Evaluated(n: Nudges, loan: nat, ratio: real, now: int): Nudges {
    if ratio >= COVERAGE_WARN_TIER then n
    else if ratio >= COVERAGE_MARGIN_CALL_TIER then WarnOnce(n, loan, now)
    else MarginCallOnce(WarnOnce(n, loan, now), loan, now)
  }

  // ── Every run of evaluations ───────────────────────────────────────────────

  datatype Visit = Visit(loan: nat, ratio: real, at: int)

  function RunVisits(n: Nudges, visits: seq<Visit>): Nudges
    decreases |visits|
  {
    if visits == [] then n
    else RunVisits(Evaluated(n, visits[0].loan, visits[0].ratio, visits[0].at), visits[1..])
  }

  predicate InOrder(visits: seq<Visit>, t: int)
    decreases |visits|
  {
    visits == [] || (t <= visits[0].at && InOrder(visits[1..], visits[0].at))
  }

  function EndOfVisits(visits: seq<Visit>, t: int): int {
    if visits == [] then t else visits[|visits| - 1].at
  }

  function KeysOf(n: Nudges, tier: Tier): map<nat, int> {
    if tier == Warn then n.warnSet else n.marginSet
  }

  /** Notices of one loan and tier are at least a cooldown apart. */
  predicate Spaced(notices: seq<Notice>) {
    forall i, j :: 0 <= i < j < |notices| && notices[i].loan == notices[j].loan && notices[i].tier == notices[j].tier ==>
                     notices[i].at + COVERAGE_NOTIFY_COOLDOWN <= notices[j].at
  }

  /** A notice is the trace of a key set at that instant or before. */
  predicate Keyed(n: Nudges, notice: Notice) {
    notice.loan in KeysOf(n, notice.tier) && notice.at <= KeysOf(n, notice.tier)[notice.loan]
  }

  predicate WarnedBefore(notices: seq<Notice>, loan: nat, at: int) {
    exists i :: 0 <= i < |notices| && notices[i].loan == loan && notices[i].tier == Warn
                && at - COVERAGE_NOTIFY_COOLDOWN <= notices[i].at <= at
  }

  predicate Inv(n: Nudges, t: int) {
    && Spaced(n.notices)
    && (forall i :: 0 <= i < |n.notices| ==> Keyed(n, n.notices[i]))
    && (forall loan :: loan in n.warnSet ==> n.warnSet[loan] <= t && Notice(loan, Warn, n.warnSet[loan]) in n.notices)
    && (forall loan :: loan in n.marginSet ==> n.marginSet[loan] <= t)
    && (forall i :: 0 <= i < |n.notices| && n.notices[i].tier == MarginCall ==>
          WarnedBefore(n.notices, n.notices[i].loan, n.notices[i].at))
  }

  lemma WarnedBeforeGrows(notices: seq<Notice>, more: seq<Notice>, loan: nat, at: int)
    requires WarnedBefore(notices, loan, at)
    ensures WarnedBefore(notices + more, loan, at)
  {
    var i :| 0 <= i < |notices| && notices[i].loan == loan && notices[i].tier == Warn
             && at - COVERAGE_NOTIFY_COOLDOWN <= notices[i].at <= at;
    assert (notices + more)[i] == notices[i];
  }

  lemma WarnedAt(notices: seq<Notice>, i: nat, loan: nat, at: int)
    requires i < |notices| && notices[i].loan == loan && notices[i].tier == Warn
    requires at - COVERAGE_NOTIFY_COOLDOWN <= notices[i].at <= at
    ensures WarnedBefore(notices, loan, at)
  {
  }

  lemma WarnKeepsInv(n: Nudges, loan: nat, t: int, now: int)
    requires Inv(n, t) && t <= now
    ensures Inv(WarnOnce(n, loan, now), now)
    ensures WarnedBefore(WarnOnce(n, loan, now).notices, loan, now)
  {
    hide WarnedBefore, Spaced;
    var m := WarnOnce(n, loan, now);
    if m == n {
      var key := Notice(loan, Warn, n.warnSet[loan]);
      var i :| 0 <= i < |n.notices| && n.notices[i] == key;
      WarnedAt(n.notices, i, loan, now);
    } else {
      forall i | 0 <= i < |n.notices| && n.notices[i].tier == MarginCall
        ensures WarnedBefore(m.notices, n.notices[i].loan, n.notices[i].at)
      {
        WarnedBeforeGrows(n.notices, [Notice(loan, Warn, now)], n.notices[i].loan, n.notices[i].at);
      }
      WarnedAt(m.notices, |n.notices|, loan, now);
      NoticeSpaced(n, Notice(loan, Warn, now));
    }
  }

  /** A notice issued while its key is not live is a cooldown away from all before it. */
  lemma NoticeSpaced(n: Nudges, notice: Notice)
    requires Spaced(n.notices) && forall i :: 0 <= i < |n.notices| ==> Keyed(n, n.notices[i])
    requires !Live(KeysOf(n, notice.tier), notice.loan, notice.at, COVERAGE_NOTIFY_COOLDOWN)
    ensures Spaced(n.notices + [notice])
  {
    forall i | 0 <= i < |n.notices| && n.notices[i].loan == notice.loan && n.notices[i].tier == notice.tier
      ensures n.notices[i].at + COVERAGE_NOTIFY_COOLDOWN <= notice.at
    {
      assert Keyed(n, n.notices[i]);
    }
  }

  lemma MarginCallKeepsInv(n: Nudges, loan: nat, now: int)
    requires Inv(n, now) && WarnedBefore(n.notices, loan, now)
    ensures Inv(MarginCallOnce(n, loan, now), now)
  {
    hide WarnedBefore, Spaced;
    var m := MarginCallOnce(n, loan, now);
    if m != n {
      var call := Notice(loan, MarginCall, now);
      NoticeSpaced(n, call);
      WarnedBeforeGrows(n.notices, [call], loan, now);
      forall i | 0 <= i < |n.notices| && n.notices[i].tier == MarginCall
        ensures WarnedBefore(m.notices, n.notices[i].loan, n.notices[i].at)
      {
        WarnedBeforeGrows(n.notices, [call], n.notices[i].loan, n.notices[i].at);
      }
    }
  }

  lemma EvaluatedKeepsInv(n: Nudges, loan: nat, ratio: real, t: int, now: int)
    requires Inv(n, t) && t <= now
    ensures Inv(Evaluated(n, loan, ratio, now), now)
  {
    hide WarnOnce, MarginCallOnce, WarnedBefore, Spaced, Keyed;
    WarnKeepsInv(n, loan, t, now);
    MarginCallKeepsInv(WarnOnce(n, loan, now), loan, now);
  }

  lemma {:induction false} VisitsKeepInv(n: Nudges, visits: seq<Visit>, t: int)
    requires Inv(n, t) && InOrder(visits, t)
    ensures Inv(RunVisits(n, visits), EndOfVisits(visits, t))
    decreases |visits|
  {
    hide Inv, Evaluated;
    if visits != [] {
      var v := visits[0];
      EvaluatedKeepsInv(n, v.loan, v.ratio, t, v.at);
      VisitsKeepInv(Evaluated(n, v.loan, v.ratio, v.at), visits[1..], v.at);
    }
  }

  /** The notices of one loan and tier in the window [w, w + 24h). */
  function InWindow(notices: seq<Notice>, loan: nat, tier: Tier, w: int): seq<Notice> {
    if notices == [] then []
    else
      var last := notices[|notices| - 1];
      InWindow(notices[..|notices| - 1], loan, tier, w)
      + if Hit(last, loan, tier, w) then [last] else []
  }

  predicate Hit(n: Notice, loan: nat, tier: Tier, w: int) {
    n.loan == loan && n.tier == tier && w <= n.at < w + WINDOW
  }

  lemma SpacedFromLast(notices: seq<Notice>, h: Notice)
    requires Spaced(notices) && notices != [] && h in notices[..|notices| - 1]
    requires h.loan == notices[|notices| - 1].loan && h.tier == notices[|notices| - 1].tier
    ensures h.at + COVERAGE_NOTIFY_COOLDOWN <= notices[|notices| - 1].at
  {
    var i :| 0 <= i < |notices| - 1 && notices[..|notices| - 1][i] == h;
    assert notices[i] == h;
  }

  lemma SpacedPrefix(notices: seq<Notice>, k: nat)
    requires Spaced(notices) && k <= |notices|
    ensures Spaced(notices[..k])
  {
  }

  lemma SpacedAppend(hits: seq<Notice>, last: Notice)
    requires Spaced(hits)
    requires forall h :: h in hits ==> h.at + COVERAGE_NOTIFY_COOLDOWN <= last.at
    ensures Spaced(hits + [last])
  {
    assert forall i :: 0 <= i < |hits| ==> hits[i] in hits;
  }

  lemma {:induction false} InWindowSpaced(notices: seq<Notice>, loan: nat, tier: Tier, w: int)
    requires Spaced(notices)
    ensures Spaced(InWindow(notices, loan, tier, w))
    ensures forall h :: h in InWindow(notices, loan, tier, w) ==> h in notices && Hit(h, loan, tier, w)
  {
    if notices != [] {
      var before, last := notices[..|notices| - 1], notices[|notices| - 1];
      var hits := InWindow(before, loan, tier, w);
      SpacedPrefix(notices, |notices| - 1);
      InWindowSpaced(before, loan, tier, w);
      assert forall h :: h in before ==> h in notices;
      assert InWindow(notices, loan, tier, w) == hits + if Hit(last, loan, tier, w) then [last] else [];
      hide InWindow, Spaced;
      if Hit(last, loan, tier, w) {
        forall h | h in hits ensures h.at + COVERAGE_NOTIFY_COOLDOWN <= last.at { SpacedFromLast(notices, h); }
        SpacedAppend(hits, last);
      } else {
        assert hits + [] == hits;
      }
    }
  }

  lemma {:induction false} SpacedSpan(hits: seq<Notice>, k: nat)
    requires Spaced(hits) && k < |hits|
    requires forall i :: 0 <= i < |hits| ==> hits[i].loan == hits[0].loan && hits[i].tier == hits[0].tier
    ensures hits[0].at + k * COVERAGE_NOTIFY_COOLDOWN <= hits[k].at
  {
    if k > 0 {
      SpacedSpan(hits, k - 1);
    }
  }

  lemma AtMostThreeFit(notices: seq<Notice>, loan: nat, tier: Tier, w: int)
    requires Spaced(notices)
    ensures |InWindow(notices, loan, tier, w)| <= 3
  {
    InWindowSpaced(notices, loan, tier, w);
    var hits := InWindow(notices, loan, tier, w);
    hide InWindow, Spaced;
    if |hits| > 3 {
      assert forall i :: 0 <= i < |hits| ==> hits[i] in hits;
      SpacedSpan(hits, 3);
    }
  }

  /**
   * Over any run of evaluations, of any loans at any coverage: at most three notices per loan and tier in any
   * half-open 24-hour window, and every margin call has a warning for that loan at most 8 hours earlier.
   */
  lemma NoticesAreThrottled(visits: seq<Visit>, t: int, loan: nat, tier: Tier, w: int)
    requires InOrder(visits, t)
    ensures var n := RunVisits(Nudges(map[], map[], []), visits);
            && |InWindow(n.notices, loan, tier, w)| <= 3
            && forall i :: 0 <= i < |n.notices| && n.notices[i].tier == MarginCall ==>
                 WarnedBefore(n.notices, n.notices[i].loan, n.notices[i].at)
  {
    VisitsKeepInv(Nudges(map[], map[], []), visits, t);
    AtMostThreeFit(RunVisits(Nudges(map[], map[], []), visits).notices, loan, tier, w);
  }

  // ── The worker ─────────────────────────────────────────────────────────────

  datatype Outcome = Outcome(verdict: Verdict, warnSent: bool, marginCallSent: bool, alerted: bool)

  datatype Tally = Tally(liquidated: nat, warned: nat, marginCalled: nat, alerted: nat, suspicious: nat)

  function Bit(b: bool): nat { if b then 1 else 0 }

  function Counted(t: Tally, o: Outcome): Tally {
    Tally(t.liquidated + Bit(o.verdict.Liquidate?), t.warned + Bit(o.warnSent), t.marginCalled + Bit(o.marginCallSent),
          t.alerted + Bit(o.alerted), t.suspicious + Bit(o.verdict.RateSuspect?))
  }

  /** A loan after a cycle at `rate`: liquidated, or untouched. */
  function Swept(l: Loan, rate: real, now: int): Loan
    requires l.OwedAt(now).total != 0.0
  {
    if Decide(l, rate, now) == Liquidate then LiquidatedAt(l, rate, now) else l
  }

  /** LIQUIDATED exactly at half the creation rate or more and a coverage of 1.10 or less. */
  predicate RightlySwept(l: Loan, rate: real, now: int, after: LoanStatus) {
    after == Liquidated
    <==> 2.0 * rate >= l.rateAtCreation && 10.0 * (l.collateralSat as real * rate) <= 11.0 * l.OwedAt(now).total
  }

  /** What the sweep makes of an ACTIVE loan that owes something: rightly LIQUIDATED at this rate, or unchanged. */
  lemma SweepLiquidatesExactlyWhen(l: Loan, rate: real, now: int)
    requires l.status == Active && l.OwedAt(now).total > 0.0
    ensures var w := Swept(l, rate, now);
            && RightlySwept(l, rate, now, w.status)
            && (w.status == Liquidated ==> w.liquidatedAt == Some(now) && w.liquidationRate == Some(rate))
            && (w.status != Liquidated ==> w == l)
  {
    DecidesExactlyWhen(l, rate, now);
    hide Decide, Owed;
  }

  predicate Divisible(rows: seq<Loan>, now: int) {
    forall i :: 0 <= i < |rows| ==> rows[i].OwedAt(now).total != 0.0
  }

  /** Ops are alerted about a watched loan near its threshold, unless they were within the last day. */
  predicate AlertDue(v: Verdict, alertSet: map<nat, int>, loan: nat, now: int) {
    v.Watch? && v.ratio <= ALERT_THRESHOLD && !Live(alertSet, loan, now, ALERT_COOLDOWN)
  }

  /** The alert keys after the first `k` rows, and how many alerts those rows raised. */
  function AlertsAfter(alertSet: map<nat, int>, ids: seq<nat>, rows: seq<Loan>, k: nat, rate: real, now: int)
    : (map<nat, int>, nat)
    requires k <= |rows| == |ids| && Divisible(rows, now)
  {
    if k == 0 then (alertSet, 0)
    else
      var (keys, count) := AlertsAfter(alertSet, ids, rows, k - 1, rate, now);
      if AlertDue(Decide(rows[k - 1], rate, now), keys, ids[k - 1], now) then (keys[ids[k - 1] := now], count + 1)
      else (keys, count)
  }

  /** How many of the first `k` rows get a verdict for which `p` holds. */
  function CountVerdicts(rows: seq<Loan>, k: nat, rate: real, now: int, p: Verdict -> bool): nat
    requires k <= |rows| && Divisible(rows, now)
  {
    if k == 0 then 0 else CountVerdicts(rows, k - 1, rate, now, p) + Bit(p(Decide(rows[k - 1], rate, now)))
  }

  function IsLiquidate(): Verdict -> bool { (v: Verdict) => v.Liquidate? }
  function IsSuspect(): Verdict -> bool { (v: Verdict) => v.RateSuspect? }

  /** The visits of a cycle to its first `k` rows: one for every loan it neither liquidates nor holds back. */
  function VisitsOf(ids: seq<nat>, rows: seq<Loan>, k: nat, rate: real, now: int): seq<Visit>
    requires k <= |rows| == |ids| && Divisible(rows, now)
  {
    if k == 0 then []
    else
      var v := Decide(rows[k - 1], rate, now);
      VisitsOf(ids, rows, k - 1, rate, now) + if v.Watch? then [Visit(ids[k - 1], v.ratio, now)] else []
  }

  lemma {:induction false} RunVisitsAppend(n: Nudges, visits: seq<Visit>, v: Visit)
    ensures RunVisits(n, visits + [v]) == Evaluated(RunVisits(n, visits), v.loan, v.ratio, v.at)
    decreases |visits|
  {
    if visits == [] {
      assert [v][1..] == [];
      assert [] + [v] == [v];
    } else {
      assert (visits + [v])[1..] == visits[1..] + [v];
      RunVisitsAppend(Evaluated(n, visits[0].loan, visits[0].ratio, visits[0].at), visits[1..], v);
    }
  }

  /** The visits of consecutive cycles are one run of visits. */
  lemma {:induction false} CyclesCompose(n: Nudges, first: seq<Visit>, second: seq<Visit>)
    ensures RunVisits(RunVisits(n, first), second) == RunVisits(n, first + second)
    decreases |first|
  {
    if first == [] {
      assert first + second == second;
    } else {
      assert (first + second)[1..] == first[1..] + second;
      CyclesCompose(Evaluated(n, first[0].loan, first[0].ratio, first[0].at), first[1..], second);
    }
  }

  /** Visiting one more row. */
  lemma VisitNext(n: Nudges, ids: seq<nat>, rows: seq<Loan>, k: nat, rate: real, now: int)
    requires k < |rows| == |ids| && Divisible(rows, now)
    ensures var v := Decide(rows[k], rate, now);
            var before := RunVisits(n, VisitsOf(ids, rows, k, rate, now));
            RunVisits(n, VisitsOf(ids, rows, k + 1, rate, now))
            == (if v.Watch? then Evaluated(before, ids[k], v.ratio, now) else before)
  {
    var v := Decide(rows[k], rate, now);
    if v.Watch? {
      RunVisitsAppend(n, VisitsOf(ids, rows, k, rate, now), Visit(ids[k], v.ratio, now));
    } else {
      assert VisitsOf(ids, rows, k + 1, rate, now) == VisitsOf(ids, rows, k, rate, now);
    }
  }

  // ── Every run of cycles ────────────────────────────────────────────────────

  /** One run of the worker: what it found in Redis, and the rows it selected. */
  datatype Cycle = Cycle(at: int, stale: bool, rate: Option<real>, ids: seq<nat>, rows: seq<Loan>)

  predicate Sweeps(c: Cycle) { !c.stale && c.rate.Some? && c.rate.value > 0.0 }

  function VisitsOfCycle(c: Cycle): seq<Visit>
    requires |c.ids| == |c.rows| && Divisible(c.rows, c.at)
  {
    if Sweeps(c) then VisitsOf(c.ids, c.rows, |c.rows|, c.rate.value, c.at) else []
  }

  /** Cycles come at non-decreasing times, and every row they select owes something. */
  predicate CyclesInOrder(cycles: seq<Cycle>, t: int)
    decreases |cycles|
  {
    cycles == []
    || (&& t <= cycles[0].at && |cycles[0].ids| == |cycles[0].rows| && Divisible(cycles[0].rows, cycles[0].at)
        && CyclesInOrder(cycles[1..], cycles[0].at))
  }

  /** All the visits of a run of cycles, in order. */
  function VisitsOfCycles(cycles: seq<Cycle>, t: int): seq<Visit>
    requires CyclesInOrder(cycles, t)
    decreases |cycles|
  {
    if cycles == [] then [] else VisitsOfCycle(cycles[0]) + VisitsOfCycles(cycles[1..], cycles[0].at)
  }

  /** The nudges after a run of cycles, each on what the one before left. */
  function RunCycles(n: Nudges, cycles: seq<Cycle>, t: int): Nudges
    requires CyclesInOrder(cycles, t)
    decreases |cycles|
  {
    if cycles == [] then n else RunCycles(RunVisits(n, VisitsOfCycle(cycles[0])), cycles[1..], cycles[0].at)
  }

  lemma {:induction false} CyclesAreVisits(n: Nudges, cycles: seq<Cycle>, t: int)
    requires CyclesInOrder(cycles, t)
    ensures RunCycles(n, cycles, t) == RunVisits(n, VisitsOfCycles(cycles, t))
    decreases |cycles|
  {
    hide VisitsOfCycle, Divisible;
    if cycles != [] {
      var first := VisitsOfCycle(cycles[0]);
      CyclesAreVisits(RunVisits(n, first), cycles[1..], cycles[0].at);
      CyclesCompose(n, first, VisitsOfCycles(cycles[1..], cycles[0].at));
    }
  }

  /** Visits that all happen at `at`, followed by visits in order from `at`, are in order. */
  lemma {:induction false} InOrderAfter(visits: seq<Visit>, rest: seq<Visit>, t: int, at: int)
    requires t <= at && (forall v :: v in visits ==> v.at == at) && InOrder(rest, at)
    ensures InOrder(visits + rest, t)
    decreases |visits|
  {
    if visits == [] {
      assert visits + rest == rest;
    } else {
      assert (visits + rest)[1..] == visits[1..] + rest;
      assert visits[0] in visits && forall v :: v in visits[1..] ==> v in visits;
      InOrderAfter(visits[1..], rest, at, at);
    }
  }

  lemma {:induction false} VisitsAreNow(ids: seq<nat>, rows: seq<Loan>, k: nat, rate: real, now: int)
    requires k <= |rows| == |ids| && Divisible(rows, now)
    ensures forall v :: v in VisitsOf(ids, rows, k, rate, now) ==> v.at == now
  {
    hide Decide, Divisible;
    if k > 0 {
      VisitsAreNow(ids, rows, k - 1, rate, now);
    }
  }

  lemma {:induction false} VisitsOfCyclesInOrder(cycles: seq<Cycle>, t: int)
    requires CyclesInOrder(cycles, t)
    ensures InOrder(VisitsOfCycles(cycles, t), t)
    decreases |cycles|
  {
    hide VisitsOf, Divisible;
    if cycles != [] {
      var c := cycles[0];
      VisitsOfCyclesInOrder(cycles[1..], c.at);
      if Sweeps(c) {
        VisitsAreNow(c.ids, c.rows, |c.rows|, c.rate.value, c.at);
      }
      InOrderAfter(VisitsOfCycle(c), VisitsOfCycles(cycles[1..], c.at), t, c.at);
    }
  }

  /**
   * Over any run of cycles, at any rates and over any books of loans: at most three notices per loan and tier in any
   * half-open 24-hour window, and every margin call has a warning for that loan at most 8 hours earlier.
   */
  lemma CyclesAreThrottled(cycles: seq<Cycle>, t: int, loan: nat, tier: Tier, w: int)
    requires CyclesInOrder(cycles, t)
    ensures var n := RunCycles(Nudges(map[], map[], []), cycles, t);
            && |InWindow(n.notices, loan, tier, w)| <= 3
            && forall i :: 0 <= i < |n.notices| && n.notices[i].tier == MarginCall ==>
                 WarnedBefore(n.notices, n.notices[i].loan, n.notices[i].at)
  {
    hide InWindow, WarnedBefore;
    CyclesAreVisits(Nudges(map[], map[], []), cycles, t);
    VisitsOfCyclesInOrder(cycles, t);
    NoticesAreThrottled(VisitsOfCycles(cycles, t), t, loan, tier, w);
  }

  function IdsOf(records: seq<LoanRecord>): (ids: seq<nat>)
    ensures |ids| == |records|
    ensures forall i :: 0 <= i < |records| ==> ids[i] == records[i].id
  {
    seq(|records|, i requires 0 <= i < |records| => records[i].id)
  }

  function RowsOf(records: seq<LoanRecord>): (rows: seq<Loan>)
    reads records
    ensures |rows| == |records|
    ensures forall i :: 0 <= i < |records| ==> rows[i] == records[i].Row()
  {
    seq(|records|, i requires 0 <= i < |records| reads records => records[i].Row())
  }

  /** What a sweep that began with `n` and `alerts` has done after its first `k` rows, the rows themselves aside. */
  predicate Progress(n: Nudges, alerts: map<nat, int>, ids: seq<nat>, rows: seq<Loan>, k: nat, rate: real, now: int,
                     nudges: Nudges, alertSet: map<nat, int>, tally: Tally)
    requires k <= |rows| == |ids| && Divisible(rows, now)
  {
    && nudges == RunVisits(n, VisitsOf(ids, rows, k, rate, now))
    && tally.liquidated == CountVerdicts(rows, k, rate, now, IsLiquidate())
    && tally.suspicious == CountVerdicts(rows, k, rate, now, IsSuspect())
    && (alertSet, tally.alerted) == AlertsAfter(alerts, ids, rows, k, rate, now)
    && |nudges.notices| == |n.notices| + tally.warned + tally.marginCalled
  }

  lemma NoProgress(n: Nudges, alerts: map<nat, int>, ids: seq<nat>, rows: seq<Loan>, rate: real, now: int)
    requires |ids| == |rows| && Divisible(rows, now)
    ensures Progress(n, alerts, ids, rows, 0, rate, now, n, alerts, Tally(0, 0, 0, 0, 0))
  {
  }

  lemma ProgressNext(n: Nudges, alerts: map<nat, int>, ids: seq<nat>, rows: seq<Loan>, k: nat, rate: real, now: int,
                     nudges: Nudges, alertSet: map<nat, int>, tally: Tally,
                     nudges': Nudges, alertSet': map<nat, int>, o: Outcome)
    requires k < |rows| == |ids| && Divisible(rows, now)
    requires Progress(n, alerts, ids, rows, k, rate, now, nudges, alertSet, tally)
    requires o.verdict == Decide(rows[k], rate, now)
    requires nudges' == if o.verdict.Watch? then Evaluated(nudges, ids[k], o.verdict.ratio, now) else nudges
    requires |nudges'.notices| == |nudges.notices| + Bit(o.warnSent) + Bit(o.marginCallSent)
    requires o.alerted == AlertDue(o.verdict, alertSet, ids[k], now)
    requires alertSet' == if o.alerted then alertSet[ids[k] := now] else alertSet
    ensures Progress(n, alerts, ids, rows, k + 1, rate, now, nudges', alertSet', Counted(tally, o))
  {
    VisitNext(n, ids, rows, k, rate, now);
    hide Decide, Evaluated, AlertDue, VisitsOf, RunVisits, Divisible;
  }

  class Worker {
    var priceStale: bool
    var rate: Option<real>
    var nudges: Nudges
    var alertSet: map<nat, int>

    constructor ()
      ensures nudges == Nudges(map[], map[], []) && !priceStale && rate == None
    {
      priceStale, rate, nudges, alertSet := false, None, Nudges(map[], map[], []), map[];
    }

    /** SET key NX EX: true when the key was not live. */
    method EvaluateCoverageTiers(loan: nat, ratio: real, now: int) returns (warnSent: bool, marginCallSent: bool)
      modifies this`nudges
      ensures nudges == Evaluated(old(nudges), loan, ratio, now)
      ensures warnSent <==>
                ratio < 1.20 && !(loan in old(nudges).warnSet && now < old(nudges).warnSet[loan] + 28_800_000)
      ensures marginCallSent <==>
                ratio < 1.15 && !(loan in old(nudges).marginSet && now < old(nudges).marginSet[loan] + 28_800_000)
      ensures nudges.notices == old(nudges).notices
                                + (if warnSent then [Notice(loan, Warn, now)] else [])
                                + (if marginCallSent then [Notice(loan, MarginCall, now)] else [])
      ensures nudges.warnSet == if warnSent then old(nudges).warnSet[loan := now] else old(nudges).warnSet
      ensures nudges.marginSet == if marginCallSent then old(nudges).marginSet[loan := now] else old(nudges).marginSet
      ensures |nudges.notices| == |old(nudges).notices| + Bit(warnSent) + Bit(marginCallSent)
    {
      warnSent, marginCallSent := false, false;
      if ratio >= COVERAGE_WARN_TIER {
        return;
      }
      if !Live(nudges.warnSet, loan, now, COVERAGE_NOTIFY_COOLDOWN) {
        nudges := nudges.(warnSet := nudges.warnSet[loan := now],
                          notices := nudges.notices + [Notice(loan, Warn, now)]);
        warnSent := true;
      }
      if ratio >= COVERAGE_MARGIN_CALL_TIER {
        return;
      }
      if !Live(nudges.marginSet, loan, now, COVERAGE_NOTIFY_COOLDOWN) {
        nudges := nudges.(marginSet := nudges.marginSet[loan := now],
                          notices := nudges.notices + [Notice(loan, MarginCall, now)]);
        marginCallSent := true;
      }
    }

    /** The sweep's work on one selected loan. */
    method Examine(loan: LoanRecord, currentRate: real, now: int) returns (o: Outcome)
      requires loan.Row().OwedAt(now).total != 0.0
      modifies this`nudges, this`alertSet, loan
      ensures o.verdict == Decide(old(loan.Row()), currentRate, now)
      ensures loan.Row() == Swept(old(loan.Row()), currentRate, now)
      ensures nudges == if o.verdict.Watch? then Evaluated(old(nudges), loan.id, o.verdict.ratio, now) else old(nudges)
      ensures |nudges.notices| == |old(nudges).notices| + Bit(o.warnSent) + Bit(o.marginCallSent)
      ensures o.alerted == AlertDue(o.verdict, old(alertSet), loan.id, now)
      ensures o.alerted <==>
                && o.verdict.Watch? && o.verdict.ratio <= 1.20
                && !(loan.id in old(alertSet) && now < old(alertSet)[loan.id] + 86_400_000)
      ensures loan.status == Liquidated && old(loan.status) != Liquidated ==> o.verdict == Liquidate
      ensures o.verdict == Liquidate ==>
                loan.status == Liquidated && loan.liquidationRate == Some(currentRate) && loan.liquidatedAt == Some(now)
      ensures o.verdict != Liquidate ==> loan.Row() == old(loan.Row())
      ensures alertSet == if o.alerted then old(alertSet)[loan.id := now] else old(alertSet)
    {
      var outstanding := Compute(Terms(loan.principal, loan.bps, loan.custodyFee, loan.collateralReceivedAt),
                                 loan.repayments, now);
      hide Owed;
      assert outstanding == loan.Row().OwedAt(now);
      var currentValue := loan.collateralSat as real * currentRate;
      var ratio := currentValue / outstanding.total;
      var sanityFloor := loan.rateAtCreation * MIN_LIQUIDATION_RATE_FRACTION;
      ghost var verdict := Decide(loan.Row(), currentRate, now);
      assert outstanding.total == loan.Row().OwedAt(now).total;
      assert currentValue == CollateralValue(loan.Row(), currentRate);
      assert sanityFloor == SanityFloor(loan.Row());
      assert verdict == if currentRate < sanityFloor then RateSuspect
                        else if ratio <= LIQUIDATION_THRESHOLD then Liquidate
                        else Watch(ratio);
      hide Decide;

      if currentRate < sanityFloor {
        return Outcome(RateSuspect, false, false, false);
      }
      if ratio <= LIQUIDATION_THRESHOLD {
        loan.LiquidateLoan(currentRate, now);
        return Outcome(Liquidate, false, false, false);
      }
      var warnSent, marginCallSent := EvaluateCoverageTiers(loan.id, ratio, now);
      var alerted := false;
      if ratio <= ALERT_THRESHOLD && !Live(alertSet, loan.id, now, ALERT_COOLDOWN) {
        alertSet := alertSet[loan.id := now];
        alerted := true;
      }
      o := Outcome(Watch(ratio), warnSent, marginCallSent, alerted);
    }

    /**
     * One sweep over the rows it selected. A selected loan owes something: Ledger.ActiveOwesPrincipal gives
     * that for every ledger built by creditInflow.
     */
    method RunLiquidationCycle(active: seq<LoanRecord>, now: int) returns (tally: Tally)
      requires forall i, j :: 0 <= i < j < |active| ==> active[i] != active[j]
      requires forall i :: 0 <= i < |active| ==> active[i].status == Active && active[i].Row().OwedAt(now).total > 0.0
      modifies this, active
      ensures nudges
           == RunVisits(old(nudges),
                        VisitsOfCycle(Cycle(now, old(priceStale), rate, IdsOf(active), old(RowsOf(active)))))
      ensures rate == old(rate) && priceStale == (old(priceStale) || (rate.Some? && rate.value <= 0.0))
      ensures priceStale || rate.None? ==>
                RowsOf(active) == old(RowsOf(active)) && alertSet == old(alertSet)
                && tally == Tally(0, 0, 0, 0, 0)
      ensures !priceStale && rate.Some? ==>
                (var before := old(RowsOf(active));
                 && (forall i :: 0 <= i < |active| ==> active[i].Row() == Swept(before[i], rate.value, now))
                 && (forall i :: 0 <= i < |active| ==> RightlySwept(before[i], rate.value, now, active[i].status))
                 && tally.liquidated == CountVerdicts(before, |before|, rate.value, now, IsLiquidate())
                 && tally.suspicious == CountVerdicts(before, |before|, rate.value, now, IsSuspect())
                 && (alertSet, tally.alerted)
                    == AlertsAfter(old(alertSet), IdsOf(active), before, |before|, rate.value, now)
                 && |nudges.notices| == |old(nudges).notices| + tally.warned + tally.marginCalled)
    {
      tally := Tally(0, 0, 0, 0, 0);
      if priceStale || rate.None? {
        return;
      }
      var currentRate := rate.value;
      if currentRate <= 0.0 {
        priceStale := true;
        return;
      }
      hide Decide, Owed, Swept, CountVerdicts, AlertsAfter, RunVisits;
      ghost var before := RowsOf(active);
      tally := Sweep(active, currentRate, now);
      forall i | 0 <= i < |active|
        ensures RightlySwept(before[i], currentRate, now, active[i].status)
      {
        SweepLiquidatesExactlyWhen(before[i], currentRate, now);
        assert active[i].Row() == Swept(before[i], currentRate, now);
      }
    }

    /** The loop of the sweep. */
    method Sweep(active: seq<LoanRecord>, currentRate: real, now: int) returns (tally: Tally)
      requires forall i, j :: 0 <= i < j < |active| ==> active[i] != active[j]
      requires Divisible(RowsOf(active), now)
      modifies this`nudges, this`alertSet, active
      ensures var before := old(RowsOf(active));
              && (forall i :: 0 <= i < |active| ==> active[i].Row() == Swept(before[i], currentRate, now))
              && Progress(old(nudges), old(alertSet), IdsOf(active), before, |before|, currentRate, now,
                          nudges, alertSet, tally)
    {
      hide Decide, Swept, Owed, Evaluated, AlertDue, VisitsOf, CountVerdicts, AlertsAfter, RunVisits;
      hide LoanRecord.Row, RowsOf, IdsOf;
      ghost var before := RowsOf(active);
      ghost var ids := IdsOf(active);
      tally := Tally(0, 0, 0, 0, 0);
      NoProgress(nudges, alertSet, ids, before, currentRate, now);
      hide Progress;
      var k := 0;
      while k < |active|
        invariant 0 <= k <= |active|
        invariant forall i :: 0 <= i < k ==> active[i].Row() == Swept(before[i], currentRate, now)
        invariant forall i :: k <= i < |active| ==> active[i].Row() == before[i]
        invariant Progress(old(nudges), old(alertSet), ids, before, k, currentRate, now, nudges, alertSet, tally)
      {
        ghost var nudges0, alerts0 := nudges, alertSet;
        var o := Examine(active[k], currentRate, now);
        ProgressNext(old(nudges), old(alertSet), ids, before, k, currentRate, now, nudges0, alerts0, tally,
                     nudges, alertSet, o);
        tally := Counted(tally, o);
        k := k + 1;
      }
    }
  }
}
