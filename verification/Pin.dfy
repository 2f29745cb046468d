/**
 * src/modules/auth/transaction-pin.service.ts: the failed-attempt counter and the lockout of the transaction PIN. A
 * verification reads the row, compares hashes, and writes back from what it read; verifications may overlap.
 */
module Pin {
  import opened Options

  const MAX_ATTEMPTS: nat := 5
  const LOCKOUT: int := 900_000

  /** The PIN columns of a user row; instants are in milliseconds. */
  datatype User = User(hasPin: bool, failedAttempts: nat, lockedUntil: Option<int>)

  datatype Outcome = NotSet | Locked(unlocksAt: int) | Invalid | Verified

  predicate IsLocked(u: User, now: int) { u.lockedUntil.Some? && u.lockedUntil.value > now }

  /** The hash comparison is reached. */
  predicate Admits(u: User, at: int) { u.hasPin && !IsLocked(u, at) }

  /** The write after the comparison: its values come from the row as it was read, `seen`. */
  function AfterCheck(row: User, seen: User, ok: bool, done: int): User {
    if ok then
      if seen.failedAttempts > 0 || seen.lockedUntil.Some? then row.(failedAttempts := 0, lockedUntil := None) else row
    else if seen.failedAttempts + 1 >= MAX_ATTEMPTS then
      row.(failedAttempts := 0, lockedUntil := Some(done + LOCKOUT))
    else
      row.(failedAttempts := seen.failedAttempts + 1, lockedUntil := None)
  }

  /** A verification between its read and its write. */
  datatype Comparison = Comparison(at: int, seen: User)

  datatype State = State(user: User, inFlight: map<nat, Comparison>)

  /** A caller's read, a caller's write, or a set, change or removal of the PIN, which clears the counters. */
  datatype Action = Begin(caller: nat, at: int) | End(caller: nat, done: int, ok: bool) | PinWritten(present: bool)

  /** The action is a read that goes on to the hash comparison. */
  predicate Checks(s: State, a: Action) { a.Begin? && a.caller !in s.inFlight && Admits(s.user, a.at) }

  function Step(s: State, a: Action): State {
    match a
    case Begin(i, at) => if Checks(s, a) then s.(inFlight := s.inFlight[i := Comparison(at, s.user)]) else s
    case End(i, done, ok) =>
      if i !in s.inFlight then s
      else State(AfterCheck(s.user, s.inFlight[i].seen, ok, done), s.inFlight - {i})
    case PinWritten(present) => s.(user := User(present, 0, None))
  }

  function Run(s: State, actions: seq<Action>): State
    decreases |actions|
  {
    if actions == [] then s else Run(Step(s, actions[0]), actions[1..])
  }

  /** How many PINs of the run reach the hash comparison. */
  function Checked(s: State, actions: seq<Action>): nat
    decreases |actions|
  {
    if actions == [] then 0
    else (if Checks(s, actions[0]) then 1 else 0) + Checked(Step(s, actions[0]), actions[1..])
  }

  function Resting(u: User): State { State(u, map[]) }

  // ── The counter ────────────────────────────────────────────────────────────

  /** The counter is below the limit, and a row with a lock has a zero counter. */
  predicate Valid(u: User) { u.failedAttempts < MAX_ATTEMPTS && (u.lockedUntil.Some? ==> u.failedAttempts == 0) }

  predicate AllValid(s: State) { Valid(s.user) && forall i :: i in s.inFlight ==> Valid(s.inFlight[i].seen) }

  /** Under every interleaving of verifications and PIN writes. */
  lemma {:induction false} CounterStaysBelowMax(s: State, actions: seq<Action>)
    requires AllValid(s)
    ensures AllValid(Run(s, actions))
    decreases |actions|
  {
    if actions != [] {
      CounterStaysBelowMax(Step(s, actions[0]), actions[1..]);
    }
  }

  // ── What the counter counts ────────────────────────────────────────────────

  /** A whole verification, from its read at `at` to its write at `done`, or a write of the PIN. */
  datatype Event = Try(at: int, done: int, ok: bool) | Write(present: bool)

  function AfterEvent(u: User, e: Event): User {
    match e
    case Try(at, done, ok) => Step(Step(Resting(u), Begin(0, at)), End(0, done, ok)).user
    case Write(present) => Step(Resting(u), PinWritten(present)).user
  }

  function AfterEvents(u: User, events: seq<Event>): User {
    if events == [] then u else AfterEvent(AfterEvents(u, events[..|events| - 1]), events[|events| - 1])
  }

  /** What happened, the verifications that never got to the comparison left out. */
  datatype Mark = Right | Wrong | Written

  function MarkOf(u: User, e: Event): seq<Mark> {
    match e
    case Write(_) => [Written]
    case Try(at, _, ok) => if !Admits(u, at) then [] else if ok then [Right] else [Wrong]
  }

  function Marks(u: User, events: seq<Event>): seq<Mark> {
    if events == [] then []
    else
      var before := events[..|events| - 1];
      Marks(u, before) + MarkOf(AfterEvents(u, before), events[|events| - 1])
  }

  /** How many wrong PINs there were in a row, up to now. */
  function WrongInARow(marks: seq<Mark>): nat {
    if marks == [] || marks[|marks| - 1] != Wrong then 0 else WrongInARow(marks[..|marks| - 1]) + 1
  }

  lemma {:induction false} WrongInARowAreWrong(marks: seq<Mark>)
    ensures var n := WrongInARow(marks);
            && n <= |marks|
            && (forall i :: |marks| - n <= i < |marks| ==> marks[i] == Wrong)
            && (n < |marks| ==> marks[|marks| - n - 1] != Wrong)
  {
    if marks != [] { WrongInARowAreWrong(marks[..|marks| - 1]); }
  }

  /** Of `n` wrong PINs in a row, those since the last lockout: every fifth one locks. */
  function SinceLockout(n: nat): nat { n % 5 }

  lemma NextSinceLockout(n: nat)
    ensures SinceLockout(n) < 5
    ensures SinceLockout(n + 1) == if SinceLockout(n) == 4 then 0 else SinceLockout(n) + 1
    ensures SinceLockout(0) == 0
  {
  }

  lemma WrongInARowAppend(marks: seq<Mark>, m: Mark)
    ensures WrongInARow(marks + [m]) == if m == Wrong then WrongInARow(marks) + 1 else 0
  {
    assert (marks + [m])[..|marks|] == marks;
  }

  lemma EventEffect(u: User, e: Event)
    requires u.failedAttempts < 5
    ensures var v, marks := AfterEvent(u, e), MarkOf(u, e);
            && (marks == [] ==> v == u)
            && (marks == [Right] || marks == [Written] ==> v.failedAttempts == 0 && v.lockedUntil == None)
            && (marks == [Wrong] && u.failedAttempts < 4 ==>
                  v.failedAttempts == u.failedAttempts + 1 && v.lockedUntil == None)
            && (marks == [Wrong] && u.failedAttempts == 4 ==>
                  v.failedAttempts == 0 && v.lockedUntil == Some(e.done + 900_000))
            && (marks == [] || marks == [Right] || marks == [Wrong] || marks == [Written])
  {
  }

  /**
   * Over any run of verifications that do not overlap, from a zero counter: the counter is the number of wrong PINs in
   * a row since the last right PIN or PIN write, those up to the last lockout left out.
   */
  lemma {:induction false} CounterCountsWrongInARow(u: User, events: seq<Event>)
    requires u.failedAttempts == 0
    ensures AfterEvents(u, events).failedAttempts == SinceLockout(WrongInARow(Marks(u, events)))
  {
    if events != [] {
      var before, e := events[..|events| - 1], events[|events| - 1];
      var row, marks := AfterEvents(u, before), Marks(u, before);
      assert AfterEvents(u, events) == AfterEvent(row, e) && Marks(u, events) == marks + MarkOf(row, e);
      hide AfterEvents, Marks, AfterEvent, MarkOf, WrongInARow;
      CounterCountsWrongInARow(u, before);
      OneMoreMark(row, e, marks);
    }
  }

  lemma OneMoreMark(u: User, e: Event, marks: seq<Mark>)
    requires u.failedAttempts == SinceLockout(WrongInARow(marks))
    ensures AfterEvent(u, e).failedAttempts == SinceLockout(WrongInARow(marks + MarkOf(u, e)))
    ensures MarkOf(u, e) != [] && AfterEvent(u, e).lockedUntil.Some?
       <==> MarkOf(u, e) == [Wrong] && SinceLockout(WrongInARow(marks + MarkOf(u, e))) == 0
  {
    NextSinceLockout(WrongInARow(marks));
    EventEffect(u, e);
    hide AfterEvent, MarkOf, WrongInARow, SinceLockout;
    if MarkOf(u, e) == [] {
      assert marks + MarkOf(u, e) == marks;
    } else if MarkOf(u, e) == [Wrong] {
      WrongInARowAppend(marks, Wrong);
    } else {
      WrongInARowAppend(marks, MarkOf(u, e)[0]);
      assert MarkOf(u, e) == [MarkOf(u, e)[0]] && MarkOf(u, e)[0] != Wrong;
    }
  }

  /**
   * A verification sets a lock exactly when its PIN is the fifth, tenth, ... wrong one in a row; in particular only
   * after five wrong PINs in a row with no right one, no PIN write and no lock among them.
   */
  lemma LocksExactlyOnEveryFifthWrong(u: User, events: seq<Event>, e: Event)
    requires u.failedAttempts == 0
    ensures var before, marks := AfterEvents(u, events), Marks(u, events + [e]);
            && (MarkOf(before, e) != [] && AfterEvent(before, e).lockedUntil.Some?
                <==> MarkOf(before, e) == [Wrong] && SinceLockout(WrongInARow(marks)) == 0)
            && (MarkOf(before, e) != [] && AfterEvent(before, e).lockedUntil.Some? ==>
                  |marks| >= 5 && forall i :: |marks| - 5 <= i < |marks| ==> marks[i] == Wrong)
  {
    var before := AfterEvents(u, events);
    var marks := Marks(u, events + [e]);
    assert (events + [e])[..|events|] == events && marks == Marks(u, events) + MarkOf(before, e);
    hide AfterEvent, MarkOf, AfterEvents, Marks, WrongInARow;
    CounterCountsWrongInARow(u, events);
    OneMoreMark(before, e, Marks(u, events));
    if MarkOf(before, e) == [Wrong] && AfterEvent(before, e).lockedUntil.Some? {
      WrongInARowAppend(Marks(u, events), Wrong);
      LastFive(marks);
    }
  }

  lemma MultipleOfFive(n: nat)
    requires n > 0 && SinceLockout(n) == 0
    ensures n >= 5
  {
  }

  lemma LastFive(marks: seq<Mark>)
    requires WrongInARow(marks) > 0 && SinceLockout(WrongInARow(marks)) == 0
    ensures |marks| >= 5 && forall i :: |marks| - 5 <= i < |marks| ==> marks[i] == Wrong
  {
    MultipleOfFive(WrongInARow(marks));
    WrongInARowAreWrong(marks);
    hide WrongInARow;
  }

  // ── Throttling, when verifications do not overlap ──────────────────────────

  function TimeOf(a: Action): int
    requires !a.PinWritten?
  {
    if a.Begin? then a.at else a.done
  }

  /** Wrong PINs only, in order of time from `start`, none begun after `end`. */
  predicate WrongPins(actions: seq<Action>, start: int, end: int)
    decreases |actions|
  {
    actions == []
    || (&& !actions[0].PinWritten? && (actions[0].End? ==> !actions[0].ok)
        && start <= TimeOf(actions[0]) && (actions[0].Begin? ==> actions[0].at <= end)
        && WrongPins(actions[1..], TimeOf(actions[0]), end))
  }

  /** No comparison begins while another is in flight. */
  predicate NoOverlap(s: State, actions: seq<Action>)
    decreases |actions|
  {
    actions == []
    || ((Checks(s, actions[0]) ==> s.inFlight == map[]) && NoOverlap(Step(s, actions[0]), actions[1..]))
  }

  /** Fresh windows of attempts that fit in a span; none in a span already over. */
  function Windows(span: int): (w: nat)
    ensures span >= 0 ==> w == span / LOCKOUT + 1
  {
    if span < 0 then 0 else span / LOCKOUT + 1
  }

  /** The most PINs that can still be checked by `end` from this row at `now`. */
  function Allowance(u: User, now: int, end: int): int
    requires Valid(u)
  {
    if IsLocked(u, now) then MAX_ATTEMPTS * Windows(end - u.lockedUntil.value)
    else MAX_ATTEMPTS * Windows(end - now) - u.failedAttempts
  }

  lemma WindowsMonotone(a: int, b: int)
    requires a <= b
    ensures Windows(a) <= Windows(b)
  {
  }

  lemma WindowsShift(span: int)
    requires span >= 0
    ensures Windows(span - LOCKOUT) == Windows(span) - 1
  {
  }

  lemma AllowanceFalls(u: User, now: int, later: int, end: int)
    requires Valid(u) && now <= later <= end
    ensures 0 <= Allowance(u, later, end) <= Allowance(u, now, end)
  {
    WindowsMonotone(end - later, end - now);
    if u.lockedUntil.Some? && u.lockedUntil.value <= later && now < u.lockedUntil.value {
      WindowsMonotone(end - later, end - u.lockedUntil.value);
    }
  }

  lemma WrongCheckSpendsAllowance(u: User, at: int, done: int, end: int)
    requires Valid(u) && Admits(u, at) && at <= done && at <= end
    ensures done <= end ==> Allowance(AfterCheck(u, u, false, done), done, end) <= Allowance(u, at, end) - 1
    ensures Allowance(u, at, end) >= 1
  {
    hide Windows;
    WindowsMonotone(0, end - at);
    assert Windows(0) == 1;
    if done <= end {
      WindowsMonotone(end - done, end - at);
      WindowsShift(end - done);
    }
  }

  /** The comparisons in flight when there is at most one. */
  function Alone(pending: Option<(nat, Comparison)>): (m: map<nat, Comparison>)
    ensures m == map[] <==> pending.None?
  {
    match pending
    case None => map[]
    case Some((i, c)) =>
      var m := map[i := c];
      assert i in m;
      m
  }

  /** The one comparison in flight, if any, and what it read is still the row. */
  predicate Serial(s: State, pending: Option<(nat, Comparison)>, now: int, end: int) {
    && Valid(s.user)
    && s.inFlight == Alone(pending)
    && (pending.Some? ==>
          pending.value.1.seen == s.user && Admits(s.user, pending.value.1.at) && pending.value.1.at <= now
          && pending.value.1.at <= end)
    && (pending.None? ==> now <= end)
  }

  function Budget(s: State, pending: Option<(nat, Comparison)>, now: int, end: int): int
    requires Serial(s, pending, now, end)
  {
    if pending.None? then Allowance(s.user, now, end) else Allowance(s.user, pending.value.1.at, end) - 1
  }

  lemma {:induction false} NothingBeginsLate(s: State, actions: seq<Action>, now: int, end: int)
    requires WrongPins(actions, now, end) && now > end
    ensures Checked(s, actions) == 0
    decreases |actions|
  {
    if actions != [] {
      NothingBeginsLate(Step(s, actions[0]), actions[1..], TimeOf(actions[0]), end);
    }
  }

  /**
   * From any row, locked or not, with at most one comparison in flight: the wrong PINs still checked by `end` are
   * bounded by the attempts left and the lockouts that fit.
   */
  lemma {:induction false} CheckedWithinAllowance(s: State, pending: Option<(nat, Comparison)>, actions: seq<Action>,
                                                  now: int, end: int)
    requires Serial(s, pending, now, end)
    requires WrongPins(actions, now, end) && NoOverlap(s, actions)
    ensures Checked(s, actions) <= Budget(s, pending, now, end)
    decreases |actions|
  {
    hide Windows, Allowance;
    if pending.Some? {
      WrongCheckSpendsAllowance(s.user, pending.value.1.at, pending.value.1.at, end);
    } else {
      AllowanceFalls(s.user, now, now, end);
    }
    if actions != [] {
      var a, tail := actions[0], actions[1..];
      var t := TimeOf(a);
      if Checks(s, a) {
        CheckedWithinAllowance(Step(s, a), Some((a.caller, Comparison(t, s.user))), tail, t, end);
        AllowanceFalls(s.user, now, t, end);
      } else if a.End? && pending.Some? && a.caller == pending.value.0 {
        var at := pending.value.1.at;
        WrongCheckSpendsAllowance(s.user, at, t, end);
        assert Step(s, a) == Resting(AfterCheck(s.user, s.user, false, t));
        if t <= end {
          CheckedWithinAllowance(Step(s, a), None, tail, t, end);
        } else {
          NothingBeginsLate(Step(s, a), tail, t, end);
        }
      } else {
        assert Step(s, a) == s;
        if pending.None? && t > end {
          NothingBeginsLate(s, tail, t, end);
        } else {
          CheckedWithinAllowance(s, pending, tail, t, end);
          if pending.None? { AllowanceFalls(s.user, now, t, end); }
        }
      }
    }
  }

  /**
   * From an unlocked zero counter, wrong PINs whose verifications do not overlap get at most 5 · (⌊T / 900 s⌋ + 1)
   * comparisons in T.
   */
  lemma WrongPinsAreThrottled(u: User, actions: seq<Action>, start: int, span: nat)
    requires u.failedAttempts == 0 && !IsLocked(u, start)
    requires WrongPins(actions, start, start + span) && NoOverlap(Resting(u), actions)
    ensures Checked(Resting(u), actions) <= 5 * (span / 900_000 + 1)
  {
    CheckedWithinAllowance(Resting(u), None, actions, start, start + span);
  }

  // ── The bound is reached ───────────────────────────────────────────────────

  /** `n` wrong PINs at one instant, one verification after the other. */
  function Burst(at: int, n: nat): seq<Action> {
    if n == 0 then [] else [Begin(0, at), End(0, at, false)] + Burst(at, n - 1)
  }

  /** Five wrong PINs at the very end of every lockout. */
  function Bursts(at: int, lockouts: nat): seq<Action>
    decreases lockouts
  {
    if lockouts == 0 then Burst(at, 5) else Burst(at, 5) + Bursts(at + LOCKOUT, lockouts - 1)
  }

  lemma {:induction false} RunConcat(s: State, a: seq<Action>, b: seq<Action>)
    ensures Run(s, a + b) == Run(Run(s, a), b)
    ensures Checked(s, a + b) == Checked(s, a) + Checked(Run(s, a), b)
    ensures NoOverlap(s, a + b) <==> NoOverlap(s, a) && NoOverlap(Run(s, a), b)
    decreases |a|
  {
    if a == [] {
      assert a + b == b;
    } else {
      assert (a + b)[1..] == a[1..] + b;
      RunConcat(Step(s, a[0]), a[1..], b);
    }
  }

  lemma PairRuns(u: User, at: int)
    requires Admits(u, at)
    ensures var s, pair := Resting(u), [Begin(0, at), End(0, at, false)];
            && Run(s, pair) == Resting(AfterCheck(u, u, false, at))
            && Checked(s, pair) == 1 && NoOverlap(s, pair)
  {
    var pair := [Begin(0, at), End(0, at, false)];
    var s := Step(Resting(u), pair[0]);
    assert pair[1..] == [End(0, at, false)] && pair[1..][1..] == [];
    assert Step(s, pair[1]) == Resting(AfterCheck(u, u, false, at));
    assert Run(s, pair[1..]) == Step(s, pair[1]);
    assert Checked(s, pair[1..]) == 0;
    assert NoOverlap(s, pair[1..]);
  }

  lemma {:induction false} BurstRuns(u: User, at: int, n: nat)
    requires Admits(u, at) && u.failedAttempts + n <= 5 && u.failedAttempts < 5
    ensures Checked(Resting(u), Burst(at, n)) == n && NoOverlap(Resting(u), Burst(at, n))
    ensures n > 0 && u.failedAttempts + n == 5 ==>
              Run(Resting(u), Burst(at, n)) == Resting(User(true, 0, Some(at + LOCKOUT)))
    decreases n
  {
    if n > 0 {
      PairRuns(u, at);
      var v := AfterCheck(u, u, false, at);
      RunConcat(Resting(u), [Begin(0, at), End(0, at, false)], Burst(at, n - 1));
      if n > 1 {
        hide Run, Checked, NoOverlap;
        BurstRuns(v, at, n - 1);
      } else {
        assert Burst(at, 0) == [];
      }
    }
  }

  lemma {:induction false} BurstThenWrong(at: int, n: nat, rest: seq<Action>, end: int)
    requires at <= end && WrongPins(rest, at, end)
    ensures WrongPins(Burst(at, n) + rest, at, end)
    decreases n
  {
    if n == 0 {
      assert Burst(at, n) + rest == rest;
    } else {
      var more := Burst(at, n - 1) + rest;
      assert Burst(at, n) + rest == [Begin(0, at)] + ([End(0, at, false)] + more);
      hide Burst;
      BurstThenWrong(at, n - 1, rest, end);
      WrongThen(End(0, at, false), more, at, end);
      WrongThen(Begin(0, at), [End(0, at, false)] + more, at, end);
    }
  }

  lemma WrongThen(a: Action, rest: seq<Action>, at: int, end: int)
    requires WrongPins(rest, at, end) && at <= end
    requires !a.PinWritten? && TimeOf(a) == at && (a.End? ==> !a.ok)
    ensures WrongPins([a] + rest, at, end)
  {
    assert ([a] + rest)[1..] == rest;
  }

  lemma {:induction false} BurstsAreWrongPins(at: int, lockouts: nat)
    ensures WrongPins(Bursts(at, lockouts), at, at + lockouts * LOCKOUT)
    decreases lockouts
  {
    hide Burst;
    if lockouts == 0 {
      BurstThenWrong(at, 5, [], at);
      assert Burst(at, 5) + [] == Burst(at, 5);
    } else {
      var rest := Bursts(at + LOCKOUT, lockouts - 1);
      BurstsAreWrongPins(at + LOCKOUT, lockouts - 1);
      StartsEarlier(rest, at + LOCKOUT, at, at + lockouts * LOCKOUT);
      BurstThenWrong(at, 5, rest, at + lockouts * LOCKOUT);
    }
  }

  lemma StartsEarlier(actions: seq<Action>, start: int, earlier: int, end: int)
    requires earlier <= start && WrongPins(actions, start, end)
    ensures WrongPins(actions, earlier, end)
  {
  }

  /** The throttle bound is reached at every whole number of lockouts. */
  lemma {:induction false} ThrottleIsExact(u: User, at: int, lockouts: nat)
    requires u.failedAttempts == 0 && Admits(u, at)
    ensures WrongPins(Bursts(at, lockouts), at, at + lockouts * LOCKOUT)
    ensures NoOverlap(Resting(u), Bursts(at, lockouts))
    ensures Checked(Resting(u), Bursts(at, lockouts)) == 5 * (lockouts + 1)
    decreases lockouts
  {
    hide Checked, Run, NoOverlap, Burst, WrongPins;
    BurstsAreWrongPins(at, lockouts);
    BurstRuns(u, at, 5);
    if lockouts > 0 {
      RunConcat(Resting(u), Burst(at, 5), Bursts(at + LOCKOUT, lockouts - 1));
      ThrottleIsExact(User(true, 0, Some(at + LOCKOUT)), at + LOCKOUT, lockouts - 1);
    }
  }

  // ── Without that premise ───────────────────────────────────────────────────

  /** `n` callers read before any of them writes. */
  function Begins(at: int, n: nat): seq<Action> {
    if n == 0 then [] else Begins(at, n - 1) + [Begin(n - 1, at)]
  }

  function Ends(at: int, n: nat): seq<Action> {
    if n == 0 then [] else [End(n - 1, at, false)] + Ends(at, n - 1)
  }

  /** The state in which `n` comparisons that read `u` are in flight. */
  function Flying(row: User, u: User, at: int, n: nat): State { State(row, Comparisons(u, at, n)) }

  function Comparisons(u: User, at: int, n: nat): (m: map<nat, Comparison>)
    ensures forall i :: i in m ==> i < n
  {
    if n == 0 then map[] else Comparisons(u, at, n - 1)[n - 1 := Comparison(at, u)]
  }

  lemma {:induction false} BeginsRun(u: User, at: int, n: nat)
    requires Admits(u, at)
    ensures Run(Resting(u), Begins(at, n)) == Flying(u, u, at, n)
    ensures Checked(Resting(u), Begins(at, n)) == n
    decreases n
  {
    if n == 0 {
      assert Flying(u, u, at, 0) == Resting(u);
    } else {
      BeginsRun(u, at, n - 1);
      RunConcat(Resting(u), Begins(at, n - 1), [Begin(n - 1, at)]);
      var s, one := Flying(u, u, at, n - 1), [Begin(n - 1, at)];
      assert one[1..] == [];
      assert Step(s, one[0]) == Flying(u, u, at, n);
      assert Run(s, one) == Step(s, one[0]) && Checked(s, one) == 1;
    }
  }

  lemma {:induction false} EndsRun(row: User, u: User, at: int, n: nat)
    requires u.hasPin == row.hasPin
    ensures Run(Flying(row, u, at, n), Ends(at, n)) == Resting(if n == 0 then row else AfterCheck(u, u, false, at))
    ensures Checked(Flying(row, u, at, n), Ends(at, n)) == 0
    decreases n
  {
    var s := Flying(row, u, at, n);
    if n == 0 {
    } else {
      var next := AfterCheck(row, u, false, at);
      assert next == AfterCheck(u, u, false, at);
      assert Step(s, End(n - 1, at, false)) == Flying(next, u, at, n - 1);
      assert Ends(at, n)[0] == End(n - 1, at, false) && Ends(at, n)[1..] == Ends(at, n - 1);
      EndsRun(next, u, at, n - 1);
    }
  }

  /** Any number of overlapping wrong PINs are all checked at one instant, and count as a single failed attempt. */
  lemma OverlapsAreAllChecked(u: User, at: int, n: nat)
    requires Admits(u, at) && n > 0
    ensures Checked(Resting(u), Begins(at, n) + Ends(at, n)) == n
    ensures Run(Resting(u), Begins(at, n) + Ends(at, n)) == Resting(AfterCheck(u, u, false, at))
  {
    BeginsRun(u, at, n);
    EndsRun(u, u, at, n);
    RunConcat(Resting(u), Begins(at, n), Ends(at, n));
  }

  /** A wrong PIN's write over a locked row lifts the lock exactly when the attempt it read was not the last one. */
  lemma WriteLiftsLockExactlyWhen(s: State, i: nat, done: int)
    requires i in s.inFlight && s.user.lockedUntil.Some?
    ensures Step(s, End(i, done, false)).user.lockedUntil.None?
       <==> s.inFlight[i].seen.failedAttempts + 1 < MAX_ATTEMPTS
  {
  }

  /** One reads early and is wrong; five others lock the row; its late write unlocks it. */
  function StaleRun(at: int): seq<Action> { [Begin(1, at)] + Burst(at, 5) }

  lemma StaleWriteUnlocks(at: int)
    ensures var u := User(true, 0, None);
            && Run(Resting(u), StaleRun(at)).user == User(true, 0, Some(at + LOCKOUT))
            && Run(Resting(u), StaleRun(at) + [End(1, at, false)]) == Resting(User(true, 1, None))
  {
    var u := User(true, 0, None);
    StaleRunRuns(at);
    var last := [End(1, at, false)];
    assert last[1..] == [];
    RunConcat(Resting(u), StaleRun(at), last);
    var s := Run(Resting(u), StaleRun(at));
    assert Run(s, last) == Step(s, last[0]);
    assert s.inFlight - {1} == map[];
    WriteLiftsLockExactlyWhen(s, 1, at);
  }

  /** Never more than `k` comparisons in flight. */
  predicate AtMost(s: State, actions: seq<Action>, k: nat)
    decreases |actions|
  {
    |s.inFlight| <= k && (actions == [] || AtMost(Step(s, actions[0]), actions[1..], k))
  }

  lemma {:induction false} AtMostConcat(s: State, a: seq<Action>, b: seq<Action>, k: nat)
    requires AtMost(s, a, k) && AtMost(Run(s, a), b, k)
    ensures AtMost(s, a + b, k)
    decreases |a|
  {
    if a == [] {
      assert a + b == b;
    } else {
      assert (a + b)[1..] == a[1..] + b;
      AtMostConcat(Step(s, a[0]), a[1..], b, k);
    }
  }

  lemma {:induction false} AtMostGrows(s: State, actions: seq<Action>, j: nat, k: nat)
    requires AtMost(s, actions, j) && j <= k
    ensures AtMost(s, actions, k)
    decreases |actions|
  {
    if actions != [] {
      AtMostGrows(Step(s, actions[0]), actions[1..], j, k);
    }
  }

  lemma {:induction false} AtMostOneIsNoOverlap(s: State, actions: seq<Action>)
    requires AtMost(s, actions, 1)
    ensures NoOverlap(s, actions)
    decreases |actions|
  {
    if actions != [] {
      if Checks(s, actions[0]) {
        assert |Step(s, actions[0]).inFlight| == |s.inFlight| + 1;
      }
      AtMostOneIsNoOverlap(Step(s, actions[0]), actions[1..]);
    }
  }

  /** A burst beside a comparison already in flight runs as it does alone, with two in flight at most. */
  lemma {:induction false} BurstBeside(u: User, seen: User, at: int, n: nat)
    requires Admits(u, at) && u.failedAttempts + n == 5 && n > 0
    ensures var s := State(u, map[1 := Comparison(at, seen)]);
            && Run(s, Burst(at, n)) == State(User(true, 0, Some(at + LOCKOUT)), map[1 := Comparison(at, seen)])
            && Checked(s, Burst(at, n)) == n && AtMost(s, Burst(at, n), 2)
    decreases n
  {
    var s, pair := State(u, map[1 := Comparison(at, seen)]), [Begin(0, at), End(0, at, false)];
    var v := AfterCheck(u, u, false, at);
    PairBeside(u, seen, at);
    RunConcat(s, pair, Burst(at, n - 1));
    if n > 1 {
      hide Run, Checked, AtMost, NoOverlap;
      BurstBeside(v, seen, at, n - 1);
      AtMostConcat(s, pair, Burst(at, n - 1), 2);
    } else {
      assert Burst(at, 0) == [];
      AtMostConcat(s, pair, Burst(at, n - 1), 2);
    }
  }

  lemma PairBeside(u: User, seen: User, at: int)
    requires Admits(u, at)
    ensures var s, pair := State(u, map[1 := Comparison(at, seen)]), [Begin(0, at), End(0, at, false)];
            && Run(s, pair) == State(AfterCheck(u, u, false, at), map[1 := Comparison(at, seen)])
            && Checked(s, pair) == 1 && AtMost(s, pair, 2)
  {
    var s, pair := State(u, map[1 := Comparison(at, seen)]), [Begin(0, at), End(0, at, false)];
    var t := Step(s, pair[0]);
    assert pair[1..] == [End(0, at, false)] && pair[1..][1..] == [];
    assert t.inFlight - {0} == map[1 := Comparison(at, seen)];
    var end := Step(t, pair[1]);
    assert end == State(AfterCheck(u, u, false, at), map[1 := Comparison(at, seen)]);
    assert Run(t, pair[1..]) == end && Checked(t, pair[1..]) == 0 && AtMost(end, [], 2);
    assert |t.inFlight| == 2;
    assert AtMost(t, pair[1..], 2);
  }

  /** Six checks at one instant, with two comparisons in flight at most. */
  lemma StaleRunRuns(at: int)
    ensures var s := Resting(User(true, 0, None));
            && Run(s, StaleRun(at))
               == State(User(true, 0, Some(at + LOCKOUT)), map[1 := Comparison(at, User(true, 0, None))])
            && Checked(s, StaleRun(at)) == 6
            && AtMost(s, StaleRun(at), 2)
            && WrongPins(StaleRun(at), at, at)
  {
    var u := User(true, 0, None);
    var one := [Begin(1, at)];
    var t := Step(Resting(u), one[0]);
    assert one[1..] == [];
    assert t == State(u, map[1 := Comparison(at, u)]);
    assert Run(Resting(u), one) == t && Checked(Resting(u), one) == 1;
    BurstBeside(u, u, at, 5);
    RunConcat(Resting(u), one, Burst(at, 5));
    assert AtMost(t, [], 2) && AtMost(Resting(u), one, 2);
    AtMostConcat(Resting(u), one, Burst(at, 5), 2);
    BurstThenWrong(at, 5, [], at);
    assert Burst(at, 5) + [] == Burst(at, 5);
    assert StaleRun(at)[1..] == Burst(at, 5);
  }

  /** The bound holds of a run, if it has wrong PINs only, from an unlocked zero counter, at most `k` in flight. */
  ghost predicate ThrottledOn(u: User, actions: seq<Action>, start: int, span: nat, k: nat) {
    (&& u.failedAttempts == 0 && !IsLocked(u, start)
     && WrongPins(actions, start, start + span) && AtMost(Resting(u), actions, k)) ==>
      Checked(Resting(u), actions) <= 5 * (span / 900_000 + 1)
  }

  ghost predicate Throttles(k: nat) {
    forall u: User, actions: seq<Action>, start: int, span: nat :: ThrottledOn(u, actions, start, span, k)
  }

  /** The bound holds of every run with at most `k` verifications in flight exactly when `k` is at most one. */
  lemma ThrottlesExactlyWhen(k: nat)
    ensures Throttles(k) <==> k <= 1
  {
    hide Checked, WrongPins, AtMost, NoOverlap;
    if k <= 1 {
      forall u: User, actions: seq<Action>, start: int, span: nat ensures ThrottledOn(u, actions, start, span, k) {
        if && u.failedAttempts == 0 && !IsLocked(u, start)
           && WrongPins(actions, start, start + span) && AtMost(Resting(u), actions, k) {
          AtMostGrows(Resting(u), actions, k, 1);
          AtMostOneIsNoOverlap(Resting(u), actions);
          WrongPinsAreThrottled(u, actions, start, span);
        }
      }
    } else {
      var u := User(true, 0, None);
      StaleRunRuns(0);
      AtMostGrows(Resting(u), StaleRun(0), 2, k);
      assert !ThrottledOn(u, StaleRun(0), 0, 0, k);
    }
  }

  // ── The service ────────────────────────────────────────────────────────────

  class TransactionPin {
    var hasPin: bool
    var failedAttempts: nat
    var lockedUntil: Option<int>

    constructor (user: User)
      ensures Row() == user
    {
      hasPin, failedAttempts, lockedUntil := user.hasPin, user.failedAttempts, user.lockedUntil;
    }

    function Row(): User
      reads this
    {
      User(hasPin, failedAttempts, lockedUntil)
    }

    /** verifyCurrentPinOrThrow with nobody in between: `now` is read before the hash comparison, `later` after it. */
    method VerifyCurrentPin(ok: bool, now: int, later: int) returns (outcome: Outcome)
      modifies this
      ensures Row() == Step(Step(Resting(old(Row())), Begin(0, now)), End(0, later, ok)).user
      ensures outcome == if !old(hasPin) then NotSet
                         else if IsLocked(old(Row()), now) then Locked(old(lockedUntil.value))
                         else if ok then Verified
                         else if old(failedAttempts) + 1 >= 5 then Locked(later + 900_000) else Invalid
      ensures hasPin == old(hasPin)
      ensures IsLocked(old(Row()), now) == (old(lockedUntil).Some? && old(lockedUntil).value > now)
      ensures outcome == Verified ==> failedAttempts == 0 && lockedUntil == None
      ensures outcome == Invalid ==> failedAttempts == old(failedAttempts) + 1 && lockedUntil == None
      ensures old(hasPin) && !IsLocked(old(Row()), now) && outcome.Locked? ==>
                failedAttempts == 0 && lockedUntil == Some(later + 900_000)
      ensures !old(hasPin) || IsLocked(old(Row()), now) ==> Row() == old(Row())
    {
      if !hasPin {
        return NotSet;
      }
      if lockedUntil.Some? && lockedUntil.value > now {
        return Locked(lockedUntil.value);
      }
      if ok {
        if failedAttempts > 0 || lockedUntil != None {
          failedAttempts, lockedUntil := 0, None;
        }
        return Verified;
      }
      var nextAttempts := failedAttempts + 1;
      var shouldLock := nextAttempts >= MAX_ATTEMPTS;
      var lockUntil := if shouldLock then Some(later + LOCKOUT) else None;
      failedAttempts := if shouldLock then 0 else nextAttempts;
      lockedUntil := lockUntil;
      if shouldLock {
        return Locked(lockUntil.value);
      }
      return Invalid;
    }

    /** The row update at the end of setPin, changePin and disablePin. */
    method WritePin(present: bool)
      modifies this
      ensures Row() == Step(Resting(old(Row())), PinWritten(present)).user
      ensures hasPin == present && failedAttempts == 0 && lockedUntil == None
    {
      hasPin, failedAttempts, lockedUntil := present, 0, None;
    }
  }
}
