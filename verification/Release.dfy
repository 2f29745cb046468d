/**
 * src/modules/loans/collateral-release.service.ts: N callers (post-commit hand-off, ops, worker) release the
 * collateral of one loan. Every await is a point where callers interleave; the lock may expire at any moment.
 */
module Release {
  import opened Options
  import opened Loans

  type Address = nat
  /** A provider reference: the ordinal of the accepted send. */
  type Ref = nat

  datatype ReleaseResult =
    | Released(reference: Ref)
    | AlreadyReleased(earlier: Option<Ref>)
    | NotEligible
    | InFlight
    | SendFailed
    | Threw

  /** Where one caller is inside releaseForLoan. */
  datatype Pc =
    | Idle
    | Locked                                   // lock acquired, loan not read yet
    | Ready(address: Address)                  // read eligible, about to send
    | FailedToSend                             // provider threw, about to alert ops
    | Sent(reference: Ref)                     // provider accepted, about to stamp
    | StampedOk(reference: Ref)                // stamp committed, about to clear the dedupe key
    | Cleared(reference: Ref)                  // dedupe key cleared, about to notify the customer
    | StampFailed(reference: Ref)              // about to page ops, critical
    | Unlocking(result: ReleaseResult)         // in finally, about to delete the lock
    | Done(result: ReleaseResult)

  /** What the callers share: the Redis keys, the loan row, its log, and the outside world. */
  datatype Shared = Shared(
    locked: bool,
    alerted: bool,
    status: LoanStatus,
    address: Option<Address>,
    released: Option<Ref>,
    releaseEntries: nat,
    stamps: nat,
    sends: nat,
    standardAlerts: nat,
    criticals: set<Ref>,
    notices: nat)

  /** Which awaits of one attempt succeed; pages to ops never throw. */
  datatype Luck = Luck(
    lockOk: bool,
    readOk: bool,
    sendOk: bool,
    dedupeOk: bool,
    stampOk: bool,
    clearOk: bool,
    notifyOk: bool,
    unlockOk: bool)

  // ── One caller, one await ──────────────────────────────────────────────────

  function Advance(s: Shared, pc: Pc, luck: Luck): (Shared, Pc) {
    match pc
    case Idle =>
      if !luck.lockOk then (s, Done(Threw))
      else if s.locked then (s, Done(InFlight))
      else (s.(locked := true), Locked)
    case Locked =>
      if !luck.readOk then (s, Unlocking(Threw))
      else if s.status != Repaid then (s, Unlocking(NotEligible))
      else if s.released.Some? then (s, Unlocking(AlreadyReleased(s.released)))
      else if s.address.None? then (s, Unlocking(NotEligible))
      else (s, Ready(s.address.value))
    case Ready(address) =>
      if luck.sendOk then (s.(sends := s.sends + 1), Sent(s.sends)) else (s, FailedToSend)
    case FailedToSend =>
      if !luck.dedupeOk then (s, Unlocking(Threw))
      else if s.alerted then (s, Unlocking(SendFailed))
      else (s.(alerted := true, standardAlerts := s.standardAlerts + 1), Unlocking(SendFailed))
    case Sent(reference) =>
      if !luck.stampOk || s.released.Some? then (s, StampFailed(reference))
      else (s.(released := Some(reference), stamps := s.stamps + 1, releaseEntries := s.releaseEntries + 1),
            StampedOk(reference))
    case StampedOk(reference) =>
      if luck.clearOk then (s.(alerted := false), Cleared(reference)) else (s, StampFailed(reference))
    case Cleared(reference) =>
      if luck.notifyOk then (s.(notices := s.notices + 1), Unlocking(Released(reference)))
      else (s, StampFailed(reference))
    case StampFailed(reference) =>
      (s.(criticals := s.criticals + {reference}), Unlocking(SendFailed))
    case Unlocking(result) =>
      ((if luck.unlockOk then s.(locked := false) else s), Done(result))
    case Done(result) => (s, pc)
  }

  // ── The whole system ───────────────────────────────────────────────────────

  datatype System = System(shared: Shared, callers: map<nat, Pc>)
  {
    function At(i: nat): Pc { if i in callers then callers[i] else Idle }
  }

  /**
   * One step: a caller's next await, a key's TTL running out, or another writer of the loan row. The status moves along
   * the transition table, or from LIQUIDATED back to ACTIVE as the restore script moves it.
   */
  datatype Action =
    | Call(caller: nat, luck: Luck)
    | LockExpires
    | AlertExpires
    | StatusMoves(target: LoanStatus)
    | SetAddress(address: Address)

  predicate MayMove(status: LoanStatus, target: LoanStatus) {
    target in ValidTransitions(status) || (status == Liquidated && target == Active)
  }

  function Step(y: System, a: Action): System {
    match a
    case Call(i, luck) =>
      var (shared, pc) := Advance(y.shared, y.At(i), luck);
      System(shared, y.callers[i := pc])
    case LockExpires => y.(shared := y.shared.(locked := false))
    case AlertExpires => y.(shared := y.shared.(alerted := false))
    case StatusMoves(target) =>
      if MayMove(y.shared.status, target) then y.(shared := y.shared.(status := target)) else y
    case SetAddress(address) =>
      if y.shared.released.Some? then y else y.(shared := y.shared.(address := Some(address)))
  }

  function Run(y: System, actions: seq<Action>): System
    decreases |actions|
  {
    if actions == [] then y else Run(Step(y, actions[0]), actions[1..])
  }

  function Start(status: LoanStatus, address: Option<Address>): System {
    System(Shared(false, false, status, address, None, 0, 0, 0, 0, {}, 0), map[])
  }

  // ── Safety under any interleaving and any lock expiry ──────────────────────

  predicate Carries(pc: Pc, reference: Ref) {
    pc == Sent(reference) || pc == StampFailed(reference)
  }

  /** Some caller still has the send in hand and will stamp it or page ops. */
  predicate InHand(y: System, reference: Ref) {
    exists i :: i in y.callers && Carries(y.callers[i], reference)
  }

  predicate Accounted(y: System, reference: Ref) {
    y.shared.released == Some(reference) || reference in y.shared.criticals || InHand(y, reference)
  }

  predicate Inv(y: System) {
    && (y.shared.released.None? ==> y.shared.stamps == 0 && y.shared.releaseEntries == 0)
    && (y.shared.released.Some? ==> y.shared.stamps == 1 && y.shared.releaseEntries == 1)
    && (y.shared.released.Some? ==> y.shared.status == Repaid)
    && (forall r: Ref :: r < y.shared.sends ==> Accounted(y, r))
    && (forall i :: i in y.callers ==> CallerSound(y.shared, y.callers[i]))
  }

  /** A caller past its read holds what it read: REPAID is final, and references are of real sends. */
  predicate CallerSound(s: Shared, pc: Pc) {
    match pc
    case Ready(_) => s.status == Repaid
    case Sent(r) => r < s.sends && s.status == Repaid
    case StampedOk(r) => r < s.sends && s.released == Some(r)
    case Cleared(r) => r < s.sends && s.released == Some(r)
    case StampFailed(r) => r < s.sends
    case _ => true
  }

  lemma InHandKept(y: System, i: nat, pc: Pc, shared: Shared, r: Ref)
    requires InHand(y, r) && !Carries(y.At(i), r)
    ensures InHand(System(shared, y.callers[i := pc]), r)
  {
    var k :| k in y.callers && Carries(y.callers[k], r);
    assert k != i;
    assert y.callers[i := pc][k] == y.callers[k];
  }

  /** What one await does to a reference: a new send is in hand, and what is in hand is passed on or settled. */
  lemma AdvanceKeepsReference(s: Shared, pc: Pc, luck: Luck, r: Ref)
    ensures var (t, next) := Advance(s, pc, luck);
            && s.sends <= t.sends <= s.sends + 1
            && (r == s.sends < t.sends ==> next == Sent(r))
            && (s.released == Some(r) ==> t.released == Some(r))
            && (r in s.criticals ==> r in t.criticals)
            && (Carries(pc, r) ==> Carries(next, r) || t.released == Some(r) || r in t.criticals)
  {
  }

  lemma CallKeepsAccounts(y: System, i: nat, luck: Luck, r: Ref)
    requires Inv(y)
    requires r < Step(y, Call(i, luck)).shared.sends
    ensures Accounted(Step(y, Call(i, luck)), r)
  {
    var y' := Step(y, Call(i, luck));
    assert y'.callers[i] == Advance(y.shared, y.At(i), luck).1;
    AdvanceKeepsReference(y.shared, y.At(i), luck, r);
    hide Advance, CallerSound, Carries;
    if r < y.shared.sends {
      assert Accounted(y, r);
      if InHand(y, r) && !Carries(y.At(i), r) {
        InHandKept(y, i, y'.callers[i], y'.shared, r);
      }
    } else {
      assert Carries(Sent(r), r) by { SentCarries(r); }
    }
  }

  lemma SentCarries(r: Ref)
    ensures Carries(Sent(r), r)
  {
  }

  lemma StepKeepsInv(y: System, a: Action)
    requires Inv(y)
    ensures Inv(Step(y, a))
  {
    var y' := Step(y, a);
    match a
    case Call(i, luck) =>
      forall r: Ref | r < y'.shared.sends ensures Accounted(y', r) {
        CallKeepsAccounts(y, i, luck, r);
      }
      if i in y.callers { assert CallerSound(y.shared, y.callers[i]); }
    case _ =>
      forall r: Ref | r < y'.shared.sends ensures Accounted(y', r) {
        assert Accounted(y, r);
        if InHand(y, r) {
          var k :| k in y.callers && Carries(y.callers[k], r);
          assert k in y'.callers && Carries(y'.callers[k], r);
        }
      }
  }

  lemma {:induction false} RunKeepsInv(y: System, actions: seq<Action>)
    requires Inv(y)
    ensures Inv(Run(y, actions))
    decreases |actions|
  {
    if actions != [] {
      StepKeepsInv(y, actions[0]);
      RunKeepsInv(Step(y, actions[0]), actions[1..]);
    }
  }

  predicate AtRest(pc: Pc) { pc.Idle? || pc.Unlocking? || pc.Done? }

  /**
   * Any number of interleaved callers, the lock free to expire at any moment, any stamp free to fail: the loan is
   * stamped released at most once, with exactly one COLLATERAL_RELEASED entry, and once no caller has a send in
   * hand every send the provider accepted is the stamped one or has been reported as a critical alert.
   */
  lemma ReleaseIsSafe(status: LoanStatus, address: Option<Address>, actions: seq<Action>)
    ensures var y := Run(Start(status, address), actions);
            && y.shared.stamps <= 1
            && y.shared.releaseEntries == y.shared.stamps
            && (y.shared.released.Some? <==> y.shared.stamps == 1)
            && (y.shared.released.Some? ==> y.shared.status == Repaid)
            && (forall r: Ref :: r < y.shared.sends ==> Accounted(y, r))
            && ((forall i :: i in y.callers ==> AtRest(y.callers[i])) ==>
                  forall r: Ref :: r < y.shared.sends ==> y.shared.released == Some(r) || r in y.shared.criticals)
  {
    var y := Run(Start(status, address), actions);
    RunKeepsInv(Start(status, address), actions);
    if forall i :: i in y.callers ==> AtRest(y.callers[i]) {
      forall r: Ref | r < y.shared.sends
        ensures y.shared.released == Some(r) || r in y.shared.criticals
      {
        assert Accounted(y, r);
      }
    }
  }

  // ── At most one send while locks last and stamps commit ────────────────────

  /** Between acquiring the lock and deleting it. */
  predicate Holds(pc: Pc) { !pc.Idle? && !pc.Done? }

  /** No lock expires under a running attempt, and no stamp fails. */
  predicate Orderly(y: System, a: Action) {
    match a
    case Call(_, luck) => luck.stampOk
    case LockExpires => forall i :: i in y.callers ==> !Holds(y.callers[i])
    case _ => true
  }

  predicate OrderlyRun(y: System, actions: seq<Action>)
    decreases |actions|
  {
    actions == [] || (Orderly(y, actions[0]) && OrderlyRun(Step(y, actions[0]), actions[1..]))
  }

  /** The lock excludes: at most one caller holds it, and a send is stamped before the lock is given up. */
  predicate Exclusive(y: System) {
    && (forall i, j :: i in y.callers && j in y.callers && Holds(y.callers[i]) && Holds(y.callers[j]) ==> i == j)
    && (forall i :: i in y.callers && Holds(y.callers[i]) ==> y.shared.locked)
    && y.shared.sends <= 1
    && (forall i :: i in y.callers && y.callers[i].Ready? ==> y.shared.released.None? && y.shared.sends == 0)
    && (forall i :: i in y.callers && y.callers[i].Sent? ==> y.shared.released.None?)
    && (y.shared.sends == 1 && y.shared.released.None? ==> exists i :: i in y.callers && y.callers[i].Sent?)
  }

  /** What one await of an orderly attempt does to the lock and to the send it may have in hand. */
  lemma AdvanceUnderLock(s: Shared, pc: Pc, luck: Luck)
    requires luck.stampOk
    ensures var (t, next) := Advance(s, pc, luck);
            && (Holds(next) && !Holds(pc) ==> !s.locked && t.locked && next == Locked)
            && (Holds(next) && Holds(pc) ==> t.locked == s.locked)
            && (!Holds(next) && !Holds(pc) ==> t == s)
            && t.sends == s.sends + (if pc.Ready? && next.Sent? then 1 else 0)
            && (s.released.Some? ==> t.released.Some?)
            && (next.Ready? ==> pc.Locked? && s.released.None? && t == s)
            && (next.Sent? ==> pc.Ready? && t.released == s.released)
            && (pc.Sent? ==> t.released.Some?)
            && (!pc.Sent? ==> t.released == s.released)
  {
  }

  lemma CallKeepsExclusive(y: System, i: nat, luck: Luck)
    requires Exclusive(y) && luck.stampOk
    ensures Exclusive(Step(y, Call(i, luck)))
  {
    var y' := Step(y, Call(i, luck));
    assert y'.callers == y.callers[i := Advance(y.shared, y.At(i), luck).1];
    AdvanceUnderLock(y.shared, y.At(i), luck);
    hide Advance;
    if y'.shared.sends == 1 && y'.shared.released.None? {
      if y.shared.sends == 1 {
        var k :| k in y.callers && y.callers[k].Sent?;
        assert k in y'.callers && y'.callers[k].Sent?;
      } else {
        assert i in y'.callers && y'.callers[i].Sent?;
      }
    }
  }

  lemma OrderlyKeepsExclusive(y: System, a: Action)
    requires Exclusive(y) && Orderly(y, a)
    ensures Exclusive(Step(y, a))
  {
    if a.Call? {
      hide Exclusive;
      CallKeepsExclusive(y, a.caller, a.luck);
    } else {
      assert Step(y, a).callers == y.callers;
    }
  }

  lemma {:induction false} OrderlyRunKeepsExclusive(y: System, actions: seq<Action>)
    requires Exclusive(y) && OrderlyRun(y, actions)
    ensures Exclusive(Run(y, actions))
    decreases |actions|
  {
    if actions != [] {
      OrderlyKeepsExclusive(y, actions[0]);
      OrderlyRunKeepsExclusive(Step(y, actions[0]), actions[1..]);
    }
  }

  /**
   * If no lock expires under a running attempt and no stamp fails, at most one send ever happens, and a caller
   * about to stamp never finds the loan already stamped. NoMoreSendsExactlyWhen below says what holds without.
   */
  lemma OneSendWhileLocksLast(status: LoanStatus, address: Option<Address>, actions: seq<Action>)
    requires OrderlyRun(Start(status, address), actions)
    ensures var y := Run(Start(status, address), actions);
            && y.shared.sends <= 1
            && forall i :: i in y.callers && y.callers[i].Sent? ==> y.shared.released.None?
  {
    OrderlyRunKeepsExclusive(Start(status, address), actions);
  }

  // ── Exactly when the collateral can be sent again ──────────────────────────

  const LUCKY: Luck := Luck(true, true, true, true, true, true, true, true)
  const STAMP_FAILS: Luck := LUCKY.(stampOk := false)

  /** No move of the status leads from here to REPAID. */
  predicate NeverRepaid(status: LoanStatus) { status == Expired || status == Cancelled }

  /** Nobody is about to send, and nobody who reads the loan from now on will find it eligible. */
  predicate NoSendAhead(y: System) {
    && (y.shared.released.Some? || NeverRepaid(y.shared.status))
    && (forall i :: i in y.callers ==> !y.callers[i].Ready?)
  }

  lemma {:induction false} NoSendAheadStays(y: System, actions: seq<Action>)
    requires NoSendAhead(y)
    ensures Run(y, actions).shared.sends == y.shared.sends
    decreases |actions|
  {
    if actions != [] {
      NoSendAheadStays(Step(y, actions[0]), actions[1..]);
    }
  }

  lemma {:induction false} RunSnoc(y: System, actions: seq<Action>, a: Action)
    ensures Run(y, actions + [a]) == Step(Run(y, actions), a)
    decreases |actions|
  {
    if actions == [] {
      assert [a][1..] == [] && [] + [a] == [a];
    } else {
      assert (actions + [a])[1..] == actions[1..] + [a];
      RunSnoc(Step(y, actions[0]), actions[1..], a);
    }
  }

  /** Some caller has not called yet. */
  lemma {:induction false} FreshCaller(callers: set<nat>) returns (k: nat)
    ensures forall i :: i in callers ==> i < k
  {
    if callers == {} {
      k := 0;
    } else {
      var i :| i in callers;
      var rest := FreshCaller(callers - {i});
      assert forall j :: j in callers ==> j == i || j in callers - {i};
      k := if rest > i then rest else i + 1;
    }
  }

  /** The loan is activated or restored, and repaid, if it was not; it is given an address, and the lock lapses. */
  function MakeEligible(): seq<Action> {
    [] + [StatusMoves(Active)] + [StatusMoves(Repaid)] + [SetAddress(0)] + [LockExpires]
  }

  /** And then a new caller gets to its send. */
  function SendAgain(k: nat): seq<Action> {
    MakeEligible() + [Call(k, LUCKY)] + [Call(k, LUCKY)] + [Call(k, LUCKY)]
  }

  lemma EligibleAfter(y: System)
    requires y.shared.released.None? && !NeverRepaid(y.shared.status)
    ensures Run(y, MakeEligible())
         == y.(shared := y.shared.(status := Repaid, address := Some(0), locked := false))
  {
    var a1 := [] + [StatusMoves(Active)];
    var a2 := a1 + [StatusMoves(Repaid)];
    var a3 := a2 + [SetAddress(0)];
    RunSnoc(y, [], StatusMoves(Active));
    RunSnoc(y, a1, StatusMoves(Repaid));
    RunSnoc(y, a2, SetAddress(0));
    RunSnoc(y, a3, LockExpires);
    StatusReachesRepaid(y);
    hide Run, MayMove;
  }

  lemma StatusReachesRepaid(y: System)
    requires !NeverRepaid(y.shared.status)
    ensures Step(Step(y, StatusMoves(Active)), StatusMoves(Repaid)) == y.(shared := y.shared.(status := Repaid))
  {
  }

  /** A new caller that finds the loan eligible and the lock free sends. */
  lemma EligibleIsSent(y: System, k: nat)
    requires y.shared.released.None? && y.shared.status == Repaid && y.shared.address.Some? && !y.shared.locked
    requires k !in y.callers
    ensures Step(Step(Step(y, Call(k, LUCKY)), Call(k, LUCKY)), Call(k, LUCKY)).shared.sends == y.shared.sends + 1
  {
  }

  lemma NewCallerSends(y: System, k: nat)
    requires y.shared.released.None? && !NeverRepaid(y.shared.status) && k !in y.callers
    ensures Run(y, SendAgain(k)).shared.sends == y.shared.sends + 1
  {
    var a1 := MakeEligible() + [Call(k, LUCKY)];
    var a2 := a1 + [Call(k, LUCKY)];
    EligibleAfter(y);
    RunSnoc(y, MakeEligible(), Call(k, LUCKY));
    RunSnoc(y, a1, Call(k, LUCKY));
    RunSnoc(y, a2, Call(k, LUCKY));
    hide Run, Step, MakeEligible;
    EligibleIsSent(Run(y, MakeEligible()), k);
  }

  /**
   * From any state whatever: no continuation sends any more exactly when the loan is stamped, EXPIRED or CANCELLED, and
   * no caller is past its read and about to send. A loan still PENDING_COLLATERAL, ACTIVE, LIQUIDATED (the restore
   * script may take it back) or REPAID can yet be sent for; so between an accepted send and its stamp nothing but the
   * lock stands in the way of a second one.
   */
  lemma NoMoreSendsExactlyWhen(y: System)
    ensures (forall actions :: Run(y, actions).shared.sends == y.shared.sends) <==> NoSendAhead(y)
  {
    hide Run;
    if NoSendAhead(y) {
      forall actions ensures Run(y, actions).shared.sends == y.shared.sends {
        NoSendAheadStays(y, actions);
      }
    } else if i :| i in y.callers && y.callers[i].Ready? {
      RunOne(y, Call(i, LUCKY));
      assert Run(y, [Call(i, LUCKY)]).shared.sends == y.shared.sends + 1;
    } else {
      var k := FreshCaller(y.callers.Keys);
      NewCallerSends(y, k);
      assert Run(y, SendAgain(k)).shared.sends != y.shared.sends;
    }
  }

  lemma RunOne(y: System, a: Action)
    ensures Run(y, [a]) == Step(y, a)
  {
    assert [a][1..] == [];
    assert Run(Step(y, a), []) == Step(y, a);
  }

  // ── Both ways to a second send, from the start ─────────────────────────────

  /** One expiry under a running attempt, everything else going well. */
  function ExpiryRun(): seq<Action> {
    [] + [Call(0, LUCKY)] + [Call(0, LUCKY)] + [LockExpires] + [Call(1, LUCKY)] + [Call(1, LUCKY)]
    + [Call(0, LUCKY)] + [Call(1, LUCKY)]
  }

  lemma ExpiryUnderAttemptPaysTwice()
    ensures Run(Start(Repaid, Some(7)), ExpiryRun()).shared.sends == 2
  {
    var y := Start(Repaid, Some(7));
    var a1 := [] + [Call(0, LUCKY)];
    var a2 := a1 + [Call(0, LUCKY)];
    var a3 := a2 + [LockExpires];
    var a4 := a3 + [Call(1, LUCKY)];
    var a5 := a4 + [Call(1, LUCKY)];
    var a6 := a5 + [Call(0, LUCKY)];
    RunSnoc(y, [], Call(0, LUCKY));
    RunSnoc(y, a1, Call(0, LUCKY));
    RunSnoc(y, a2, LockExpires);
    RunSnoc(y, a3, Call(1, LUCKY));
    RunSnoc(y, a4, Call(1, LUCKY));
    RunSnoc(y, a5, Call(0, LUCKY));
    RunSnoc(y, a6, Call(1, LUCKY));
  }

  /** A caller whose stamp fails, it pages ops and unlocks. */
  function FailedAttempt(): seq<Action> {
    [] + [Call(0, LUCKY)] + [Call(0, LUCKY)] + [Call(0, LUCKY)] + [Call(0, STAMP_FAILS)] + [Call(0, LUCKY)]
    + [Call(0, LUCKY)]
  }

  lemma FailedAttemptLeavesEligible()
    ensures var y := Run(Start(Repaid, Some(7)), FailedAttempt());
            && y.shared == Start(Repaid, Some(7)).shared.(sends := 1, criticals := {0})
            && y.callers == map[0 := Done(SendFailed)]
  {
    var y := Start(Repaid, Some(7));
    var a1 := [] + [Call(0, LUCKY)];
    var a2 := a1 + [Call(0, LUCKY)];
    var a3 := a2 + [Call(0, LUCKY)];
    var a4 := a3 + [Call(0, STAMP_FAILS)];
    var a5 := a4 + [Call(0, LUCKY)];
    RunSnoc(y, [], Call(0, LUCKY));
    RunSnoc(y, a1, Call(0, LUCKY));
    RunSnoc(y, a2, Call(0, LUCKY));
    RunSnoc(y, a3, Call(0, STAMP_FAILS));
    RunSnoc(y, a4, Call(0, LUCKY));
    RunSnoc(y, a5, Call(0, LUCKY));
  }

  /** No lock ever expires; the first caller's stamp fails, and the next caller sends again. */
  function FailedStampRun(): seq<Action> {
    FailedAttempt() + [Call(1, LUCKY)] + [Call(1, LUCKY)] + [Call(1, LUCKY)]
  }

  lemma FailedStampPaysAgain()
    ensures LockExpires !in FailedStampRun()
    ensures var y := Run(Start(Repaid, Some(7)), FailedStampRun());
            y.shared.sends == 2 && y.shared.criticals == {0}
  {
    var y := Start(Repaid, Some(7));
    FailedAttemptLeavesEligible();
    RunSnoc(y, FailedAttempt(), Call(1, LUCKY));
    RunSnoc(y, FailedAttempt() + [Call(1, LUCKY)], Call(1, LUCKY));
    RunSnoc(y, FailedAttempt() + [Call(1, LUCKY)] + [Call(1, LUCKY)], Call(1, LUCKY));
  }

  // ── releaseForLoan as one caller executes it ───────────────────────────────

  function Remaining(pc: Pc): nat {
    match pc
    case Idle => 9
    case Locked => 8
    case Ready(_) => 7
    case Sent(_) => 6
    case StampedOk(_) => 5
    case Cleared(_) => 4
    case StampFailed(_) => 3
    case FailedToSend => 2
    case Unlocking(_) => 1
    case Done(_) => 0
  }

  /** One caller advanced through all its awaits with nobody in between. */
  function Solo(s: Shared, pc: Pc, luck: Luck): (Shared, Pc)
    decreases Remaining(pc)
  {
    if pc.Done? then (s, pc)
    else
      var (next, step) := Advance(s, pc, luck);
      Solo(next, step, luck)
  }

  lemma SoloStep(s: Shared, pc: Pc, luck: Luck)
    requires !pc.Done?
    ensures Solo(s, pc, luck) == Solo(Advance(s, pc, luck).0, Advance(s, pc, luck).1, luck)
  {
    hide Advance;
  }

  lemma SoloDone(s: Shared, result: ReleaseResult, luck: Luck)
    ensures Solo(s, Done(result), luck) == (s, Done(result))
  {
  }

  class ReleaseService {
    var locked: bool
    var alerted: bool
    var status: LoanStatus
    var address: Option<Address>
    var released: Option<Ref>
    var releaseEntries: nat
    var stamps: nat
    var sends: nat
    var standardAlerts: nat
    var criticals: set<Ref>
    var notices: nat

    function State(): Shared
      reads this
    {
      Shared(locked, alerted, status, address, released, releaseEntries, stamps, sends, standardAlerts, criticals,
             notices)
    }

    constructor (status: LoanStatus, address: Option<Address>)
      ensures State() == Start(status, address).shared
    {
      locked, alerted, this.status, this.address, released := false, false, status, address, None;
      releaseEntries, stamps, sends, standardAlerts, criticals, notices := 0, 0, 0, 0, {}, 0;
    }

    /**
     * One uninterrupted attempt: the protocol's steps, one after the other; and, in the row's own terms, exactly when
     * each answer is given and what it leaves behind.
     */
    method ReleaseForLoan(luck: Luck) returns (result: ReleaseResult)
      modifies this
      ensures (State(), Done(result)) == Solo(old(State()), Idle, luck)
      ensures result == InFlight <==> luck.lockOk && old(locked)
      ensures result == Threw <==>
                || !luck.lockOk
                || (!old(locked) && !luck.readOk)
                || (!old(locked) && luck.readOk && old(Eligible()) && !luck.sendOk && !luck.dedupeOk)
      ensures result == NotEligible <==>
                && luck.lockOk && !old(locked) && luck.readOk
                && (old(status) != Repaid || (old(released) == None && old(address) == None))
      ensures result.AlreadyReleased? <==>
                luck.lockOk && !old(locked) && luck.readOk && old(status) == Repaid && old(released) != None
      ensures result.AlreadyReleased? ==> result.earlier == old(released)
      ensures result == SendFailed <==>
                && luck.lockOk && !old(locked) && luck.readOk && old(Eligible())
                && (if luck.sendOk then !(luck.stampOk && luck.clearOk && luck.notifyOk) else luck.dedupeOk)
      ensures result.Released? <==>
                && luck.lockOk && !old(locked) && luck.readOk && old(Eligible())
                && luck.sendOk && luck.stampOk && luck.clearOk && luck.notifyOk
      ensures result.Released? ==> released == Some(result.reference) && result.reference == old(sends)
      ensures var sent := luck.lockOk && !old(locked) && luck.readOk && old(Eligible()) && luck.sendOk;
              && sends == old(sends) + (if sent then 1 else 0)
              && released == (if sent && luck.stampOk then Some(old(sends)) else old(released))
              && notices == old(notices) + (if result.Released? then 1 else 0)
              && criticals == old(criticals) + (if sent && result == SendFailed then {old(sends)} else {})
      ensures locked == if luck.lockOk && !old(locked) then !luck.unlockOk else old(locked)
      ensures status == old(status) && address == old(address)
    {
      hide Solo;
      SoloStep(State(), Idle, luck);
      if !luck.lockOk {
        SoloDone(State(), Threw, luck);
        return Threw;
      }
      if locked {
        SoloDone(State(), InFlight, luck);
        return InFlight;
      }
      locked := true;
      result := Attempt(luck);
      SoloStep(State(), Unlocking(result), luck);
      if luck.unlockOk {
        locked := false;
      }
      SoloDone(State(), result, luck);
    }

    /** What the read looks for: REPAID, not stamped yet, with an address to send to. */
    predicate Eligible()
      reads this
    {
      status == Repaid && released == None && address != None
    }

    /** The body of the outer try. */
    method Attempt(luck: Luck) returns (result: ReleaseResult)
      modifies this
      ensures locked == old(locked) && status == old(status) && address == old(address)
      ensures Solo(old(State()), Locked, luck) == Solo(State(), Unlocking(result), luck)
      ensures result != InFlight
      ensures result == Threw <==> !luck.readOk || (old(Eligible()) && !luck.sendOk && !luck.dedupeOk)
      ensures result == NotEligible <==>
                luck.readOk && (old(status) != Repaid || (old(released) == None && old(address) == None))
      ensures result.AlreadyReleased? <==> luck.readOk && old(status) == Repaid && old(released) != None
      ensures result.AlreadyReleased? ==> result.earlier == old(released)
      ensures result.Released? <==>
                luck.readOk && old(Eligible()) && luck.sendOk && luck.stampOk && luck.clearOk && luck.notifyOk
      ensures result.Released? ==> released == Some(result.reference) && result.reference == old(sends)
      ensures var sent := luck.readOk && old(Eligible()) && luck.sendOk;
              && sends == old(sends) + (if sent then 1 else 0)
              && released == (if sent && luck.stampOk then Some(old(sends)) else old(released))
              && notices == old(notices) + (if result.Released? then 1 else 0)
              && criticals == old(criticals) + (if sent && result == SendFailed then {old(sends)} else {})
    {
      hide Solo;
      SoloStep(State(), Locked, luck);
      if !luck.readOk {
        return Threw;
      }
      if status != Repaid {
        return NotEligible;
      }
      if released.Some? {
        return AlreadyReleased(released);
      }
      if address.None? {
        return NotEligible;
      }
      result := SendAndStamp(address.value, luck);
    }

    /** The provider call, and what follows it. */
    method SendAndStamp(address: Address, luck: Luck) returns (result: ReleaseResult)
      requires released == None
      modifies this
      ensures locked == old(locked) && status == old(status) && this.address == old(this.address)
      ensures Solo(old(State()), Ready(address), luck) == Solo(State(), Unlocking(result), luck)
      ensures result == if luck.sendOk
                        then if luck.stampOk && luck.clearOk && luck.notifyOk then Released(old(sends)) else SendFailed
                        else if luck.dedupeOk then SendFailed else Threw
      ensures && sends == old(sends) + (if luck.sendOk then 1 else 0)
              && released == (if luck.sendOk && luck.stampOk then Some(old(sends)) else None)
              && notices == old(notices) + (if result.Released? then 1 else 0)
              && criticals == old(criticals) + (if luck.sendOk && result == SendFailed then {old(sends)} else {})
    {
      hide Solo;
      SoloStep(State(), Ready(address), luck);
      if !luck.sendOk {
        SoloStep(State(), FailedToSend, luck);
        var ok := MaybeAlertOps(luck.dedupeOk);
        return if ok then SendFailed else Threw;
      }
      var reference := sends;
      sends := sends + 1;
      result := StampAndNotify(reference, luck);
    }

    /** The inner try: stamp, then clear the dedupe key, then notify; a failure anywhere pages ops, critical. */
    method StampAndNotify(reference: Ref, luck: Luck) returns (result: ReleaseResult)
      modifies this
      ensures locked == old(locked) && status == old(status) && address == old(address) && sends == old(sends)
      ensures Solo(old(State()), Sent(reference), luck) == Solo(State(), Unlocking(result), luck)
      ensures var stamped := luck.stampOk && old(released).None?;
              && released == (if stamped then Some(reference) else old(released))
              && result == (if stamped && luck.clearOk && luck.notifyOk then Released(reference) else SendFailed)
              && notices == old(notices) + (if result.Released? then 1 else 0)
              && criticals == old(criticals) + (if result.Released? then {} else {reference})
    {
      hide Solo;
      SoloStep(State(), Sent(reference), luck);
      if luck.stampOk && released.None? {
        released, stamps, releaseEntries := Some(reference), stamps + 1, releaseEntries + 1;
        result := ClearAndNotify(reference, luck);
      } else {
        SoloStep(State(), StampFailed(reference), luck);
        criticals := criticals + {reference};
        result := SendFailed;
      }
    }

    /** The rest of the inner try once the stamp has committed, and its catch. */
    method ClearAndNotify(reference: Ref, luck: Luck) returns (result: ReleaseResult)
      modifies this`alerted, this`notices, this`criticals
      ensures Solo(old(State()), StampedOk(reference), luck) == Solo(State(), Unlocking(result), luck)
      ensures result == if luck.clearOk && luck.notifyOk then Released(reference) else SendFailed
      ensures alerted == (old(alerted) && !luck.clearOk)
      ensures notices == old(notices) + if result.Released? then 1 else 0
      ensures criticals == old(criticals) + if result.Released? then {} else {reference}
    {
      hide Solo;
      SoloStep(State(), StampedOk(reference), luck);
      if luck.clearOk {
        alerted := false;
        SoloStep(State(), Cleared(reference), luck);
        if luck.notifyOk {
          notices := notices + 1;
          return Released(reference);
        }
      }
      SoloStep(State(), StampFailed(reference), luck);
      criticals := criticals + {reference};
      result := SendFailed;
    }

    /** Pages ops for a failed send, once while the dedupe key lives; false where setting the key throws. */
    method MaybeAlertOps(dedupeOk: bool) returns (ok: bool)
      modifies this`alerted, this`standardAlerts
      ensures ok == dedupeOk
      ensures alerted == (old(alerted) || dedupeOk)
      ensures standardAlerts == old(standardAlerts) + if dedupeOk && !old(alerted) then 1 else 0
    {
      if !dedupeOk {
        return false;
      }
      if !alerted {
        alerted := true;
        standardAlerts := standardAlerts + 1;
      }
      return true;
    }
  }

}
