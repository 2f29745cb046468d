/**
 * One payout obligation and its attempts: outflows.service.ts and disbursements.service.ts, driven by the payout
 * webhook, the outflow reconciler and the ops actions. Each service call, provider call included, is one step.
 */
module Disbursements {
  import opened Options

  const OUTFLOW_PROCESSING_STALE: int := 300_000

  datatype OutflowStatus = OutflowPending | OutflowProcessing | OutflowSuccessful | OutflowFailed

  datatype DisbursementStatus = Pending | Processing | OnHold | Successful | Cancelled

  datatype Provider = Palmpay | Stub | Unknown

  datatype Outflow = Outflow(number: nat, provider: Provider, status: OutflowStatus, initiatedAt: Option<int>)

  /** A disbursement row with its outflows, the ops pages and the customer notices sent for it. */
  datatype Row = Row(
    status: DisbursementStatus,
    hasProviderCode: bool,
    forLoan: bool,
    outflows: seq<Outflow>,
    onHoldAt: Option<int>,
    alertedAt: Option<int>,
    alerts: nat,
    notices: nat)

  /** getTransferStatus: what the provider says, or that the query threw. */
  datatype Verdict = SaysSuccessful | SaysFailed | SaysProcessing | QueryThrew

  predicate Active(o: Outflow) { o.status == OutflowPending || o.status == OutflowProcessing }

  predicate HasActive(r: Row) { exists i :: 0 <= i < |r.outflows| && Active(r.outflows[i]) }

  predicate Terminal(r: Row) { r.status == Successful || r.status == Cancelled }

  // ── Specification of each call ─────────────────────────────────────────────

  function Settle(r: Row, k: nat, status: OutflowStatus): Row
    requires k < |r.outflows|
  {
    r.(outflows := r.outflows[k := r.outflows[k].(status := status)])
  }

  /** Conditional update to ON_HOLD; ops are paged on the first transition only. */
  function HeldAndAlerted(r: Row, now: int): Row {
    if r.status == OnHold then r
    else r.(status := OnHold, onHoldAt := Some(now), alertedAt := Some(now), alerts := r.alerts + 1)
  }

  /** Only the customer of a loan is told. */
  function Told(r: Row, times: nat): nat { if r.forLoan then times else 0 }

  function Succeeded(r: Row, k: nat): Row
    requires k < |r.outflows|
  {
    Settle(r, k, OutflowSuccessful).(status := Successful, notices := r.notices + Told(r, 1))
  }

  function Failed(r: Row, k: nat, now: int): Row
    requires k < |r.outflows|
  {
    HeldAndAlerted(Settle(r, k, OutflowFailed), now)
  }

  /** _executeDispatch: a new attempt; it is in flight afterwards, or it failed and the row is on hold. */
  function Executed(r: Row, provider: Provider, accepted: bool, now: int): Row {
    var number := |r.outflows| + 1;
    var begun := r.(status := Processing, onHoldAt := None, alertedAt := None);
    if r.hasProviderCode && accepted then
      begun.(outflows := r.outflows + [Outflow(number, provider, OutflowProcessing, Some(now))])
    else
      HeldAndAlerted(begun.(outflows := r.outflows + [Outflow(number, provider, OutflowFailed, None)]), now)
  }

  function Dispatched(r: Row, provider: Provider, accepted: bool, now: int): Row {
    if Terminal(r) || HasActive(r) then r else Executed(r, provider, accepted, now)
  }

  function Retried(r: Row, provider: Provider, accepted: bool, now: int): Row {
    if r.status != OnHold then r else Executed(r, provider, accepted, now)
  }

  function Acted(r: Row, k: nat, verdict: Verdict, now: int): Row
    requires k < |r.outflows|
  {
    match verdict
    case SaysSuccessful => Succeeded(r, k)
    case SaysFailed => Failed(r, k, now)
    case _ => r
  }

  /** The payout webhook about attempt `k`: terminal guard, then the verified verdict. */
  function WebhookDelivered(r: Row, k: nat, verdict: Verdict, now: int): Row {
    if k >= |r.outflows| || !Active(r.outflows[k]) then r else Acted(r, k, verdict, now)
  }

  /** Selected by the reconciler, and by a provider it can ask. */
  predicate Stale(o: Outflow, now: int) {
    o.status == OutflowProcessing && o.initiatedAt.Some? && o.initiatedAt.value < now - OUTFLOW_PROCESSING_STALE
  }

  function Reconciled(r: Row, k: nat, verdict: Verdict, now: int): Row {
    if k >= |r.outflows| || !Stale(r.outflows[k], now) || r.outflows[k].provider != Palmpay then r
    else Acted(r, k, verdict, now)
  }

  /** Every attempt from `k` on that is in flight is failed, oldest first. */
  function FailActiveFrom(r: Row, k: nat, now: int): (out: Row)
    ensures |out.outflows| == |r.outflows|
    decreases |r.outflows| - k
  {
    if k >= |r.outflows| then r
    else FailActiveFrom(if Active(r.outflows[k]) then Failed(r, k, now) else r, k + 1, now)
  }

  function Abandoned(r: Row, now: int): Row {
    if Terminal(r) then r else FailActiveFrom(r, 0, now)
  }

  function CancelledByOps(r: Row): Row {
    if Terminal(r) then r else r.(status := Cancelled)
  }

  // ── Runs ───────────────────────────────────────────────────────────────────

  datatype Event =
    | Dispatch(provider: Provider, accepted: bool, at: int)
    | Retry(provider: Provider, accepted: bool, at: int)
    | Webhook(attempt: nat, verdict: Verdict, at: int)
    | Reconcile(attempt: nat, verdict: Verdict, at: int)
    | Abandon(at: int)
    | Cancel

  function Step(r: Row, e: Event): Row {
    match e
    case Dispatch(provider, accepted, at) => Dispatched(r, provider, accepted, at)
    case Retry(provider, accepted, at) => Retried(r, provider, accepted, at)
    case Webhook(k, verdict, at) => WebhookDelivered(r, k, verdict, at)
    case Reconcile(k, verdict, at) => Reconciled(r, k, verdict, at)
    case Abandon(at) => Abandoned(r, at)
    case Cancel => CancelledByOps(r)
  }

  function Run(r: Row, events: seq<Event>): Row
    decreases |events|
  {
    if events == [] then r else Run(Step(r, events[0]), events[1..])
  }

  function Created(hasProviderCode: bool, forLoan: bool): Row {
    Row(Pending, hasProviderCode, forLoan, [], None, None, 0, 0)
  }

  /** The status a row has unless ops cancelled it: a function of the last attempt alone. */
  function StatusOf(outflows: seq<Outflow>): DisbursementStatus {
    if outflows == [] then Pending else StatusAfter(outflows[|outflows| - 1].status)
  }

  function Count(outflows: seq<Outflow>, status: OutflowStatus): nat {
    if outflows == [] then 0
    else Count(outflows[..|outflows| - 1], status) + if outflows[|outflows| - 1].status == status then 1 else 0
  }

  predicate Inv(r: Row) {
    && (forall i :: 0 <= i < |r.outflows| ==> r.outflows[i].number == i + 1)
    && (forall i :: 0 <= i < |r.outflows| - 1 ==> r.outflows[i].status == OutflowFailed)
    && (forall i :: 0 <= i < |r.outflows| ==> r.outflows[i].status != OutflowPending)
    && (r.status == StatusOf(r.outflows) || (r.status == Cancelled && StatusOf(r.outflows) != Successful))
    && r.alerts == Count(r.outflows, OutflowFailed)
    && r.notices == Told(r, Count(r.outflows, OutflowSuccessful))
  }

  function StatusAfter(last: OutflowStatus): DisbursementStatus {
    match last
    case OutflowFailed => OnHold
    case OutflowSuccessful => Successful
    case _ => Processing
  }

  predicate AllFailed(outflows: seq<Outflow>) {
    forall i :: 0 <= i < |outflows| ==> outflows[i].number == i + 1 && outflows[i].status == OutflowFailed
  }

  lemma CountAppend(outflows: seq<Outflow>, o: Outflow, status: OutflowStatus)
    ensures Count(outflows + [o], status) == Count(outflows, status) + if o.status == status then 1 else 0
  {
    assert (outflows + [o])[..|outflows|] == outflows;
  }

  lemma {:induction false} CountOfFailed(outflows: seq<Outflow>)
    requires AllFailed(outflows)
    ensures Count(outflows, OutflowFailed) == |outflows| && Count(outflows, OutflowSuccessful) == 0
  {
    if outflows != [] { CountOfFailed(outflows[..|outflows| - 1]); }
  }

  /** The invariant of a row whose last attempt is `last`: everything before it failed. */
  lemma InvByLast(r: Row, before: seq<Outflow>, last: Outflow)
    requires r.outflows == before + [last] && AllFailed(before)
    requires last.number == |before| + 1 && last.status != OutflowPending
    requires r.status == StatusAfter(last.status) || (r.status == Cancelled && last.status != OutflowSuccessful)
    requires r.alerts == |before| + if last.status == OutflowFailed then 1 else 0
    requires r.notices == Told(r, if last.status == OutflowSuccessful then 1 else 0)
    ensures Inv(r)
  {
    CountOfFailed(before);
    CountAppend(before, last, OutflowFailed);
    CountAppend(before, last, OutflowSuccessful);
  }

  lemma InvSplit(r: Row) returns (before: seq<Outflow>, last: Outflow)
    requires Inv(r) && r.outflows != []
    ensures r.outflows == before + [last] && AllFailed(before)
    ensures last.number == |before| + 1 && last.status != OutflowPending
    ensures r.alerts == |before| + if last.status == OutflowFailed then 1 else 0
    ensures r.notices == Told(r, if last.status == OutflowSuccessful then 1 else 0)
    ensures r.status == StatusAfter(last.status) || (r.status == Cancelled && last.status != OutflowSuccessful)
  {
    var n := |r.outflows| - 1;
    before, last := r.outflows[..n], r.outflows[n];
    CountOfFailed(before);
    CountAppend(before, last, OutflowFailed);
    CountAppend(before, last, OutflowSuccessful);
  }

  /** Settling the last attempt, in flight until now. */
  lemma SettleLastKeepsInv(r: Row, k: nat, now: int)
    requires Inv(r) && k < |r.outflows| && Active(r.outflows[k])
    ensures k == |r.outflows| - 1
    ensures Inv(Succeeded(r, k)) && Inv(Failed(r, k, now))
  {
    assert k == |r.outflows| - 1;
    hide Count, Inv;
    var before, last := InvSplit(r);
    InvByLast(Succeeded(r, k), before, last.(status := OutflowSuccessful));
    InvByLast(Failed(r, k, now), before, last.(status := OutflowFailed));
  }

  lemma ExecutedKeepsInv(r: Row, provider: Provider, accepted: bool, now: int)
    requires Inv(r) && r.status in {Pending, OnHold}
    ensures Inv(Executed(r, provider, accepted, now))
  {
    var e := Executed(r, provider, accepted, now);
    CountOfFailed([]);
    assert r.outflows == [] ==> r.alerts == 0 && r.notices == 0;
    assert r.outflows != [] || AllFailed(r.outflows);
    hide Count, Inv;
    if r.outflows != [] {
      var before, last := InvSplit(r);
    }
    InvByLast(e, r.outflows, e.outflows[|r.outflows|]);
  }

  /** A row that is neither terminal nor in flight is waiting for its first or its next attempt. */
  lemma NothingInFlight(r: Row)
    requires Inv(r) && !Terminal(r) && !HasActive(r)
    ensures r.status in {Pending, OnHold}
  {
    if r.outflows != [] {
      assert !Active(r.outflows[|r.outflows| - 1]);
    }
  }

  lemma {:induction false} FailActiveKeepsInv(r: Row, k: nat, now: int)
    requires Inv(r)
    ensures Inv(FailActiveFrom(r, k, now))
    ensures !(exists i :: k <= i < |r.outflows| && Active(r.outflows[i])) ==> FailActiveFrom(r, k, now) == r
    decreases |r.outflows| - k
  {
    if k < |r.outflows| {
      if Active(r.outflows[k]) {
        SettleLastKeepsInv(r, k, now);
        FailActiveKeepsInv(Failed(r, k, now), k + 1, now);
      } else {
        FailActiveKeepsInv(r, k + 1, now);
      }
    }
  }

  lemma StepKeepsInv(r: Row, e: Event)
    requires Inv(r)
    ensures Inv(Step(r, e))
  {
    match e
    case Dispatch(provider, accepted, at) =>
      if !Terminal(r) && !HasActive(r) {
        NothingInFlight(r);
        ExecutedKeepsInv(r, provider, accepted, at);
      }
    case Retry(provider, accepted, at) =>
      if r.status == OnHold { ExecutedKeepsInv(r, provider, accepted, at); }
    case Webhook(k, _, at) =>
      if k < |r.outflows| && Active(r.outflows[k]) { SettleLastKeepsInv(r, k, at); }
    case Reconcile(k, _, at) =>
      if k < |r.outflows| && Active(r.outflows[k]) { SettleLastKeepsInv(r, k, at); }
    case Abandon(at) => FailActiveKeepsInv(r, 0, at);
    case Cancel =>
  }

  lemma {:induction false} RunKeepsInv(r: Row, events: seq<Event>)
    requires Inv(r)
    ensures Inv(Run(r, events))
    decreases |events|
  {
    if events != [] {
      StepKeepsInv(r, events[0]);
      RunKeepsInv(Step(r, events[0]), events[1..]);
    }
  }

  /**
   * In every reachable state: attempts are numbered 1..n, at most one is in flight, every attempt but the last has
   * failed, at most one ever succeeded, the status (unless cancelled) is fixed by the last attempt, ops were paged
   * once per failed attempt, and the customer of a loan was told once per successful one.
   */
  lemma EveryRun(hasProviderCode: bool, forLoan: bool, events: seq<Event>)
    ensures var r := Run(Created(hasProviderCode, forLoan), events);
            && (forall i :: 0 <= i < |r.outflows| ==> r.outflows[i].number == i + 1)
            && (forall i, j ::
                  (0 <= i < |r.outflows| && 0 <= j < |r.outflows| && Active(r.outflows[i]) && Active(r.outflows[j]))
                  ==> i == j)
            && (forall i :: 0 <= i < |r.outflows| - 1 ==> r.outflows[i].status == OutflowFailed)
            && Count(r.outflows, OutflowSuccessful) <= 1
            && (r.status != Cancelled ==> r.status == StatusOf(r.outflows))
            && r.alerts == Count(r.outflows, OutflowFailed)
            && r.notices == Told(r, Count(r.outflows, OutflowSuccessful))
  {
    RunKeepsInv(Created(hasProviderCode, forLoan), events);
    hide Run;
    AtMostOneSuccess(Run(Created(hasProviderCode, forLoan), events));
  }

  lemma AtMostOneSuccess(r: Row)
    requires Inv(r)
    ensures Count(r.outflows, OutflowSuccessful) <= 1
  {
    if r.outflows != [] {
      var n := |r.outflows| - 1;
      assert r.outflows == r.outflows[..n] + [r.outflows[n]];
      CountOfFailed(r.outflows[..n]);
      CountAppend(r.outflows[..n], r.outflows[n], OutflowSuccessful);
    }
  }

  // ── Absorbing states ───────────────────────────────────────────────────────

  /** SUCCESSFUL is never left: no event changes anything any more. */
  lemma SuccessfulIsAbsorbing(r: Row, e: Event)
    requires Inv(r) && r.status == Successful
    ensures Step(r, e) == r
  {
  }

  /** CANCELLED is absorbing exactly when no attempt is in flight: a late verdict overwrites it. */
  lemma CancelledIsAbsorbingUnlessInFlight(r: Row)
    requires Inv(r) && r.status == Cancelled
    ensures (forall e :: Step(r, e) == r) <==> !HasActive(r)
  {
    if HasActive(r) {
      var k :| 0 <= k < |r.outflows| && Active(r.outflows[k]);
      assert Step(r, Webhook(k, SaysSuccessful, 0)).status == Successful;
    } else {
      forall e ensures Step(r, e) == r {
      }
    }
  }

  // ── Webhook and reconciler agree ───────────────────────────────────────────

  datatype Signal = ByWebhook(at: int) | ByReconciler(at: int)

  function Heard(r: Row, k: nat, verdict: Verdict, s: Signal): Row {
    match s
    case ByWebhook(at) => WebhookDelivered(r, k, verdict, at)
    case ByReconciler(at) => Reconciled(r, k, verdict, at)
  }

  function HeardAll(r: Row, k: nat, verdict: Verdict, signals: seq<Signal>): Row
    decreases |signals|
  {
    if signals == [] then r else HeardAll(Heard(r, k, verdict, signals[0]), k, verdict, signals[1..])
  }

  /** The signal reaches the provider check: any webhook, the reconciler only for a stale attempt it can ask about. */
  predicate Effective(o: Outflow, s: Signal) {
    s.ByWebhook? || (Stale(o, s.at) && o.provider == Palmpay)
  }

  /** Everything but the two on-hold timestamps. */
  function Outward(r: Row): Row { r.(onHoldAt := None, alertedAt := None) }

  lemma {:induction false} SettledIgnoresSignals(r: Row, k: nat, verdict: Verdict, signals: seq<Signal>)
    requires k < |r.outflows| && !Active(r.outflows[k])
    ensures HeardAll(r, k, verdict, signals) == r
    decreases |signals|
  {
    if signals != [] {
      SettledIgnoresSignals(r, k, verdict, signals[1..]);
    }
  }

  /** What a verdict leaves of a row whose attempt `k` was in flight: the attempt, its parent, the page, the notice. */
  predicate Settles(r: Row, k: nat, verdict: Verdict, w: Row)
    requires k < |r.outflows|
  {
    && |w.outflows| == |r.outflows|
    && (forall i :: 0 <= i < |r.outflows| && i != k ==> w.outflows[i] == r.outflows[i])
    && (w.outflows[k].status == OutflowSuccessful <==> verdict == SaysSuccessful)
    && (w.status == Successful <==> verdict == SaysSuccessful)
    && (w.outflows[k].status == OutflowFailed <==> verdict == SaysFailed)
    && (w.status == OnHold <==> verdict == SaysFailed)
    && w.notices == r.notices + (if verdict == SaysSuccessful && r.forLoan then 1 else 0)
    && (verdict == SaysFailed && r.status != OnHold ==> w.alerts == r.alerts + 1)
    && (verdict == SaysSuccessful ==> w.alerts == r.alerts)
    && (verdict != SaysSuccessful && verdict != SaysFailed ==> w == r)
  }

  /**
   * The verdict decides: of an attempt in flight, a webhook or a reconciler pass over an attempt older than 300 seconds
   * makes attempt and parent SUCCESSFUL exactly on success, FAILED and ON_HOLD on failure, and does nothing otherwise.
   */
  lemma VerdictDecides(r: Row, k: nat, verdict: Verdict, at: int)
    requires Inv(r) && k < |r.outflows| && Active(r.outflows[k])
    ensures Settles(r, k, verdict, WebhookDelivered(r, k, verdict, at))
    ensures r.outflows[k].provider == Palmpay && r.outflows[k].initiatedAt.Some?
            && r.outflows[k].initiatedAt.value + 300_000 < at ==>
              Settles(r, k, verdict, Reconciled(r, k, verdict, at))
    ensures r.outflows[k].provider != Palmpay || r.outflows[k].initiatedAt.None?
            || r.outflows[k].initiatedAt.value + 300_000 >= at ==>
              Reconciled(r, k, verdict, at) == r
  {
    hide Count;
    assert r.outflows[k].status == OutflowProcessing;
    NotSettledYet(r, k);
  }

  lemma NotSettledYet(r: Row, k: nat)
    requires Inv(r) && k < |r.outflows| && Active(r.outflows[k])
    ensures r.status != Successful && r.status != OnHold
  {
    assert k == |r.outflows| - 1;
  }

  /**
   * Delivering one provider verdict through webhook or reconciler or both, in any order and any number of times:
   * the outcome is that of a single webhook delivery as soon as one signal is effective, and nothing at all before.
   * In particular at most one notice is sent.
   */
  lemma {:induction false} SignalsAgree(r: Row, k: nat, verdict: Verdict, signals: seq<Signal>, at: int)
    requires k < |r.outflows| && Active(r.outflows[k])
    requires verdict in {SaysSuccessful, SaysFailed}
    ensures Outward(HeardAll(r, k, verdict, signals))
         == Outward(if exists i :: 0 <= i < |signals| && Effective(r.outflows[k], signals[i])
                    then WebhookDelivered(r, k, verdict, at) else r)
    ensures HeardAll(r, k, verdict, signals).notices <= r.notices + 1
    decreases |signals|
  {
    if signals != [] {
      var s := signals[0];
      if Effective(r.outflows[k], s) {
        assert Effective(r.outflows[k], signals[0]);
        SettledIgnoresSignals(Acted(r, k, verdict, s.at), k, verdict, signals[1..]);
      } else {
        SignalsAgree(r, k, verdict, signals[1..], at);
        assert forall i :: 0 < i < |signals| ==> signals[i] == signals[1..][i - 1];
        assert forall i :: 0 <= i < |signals[1..]| ==> signals[1..][i] == signals[i + 1];
      }
    }
  }

  /** However often and through whichever channel a verdict comes, it settles the attempt once one signal is effective. */
  lemma SignalsSettle(r: Row, k: nat, verdict: Verdict, signals: seq<Signal>)
    requires Inv(r) && k < |r.outflows| && Active(r.outflows[k])
    requires verdict in {SaysSuccessful, SaysFailed}
    requires exists i :: 0 <= i < |signals| && Effective(r.outflows[k], signals[i])
    ensures Settles(r, k, verdict, Outward(HeardAll(r, k, verdict, signals)))
  {
    SignalsAgree(r, k, verdict, signals, 0);
    VerdictDecides(r, k, verdict, 0);
    hide Inv, HeardAll, WebhookDelivered, Effective;
  }

  // ── The row as the services update it ──────────────────────────────────────

  datatype CallResult = Ok | DisbursementNotOnHold | DisbursementTerminal | NoActiveOutflow

  class Disbursement {
    var status: DisbursementStatus
    const hasProviderCode: bool
    const forLoan: bool
    var outflows: seq<Outflow>
    var onHoldAt: Option<int>
    var alertedAt: Option<int>
    var alerts: nat
    var notices: nat

    function Value(): Row
      reads this
    {
      Row(status, hasProviderCode, forLoan, outflows, onHoldAt, alertedAt, alerts, notices)
    }

    constructor (hasProviderCode: bool, forLoan: bool)
      ensures Value() == Created(hasProviderCode, forLoan)
    {
      this.hasProviderCode, this.forLoan := hasProviderCode, forLoan;
      status, outflows, onHoldAt, alertedAt, alerts, notices := Pending, [], None, None, 0, 0;
    }

    method MarkProcessing()
      modifies this
      ensures Value() == old(Value()).(status := Processing, onHoldAt := None, alertedAt := None)
    {
      status, onHoldAt, alertedAt := Processing, None, None;
    }

    method MarkOnHold(now: int) returns (isFirstTransition: bool)
      modifies this
      ensures isFirstTransition == (old(status) != OnHold)
      ensures Value()
           == if isFirstTransition then old(Value()).(status := OnHold, onHoldAt := Some(now)) else old(Value())
    {
      isFirstTransition := status != OnHold;
      if isFirstTransition {
        status, onHoldAt := OnHold, Some(now);
      }
    }

    method MarkOnHoldAndMaybeAlert(now: int)
      modifies this
      ensures Value() == HeldAndAlerted(old(Value()), now)
    {
      var isFirstTransition := MarkOnHold(now);
      if !isFirstTransition {
        return;
      }
      alerts := alerts + 1;
      alertedAt := Some(now);
    }

    method HandleSuccess(k: nat)
      requires k < |outflows|
      modifies this
      ensures Value() == Succeeded(old(Value()), k)
      ensures status == Successful && outflows == old(outflows)[k := old(outflows)[k].(status := OutflowSuccessful)]
      ensures notices == old(notices) + (if forLoan then 1 else 0) && alerts == old(alerts)
    {
      outflows := outflows[k := outflows[k].(status := OutflowSuccessful)];
      status := Successful;
      if forLoan {
        notices := notices + 1;
      }
    }

    method HandleFailure(k: nat, now: int)
      requires k < |outflows|
      modifies this
      ensures Value() == Failed(old(Value()), k, now)
      ensures status == OnHold && outflows == old(outflows)[k := old(outflows)[k].(status := OutflowFailed)]
      ensures alerts == old(alerts) + (if old(status) == OnHold then 0 else 1) && notices == old(notices)
    {
      outflows := outflows[k := outflows[k].(status := OutflowFailed)];
      MarkOnHoldAndMaybeAlert(now);
    }

    method ExecuteDispatch(number: nat, provider: Provider, accepted: bool, now: int)
      requires number == |outflows| + 1
      modifies this
      ensures Value() == Executed(old(Value()), provider, accepted, now)
      ensures |outflows| == |old(outflows)| + 1 && outflows[..|old(outflows)|] == old(outflows)
      ensures var begun := outflows[|old(outflows)|];
              && begun.number == |old(outflows)| + 1 && begun.provider == provider
              && begun.status == (if hasProviderCode && accepted then OutflowProcessing else OutflowFailed)
              && begun.initiatedAt == (if hasProviderCode && accepted then Some(now) else None)
      ensures status == if hasProviderCode && accepted then Processing else OnHold
      ensures alerts == old(alerts) + (if hasProviderCode && accepted then 0 else 1) && notices == old(notices)
    {
      var k := |outflows|;
      outflows := outflows + [Outflow(number, provider, OutflowPending, None)];
      MarkProcessing();
      if hasProviderCode && accepted {
        outflows := outflows[k := outflows[k].(status := OutflowProcessing, initiatedAt := Some(now))];
      } else {
        outflows := outflows[k := outflows[k].(status := OutflowFailed)];
        MarkOnHoldAndMaybeAlert(now);
      }
    }

    method Dispatch(provider: Provider, accepted: bool, now: int)
      modifies this
      ensures Value() == Dispatched(old(Value()), provider, accepted, now)
      ensures Terminal(old(Value())) || HasActive(old(Value())) ==> Value() == old(Value())
      ensures !Terminal(old(Value())) && !HasActive(old(Value())) ==>
                && |outflows| == |old(outflows)| + 1
                && outflows[|old(outflows)|].status
                   == (if hasProviderCode && accepted then OutflowProcessing else OutflowFailed)
                && status == (if hasProviderCode && accepted then Processing else OnHold)
    {
      if status == Successful || status == Cancelled {
        return;
      }
      var hasActive := exists i :: 0 <= i < |outflows| && Active(outflows[i]);
      if hasActive {
        return;
      }
      ExecuteDispatch(|outflows| + 1, provider, accepted, now);
    }

    method RetryDispatch(provider: Provider, accepted: bool, now: int) returns (result: CallResult)
      modifies this
      ensures Value() == Retried(old(Value()), provider, accepted, now)
      ensures result == if old(status) == OnHold then Ok else DisbursementNotOnHold
      ensures old(status) != OnHold ==> Value() == old(Value())
      ensures old(status) == OnHold ==>
                && |outflows| == |old(outflows)| + 1
                && outflows[|old(outflows)|].status
                   == (if hasProviderCode && accepted then OutflowProcessing else OutflowFailed)
                && status == (if hasProviderCode && accepted then Processing else OnHold)
    {
      if status != OnHold {
        return DisbursementNotOnHold;
      }
      ExecuteDispatch(|outflows| + 1, provider, accepted, now);
      return Ok;
    }

    method HandleWebhook(k: nat, verdict: Verdict, now: int)
      modifies this
      ensures Value() == WebhookDelivered(old(Value()), k, verdict, now)
      ensures k < |old(outflows)| && Active(old(outflows)[k]) && verdict == SaysSuccessful ==>
                status == Successful && outflows == old(outflows)[k := old(outflows)[k].(status := OutflowSuccessful)]
      ensures k < |old(outflows)| && Active(old(outflows)[k]) && verdict == SaysFailed ==>
                status == OnHold && outflows == old(outflows)[k := old(outflows)[k].(status := OutflowFailed)]
      ensures k >= |old(outflows)| || !Active(old(outflows)[k]) || verdict in {SaysProcessing, QueryThrew} ==>
                Value() == old(Value())
    {
      if k >= |outflows| {
        return;
      }
      if outflows[k].status == OutflowSuccessful || outflows[k].status == OutflowFailed {
        return;
      }
      if verdict == SaysSuccessful {
        HandleSuccess(k);
      } else if verdict == SaysFailed {
        HandleFailure(k, now);
      }
    }

    method AbandonAttempt(now: int) returns (result: CallResult)
      modifies this
      ensures Value() == Abandoned(old(Value()), now)
      ensures result == if Terminal(old(Value())) then DisbursementTerminal
                        else if HasActive(old(Value())) then Ok else NoActiveOutflow
      ensures result != Ok ==> Value() == old(Value())
      ensures result == Ok ==>
                && status == OnHold && !HasActive(Value()) && |outflows| == |old(outflows)|
                && forall i :: 0 <= i < |outflows| ==>
                     outflows[i] == if Active(old(outflows)[i]) then old(outflows)[i].(status := OutflowFailed)
                                    else old(outflows)[i]
    {
      if status == Successful || status == Cancelled {
        return DisbursementTerminal;
      }
      var hasActive := exists i :: 0 <= i < |outflows| && Active(outflows[i]);
      ghost var before := Value();
      if !hasActive {
        NothingToAbandon(before, 0, now);
        return NoActiveOutflow;
      }
      var k := 0;
      while k < |outflows|
        invariant 0 <= k <= |outflows|
        invariant FailActiveFrom(Value(), k, now) == FailActiveFrom(before, 0, now)
        decreases |outflows| - k
      {
        if Active(outflows[k]) {
          HandleFailure(k, now);
        }
        k := k + 1;
      }
      AbandonedFails(before, 0, now);
      return Ok;
    }

    method CancelByOps() returns (result: CallResult)
      modifies this
      ensures Value() == CancelledByOps(old(Value()))
      ensures result == if Terminal(old(Value())) then DisbursementTerminal else Ok
      ensures result == Ok ==> Value() == old(Value()).(status := Cancelled)
      ensures result != Ok ==> Value() == old(Value())
    {
      if status == Successful || status == Cancelled {
        return DisbursementTerminal;
      }
      status := Cancelled;
      return Ok;
    }
  }

  /** Failing what is in flight from `k` on fails exactly that, and puts the row on hold. */
  lemma {:induction false} AbandonedFails(r: Row, k: nat, now: int)
    requires k <= |r.outflows|
    ensures var out := FailActiveFrom(r, k, now);
            && (forall i :: 0 <= i < |r.outflows| ==>
                  out.outflows[i] == if i >= k && Active(r.outflows[i]) then r.outflows[i].(status := OutflowFailed)
                                     else r.outflows[i])
            && (r.status == OnHold || (exists i :: k <= i < |r.outflows| && Active(r.outflows[i])) ==>
                  out.status == OnHold)
    decreases |r.outflows| - k
  {
    if k < |r.outflows| {
      AbandonedFails(if Active(r.outflows[k]) then Failed(r, k, now) else r, k + 1, now);
    }
  }

  lemma {:induction false} NothingToAbandon(r: Row, k: nat, now: int)
    requires !HasActive(r)
    ensures FailActiveFrom(r, k, now) == r
    decreases |r.outflows| - k
  {
    if k < |r.outflows| { NothingToAbandon(r, k + 1, now); }
  }

  // ── The reconciler cycle ───────────────────────────────────────────────────

  datatype Tally = Tally(success: nat, failed: nat, stillProcessing: nat, skippedStub: nat, errors: nat)

  /** A row of the SELECT: an outflow of a disbursement, and what the provider will answer about it. */
  datatype Candidate = Candidate(disbursement: Disbursement, attempt: nat, provider: Provider, verdict: Verdict)

  /** The counters that rows of this kind add to. */
  predicate CountsAs(c: Candidate, provider: Provider, verdict: Verdict) {
    c.provider == provider && (provider == Palmpay ==> c.verdict == verdict)
  }

  function CountOf(stale: seq<Candidate>, provider: Provider, verdict: Verdict): (n: nat)
    ensures n <= |stale|
  {
    if stale == [] then 0
    else
      var last := |stale| - 1;
      CountOf(stale[..last], provider, verdict) + if CountsAs(stale[last], provider, verdict) then 1 else 0
  }

  /** Every candidate is counted once, under what its provider answered. */
  predicate Tallied(t: Tally, stale: seq<Candidate>) {
    && t.success == CountOf(stale, Palmpay, SaysSuccessful)
    && t.failed == CountOf(stale, Palmpay, SaysFailed)
    && t.stillProcessing == CountOf(stale, Palmpay, SaysProcessing)
    && t.skippedStub == CountOf(stale, Stub, QueryThrew)
    && t.errors == CountOf(stale, Unknown, QueryThrew) + CountOf(stale, Palmpay, QueryThrew)
  }

  lemma CountNext(stale: seq<Candidate>, k: nat, provider: Provider, verdict: Verdict)
    requires k < |stale|
    ensures CountOf(stale[..k + 1], provider, verdict)
         == CountOf(stale[..k], provider, verdict) + if CountsAs(stale[k], provider, verdict) then 1 else 0
  {
    assert stale[..k + 1][..k] == stale[..k];
  }

  function TallyOne(t: Tally, c: Candidate): Tally {
    match c.provider
    case Stub => t.(skippedStub := t.skippedStub + 1)
    case Unknown => t.(errors := t.errors + 1)
    case Palmpay => Answered(t, c.verdict)
  }

  lemma NothingTallied(stale: seq<Candidate>)
    ensures Tallied(Tally(0, 0, 0, 0, 0), stale[..0])
  {
  }

  /** One more candidate adds one to one counter. */
  lemma TallyNext(t: Tally, stale: seq<Candidate>, k: nat)
    requires k < |stale| && Tallied(t, stale[..k])
    ensures Tallied(TallyOne(t, stale[k]), stale[..k + 1])
  {
    CountNext(stale, k, Palmpay, SaysSuccessful);
    CountNext(stale, k, Palmpay, SaysFailed);
    CountNext(stale, k, Palmpay, SaysProcessing);
    CountNext(stale, k, Palmpay, QueryThrew);
    CountNext(stale, k, Stub, QueryThrew);
    CountNext(stale, k, Unknown, QueryThrew);
    hide CountOf;
  }

  function Answered(t: Tally, verdict: Verdict): Tally {
    match verdict
    case SaysSuccessful => t.(success := t.success + 1)
    case SaysFailed => t.(failed := t.failed + 1)
    case SaysProcessing => t.(stillProcessing := t.stillProcessing + 1)
    case QueryThrew => t.(errors := t.errors + 1)
  }

  /** The body of the cycle's loop. */
  method ReconcileOne(c: Candidate, t: Tally, now: int) returns (u: Tally)
    requires c.attempt < |c.disbursement.outflows|
    requires Stale(c.disbursement.outflows[c.attempt], now)
    requires c.disbursement.outflows[c.attempt].provider == c.provider
    modifies c.disbursement
    ensures c.disbursement.Value() == Reconciled(old(c.disbursement.Value()), c.attempt, c.verdict, now)
    ensures c.provider == Palmpay && c.verdict == SaysSuccessful ==>
              c.disbursement.status == Successful && c.disbursement.outflows[c.attempt].status == OutflowSuccessful
    ensures c.provider == Palmpay && c.verdict == SaysFailed ==>
              c.disbursement.status == OnHold && c.disbursement.outflows[c.attempt].status == OutflowFailed
    ensures c.provider != Palmpay || c.verdict == SaysProcessing || c.verdict == QueryThrew ==>
              c.disbursement.Value() == old(c.disbursement.Value())
    ensures u == TallyOne(t, c)
  {
    u := t;
    match c.provider {
      case Stub => u := u.(skippedStub := u.skippedStub + 1);
      case Unknown => u := u.(errors := u.errors + 1);
      case Palmpay =>
        match c.verdict {
          case SaysSuccessful =>
            c.disbursement.HandleSuccess(c.attempt);
            u := u.(success := u.success + 1);
          case SaysFailed =>
            c.disbursement.HandleFailure(c.attempt, now);
            u := u.(failed := u.failed + 1);
          case SaysProcessing => u := u.(stillProcessing := u.stillProcessing + 1);
          case QueryThrew => u := u.(errors := u.errors + 1);
        }
    }
  }

  /** A row as the SELECT saw it. */
  predicate Selected(r: Row, c: Candidate, now: int) {
    c.attempt < |r.outflows| && Stale(r.outflows[c.attempt], now) && r.outflows[c.attempt].provider == c.provider
  }

  /**
   * One pass over the stale rows, each of its own disbursement. Every candidate is counted once, and every
   * disbursement changes exactly as one reconciler signal says.
   */
  method RunReconcilerCycle(stale: seq<Candidate>, now: int) returns (t: Tally)
    requires forall i, j :: 0 <= i < j < |stale| ==> stale[i].disbursement != stale[j].disbursement
    requires forall i :: 0 <= i < |stale| ==> Selected(stale[i].disbursement.Value(), stale[i], now)
    modifies set i | 0 <= i < |stale| :: stale[i].disbursement
    ensures Tallied(t, stale)
    ensures forall i :: 0 <= i < |stale| ==>
              stale[i].disbursement.Value()
              == Reconciled(old(stale[i].disbursement.Value()), stale[i].attempt, stale[i].verdict, now)
  {
    hide Reconciled, CountOf, Tallied, TallyOne;
    t := Tally(0, 0, 0, 0, 0);
    NothingTallied(stale);
    var k := 0;
    while k < |stale|
      invariant 0 <= k <= |stale| && Tallied(t, stale[..k])
      invariant forall i :: 0 <= i < k ==>
                  stale[i].disbursement.Value()
                  == Reconciled(old(stale[i].disbursement.Value()), stale[i].attempt, stale[i].verdict, now)
      invariant forall i :: k <= i < |stale| ==> stale[i].disbursement.Value() == old(stale[i].disbursement.Value())
    {
      assert Selected(stale[k].disbursement.Value(), stale[k], now);
      TallyNext(t, stale, k);
      t := ReconcileOne(stale[k], t, now);
      k := k + 1;
    }
    assert stale[..|stale|] == stale;
  }
}
