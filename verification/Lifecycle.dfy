/** Runs of one loan across every writer: services, monitor, expiry worker and restore script. */
module Lifecycle {
  import opened Options
  import opened Sums
  import opened Accrual
  import opened Loans
  import opened Ledger
  import opened Coverage

  /**
   * One write to the loan, at an instant. A worker's select and its write are one step; so are the reads that
   * activateLoan and cancelLoan make before their transactions, and what those transactions write. Writes from a status
   * that was read earlier are below, under "Stale writes".
   */
  datatype Event =
    | Activate(receivedAt: int, at: int)
    | Cancel(at: int)
    | Expire(at: int)
    | CreditInflow(inflowId: nat, amount: real, skipFloor: bool, at: int)
    | Monitor(rate: real, at: int)
    | Release(at: int)
    | Restore(at: int)

  function Step(l: Loan, e: Event): Loan {
    match e
    case Activate(receivedAt, _) => Activated(l, receivedAt)
    case Cancel(_) => CancelledByCustomer(l)
    case Expire(_) => if l.status == PendingCollateral then ExpiredUnpaid(l) else l
    case CreditInflow(inflowId, amount, skipFloor, at) => Credit(l, inflowId, amount, skipFloor, at).0
    case Monitor(rate, at) =>
      if l.status == Active && rate > 0.0 && l.OwedAt(at).total != 0.0 && Decide(l, rate, at) == Liquidate
      then LiquidatedAt(l, rate, at) else l
    case Release(at) => Stamped(l, at)
    case Restore(_) => if l.status == Liquidated && BadRate(l) then Restored(l) else l
  }

  function Run(l: Loan, events: seq<Event>): Loan
    decreases |events|
  {
    if events == [] then l else Run(Step(l, events[0]), events[1..])
  }

  /** Events come at non-decreasing times, and money received is not negative. */
  predicate WellTimed(events: seq<Event>, t: int)
    decreases |events|
  {
    events == [] ||
    (&& t <= events[0].at
     && (events[0].CreditInflow? ==> events[0].amount >= 0.0)
     && WellTimed(events[1..], events[0].at))
  }

  function EndTime(events: seq<Event>, t: int): int {
    if events == [] then t else events[|events| - 1].at
  }

  // ── The status log ─────────────────────────────────────────────────────────

  predicate Chained(log: seq<LogEntry>) {
    && log != []
    && log[0].from == None
    && forall i :: 0 < i < |log| ==> log[i].from == Some(log[i - 1].target)
  }

  function IsChange(e: LogEntry): nat { if e.from.Some? && e.from.value != e.target then 1 else 0 }

  function IsRelease(e: LogEntry): nat { if e.reason == CollateralReleased then 1 else 0 }

  function Changes(log: seq<LogEntry>): nat {
    if log == [] then 0 else Changes(log[..|log| - 1]) + IsChange(log[|log| - 1])
  }

  function ReleaseEntries(log: seq<LogEntry>): nat {
    if log == [] then 0 else ReleaseEntries(log[..|log| - 1]) + IsRelease(log[|log| - 1])
  }

  /** How many status changes lead to a status. */
  function Depth(status: LoanStatus): nat {
    match status
    case PendingCollateral => 0
    case Active => 1
    case Expired => 1
    case Cancelled => 1
    case Repaid => 2
    case Liquidated => 2
  }

  /**
   * The transition table moves a loan one change further, and only from PENDING_COLLATERAL and ACTIVE; an entry that
   * keeps the status is a partial repayment or a top-up of an ACTIVE loan, or the release of a REPAID one.
   */
  lemma AllowedExactlyWhen(from: LoanStatus, target: LoanStatus, reason: Reason)
    ensures from != target ==>
              (Allowed(from, target, reason) <==>
                 from in {PendingCollateral, Active} && Depth(target) == Depth(from) + 1)
    ensures from == target ==>
              (Allowed(from, target, reason) <==>
                 || (from == Active && reason in {RepaymentPartial, CollateralToppedUp})
                 || (from == Repaid && reason == CollateralReleased))
  {
  }

  predicate LogSound(l: Loan) {
    && Chained(l.log)
    && l.status == l.log[|l.log| - 1].target
    && Changes(l.log) == Depth(l.status)
    && ReleaseEntries(l.log) == (if l.releasedAt.Some? then 1 else 0)
    && (l.releasedAt.Some? ==> l.status == Repaid)
    && (l.status == Liquidated ==> !BadRate(l))
  }

  /**
   * Appending an entry keeps the log chained exactly when the entry starts from the status the loan has:
   * the writers that name their `from` status themselves depend on the select still being true at the write.
   */
  lemma WriteChainsExactlyFromStatus(l: Loan, from: LoanStatus, target: LoanStatus, reason: Reason)
    requires Chained(l.log) && l.status == l.log[|l.log| - 1].target
    ensures Chained(Logged(l, from, target, reason).log) <==> from == l.status
  {
    var log := Logged(l, from, target, reason).log;
    assert log[|l.log|].from == Some(from);
    assert forall i :: 0 < i < |l.log| ==> log[i] == l.log[i];
  }

  // ── Stale writes ───────────────────────────────────────────────────────────

  /** A status write by any writer, naming the status that the writer read, then or earlier. */
  datatype StatusWrite = StatusWrite(from: LoanStatus, target: LoanStatus, reason: Reason)

  function WriteAll(l: Loan, writes: seq<StatusWrite>): Loan
    decreases |writes|
  {
    if writes == [] then l
    else WriteAll(Logged(l, writes[0].from, writes[0].target, writes[0].reason), writes[1..])
  }

  /** Every write starts from the status the loan has when it lands. */
  predicate AllFresh(l: Loan, writes: seq<StatusWrite>)
    decreases |writes|
  {
    writes == []
    || (&& writes[0].from == l.status
        && AllFresh(Logged(l, writes[0].from, writes[0].target, writes[0].reason), writes[1..]))
  }

  lemma {:induction false} BrokenStaysBroken(l: Loan, writes: seq<StatusWrite>)
    requires !Chained(l.log) && l.log != []
    ensures !Chained(WriteAll(l, writes).log)
    decreases |writes|
  {
    if writes != [] {
      var next := Logged(l, writes[0].from, writes[0].target, writes[0].reason);
      assert forall i :: 0 <= i < |l.log| ==> next.log[i] == l.log[i];
      BrokenStaysBroken(next, writes[1..]);
    }
  }

  /**
   * Over any run of status writes, guarded or not: the log chains exactly when each starts from the status the loan has
   * when it lands.
   */
  lemma {:induction false} WritesChainExactlyWhenFresh(l: Loan, writes: seq<StatusWrite>)
    requires Chained(l.log) && l.status == l.log[|l.log| - 1].target
    ensures Chained(WriteAll(l, writes).log) <==> AllFresh(l, writes)
    decreases |writes|
  {
    hide Chained;
    if writes != [] {
      var w := writes[0];
      var next := Logged(l, w.from, w.target, w.reason);
      WriteChainsExactlyFromStatus(l, w.from, w.target, w.reason);
      if w.from == l.status {
        WritesChainExactlyWhenFresh(next, writes[1..]);
      } else {
        BrokenStaysBroken(next, writes[1..]);
      }
    }
  }

  /** activateLoan and cancelLoan both read PENDING_COLLATERAL; the one that commits last writes from a status gone. */
  lemma ActivateAndCancelBreakTheChain(l: Loan, receivedAt: int)
    requires Chained(l.log) && l.status == l.log[|l.log| - 1].target && l.status == PendingCollateral
    ensures !Chained(Logged(Activated(l, receivedAt), PendingCollateral, Cancelled, CustomerCancelled).log)
    ensures !Chained(Logged(CancelledByCustomer(l), PendingCollateral, Active, CollateralConfirmed).log)
  {
    hide Chained;
    WriteChainsExactlyFromStatus(l, PendingCollateral, Active, CollateralConfirmed);
    WriteChainsExactlyFromStatus(l.(collateralReceivedAt := Some(receivedAt)), PendingCollateral, Active,
                                 CollateralConfirmed);
    WriteChainsExactlyFromStatus(l, PendingCollateral, Cancelled, CustomerCancelled);
    WriteChainsExactlyFromStatus(Activated(l, receivedAt), PendingCollateral, Cancelled, CustomerCancelled);
    WriteChainsExactlyFromStatus(CancelledByCustomer(l), PendingCollateral, Active, CollateralConfirmed);
  }

  // ── What one entry keeps ───────────────────────────────────────────────────

  /** `base` is the loan with the other columns of the same write already changed. */
  lemma EntryKeepsLog(l: Loan, base: Loan, target: LoanStatus, reason: Reason)
    requires LogSound(l) && base.log == l.log && base.status == l.status
    requires Depth(target) == Depth(l.status) + if l.status != target then 1 else 0
    requires base.releasedAt.Some? <==> l.releasedAt.Some? || reason == CollateralReleased
    requires reason == CollateralReleased ==> l.releasedAt.None?
    requires base.releasedAt.Some? ==> target == Repaid
    requires target == Liquidated ==> !BadRate(base)
    ensures LogSound(Logged(base, l.status, target, reason))
  {
    var log := Logged(base, l.status, target, reason).log;
    assert log[..|log| - 1] == l.log;
    WriteChainsExactlyFromStatus(l, l.status, target, reason);
  }

  // ── Invariant of every run ─────────────────────────────────────────────────

  predicate Inv(l: Loan, t: int) {
    Sound(l, t) && LogSound(l) && Originated(l)
  }

  lemma StepKeepsSound(l: Loan, t: int, e: Event)
    requires Sound(l, t) && t <= e.at && (e.CreditInflow? ==> e.amount >= 0.0)
    ensures Sound(Step(l, e), e.at)
  {
    SoundLater(l, t, e.at);
    match e
    case CreditInflow(inflowId, amount, skipFloor, at) =>
      CreditKeepsSound(l, t, inflowId, amount, skipFloor, at);
    case Activate(receivedAt, at) =>
      if l.status == PendingCollateral {
        FreshInterest(Activated(l, receivedAt), at);
      }
    case _ =>
  }

  lemma FreshInterest(l: Loan, t: int)
    requires l.principal > 0.0 && l.repayments == []
    ensures Gross(l, t) >= 0.0 && PaidInterest(l) == 0.0 && PaidPrincipal(l) == 0.0
  {
    if l.collateralReceivedAt.Some? {
      DaySumMonotone(l.Accruing(), l.collateralReceivedAt.value, [], 0, CeilDays(l.collateralReceivedAt.value, t));
    }
  }

  lemma StepKeepsLog(l: Loan, t: int, e: Event)
    requires Inv(l, t) && t <= e.at && (e.CreditInflow? ==> e.amount >= 0.0)
    ensures LogSound(Step(l, e)) && Originated(Step(l, e))
  {
    hide Changes, ReleaseEntries, Chained, Owed, Split, Decide;
    if Step(l, e) != l {
      match e
      case Activate(receivedAt, _) =>
        EntryKeepsLog(l, l.(collateralReceivedAt := Some(receivedAt)), Active, CollateralConfirmed);
      case Cancel(_) =>
        EntryKeepsLog(l, l, Cancelled, CustomerCancelled);
      case Expire(_) =>
        EntryKeepsLog(l, l, Expired, InvoiceExpired);
      case CreditInflow(inflowId, amount, skipFloor, at) =>
        CreditKeepsLog(l, inflowId, amount, skipFloor, at);
      case Monitor(rate, at) =>
        ActiveOwesPrincipal(l, t, at);
        LiquidationIsNeverBadRate(l, rate, at);
        EntryKeepsLog(l, l.(liquidatedAt := Some(at), liquidationRate := Some(rate)), Liquidated, LiquidationCompleted);
      case Release(at) =>
        EntryKeepsLog(l, l.(releasedAt := Some(at)), Repaid, CollateralReleased);
      case Restore(_) =>
    }
  }

  lemma CreditKeepsLog(l: Loan, inflowId: nat, amount: real, skipFloor: bool, at: int)
    requires LogSound(l) && l.status == Active
    ensures LogSound(Credit(l, inflowId, amount, skipFloor, at).0)
  {
    hide Changes, ReleaseEntries, Chained, Owed, Split;
    var row := RepaymentRow(inflowId, amount, Split(amount, l.OwedAt(at)), at);
    var paid := l.(repayments := l.repayments + [row]);
    EntryKeepsLog(l, paid.(repaidAt := Some(at)), Repaid, RepaymentCompleted);
    EntryKeepsLog(l, paid, Active, RepaymentPartial);
  }

  lemma StepKeepsInv(l: Loan, t: int, e: Event)
    requires Inv(l, t) && t <= e.at && (e.CreditInflow? ==> e.amount >= 0.0)
    ensures Inv(Step(l, e), e.at)
  {
    hide Sound, LogSound, Step;
    StepKeepsSound(l, t, e);
    StepKeepsLog(l, t, e);
  }

  lemma {:induction false} RunKeepsInv(l: Loan, t: int, events: seq<Event>)
    requires Inv(l, t) && WellTimed(events, t)
    ensures Inv(Run(l, events), EndTime(events, t))
    decreases |events|
  {
    hide Inv, Step;
    if events != [] {
      StepKeepsInv(l, t, events[0]);
      RunKeepsInv(Step(l, events[0]), events[0].at, events[1..]);
    }
  }

  /** The row checkoutLoan creates from the calculator's terms. */
  function Opened(principal: real, rate: real): Loan
    requires principal > 0.0 && rate > 0.0
  {
    NewLoan(principal, DAILY_INTEREST_RATE_BPS, 0.0, CollateralFor(principal, rate), rate)
  }

  lemma OpenedInv(principal: real, rate: real, t: int)
    requires principal > 0.0 && rate > 0.0
    ensures Inv(Opened(principal, rate), t)
  {
    var l := Opened(principal, rate);
    assert l.log[..0] == [];
    FreshInterest(l, t);
  }

  /** A loan just opened is such a loan. */
  lemma OpenedCanBreak(principal: real, rate: real, receivedAt: int)
    requires principal > 0.0 && rate > 0.0
    ensures var l := Opened(principal, rate);
            !Chained(Logged(Activated(l, receivedAt), PendingCollateral, Cancelled, CustomerCancelled).log)
  {
    hide Chained, Activated;
    OpenedInv(principal, rate, 0);
    ActivateAndCancelBreakTheChain(Opened(principal, rate), receivedAt);
  }

  // ── What every run from creation gives ─────────────────────────────────────

  /**
   * The status equals the last log target, consecutive entries chain, status changes at most twice after
   * creation, the restore script never has anything to do, and a released loan is REPAID with exactly one
   * COLLATERAL_RELEASED entry.
   */
  lemma EveryRunLogs(principal: real, rate: real, t: int, events: seq<Event>)
    requires principal > 0.0 && rate > 0.0 && WellTimed(events, t)
    ensures var l := Run(Opened(principal, rate), events);
            && Chained(l.log)
            && l.status == l.log[|l.log| - 1].target
            && Changes(l.log) <= 2
            && (forall at :: Step(l, Restore(at)) == l)
            && (l.releasedAt.Some? ==> l.status == Repaid && ReleaseEntries(l.log) == 1)
            && (l.releasedAt.None? ==> ReleaseEntries(l.log) == 0)
  {
    OpenedInv(principal, rate, t);
    RunKeepsInv(Opened(principal, rate), t, events);
  }

  /**
   * Money over a whole run: amounts received equal custody + interest + principal + overpay; only the row that
   * closed the loan can carry overpay; a REPAID loan paid back its principal and its gross interest at
   * `repaidAt` to the last unit; repaid parts never exceed what was lent and accrued.
   */
  lemma EveryRunConserves(principal: real, rate: real, t: int, events: seq<Event>)
    requires principal > 0.0 && rate > 0.0 && WellTimed(events, t)
    ensures var l := Run(Opened(principal, rate), events);
            && Sum(ToAmount(), l.repayments)
            == Sum(ToCustody(), l.repayments) + PaidInterest(l) + PaidPrincipal(l) + Sum(ToOverpay(), l.repayments)
            && (forall i :: 0 <= i < |l.repayments| && l.repayments[i].overpay > 0.0 ==>
                  i == |l.repayments| - 1 && l.status == Repaid)
            && (l.status == Repaid ==> Settled(l))
            && PaidPrincipal(l) <= l.principal
            && PaidInterest(l) <= Gross(l, EndTime(events, t))
  {
    OpenedInv(principal, rate, t);
    RunKeepsInv(Opened(principal, rate), t, events);
    LedgerConserves(Run(Opened(principal, rate), events).repayments, EndTime(events, t));
  }

  /** At any later instant an ACTIVE loan of any run owes principal, and owes exactly what was not repaid. */
  lemma EveryRunIsMonitorable(principal: real, rate: real, t: int, events: seq<Event>, asOf: int)
    requires principal > 0.0 && rate > 0.0 && WellTimed(events, t) && EndTime(events, t) <= asOf
    ensures var l := Run(Opened(principal, rate), events);
            && (l.status == Active ==> l.OwedAt(asOf).principal > 0.0 && l.OwedAt(asOf).total > 0.0)
            && l.OwedAt(asOf).principal == l.principal - PaidPrincipal(l)
            && l.OwedAt(asOf).interest == Gross(l, asOf) - PaidInterest(l)
  {
    var l := Run(Opened(principal, rate), events);
    OpenedInv(principal, rate, t);
    RunKeepsInv(Opened(principal, rate), t, events);
    FloorsNeverBite(l, EndTime(events, t), asOf);
    if l.status == Active {
      ActiveOwesPrincipal(l, EndTime(events, t), asOf);
    }
  }

  /** Repayments and log entries are never rewritten, and a REPAID loan's ledger is closed for good. */
  lemma {:induction false} HistoryOnlyGrows(l: Loan, events: seq<Event>)
    ensures l.repayments <= Run(l, events).repayments
    ensures l.log <= Run(l, events).log
    ensures l.status == Repaid ==> Run(l, events).repayments == l.repayments && Run(l, events).status == Repaid
    decreases |events|
  {
    if events != [] {
      var next := Step(l, events[0]);
      assert l.repayments <= next.repayments && l.log <= next.log;
      HistoryOnlyGrows(next, events[1..]);
    }
  }

  // ── No early liquidation ───────────────────────────────────────────────────

  /** Every monitor cycle of the run sees a sell rate at or above `rate`. */
  predicate RatesHold(events: seq<Event>, rate: real) { forall e :: e in events && e.Monitor? ==> e.rate >= rate }

  lemma {:induction false} EndIsLater(events: seq<Event>, t: int)
    requires WellTimed(events, t)
    ensures t <= EndTime(events, t)
    decreases |events|
  {
    if events != [] {
      EndIsLater(events[1..], events[0].at);
    }
  }

  lemma {:induction false} StartIsKept(l: Loan, events: seq<Event>)
    requires l.status != PendingCollateral
    ensures Run(l, events).collateralReceivedAt == l.collateralReceivedAt
    decreases |events|
  {
    if events != [] {
      StartIsKept(Step(l, events[0]), events[1..]);
    }
  }

  /** The step that liquidates comes after 171 day buckets. */
  lemma LiquidatesLate(l: Loan, t: int, e: Event)
    requires Inv(l, t) && t <= e.at && l.status != Liquidated && Step(l, e).status == Liquidated
    requires e.Monitor? ==> e.rate >= l.rateAtCreation
    ensures l.status == Active && Step(l, e).collateralReceivedAt == l.collateralReceivedAt
    ensures l.collateralReceivedAt.Some? && CeilDays(l.collateralReceivedAt.value, e.at) > 171
  {
    hide Owed, Decide, Split, LogSound;
    assert e.Monitor?;
    ActiveOwesPrincipal(l, t, e.at);
    if CeilDays(l.collateralReceivedAt.value, e.at) <= 171 {
      NoEarlyLiquidation(l, e.rate, e.at);
    }
  }

  lemma {:induction false} NotLiquidatedEarly(l: Loan, t: int, events: seq<Event>)
    requires Inv(l, t) && WellTimed(events, t) && RatesHold(events, l.rateAtCreation) && l.status != Liquidated
    ensures var m := Run(l, events);
            m.collateralReceivedAt.Some? && CeilDays(m.collateralReceivedAt.value, EndTime(events, t)) <= 171 ==>
              m.status != Liquidated
    decreases |events|
  {
    hide Inv, CeilDays;
    if events != [] {
      var e, next := events[0], Step(l, events[0]);
      assert e in events && forall d :: d in events[1..] ==> d in events;
      assert next.rateAtCreation == l.rateAtCreation;
      if next.status == Liquidated {
        LiquidatesLate(l, t, e);
        StartIsKept(next, events[1..]);
        EndIsLater(events[1..], e.at);
        CeilDaysMonotone(l.collateralReceivedAt.value, e.at, EndTime(events, t));
      } else {
        StepKeepsInv(l, t, e);
        NotLiquidatedEarly(next, e.at, events[1..]);
      }
    }
  }

  /**
   * Over every run from creation: while every cycle sees a sell rate at or above the creation rate, the loan is not
   * LIQUIDATED at any time in its first 171 day buckets, whatever is repaid and whoever writes.
   */
  lemma EveryRunIsSafeFor171Days(principal: real, rate: real, t: int, events: seq<Event>)
    requires principal > 0.0 && rate > 0.0 && WellTimed(events, t) && RatesHold(events, rate)
    ensures var l := Run(Opened(principal, rate), events);
            l.collateralReceivedAt.Some? && CeilDays(l.collateralReceivedAt.value, EndTime(events, t)) <= 171 ==>
              l.status != Liquidated
  {
    OpenedInv(principal, rate, t);
    NotLiquidatedEarly(Opened(principal, rate), t, events);
  }
}
