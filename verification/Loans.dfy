/**
 * src/modules/loans/loans.service.ts and loan-status.service.ts: the loan row, the repayment waterfall,
 * crediting an inflow, and the status machine.
 */
module Loans {
  import opened Options
  import opened Sums
  import opened Accrual

  const MIN_PARTIAL_REPAYMENT_NGN: real := 10000.0

  datatype LoanStatus = PendingCollateral | Active | Repaid | Liquidated | Expired | Cancelled

  datatype Reason =
    | LoanCreated
    | CollateralConfirmed
    | CollateralToppedUp
    | CollateralReleased
    | RepaymentPartial
    | RepaymentCompleted
    | LiquidationCompleted
    | LiquidationReversedBadRate
    | InvoiceExpired
    | CustomerCancelled

  datatype LogEntry = LogEntry(from: Option<LoanStatus>, target: LoanStatus, reason: Reason)

  /** A loan row together with its repayments and its status log. */
  datatype Loan = Loan(
    principal: real,
    bps: nat,
    custodyFee: real,
    collateralSat: nat,
    rateAtCreation: real,
    status: LoanStatus,
    collateralReceivedAt: Option<int>,
    repayments: seq<Repayment>,
    repaidAt: Option<int>,
    liquidatedAt: Option<int>,
    liquidationRate: Option<real>,
    releasedAt: Option<int>,
    log: seq<LogEntry>)
  {
    function Accruing(): Terms { Terms(principal, bps, custodyFee, collateralReceivedAt) }

    function OwedAt(asOf: int): Outstanding { Owed(Accruing(), repayments, asOf) }
  }

  // ── Status machine ─────────────────────────────────────────────────────────

  function ValidTransitions(from: LoanStatus): set<LoanStatus> {
    match from
    case PendingCollateral => {Active, Expired, Cancelled}
    case Active => {Repaid, Liquidated}
    case _ => {}
  }

  function SelfTransitionReasons(status: LoanStatus): set<Reason> {
    match status
    case Active => {RepaymentPartial, CollateralToppedUp}
    case Repaid => {CollateralReleased}
    case _ => {}
  }

  predicate Allowed(from: LoanStatus, target: LoanStatus, reason: Reason) {
    if from == target then reason in SelfTransitionReasons(from) else target in ValidTransitions(from)
  }

  function Logged(l: Loan, from: LoanStatus, target: LoanStatus, reason: Reason): Loan {
    l.(status := target, log := l.log + [LogEntry(Some(from), target, reason)])
  }

  // ── Waterfall ──────────────────────────────────────────────────────────────

  datatype Applied = Applied(custody: real, interest: real, principal: real, overpay: real)

  /** How much of `amount` reaches a bucket of size `size` behind buckets that take `ahead`. */
  function Share(amount: real, ahead: real, size: real): real { Min(amount - ahead, size) }

  /** The split of an amount over what is owed: custody, then interest, then principal; the rest is overpay. */
  function Split(amount: real, owed: Outstanding): Applied {
    var custody := Share(amount, 0.0, owed.custody);
    var interest := Share(amount, custody, owed.interest);
    var principal := Share(amount, custody + interest, owed.principal);
    Applied(custody, interest, principal, amount - (custody + interest + principal))
  }

  /** _waterfall: buckets are filled in order out of what remains. */
  method Waterfall(amount: real, owed: Outstanding) returns (applied: Applied)
    ensures applied == Split(amount, owed)
  {
    var remaining := amount;

    var custody := Min(remaining, owed.custody);
    remaining := remaining - custody;

    var interest := Min(remaining, owed.interest);
    remaining := remaining - interest;

    var principal := Min(remaining, owed.principal);
    remaining := remaining - principal;

    applied := Applied(custody, interest, principal, remaining);
  }

  /**
   * What the waterfall promises for money received: nothing is created or lost, no bucket is overfilled,
   * and a bucket gets money only once every bucket before it is full.
   */
  lemma WaterfallFillsInOrder(amount: real, owed: Outstanding)
    requires amount >= 0.0
    requires owed.custody >= 0.0 && owed.interest >= 0.0 && owed.principal >= 0.0
    ensures var s := Split(amount, owed);
            && s.custody + s.interest + s.principal + s.overpay == amount
            && 0.0 <= s.custody <= owed.custody
            && 0.0 <= s.interest <= owed.interest
            && 0.0 <= s.principal <= owed.principal
            && 0.0 <= s.overpay
            && (s.interest > 0.0 ==> s.custody == owed.custody)
            && (s.principal > 0.0 ==> s.interest == owed.interest)
            && (s.overpay > 0.0 ==> s.principal == owed.principal)
  {
  }

  // ── Crediting an inflow ────────────────────────────────────────────────────

  datatype CreditError = BelowFloor | NotActive(status: LoanStatus)

  datatype CreditResult =
    | Credited(status: LoanStatus, applied: Applied, outstanding: real)
    | AlreadyRepaid
    | Rejected(error: CreditError)

  function RepaymentRow(inflowId: nat, amount: real, s: Applied, now: int): Repayment {
    Repayment(inflowId, amount, s.custody, s.interest, s.principal, s.overpay, now)
  }

  /** What is left of the balance once the split is applied. */
  function Left(owed: Outstanding, s: Applied): real { owed.total - s.custody - s.interest - s.principal }

  /** The loan and the answer after crediting `amount` at `now`. */
  function Credit(l: Loan, inflowId: nat, amount: real, skipFloor: bool, now: int): (Loan, CreditResult) {
    if !skipFloor && amount < MIN_PARTIAL_REPAYMENT_NGN then (l, Rejected(BelowFloor))
    else if l.status == Repaid then (l, AlreadyRepaid)
    else if l.status != Active then (l, Rejected(NotActive(l.status)))
    else
      var s := Split(amount, l.OwedAt(now));
      var left := Left(l.OwedAt(now), s);
      var paid := l.(repayments := l.repayments + [RepaymentRow(inflowId, amount, s, now)]);
      if left <= 0.0 then
        (Logged(paid.(repaidAt := Some(now)), Active, Repaid, RepaymentCompleted), Credited(Repaid, s, 0.0))
      else
        (Logged(paid, Active, Active, RepaymentPartial), Credited(Active, s, left))
  }

  // ── The row as the services update it ──────────────────────────────────────

  class LoanRecord {
    const id: nat
    const principal: real
    const bps: nat
    const custodyFee: real
    const collateralSat: nat
    const rateAtCreation: real
    var status: LoanStatus
    var collateralReceivedAt: Option<int>
    var repayments: seq<Repayment>
    var repaidAt: Option<int>
    var liquidatedAt: Option<int>
    var liquidationRate: Option<real>
    var releasedAt: Option<int>
    var log: seq<LogEntry>

    /** The row's value, its key aside. */
    function Row(): Loan
      reads this
    {
      Loan(principal, bps, custodyFee, collateralSat, rateAtCreation, status, collateralReceivedAt,
           repayments, repaidAt, liquidatedAt, liquidationRate, releasedAt, log)
    }

    /** checkoutLoan: the row is created together with its first log entry. */
    constructor (id: nat, principal: real, bps: nat, custodyFee: real, collateralSat: nat, rateAtCreation: real)
      ensures Row() == NewLoan(principal, bps, custodyFee, collateralSat, rateAtCreation)
    {
      this.id := id;
      this.principal, this.bps, this.custodyFee := principal, bps, custodyFee;
      this.collateralSat, this.rateAtCreation := collateralSat, rateAtCreation;
      status, collateralReceivedAt, repayments := PendingCollateral, None, [];
      repaidAt, liquidatedAt, liquidationRate, releasedAt := None, None, None, None;
      log := [LogEntry(None, PendingCollateral, LoanCreated)];
    }

    /** LoanStatusService.transition: `ok` is false where the service throws. */
    method Transition(from: LoanStatus, target: LoanStatus, reason: Reason) returns (ok: bool)
      modifies this`status, this`log
      ensures ok == Allowed(from, target, reason)
      ensures Row() == if !ok then old(Row()) else old(Row()).(
          status := if from == target then old(status) else target,
          log := old(log) + [LogEntry(Some(from), target, reason)])
    {
      if !Allowed(from, target, reason) {
        return false;
      }
      if from != target {
        status := target;
      }
      log := log + [LogEntry(Some(from), target, reason)];
      return true;
    }

    /** creditInflow, one transaction under the row lock. */
    method CreditInflow(inflowId: nat, amount: real, skipFloor: bool, now: int) returns (result: CreditResult)
      modifies this
      ensures (Row(), result) == Credit(old(Row()), inflowId, amount, skipFloor, now)
      ensures result == Rejected(BelowFloor) <==> !skipFloor && amount < 10000.0
      ensures result == AlreadyRepaid <==> (skipFloor || amount >= 10000.0) && old(status) == Repaid
      ensures result.Credited? <==> (skipFloor || amount >= 10000.0) && old(status) == Active
      ensures result.Rejected? && result.error.NotActive? ==> result.error.status == old(status)
      ensures !result.Credited? ==> Row() == old(Row())
      ensures result.Credited? ==>
                && |repayments| == |old(repayments)| + 1 && repayments[..|old(repayments)|] == old(repayments)
                && repayments[|old(repayments)|].inflowId == inflowId
                && repayments[|old(repayments)|].amount == amount
                && repayments[|old(repayments)|].createdAt == now
                && status == result.status && (status == Repaid || status == Active)
                && repaidAt == (if status == Repaid then Some(now) else old(repaidAt))
                && collateralReceivedAt == old(collateralReceivedAt)
    {
      if !skipFloor && amount < MIN_PARTIAL_REPAYMENT_NGN {
        return Rejected(BelowFloor);
      }
      if status == Repaid {
        return AlreadyRepaid;
      }
      if status != Active {
        return Rejected(NotActive(status));
      }

      var outstanding := Compute(Terms(principal, bps, custodyFee, collateralReceivedAt), repayments, now);
      hide Owed;
      var applied := Waterfall(amount, outstanding);
      hide Split;
      repayments := repayments + [RepaymentRow(inflowId, amount, applied, now)];

      var newOutstandingTotal := outstanding.total - applied.custody - applied.interest - applied.principal;
      var isFullyRepaid := newOutstandingTotal <= 0.0;
      var ok;
      if isFullyRepaid {
        repaidAt := Some(now);
        ok := Transition(status, Repaid, RepaymentCompleted);
      } else {
        ok := Transition(status, Active, RepaymentPartial);
      }
      result := Credited(if isFullyRepaid then Repaid else Active, applied, Max(newOutstandingTotal, 0.0));
    }

    /** activateLoan: a no-op once the loan is past PENDING_COLLATERAL. */
    method Activate(receivedAt: int)
      modifies this
      ensures Row() == Activated(old(Row()), receivedAt)
      ensures old(status) != PendingCollateral ==> Row() == old(Row())
      ensures old(status) == PendingCollateral ==>
                && status == Active && collateralReceivedAt == Some(receivedAt)
                && log == old(log) + [LogEntry(Some(PendingCollateral), Active, CollateralConfirmed)]
                && repayments == old(repayments) && repaidAt == old(repaidAt) && releasedAt == old(releasedAt)
    {
      if status != PendingCollateral {
        return;
      }
      collateralReceivedAt := Some(receivedAt);
      var ok := Transition(status, Active, CollateralConfirmed);
    }

    /** cancelLoan. */
    method Cancel() returns (ok: bool)
      modifies this
      ensures Row() == CancelledByCustomer(old(Row())) && ok == (old(status) == PendingCollateral)
      ensures !ok ==> Row() == old(Row())
      ensures ok ==>
                && status == Cancelled
                && log == old(log) + [LogEntry(Some(PendingCollateral), Cancelled, CustomerCancelled)]
    {
      ok := Transition(status, Cancelled, CustomerCancelled);
    }

    /** The release stamp of collateral-release.service.ts: conditional update plus log row, in one transaction. */
    method StampRelease(now: int) returns (ok: bool)
      modifies this
      ensures Row() == Stamped(old(Row()), now)
      ensures ok == (old(status) == Repaid && old(releasedAt) == None)
      ensures !ok ==> Row() == old(Row())
      ensures ok ==>
                && status == Repaid && releasedAt == Some(now)
                && log == old(log) + [LogEntry(Some(Repaid), Repaid, CollateralReleased)]
    {
      if status != Repaid || releasedAt != None {
        return false;
      }
      releasedAt := Some(now);
      ok := Transition(Repaid, Repaid, CollateralReleased);
    }

    /** liquidateLoan of the monitor: writes status and log itself, without the transition table. */
    method LiquidateLoan(rate: real, now: int)
      modifies this
      ensures Row() == LiquidatedAt(old(Row()), rate, now)
      ensures status == Liquidated && liquidatedAt == Some(now) && liquidationRate == Some(rate)
      ensures log == old(log) + [LogEntry(Some(Active), Liquidated, LiquidationCompleted)]
      ensures repayments == old(repayments) && collateralReceivedAt == old(collateralReceivedAt)
    {
      status, liquidatedAt, liquidationRate := Liquidated, Some(now), Some(rate);
      log := log + [LogEntry(Some(Active), Liquidated, LiquidationCompleted)];
    }

    /** expireLoan of the expiry worker: writes status and log itself. */
    method ExpireLoan()
      modifies this
      ensures Row() == ExpiredUnpaid(old(Row()))
      ensures status == Expired && log == old(log) + [LogEntry(Some(PendingCollateral), Expired, InvoiceExpired)]
    {
      status := Expired;
      log := log + [LogEntry(Some(PendingCollateral), Expired, InvoiceExpired)];
    }

    /** restoreOne of the ops script: the one backward transition. */
    method RestoreOne()
      modifies this
      ensures Row() == Restored(old(Row()))
      ensures status == Active && liquidatedAt == None && liquidationRate == None
      ensures log == old(log) + [LogEntry(Some(Liquidated), Active, LiquidationReversedBadRate)]
      ensures repayments == old(repayments) && collateralReceivedAt == old(collateralReceivedAt)
    {
      status, liquidatedAt, liquidationRate := Active, None, None;
      log := log + [LogEntry(Some(Liquidated), Active, LiquidationReversedBadRate)];
    }
  }

  function NewLoan(principal: real, bps: nat, custodyFee: real, collateralSat: nat, rateAtCreation: real): Loan {
    Loan(principal, bps, custodyFee, collateralSat, rateAtCreation, PendingCollateral, None, [], None, None, None, None,
         [LogEntry(None, PendingCollateral, LoanCreated)])
  }

  function Activated(l: Loan, receivedAt: int): Loan {
    if l.status != PendingCollateral then l
    else Logged(l.(collateralReceivedAt := Some(receivedAt)), PendingCollateral, Active, CollateralConfirmed)
  }

  function CancelledByCustomer(l: Loan): Loan {
    if l.status != PendingCollateral then l else Logged(l, PendingCollateral, Cancelled, CustomerCancelled)
  }

  function Stamped(l: Loan, now: int): Loan {
    if l.status != Repaid || l.releasedAt.Some? then l
    else Logged(l.(releasedAt := Some(now)), Repaid, Repaid, CollateralReleased)
  }

  function LiquidatedAt(l: Loan, rate: real, now: int): Loan {
    Logged(l.(liquidatedAt := Some(now), liquidationRate := Some(rate)), Active, Liquidated, LiquidationCompleted)
  }

  function ExpiredUnpaid(l: Loan): Loan { Logged(l, PendingCollateral, Expired, InvoiceExpired) }

  function Restored(l: Loan): Loan {
    Logged(l.(liquidatedAt := None, liquidationRate := None), Liquidated, Active, LiquidationReversedBadRate)
  }
}
