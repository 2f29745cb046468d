/** What holds of every repayment ledger built by creditInflow, and of each credit. */
module Ledger {
  import opened Options
  import opened Sums
  import opened Accrual
  import opened Loans

  function ToCustody(): Repayment -> real { (r: Repayment) => r.toCustody }
  function ToOverpay(): Repayment -> real { (r: Repayment) => r.overpay }
  function ToAmount(): Repayment -> real { (r: Repayment) => r.amount }

  function PaidPrincipal(l: Loan): real { Sum(ToPrincipal(), l.repayments) }
  function PaidInterest(l: Loan): real { Sum(ToInterest(), l.repayments) }
  function Gross(l: Loan, asOf: int): real { GrossInterest(l.Accruing(), l.repayments, asOf) }

  /** A repayment row whose parts are non-negative and add up to the amount received. */
  predicate RowSound(r: Repayment) {
    && r.toCustody >= 0.0 && r.toInterest >= 0.0 && r.toPrincipal >= 0.0 && r.overpay >= 0.0
    && r.amount == r.toCustody + r.toInterest + r.toPrincipal + r.overpay
  }

  predicate RowsSound(reps: seq<Repayment>, t: int) {
    forall r :: r in reps ==> RowSound(r) && r.createdAt <= t
  }

  /** The ledger invariant, at an instant `t` not before any repayment. */
  predicate Sound(l: Loan, t: int) {
    && l.principal > 0.0
    && RowsSound(l.repayments, t)
    && PaidPrincipal(l) <= l.principal
    && PaidInterest(l) <= Gross(l, t)
    && (l.collateralReceivedAt.None? ==> l.repayments == [] && l.status in {PendingCollateral, Expired, Cancelled})
    && (l.status == PendingCollateral ==> l.repayments == [])
    && (l.status in {Active, Liquidated} ==> PaidPrincipal(l) < l.principal)
    && (l.status == Repaid ==> Settled(l))
    && (forall i :: 0 <= i < |l.repayments| && l.repayments[i].overpay > 0.0 ==>
          i == |l.repayments| - 1 && l.status == Repaid)
  }

  /** Principal and interest were paid exactly, as of the instant the loan closed. */
  predicate Settled(l: Loan) {
    && l.repaidAt.Some?
    && PaidPrincipal(l) == l.principal
    && PaidInterest(l) == Gross(l, l.repaidAt.value)
  }

  // ── Interest never goes backwards ──────────────────────────────────────────

  lemma ChargedWithin(terms: Terms, start: int, reps: seq<Repayment>, d: int)
    requires forall r :: r in reps ==> r.toPrincipal >= 0.0
    ensures terms.principal - Sum(ToPrincipal(), reps) <= ChargedPrincipal(terms, start, reps, d) <= terms.principal
  {
    SumMonotone(PrincipalByDay(start, d), ToPrincipal(), reps);
    SumNonNegative(PrincipalByDay(start, d), reps);
  }

  lemma {:induction false} DaySumMonotone(terms: Terms, start: int, reps: seq<Repayment>, m: nat, n: nat)
    requires m <= n
    requires forall r :: r in reps ==> r.toPrincipal >= 0.0
    requires Sum(ToPrincipal(), reps) <= terms.principal
    ensures DaySum(terms, start, reps, m) <= DaySum(terms, start, reps, n)
    decreases n
  {
    hide DayInterest;
    if m < n {
      DaySumMonotone(terms, start, reps, m, n - 1);
      ChargedWithin(terms, start, reps, n - 1);
      DayInterestNonNegative(Rate(terms), ChargedPrincipal(terms, start, reps, n - 1));
    }
  }

  lemma DayInterestNonNegative(rate: real, principal: real)
    requires rate >= 0.0 && principal >= 0.0
    ensures DayInterest(rate, principal) >= 0.0
  {
  }

  /** Gross interest never falls as time passes. */
  lemma GrossMonotone(l: Loan, t: int, u: int)
    requires Sound(l, t) && t <= u
    ensures Gross(l, t) <= Gross(l, u)
  {
    if l.collateralReceivedAt.Some? {
      var start := l.collateralReceivedAt.value;
      CeilDaysMonotone(start, t, u);
      DaySumMonotone(l.Accruing(), start, l.repayments, CeilDays(start, t), CeilDays(start, u));
    }
  }

  /** The invariant survives the passing of time. */
  lemma SoundLater(l: Loan, t: int, u: int)
    requires Sound(l, t) && t <= u
    ensures Sound(l, u)
  {
    GrossMonotone(l, t, u);
  }

  lemma LandedIsPaid(reps: seq<Repayment>, t: int)
    requires forall r :: r in reps ==> r.createdAt <= t
    ensures Sum(PrincipalLanded(t), reps) == Sum(ToPrincipal(), reps)
    ensures Sum(InterestLanded(t), reps) == Sum(ToInterest(), reps)
  {
    SumCongruent(PrincipalLanded(t), ToPrincipal(), reps);
    SumCongruent(InterestLanded(t), ToInterest(), reps);
  }

  /** On a ledger built by creditInflow neither floor at zero ever bites. */
  lemma FloorsNeverBite(l: Loan, t: int, asOf: int)
    requires Sound(l, t) && t <= asOf
    ensures l.OwedAt(asOf).principal == l.principal - PaidPrincipal(l)
    ensures l.OwedAt(asOf).interest == Gross(l, asOf) - PaidInterest(l)
    ensures l.OwedAt(asOf).custody == 0.0
  {
    GrossMonotone(l, t, asOf);
    LandedIsPaid(l.repayments, asOf);
    if l.collateralReceivedAt.None? {
      assert l.repayments == [];
    }
  }

  /** An ACTIVE loan always owes principal, so dividing by its balance is defined. */
  lemma ActiveOwesPrincipal(l: Loan, t: int, asOf: int)
    requires Sound(l, t) && t <= asOf && l.status == Active
    ensures l.OwedAt(asOf).principal > 0.0
    ensures l.OwedAt(asOf).total > 0.0
  {
    FloorsNeverBite(l, t, asOf);
  }

  // ── A repayment made now does not change today's interest ──────────────────

  lemma {:induction false} DaySumIgnoresLateRow(terms: Terms, start: int, reps: seq<Repayment>, r: Repayment, n: nat)
    requires n <= CeilDays(start, r.createdAt)
    ensures DaySum(terms, start, reps + [r], n) == DaySum(terms, start, reps, n)
  {
    forall d | 0 <= d < n
      ensures ChargedPrincipal(terms, start, reps + [r], d) == ChargedPrincipal(terms, start, reps, d)
    {
      SumAppend(PrincipalByDay(start, d), reps, r);
    }
    DaySumCongruent(terms, start, reps + [r], reps, n);
  }

  lemma GrossIgnoresRowOfNow(terms: Terms, reps: seq<Repayment>, r: Repayment, now: int)
    requires r.createdAt == now
    ensures GrossInterest(terms, reps + [r], now) == GrossInterest(terms, reps, now)
  {
    if terms.start.Some? {
      DaySumIgnoresLateRow(terms, terms.start.value, reps, r, CeilDays(terms.start.value, now));
    }
  }

  /** Component by component, what is re-derived right after a repayment row of `now` is appended. */
  lemma OwedAfterRowOfNow(terms: Terms, reps: seq<Repayment>, r: Repayment)
    requires terms.start.Some?
    ensures var before, after := Owed(terms, reps, r.createdAt), Owed(terms, reps + [r], r.createdAt);
            && 0.0 <= before.principal && 0.0 <= before.interest && before.custody == 0.0
            && before.total == before.principal + before.interest
            && (r.toPrincipal <= before.principal && 0.0 <= r.toPrincipal ==>
                  after.principal == before.principal - r.toPrincipal)
            && (r.toInterest <= before.interest && 0.0 <= r.toInterest ==>
                  after.interest == before.interest - r.toInterest)
            && after.custody == 0.0
  {
    var now := r.createdAt;
    GrossIgnoresRowOfNow(terms, reps, r, now);
    SumAppend(PrincipalLanded(now), reps, r);
    SumAppend(InterestLanded(now), reps, r);
  }

  /** Whether the balance a credit reports is the one accrual re-derives from the extended ledger. */
  predicate BalanceAgrees(l: Loan, inflowId: nat, amount: real, skipFloor: bool, now: int) {
    var (credited, result) := Credit(l, inflowId, amount, skipFloor, now);
    result.Credited? ==>
      var before, after := l.OwedAt(now), credited.OwedAt(now);
      && after.principal == before.principal - result.applied.principal
      && after.interest == before.interest - result.applied.interest
      && after.custody == before.custody - result.applied.custody
      && after.total == result.outstanding
  }

  /**
   * On any ledger whatever, sound or not: a credit that goes through reports the balance that accrual
   * re-derives at the same instant, component by component, exactly when the amount is not negative.
   */
  lemma CreditReportsRederivedBalance(l: Loan, inflowId: nat, amount: real, skipFloor: bool, now: int)
    requires l.status == Active && l.collateralReceivedAt.Some?
    requires skipFloor || amount >= MIN_PARTIAL_REPAYMENT_NGN
    ensures BalanceAgrees(l, inflowId, amount, skipFloor, now) <==> amount >= 0.0
  {
    var before := l.OwedAt(now);
    var s := Split(amount, before);
    var row := RepaymentRow(inflowId, amount, s, now);
    OwedAfterRowOfNow(l.Accruing(), l.repayments, row);
    assert Credit(l, inflowId, amount, skipFloor, now).0.OwedAt(now) == Owed(l.Accruing(), l.repayments + [row], now);
    if amount >= 0.0 {
      WaterfallFillsInOrder(amount, before);
    }
  }

  // ── Crediting keeps the ledger sound ───────────────────────────────────────

  lemma CreditKeepsSound(l: Loan, t: int, inflowId: nat, amount: real, skipFloor: bool, now: int)
    requires Sound(l, t) && t <= now && amount >= 0.0
    ensures Sound(Credit(l, inflowId, amount, skipFloor, now).0, now)
  {
    SoundLater(l, t, now);
    var (credited, result) := Credit(l, inflowId, amount, skipFloor, now);
    if result.Credited? {
      var before := l.OwedAt(now);
      var s := Split(amount, before);
      var row := RepaymentRow(inflowId, amount, s, now);
      FloorsNeverBite(l, t, now);
      WaterfallFillsInOrder(amount, before);
      SumAppend(ToPrincipal(), l.repayments, row);
      SumAppend(ToInterest(), l.repayments, row);
      GrossIgnoresRowOfNow(l.Accruing(), l.repayments, row, now);
      assert credited.repayments == l.repayments + [row];
    }
  }

  /** A loan becomes REPAID exactly when the amount covers everything owed at that instant. */
  lemma ClosesExactlyWhenCovered(l: Loan, inflowId: nat, amount: real, skipFloor: bool, now: int)
    requires l.status == Active && l.collateralReceivedAt.Some?
    requires skipFloor || amount >= MIN_PARTIAL_REPAYMENT_NGN
    ensures Credit(l, inflowId, amount, skipFloor, now).0.status == Repaid <==> amount >= l.OwedAt(now).total
  {
  }

  /** Money in equals money accounted for, over the whole history of the loan. */
  lemma {:induction false} LedgerConserves(reps: seq<Repayment>, t: int)
    requires RowsSound(reps, t)
    ensures Sum(ToAmount(), reps)
         == Sum(ToCustody(), reps) + Sum(ToInterest(), reps) + Sum(ToPrincipal(), reps) + Sum(ToOverpay(), reps)
  {
    if reps != [] {
      LedgerConserves(reps[1..], t);
    }
  }

  // ── Two credits of one day bucket equal one credit of their sum ────────────

  predicate SameBucket(l: Loan, t: int, u: int) {
    && l.collateralReceivedAt.Some?
    && CeilDays(l.collateralReceivedAt.value, t) == CeilDays(l.collateralReceivedAt.value, u)
  }

  /** One credit as it is asked for: the floor waived, as a claim does, or not, as the webhook does. */
  datatype Ask = Ask(inflow: nat, amount: real, skipFloor: bool, now: int)

  predicate MeetsFloor(c: Ask) { c.skipFloor || c.amount >= MIN_PARTIAL_REPAYMENT_NGN }

  function Answered(l: Loan, c: Ask): Loan { Credit(l, c.inflow, c.amount, c.skipFloor, c.now).0 }

  function TwoCredits(l: Loan, a: Ask, b: Ask): Loan { Answered(Answered(l, a), b) }

  function Total(s: Applied, u: Applied): Applied {
    Applied(s.custody + u.custody, s.interest + u.interest, s.principal + u.principal, s.overpay + u.overpay)
  }

  /** Within one bucket and with no repayment in between, the balance does not move. */
  lemma OwedWithinBucket(l: Loan, t: int, u: int)
    requires t <= u && SameBucket(l, t, u)
    requires forall r :: r in l.repayments ==> r.createdAt <= t
    ensures l.OwedAt(u) == l.OwedAt(t).(asOf := u)
  {
    LandedIsPaid(l.repayments, t);
    LandedIsPaid(l.repayments, u);
  }

  /** Splitting a + b is splitting a, then b over what a leaves. */
  lemma SplitInTwo(a: real, b: real, owed: Outstanding, left: Outstanding)
    requires a >= 0.0 && b >= 0.0
    requires owed.custody >= 0.0 && owed.interest >= 0.0 && owed.principal >= 0.0
    requires left.custody == owed.custody - Split(a, owed).custody
    requires left.interest == owed.interest - Split(a, owed).interest
    requires left.principal == owed.principal - Split(a, owed).principal
    requires a < owed.custody + owed.interest + owed.principal
    ensures Split(a + b, owed) == Total(Split(a, owed), Split(b, left))
  {
  }

  /** Rows of one bucket take principal off on the same days, however the amount is cut into rows. */
  lemma {:induction false} DaySumOfCutRow(terms: Terms, start: int, reps: seq<Repayment>,
                                          r: Repayment, s: Repayment, whole: Repayment, n: nat)
    requires CeilDays(start, r.createdAt) == CeilDays(start, s.createdAt) == CeilDays(start, whole.createdAt)
    requires whole.toPrincipal == r.toPrincipal + s.toPrincipal
    ensures DaySum(terms, start, reps + [r] + [s], n) == DaySum(terms, start, reps + [whole], n)
  {
    forall d | 0 <= d < n
      ensures ChargedPrincipal(terms, start, reps + [r] + [s], d) == ChargedPrincipal(terms, start, reps + [whole], d)
    {
      SumAppend(PrincipalByDay(start, d), reps + [r], s);
      SumAppend(PrincipalByDay(start, d), reps, r);
      SumAppend(PrincipalByDay(start, d), reps, whole);
    }
    DaySumCongruent(terms, start, reps + [r] + [s], reps + [whole], n);
  }

  lemma OwedOfCutRow(terms: Terms, reps: seq<Repayment>, r: Repayment, s: Repayment, whole: Repayment, asOf: int)
    requires terms.start.Some?
    requires CeilDays(terms.start.value, r.createdAt) == CeilDays(terms.start.value, s.createdAt)
    requires r.createdAt <= s.createdAt == whole.createdAt <= asOf
    requires whole.toPrincipal == r.toPrincipal + s.toPrincipal
    requires whole.toInterest == r.toInterest + s.toInterest
    ensures Owed(terms, reps + [r] + [s], asOf) == Owed(terms, reps + [whole], asOf)
  {
    DaySumOfCutRow(terms, terms.start.value, reps, r, s, whole, CeilDays(terms.start.value, asOf));
    SumAppend(PrincipalLanded(asOf), reps + [r], s);
    SumAppend(PrincipalLanded(asOf), reps, r);
    SumAppend(PrincipalLanded(asOf), reps, whole);
    SumAppend(InterestLanded(asOf), reps + [r], s);
    SumAppend(InterestLanded(asOf), reps, r);
    SumAppend(InterestLanded(asOf), reps, whole);
  }

  /**
   * Two credits a then b in one day bucket, with a below the balance, each past the floor or waiving it: the two splits
   * add up to the split of one credit of a + b, and from then on the status and the balance are the same at every later
   * instant.
   */
  lemma TwoCreditsAreOne(l: Loan, a: Ask, b: Ask, whole: Ask, asOf: int)
    requires l.status == Active && a.now <= b.now == whole.now <= asOf && SameBucket(l, a.now, b.now)
    requires forall r :: r in l.repayments ==> r.createdAt <= a.now
    requires 0.0 <= a.amount < l.OwedAt(a.now).total && 0.0 <= b.amount && whole.amount == a.amount + b.amount
    requires MeetsFloor(a) && MeetsFloor(b) && MeetsFloor(whole)
    ensures var first, one, both := Answered(l, a), Answered(l, whole), TwoCredits(l, a, b);
            && Split(whole.amount, l.OwedAt(b.now))
               == Total(Split(a.amount, l.OwedAt(a.now)), Split(b.amount, first.OwedAt(b.now)))
            && both.status == one.status
            && both.repaidAt == one.repaidAt
            && both.OwedAt(asOf) == one.OwedAt(asOf)
  {
    var rowA := RepaymentRow(a.inflow, a.amount, Split(a.amount, l.OwedAt(a.now)), a.now);
    var first := Answered(l, a);
    FirstOfTwo(l, a, b.now);
    SplitInTwo(a.amount, b.amount, l.OwedAt(b.now), first.OwedAt(b.now));
    var rowB := RepaymentRow(b.inflow, b.amount, Split(b.amount, first.OwedAt(b.now)), b.now);
    var rowWhole := RepaymentRow(whole.inflow, whole.amount, Split(whole.amount, l.OwedAt(b.now)), b.now);
    OwedOfCutRow(l.Accruing(), l.repayments, rowA, rowB, rowWhole, asOf);
    AnsweredIs(l, a);
    AnsweredIs(first, b);
    AnsweredIs(l, whole);
    hide Split, Owed, Answered;
  }

  /** A credit past the floor of an ACTIVE loan appends its row, and closes the loan if nothing is left. */
  lemma AnsweredIs(l: Loan, c: Ask)
    requires l.status == Active && MeetsFloor(c)
    ensures var s, next := Split(c.amount, l.OwedAt(c.now)), Answered(l, c);
            && next.repayments == l.repayments + [RepaymentRow(c.inflow, c.amount, s, c.now)]
            && next.Accruing() == l.Accruing()
            && next.status == (if Left(l.OwedAt(c.now), s) <= 0.0 then Repaid else Active)
            && next.repaidAt == (if Left(l.OwedAt(c.now), s) <= 0.0 then Some(c.now) else l.repaidAt)
  {
    hide Split, Owed, Left;
  }

  /** What the first of the two credits leaves to split at `u`. */
  lemma FirstOfTwo(l: Loan, a: Ask, u: int)
    requires l.status == Active && a.now <= u && SameBucket(l, a.now, u) && MeetsFloor(a)
    requires forall r :: r in l.repayments ==> r.createdAt <= a.now
    requires 0.0 <= a.amount < l.OwedAt(a.now).total
    ensures var first, owed, s := Answered(l, a), l.OwedAt(a.now), Split(a.amount, l.OwedAt(a.now));
            && first.repayments == l.repayments + [RepaymentRow(a.inflow, a.amount, s, a.now)]
            && first.status == Active && first.repaidAt == l.repaidAt && first.Accruing() == l.Accruing()
            && l.OwedAt(u) == owed.(asOf := u)
            && owed.custody == 0.0 && owed.interest >= 0.0 && owed.principal >= 0.0
            && owed.total == owed.interest + owed.principal
            && first.OwedAt(u).custody == owed.custody - s.custody
            && first.OwedAt(u).interest == owed.interest - s.interest
            && first.OwedAt(u).principal == owed.principal - s.principal
            && first.OwedAt(u).total == owed.total - s.interest - s.principal
  {
    var owed := l.OwedAt(a.now);
    var row := RepaymentRow(a.inflow, a.amount, Split(a.amount, owed), a.now);
    OwedWithinBucket(l, a.now, u);
    OwedAfterRowOfNow(l.Accruing(), l.repayments, row);
    WaterfallFillsInOrder(a.amount, owed);
    var first := Answered(l, a);
    assert first.repayments == l.repayments + [row] && first.status == Active;
    OwedWithinBucket(first, a.now, u);
    OwedTotals(first, u);
  }

  lemma OwedTotals(l: Loan, asOf: int)
    requires l.collateralReceivedAt.Some?
    ensures l.OwedAt(asOf).total == l.OwedAt(asOf).principal + l.OwedAt(asOf).interest
    ensures l.OwedAt(asOf).custody == 0.0
  {
  }
}
