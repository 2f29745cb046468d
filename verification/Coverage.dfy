/**
 * Collateral sizing (src/modules/loans/calculator.service.ts), the liquidation decision
 * (workers/liquidation-monitor.worker.ts) and the bad-rate restore test
 * (scripts/restore-bad-rate-liquidations.ts), and the bounds that hold across the three.
 */
module Coverage {
  import opened Options
  import opened Sums
  import opened Accrual
  import opened Loans
  import opened Ledger

  const LOAN_LTV_PERCENT: real := 0.60
  const LIQUIDATION_THRESHOLD: real := 1.10
  const ALERT_THRESHOLD: real := 1.20
  const MIN_LIQUIDATION_RATE_FRACTION: real := 0.5
  const DAILY_INTEREST_RATE_BPS: nat := 30
  const MIN_LOAN_NGN: real := 10000.0
  const MAX_SELFSERVE_LOAN_NGN: real := 10000000.0
  const ORIGINATION_FEE_PER_100K_NGN: real := 0.0
  const HUNDRED_K_NGN: real := 100000.0
  const SATS_PER_BTC: real := 100000000.0

  // ── Calculator ─────────────────────────────────────────────────────────────

  datatype QuoteError = PriceFeedStale | AmountTooLow | AmountTooHigh

  datatype Quote = Quote(
    principal: real,
    originationFee: real,
    dailyInterestBps: nat,
    dailyInterest: real,
    collateralSat: nat,
    initialCollateralUsd: real,
    rateAtCreation: real,
    amountToReceive: real,
    initialLiquidationRate: real,
    initialAlertRate: real)

  datatype QuoteResult = Quoted(quote: Quote) | Refused(error: QuoteError)

  function Ceil(x: real): int { if x.Floor as real == x then x.Floor else x.Floor + 1 }

  /** SAT that cover principal / LTV at `rate`, rounded up in the lender's favour. */
  function CollateralFor(principal: real, rate: real): (sat: nat)
    requires principal > 0.0 && rate > 0.0
  {
    Ceil(principal / LOAN_LTV_PERCENT / rate)
  }

  function Calculate(principal: real, satNgnRate: real, btcUsdRate: real): QuoteResult {
    if satNgnRate <= 0.0 || btcUsdRate <= 0.0 then Refused(PriceFeedStale)
    else if principal < MIN_LOAN_NGN then Refused(AmountTooLow)
    else if principal > MAX_SELFSERVE_LOAN_NGN then Refused(AmountTooHigh)
    else
      var sat := CollateralFor(principal, satNgnRate);
      var fee := Ceil(principal / HUNDRED_K_NGN) as real * ORIGINATION_FEE_PER_100K_NGN;
      CollateralPositive(principal, satNgnRate);
      Quoted(Quote(
        principal,
        fee,
        DAILY_INTEREST_RATE_BPS,
        principal * DAILY_INTEREST_RATE_BPS as real / BPS_DENOMINATOR,
        sat,
        sat as real / SATS_PER_BTC * btcUsdRate,
        satNgnRate,
        principal - fee,
        ThresholdRate(principal, LIQUIDATION_THRESHOLD, sat as real),
        ThresholdRate(principal, ALERT_THRESHOLD, sat as real)))
  }

  function ThresholdRate(principal: real, threshold: real, sat: real): real
    requires sat > 0.0
  {
    principal * threshold / sat
  }

  /** Collateral over debt on day 0, before any interest. */
  function DayZeroRatio(sat: real, rate: real, principal: real): real
    requires principal > 0.0
  {
    sat * rate / principal
  }

  /** Worth at least principal / LTV. */
  predicate Covers(sat: real, rate: real, principal: real) { sat * rate * LOAN_LTV_PERCENT >= principal }

  lemma CollateralPositive(principal: real, rate: real)
    requires principal > 0.0 && rate > 0.0
    ensures CollateralFor(principal, rate) > 0
  {
    var exact := principal / LOAN_LTV_PERCENT / rate;
    assert exact > 0.0;
  }

  /** The collateral is the least whole number of SAT worth at least principal / LTV. */
  lemma CollateralIsLeast(principal: real, rate: real, sat: nat)
    requires principal > 0.0 && rate > 0.0
    ensures sat >= CollateralFor(principal, rate) <==> sat as real * rate * LOAN_LTV_PERCENT >= principal
    ensures sat >= CollateralFor(principal, rate) <==> 3.0 * (sat as real * rate) >= 5.0 * principal
  {
    var value := principal / LOAN_LTV_PERCENT;
    CeilIsLeast(value / rate, sat);
    QuotientBelow(value, rate, sat as real);
    QuotientBelow(principal, LOAN_LTV_PERCENT, sat as real * rate);
  }

  lemma CeilIsLeast(x: real, n: int)
    ensures Ceil(x) <= n <==> x <= n as real
  {
  }

  /**
   * What a quote discloses: the fee and the net payout make up the principal; the collateral is the least that covers
   * the loan-to-value; and on day 0 the two displayed rates are exactly the highest rates at which the collateral is
   * worth no more than the liquidation and the alert threshold.
   */
  lemma QuoteDiscloses(principal: real, satNgnRate: real, btcUsdRate: real, rate: real)
    requires Calculate(principal, satNgnRate, btcUsdRate).Quoted?
    ensures var q := Calculate(principal, satNgnRate, btcUsdRate).quote;
            var sat := q.collateralSat as real;
            && q.originationFee + q.amountToReceive == q.principal == principal > 0.0
            && Covers(sat, q.rateAtCreation, principal) && !Covers(sat - 1.0, q.rateAtCreation, principal)
            && (DayZeroRatio(sat, rate, principal) <= 1.10 <==> rate <= q.initialLiquidationRate)
            && (DayZeroRatio(sat, rate, principal) <= 1.20 <==> rate <= q.initialAlertRate)
            && q.originationFee == 0.0 && q.rateAtCreation == satNgnRate && q.dailyInterestBps == 30
            && 1000.0 * q.dailyInterest == 3.0 * principal
            && q.initialCollateralUsd * 100_000_000.0 == sat * btcUsdRate
  {
    hide CollateralFor, ThresholdRate, DayZeroRatio, Covers;
    var sat := CollateralFor(principal, satNgnRate);
    CollateralTight(principal, satNgnRate);
    RateAtThreshold(rate, sat as real, principal, LIQUIDATION_THRESHOLD);
    RateAtThreshold(rate, sat as real, principal, ALERT_THRESHOLD);
  }

  /** Which requests get a quote, and why the others do not. */
  lemma QuotesExactlyWhen(principal: real, satNgnRate: real, btcUsdRate: real)
    ensures var result := Calculate(principal, satNgnRate, btcUsdRate);
            && (result.Quoted? <==> satNgnRate > 0.0 && btcUsdRate > 0.0 && 10_000.0 <= principal <= 10_000_000.0)
            && (result == Refused(PriceFeedStale) <==> satNgnRate <= 0.0 || btcUsdRate <= 0.0)
            && (result == Refused(AmountTooLow) <==> satNgnRate > 0.0 && btcUsdRate > 0.0 && principal < 10_000.0)
            && (result == Refused(AmountTooHigh) <==> satNgnRate > 0.0 && btcUsdRate > 0.0 && principal > 10_000_000.0)
  {
    hide CollateralFor, ThresholdRate;
  }

  lemma CollateralTight(principal: real, rate: real)
    requires principal > 0.0 && rate > 0.0
    ensures var sat := CollateralFor(principal, rate);
            sat > 0 && Covers(sat as real, rate, principal) && !Covers(sat as real - 1.0, rate, principal)
  {
    hide CollateralFor;
    var sat := CollateralFor(principal, rate);
    CollateralPositive(principal, rate);
    CollateralIsLeast(principal, rate, sat);
    CollateralIsLeast(principal, rate, sat - 1);
    assert (sat - 1) as real == sat as real - 1.0;
  }

  lemma RateAtThreshold(rate: real, sat: real, principal: real, threshold: real)
    requires sat > 0.0 && principal > 0.0
    ensures DayZeroRatio(sat, rate, principal) <= threshold <==> rate <= ThresholdRate(principal, threshold, sat)
  {
    QuotientBelow(sat * rate, principal, threshold);
    QuotientAbove(principal * threshold, sat, rate);
  }

  lemma QuotientBelow(a: real, b: real, c: real)
    requires b > 0.0
    ensures a / b <= c <==> a <= c * b
  {
    QuotientBetween(a, b, c, a / b);
  }

  lemma QuotientAbove(a: real, b: real, c: real)
    requires b > 0.0
    ensures c <= a / b <==> c * b <= a
  {
    QuotientBetween(a, b, c, a / b);
  }

  lemma QuotientBetween(a: real, b: real, c: real, q: real)
    requires b > 0.0 && q * b == a
    ensures q <= c <==> a <= c * b
    ensures c <= q <==> c * b <= a
  {
    if q < c {
      ScaleUpStrict(q, c, b);
    } else if c < q {
      ScaleUpStrict(c, q, b);
    }
  }

  lemma ScaleUp(a: real, b: real, factor: real)
    requires a <= b && factor >= 0.0
    ensures a * factor <= b * factor
  {
  }

  lemma ScaleUpStrict(a: real, b: real, factor: real)
    requires a < b && factor > 0.0
    ensures a * factor < b * factor
  {
  }

  // ── Monitor decision for one ACTIVE loan ───────────────────────────────────

  datatype Verdict = RateSuspect | Liquidate | Watch(ratio: real)

  function CollateralValue(l: Loan, rate: real): real { l.collateralSat as real * rate }

  function SanityFloor(l: Loan): real { l.rateAtCreation * MIN_LIQUIDATION_RATE_FRACTION }

  /** What one monitor cycle decides about a loan it selected; the balance is the divisor. */
  function Decide(l: Loan, rate: real, asOf: int): Verdict
    requires l.OwedAt(asOf).total != 0.0
  {
    var ratio := CollateralValue(l, rate) / l.OwedAt(asOf).total;
    if rate < SanityFloor(l) then RateSuspect
    else if ratio <= LIQUIDATION_THRESHOLD then Liquidate
    else Watch(ratio)
  }

  /** The restore script's test on a LIQUIDATED loan. */
  predicate BadRate(l: Loan) {
    l.liquidationRate.None? || l.liquidationRate.value < SanityFloor(l)
  }

  /**
   * The decision in the loan's own numbers: of a loan that owes something, LIQUIDATE exactly at half the creation rate
   * or more and at a coverage of 1.10 or less; the rate is suspect exactly below half; and a loan that is watched
   * carries its coverage.
   */
  lemma DecidesExactlyWhen(l: Loan, rate: real, asOf: int)
    requires l.OwedAt(asOf).total > 0.0
    ensures var owed, value := l.OwedAt(asOf).total, l.collateralSat as real * rate;
            && (Decide(l, rate, asOf) == Liquidate <==> 2.0 * rate >= l.rateAtCreation && 10.0 * value <= 11.0 * owed)
            && (Decide(l, rate, asOf) == RateSuspect <==> 2.0 * rate < l.rateAtCreation)
            && (Decide(l, rate, asOf).Watch? ==> Decide(l, rate, asOf).ratio * owed == value)
  {
    hide Owed;
    var owed, value := l.OwedAt(asOf).total, CollateralValue(l, rate);
    QuotientBelow(value, owed, LIQUIDATION_THRESHOLD);
    assert value / owed * owed == value;
  }

  /** The restore script takes a LIQUIDATED loan exactly if its rate is missing or below half the creation rate. */
  lemma BadRateExactlyWhen(l: Loan)
    ensures BadRate(l) <==> l.liquidationRate == None || 2.0 * l.liquidationRate.value < l.rateAtCreation
  {
  }

  // ── Bounds ─────────────────────────────────────────────────────────────────

  /** The loan was opened with the calculator's terms and collateral. */
  predicate Originated(l: Loan) {
    && l.principal > 0.0 && l.rateAtCreation > 0.0
    && l.bps == DAILY_INTEREST_RATE_BPS
    && l.collateralSat == CollateralFor(l.principal, l.rateAtCreation)
  }

  predicate PartsNonNegative(reps: seq<Repayment>) {
    forall r :: r in reps ==> r.toPrincipal >= 0.0 && r.toInterest >= 0.0
  }

  lemma {:induction false} DaySumAtMostSimple(terms: Terms, start: int, reps: seq<Repayment>, n: nat)
    requires forall r :: r in reps ==> r.toPrincipal >= 0.0
    ensures DaySum(terms, start, reps, n) <= SegmentInterest(terms.principal, Rate(terms), n)
  {
    hide SegmentInterest, DayInterest;
    if n > 0 {
      DaySumAtMostSimple(terms, start, reps, n - 1);
      ChargedWithin(terms, start, reps, n - 1);
      DayInterestMonotone(Rate(terms), ChargedPrincipal(terms, start, reps, n - 1), terms.principal);
      OneMoreDay(terms.principal, Rate(terms), n - 1);
      if n == 1 { OneMoreDay(terms.principal, Rate(terms), 0); }
    } else {
      NoDays(terms.principal, Rate(terms));
    }
  }

  lemma DayInterestMonotone(rate: real, a: real, b: real)
    requires rate >= 0.0 && a <= b
    ensures DayInterest(rate, a) <= DayInterest(rate, b)
  {
  }

  lemma NoDays(principal: real, rate: real)
    ensures SegmentInterest(principal, rate, 0) == 0.0
  {
  }

  /** Whatever was repaid, in whatever order, the balance is at most principal plus simple interest on all of it. */
  lemma OwedAtMostSimple(l: Loan, asOf: int)
    requires l.principal >= 0.0 && PartsNonNegative(l.repayments) && l.collateralReceivedAt.Some?
    ensures l.OwedAt(asOf).total
         <= l.principal + SegmentInterest(l.principal, Rate(l.Accruing()), CeilDays(l.collateralReceivedAt.value, asOf))
  {
    var n := CeilDays(l.collateralReceivedAt.value, asOf);
    SumNonNegative(PrincipalLanded(asOf), l.repayments);
    SumNonNegative(InterestLanded(asOf), l.repayments);
    DaySumAtMostSimple(l.Accruing(), l.collateralReceivedAt.value, l.repayments, n);
    SimpleInterestNonNegative(l.principal, Rate(l.Accruing()), n);
  }

  lemma SimpleInterestNonNegative(principal: real, rate: real, n: nat)
    requires principal >= 0.0 && rate >= 0.0
    ensures SegmentInterest(principal, rate, n) >= 0.0
  {
  }

  /** principal * (1 + 0.003 * 171) * 1.10 < principal / 0.60 */
  lemma FirstHundredSeventyOneDays(principal: real, n: nat)
    requires principal > 0.0 && n <= 171
    ensures (principal + SegmentInterest(principal, 30.0 / BPS_DENOMINATOR, n)) * LIQUIDATION_THRESHOLD * LOAN_LTV_PERCENT
          < principal
  {
    var perDay := principal * 0.003;
    assert principal * (30.0 / BPS_DENOMINATOR) == perDay;
    assert SegmentInterest(principal, 30.0 / BPS_DENOMINATOR, n) == n as real * perDay;
    ScaleUp(n as real, 171.0, perDay);
  }

  lemma RatioAbove(value: real, total: real, threshold: real)
    requires total > 0.0 && value > total * threshold
    ensures value / total > threshold
  {
    assert value / total * total == value;
    if value / total <= threshold {
      ScaleUp(value / total, threshold, total);
    }
  }

  /**
   * While the sell rate stays at or above the creation rate, no loan, with any repayment history, is liquidated
   * in its first 171 day buckets.
   */
  lemma NoEarlyLiquidation(l: Loan, rate: real, asOf: int)
    requires Originated(l) && PartsNonNegative(l.repayments) && l.collateralReceivedAt.Some?
    requires l.OwedAt(asOf).total > 0.0
    requires rate >= l.rateAtCreation
    requires CeilDays(l.collateralReceivedAt.value, asOf) <= 171
    ensures Decide(l, rate, asOf).Watch?
  {
    hide SegmentInterest, DaySum, Sum;
    var n := CeilDays(l.collateralReceivedAt.value, asOf);
    var total := l.OwedAt(asOf).total;
    OwedAtMostSimple(l, asOf);
    FirstHundredSeventyOneDays(l.principal, n);
    CollateralIsLeast(l.principal, l.rateAtCreation, l.collateralSat);
    ScaleUp(l.rateAtCreation, rate, l.collateralSat as real);
    assert CollateralValue(l, rate) * LOAN_LTV_PERCENT >= l.principal;
    RatioAbove(CollateralValue(l, rate), total, LIQUIDATION_THRESHOLD);
  }

  /** With nothing repaid, the balance is principal plus simple interest: the bound above is attained. */
  lemma OwedWithoutRepayments(l: Loan, asOf: int)
    requires l.principal >= 0.0 && l.repayments == [] && l.collateralReceivedAt.Some?
    ensures l.OwedAt(asOf).total
         == l.principal + SegmentInterest(l.principal, Rate(l.Accruing()), CeilDays(l.collateralReceivedAt.value, asOf))
  {
    var start, n := l.collateralReceivedAt.value, CeilDays(l.collateralReceivedAt.value, asOf);
    forall d | 0 <= d < n ensures ChargedPrincipal(l.Accruing(), start, [], d) == l.principal {
    }
    DaySumSegment(l.Accruing(), start, [], 0, n, l.principal);
    SimpleInterestNonNegative(l.principal, Rate(l.Accruing()), n);
    NoDays(l.principal, Rate(l.Accruing()));
  }

  /** Day 172 is too late for some loan: the bound of 171 days is the best possible. */
  lemma HundredSeventyTwoDaysCanLiquidate(l: Loan)
    requires l == NewLoan(60000.0, 30, 0.0, 100000, 1.0).(status := Active, collateralReceivedAt := Some(0))
    ensures Originated(l)
    ensures CeilDays(0, 172 * MS_PER_DAY) == 172
    ensures l.OwedAt(172 * MS_PER_DAY).total == 90960.0
    ensures Decide(l, l.rateAtCreation, 172 * MS_PER_DAY) == Liquidate
  {
    hide DaySum;
    OwedWithoutRepayments(l, 172 * MS_PER_DAY);
    assert CollateralValue(l, 1.0) / 90960.0 <= LIQUIDATION_THRESHOLD;
  }

  /**
   * A liquidation the monitor carries out is at a rate no lower than half the creation rate: it seizes collateral
   * worth at least 5/6 of the principal, and it never satisfies the bad-rate restore test.
   */
  lemma LiquidationIsNeverBadRate(l: Loan, rate: real, asOf: int)
    requires Originated(l) && l.OwedAt(asOf).total != 0.0
    ensures Decide(l, rate, asOf) == Liquidate ==>
              && CollateralValue(l, rate) >= l.principal * 5.0 / 6.0
              && !BadRate(l.(liquidationRate := Some(rate)))
  {
    if rate < SanityFloor(l) {
      return;
    }
    CollateralIsLeast(l.principal, l.rateAtCreation, l.collateralSat);
    ScaleUp(SanityFloor(l), rate, l.collateralSat as real);
    assert SanityFloor(l) * l.collateralSat as real == (l.collateralSat as real * l.rateAtCreation) * 0.5;
  }
}
