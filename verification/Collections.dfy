/**
 * Which loan money received goes to: the handler of palmpay-collection-va.webhook.controller.ts,
 * findActiveLoanMatchingOutstanding / amountClosesAnyActiveLoan / applyInflowToLoan of loans.service.ts, and the tables
 * as these update them.
 */
module Collections {
  import opened Options
  import opened Accrual
  import opened Loans
  import opened Ledger
  import opened Inflows
  import Lifecycle

  // ── Choosing the loan ──────────────────────────────────────────────────────

  const INFLOW_OUTSTANDING_MATCH_TOLERANCE_NGN: real := 0.50

  function Abs(x: real): real { if x < 0.0 then -x else x }

  predicate Matches(l: Loan, amount: real, now: int) {
    Abs(l.OwedAt(now).total - amount) <= INFLOW_OUTSTANDING_MATCH_TOLERANCE_NGN
  }

  predicate Closes(l: Loan, amount: real, now: int) {
    amount >= l.OwedAt(now).total - INFLOW_OUTSTANDING_MATCH_TOLERANCE_NGN
  }

  /** Within half a naira of the balance, or at most half a naira short of it. */
  lemma MatchesExactlyWhen(l: Loan, amount: real, now: int)
    ensures var owed := l.OwedAt(now).total;
            && (Matches(l, amount, now) <==> 2.0 * owed <= 2.0 * amount + 1.0 && 2.0 * amount <= 2.0 * owed + 1.0)
            && (Closes(l, amount, now) <==> 2.0 * owed <= 2.0 * amount + 1.0)
  {
    hide Owed;
  }

  datatype Tiebreaker = Unique | Oldest

  datatype SmartMatch = SmartMatch(loan: nat, tiebreaker: Tiebreaker)

  /** findActiveLoanMatchingOutstanding, over the user's ACTIVE loans, oldest first: the oldest match wins. */
  method FindMatching(active: seq<Loan>, amount: real, now: int) returns (found: Option<SmartMatch>)
    ensures found.None? <==> forall i :: 0 <= i < |active| ==> !Matches(active[i], amount, now)
    ensures found.Some? ==>
              var k := found.value.loan;
              && k < |active| && Matches(active[k], amount, now)
              && (forall i :: 0 <= i < k ==> !Matches(active[i], amount, now))
              && (found.value.tiebreaker == Unique <==>
                    forall i :: k < i < |active| ==> !Matches(active[i], amount, now))
  {
    var matches: seq<nat> := [];
    var k := 0;
    while k < |active|
      invariant 0 <= k <= |active|
      invariant forall m :: 0 <= m < |matches| ==> matches[m] < k && Matches(active[matches[m]], amount, now)
      invariant forall m :: 0 < m < |matches| ==> matches[0] < matches[m]
      invariant forall i :: 0 <= i < k && Matches(active[i], amount, now) ==> matches != [] && matches[0] <= i
      invariant |matches| == 1 ==> forall i :: matches[0] < i < k ==> !Matches(active[i], amount, now)
    {
      var loan := active[k];
      var outstanding := Compute(loan.Accruing(), loan.repayments, now);
      if Abs(outstanding.total - amount) <= INFLOW_OUTSTANDING_MATCH_TOLERANCE_NGN {
        matches := matches + [k];
      }
      k := k + 1;
    }
    if |matches| == 0 {
      return None;
    }
    if |matches| == 1 {
      return Some(SmartMatch(matches[0], Unique));
    }
    assert Matches(active[matches[1]], amount, now);
    return Some(SmartMatch(matches[0], Oldest));
  }

  /** amountClosesAnyActiveLoan. */
  method AmountClosesAny(active: seq<Loan>, amount: real, now: int) returns (closes: bool)
    ensures closes <==> exists i :: 0 <= i < |active| && Closes(active[i], amount, now)
  {
    var k := 0;
    while k < |active|
      invariant 0 <= k <= |active|
      invariant forall i :: 0 <= i < k ==> !Closes(active[i], amount, now)
    {
      var outstanding := Compute(active[k].Accruing(), active[k].repayments, now);
      var threshold := outstanding.total - INFLOW_OUTSTANDING_MATCH_TOLERANCE_NGN;
      if amount >= threshold {
        return true;
      }
      k := k + 1;
    }
    return false;
  }

  /** Crediting a smart-matched amount leaves at most the tolerance owing, and overpays at most the tolerance. */
  lemma SmartMatchLeavesDust(l: Loan, t: int, inflow: nat, amount: real, now: int)
    requires Sound(l, t) && t <= now && l.status == Active
    requires amount >= MIN_PARTIAL_REPAYMENT_NGN && Matches(l, amount, now)
    ensures var result := Credit(l, inflow, amount, false, now).1;
            && result.Credited?
            && 0.0 <= result.outstanding <= INFLOW_OUTSTANDING_MATCH_TOLERANCE_NGN
            && 0.0 <= result.applied.overpay <= INFLOW_OUTSTANDING_MATCH_TOLERANCE_NGN
  {
    FloorsNeverBite(l, t, now);
    ActiveOwesPrincipal(l, t, now);
    WaterfallFillsInOrder(amount, l.OwedAt(now));
  }

  function Delivered(b: Book, order: nat, amount: real, loan: nat, now: int): Book {
    Step(Step(Step(System(b, map[]), Verify(0, order, amount, loan)), Upsert(0)), RunCredit(0, now)).book
  }

  /**
   * So a verified delivery for an ACTIVE loan reaches its ledger exactly when it meets the floor and its order was not
   * credited before; closing the loan does not help an amount below the floor.
   */
  lemma VerifiedDeliveryCreditsExactlyWhen(b: Book, order: nat, amount: real, loan: nat, now: int)
    requires BookSound(b) && loan < |b.loans| && b.loans[loan].status == Active
    ensures var found := FindOrder(b.inflows, order);
            Delivered(b, order, amount, loan, now).loans != b.loans
            <==> amount >= MIN_PARTIAL_REPAYMENT_NGN && (found.None? || !b.inflows[found.value].matched)
  {
    hide CreditTx, BookSound;
    InsertKeepsBook(b, order, amount, false);
    var b1 := Inserted(b, order, amount, false);
    var inflow := FindOrder(b1.inflows, order).value;
    if !b1.inflows[inflow].matched {
      CreditWritesExactlyWhen(b1, inflow, loan, amount, false, now);
      CreditWritesLoans(b1, inflow, loan, amount, false, now);
    }
  }

  function Claimed(b: Book, inflow: nat, loan: nat, now: int): Book {
    Step(Step(Step(System(b, map[]), ClaimLoan(0, loan)), ClaimInflow(0, inflow)), RunCredit(0, now)).book
  }

  /** A claim on an ACTIVE loan credits the inflow's amount, however small, exactly if it is unmatched and trusted. */
  lemma ClaimCreditsExactlyWhen(b: Book, inflow: nat, loan: nat, now: int)
    requires BookSound(b) && loan < |b.loans| && b.loans[loan].status == Active
    ensures Claimed(b, inflow, loan, now).loans != b.loans
       <==> inflow < |b.inflows| && !b.inflows[inflow].matched && !b.inflows[inflow].untrusted
    ensures Claimed(b, inflow, loan, now).loans != b.loans ==>
              && Claimed(b, inflow, loan, now) == CreditTx(b, inflow, loan, b.inflows[inflow].amount, true, now).0
              && Claimed(b, inflow, loan, now).inflows[inflow].source == Some(loan)
  {
    hide BookSound;
    if inflow < |b.inflows| && !b.inflows[inflow].matched && !b.inflows[inflow].untrusted {
      CreditWritesExactlyWhen(b, inflow, loan, b.inflows[inflow].amount, true, now);
      CreditWritesLoans(b, inflow, loan, b.inflows[inflow].amount, true, now);
      CreditWrites(b, inflow, loan, b.inflows[inflow].amount, true, now);
    }
    hide CreditTx;
  }

  /** A transaction that writes anything writes the loan. */
  lemma CreditWritesLoans(b: Book, inflow: nat, loan: nat, amount: real, skipFloor: bool, now: int)
    requires loan < |b.loans| && inflow < |b.inflows|
    ensures var after := CreditTx(b, inflow, loan, amount, skipFloor, now).0;
            after != b <==> after.loans != b.loans
  {
    hide Uses, Split, Owed;
    var after := CreditTx(b, inflow, loan, amount, skipFloor, now).0;
    if after != b {
      assert |after.loans[loan].repayments| == |b.loans[loan].repayments| + 1;
    }
  }

  // ── The webhook handler ────────────────────────────────────────────────────

  datatype Payload = Payload(order: nat, succeeded: bool, account: Option<nat>, kobo: int, signed: bool)

  datatype Requery =
    | Threw
    | OrderNotFound
    | OrderFailed
    | Unsettled
    | Settled(kobo: Option<int>, account: Option<nat>)

  /**
   * The user's ACTIVE loans as the handler reads them, three times: rows for the floor check, ids for the selection,
   * and rows with their ids, oldest first, for the smart match.
   */
  datatype Reads = Reads(
    closing: seq<Loan>,
    closingAt: int,
    active: seq<nat>,
    ids: seq<nat>,
    matching: seq<Loan>,
    matchingAt: int)

  datatype Reason = FloorNotMet | NoActiveLoans | MultipleActiveLoans | RequeryMismatch | RequeryUnconfirmed

  datatype Outcome = Skipped | Malformed | Deferred | Parked(reason: Reason) | ToCredit(loan: nat)

  function Amount(p: Payload): real { p.kobo as real / 100.0 }

  /** The provider's own books confirm the payload, or cannot see the order and the webhook was signed. */
  predicate Confirmed(p: Payload, q: Requery) {
    || (q.Settled? && q.kobo == Some(p.kobo) && (q.account.None? || q.account == p.account))
    || (q.OrderNotFound? && p.signed)
  }

  /** The payload's amount is in kobo, a hundred to the naira. */
  lemma AmountIsInNaira(p: Payload)
    ensures 100.0 * Amount(p) == p.kobo as real
    ensures Amount(p) >= MIN_PARTIAL_REPAYMENT_NGN <==> p.kobo >= 1_000_000
  {
  }

  /** A success for a virtual account of ours. */
  predicate Ours(p: Payload, userKnown: bool) { p.succeeded && p.account.Some? && userKnown }

  predicate PastFloor(p: Payload, closing: seq<Loan>, at: int) {
    Amount(p) >= MIN_PARTIAL_REPAYMENT_NGN || exists i :: 0 <= i < |closing| && Closes(closing[i], Amount(p), at)
  }

  predicate SomeMatch(p: Payload, r: Reads) {
    exists i :: 0 <= i < |r.matching| && Matches(r.matching[i], Amount(p), r.matchingAt)
  }

  predicate Selectable(p: Payload, r: Reads) { |r.active| == 1 || (|r.active| > 1 && SomeMatch(p, r)) }

  /** The oldest loan whose balance matches. */
  predicate OldestMatch(p: Payload, r: Reads, loan: nat)
    requires |r.ids| == |r.matching|
  {
    exists k :: 0 <= k < |r.matching| && loan == r.ids[k] && Matches(r.matching[k], Amount(p), r.matchingAt)
                && forall i :: 0 <= i < k ==> !Matches(r.matching[i], Amount(p), r.matchingAt)
  }

  /**
   * _handle up to the credit; `q` is what the re-query answers. A delivery goes on to credit exactly when it is a
   * success for a known account, past the floor check, with a selectable loan, and confirmed; nothing is credited on
   * the webhook's word alone.
   */
  method Handle(p: Payload, userKnown: bool, r: Reads, q: Requery) returns (outcome: Outcome)
    requires |r.ids| == |r.matching|
    ensures outcome.ToCredit? <==>
              Ours(p, userKnown) && PastFloor(p, r.closing, r.closingAt) && Selectable(p, r) && Confirmed(p, q)
    ensures outcome.ToCredit? ==>
              if |r.active| == 1 then outcome.loan == r.active[0] else OldestMatch(p, r, outcome.loan)
    ensures outcome == Skipped <==> !p.succeeded || (p.account.Some? && !userKnown)
    ensures outcome == Malformed <==> p.succeeded && p.account.None?
    ensures outcome == Parked(FloorNotMet) <==> Ours(p, userKnown) && !PastFloor(p, r.closing, r.closingAt)
    ensures outcome == Parked(FloorNotMet) ==> p.kobo < 1_000_000
    ensures outcome == Parked(NoActiveLoans) <==>
              Ours(p, userKnown) && PastFloor(p, r.closing, r.closingAt) && r.active == []
    ensures outcome == Parked(MultipleActiveLoans) <==>
              Ours(p, userKnown) && PastFloor(p, r.closing, r.closingAt) && r.active != [] && !Selectable(p, r)
    ensures Ours(p, userKnown) && PastFloor(p, r.closing, r.closingAt) && Selectable(p, r) ==>
              && (outcome == Deferred <==> q.Threw? || q.Unsettled?)
              && (outcome == Parked(RequeryUnconfirmed) <==> q.OrderNotFound? && !p.signed)
              && (outcome == Parked(RequeryMismatch) <==> q.OrderFailed? || (q.Settled? && !Confirmed(p, q)))
  {
    if !p.succeeded {
      return Skipped;
    }
    if p.account.None? {
      return Malformed;
    }
    if !userKnown {
      return Skipped;
    }
    if Amount(p) < MIN_PARTIAL_REPAYMENT_NGN {
      var closes := AmountClosesAny(r.closing, Amount(p), r.closingAt);
      if !closes {
        return Parked(FloorNotMet);
      }
    }
    if |r.active| == 0 {
      return Parked(NoActiveLoans);
    }
    var loan;
    if |r.active| == 1 {
      loan := r.active[0];
    } else {
      var smart := FindMatching(r.matching, Amount(p), r.matchingAt);
      if smart.None? {
        return Parked(MultipleActiveLoans);
      }
      loan := r.ids[smart.value.loan];
    }
    match q {
      case Threw => return Deferred;
      case Unsettled => return Deferred;
      case OrderFailed => return Parked(RequeryMismatch);
      case OrderNotFound =>
        if !p.signed {
          return Parked(RequeryUnconfirmed);
        }
      case Settled(kobo, account) =>
        if kobo != Some(p.kobo) || (account.Some? && account != p.account) {
          return Parked(RequeryMismatch);
        }
    }
    return ToCredit(loan);
  }

  // ── The floor and the payoff ───────────────────────────────────────────────

  /**
   * A below-floor amount that closes the loan is let past the floor check, and then not credited: whichever state the
   * tables are in, the loan keeps owing.
   */
  lemma BelowFloorPayoffIsNotCredited(b: Book, p: Payload, loan: nat, now: int)
    requires BookSound(b) && loan < |b.loans| && b.loans[loan].status == Active
    requires Amount(p) < MIN_PARTIAL_REPAYMENT_NGN && Closes(b.loans[loan], Amount(p), now)
    ensures PastFloor(p, [b.loans[loan]], now)
    ensures Delivered(b, p.order, Amount(p), loan, now).loans == b.loans
  {
    hide Delivered, Closes, BookSound;
    assert Closes([b.loans[loan]][0], Amount(p), now);
    VerifiedDeliveryCreditsExactlyWhen(b, p.order, Amount(p), loan, now);
  }

  /** Such a payoff is an input the service can receive: 15 000 lent, 10 000 repaid, and 5 000 to go. */
  function NearlyRepaid(): Loan {
    Lifecycle.Run(Lifecycle.Opened(15000.0, 1.0),
                  [Lifecycle.Activate(0, 0), Lifecycle.CreditInflow(0, 10000.0, false, 0)])
  }

  lemma BelowFloorPayoffIsReachable()
    ensures var l := NearlyRepaid();
            && l.status == Active && l.OwedAt(0).total == 5000.0
            && Closes(l, 5000.0, 0)
            && Credit(l, 1, 5000.0, false, 0) == (l, Rejected(BelowFloor))
            && Credit(l, 1, 5000.0, true, 0).0.status == Repaid
  {
    NearlyRepaidIsCredited();
    FiveThousandLeft(Activated(Lifecycle.Opened(15000.0, 1.0), 0));
  }

  lemma TenThousandRepaid(lent: Loan)
    requires lent.status == Active && lent.OwedAt(0) == Outstanding(15000.0, 0.0, 0.0, 15000.0, 0, 0)
    ensures Credit(lent, 0, 10000.0, false, 0).1.Credited?
    ensures Credit(lent, 0, 10000.0, false, 0).1.outstanding == 5000.0
    ensures Credit(lent, 0, 10000.0, false, 0).0.status == Active
    ensures Credit(lent, 0, 10000.0, false, 0).0.collateralReceivedAt == lent.collateralReceivedAt
  {
    hide Owed, Split;
    SplitOfTenThousand();
  }

  lemma SplitOfTenThousand()
    ensures Split(10000.0, Outstanding(15000.0, 0.0, 0.0, 15000.0, 0, 0)) == Applied(0.0, 0.0, 10000.0, 0.0)
  {
  }

  lemma FiveThousandLeft(lent: Loan)
    requires lent.status == Active && lent.repayments == [] && lent.collateralReceivedAt == Some(0)
    requires lent.principal == 15000.0
    ensures var l := Credit(lent, 0, 10000.0, false, 0).0;
            && l.status == Active && l.OwedAt(0).total == 5000.0
            && Closes(l, 5000.0, 0)
            && Credit(l, 1, 5000.0, false, 0) == (l, Rejected(BelowFloor))
            && Credit(l, 1, 5000.0, true, 0).0.status == Repaid
  {
    OwesPrincipalOnly(lent);
    TenThousandRepaid(lent);
    CreditReportsRederivedBalance(lent, 0, 10000.0, false, 0);
    hide Owed, Split, Credit;
    assert Credit(lent, 0, 10000.0, false, 0).0.OwedAt(0).total == 5000.0;
    PayoffOfFiveThousand(Credit(lent, 0, 10000.0, false, 0).0);
  }

  lemma PayoffOfFiveThousand(l: Loan)
    requires l.status == Active && l.collateralReceivedAt.Some? && l.OwedAt(0).total == 5000.0
    ensures Closes(l, 5000.0, 0)
    ensures Credit(l, 1, 5000.0, false, 0) == (l, Rejected(BelowFloor))
    ensures Credit(l, 1, 5000.0, true, 0).0.status == Repaid
  {
    ClosesExactlyWhenCovered(l, 1, 5000.0, true, 0);
    hide Owed, Split;
  }

  lemma NearlyRepaidIsCredited()
    ensures NearlyRepaid() == Credit(Activated(Lifecycle.Opened(15000.0, 1.0), 0), 0, 10000.0, false, 0).0
  {
    hide Credit, Activated, Lifecycle.Opened;
    var events := [Lifecycle.Activate(0, 0), Lifecycle.CreditInflow(0, 10000.0, false, 0)];
    assert events[1..] == [events[1]] && events[1..][1..] == [];
    var lent := Activated(Lifecycle.Opened(15000.0, 1.0), 0);
    assert Lifecycle.Run(lent, events[1..]) == Lifecycle.Run(Lifecycle.Step(lent, events[1]), []);
  }

  /** On the day it was lent nothing has accrued. */
  lemma OwesPrincipalOnly(l: Loan)
    requires l.repayments == [] && l.collateralReceivedAt == Some(0) && l.principal >= 0.0
    ensures l.OwedAt(0) == Outstanding(l.principal, 0.0, 0.0, l.principal, 0, 0)
  {
    assert CeilDays(0, 0) == 0;
    assert DaySum(l.Accruing(), 0, l.repayments, 0) == 0.0;
  }

  // ── The tables as the handlers update them ─────────────────────────────────

  datatype ApplyResult = Ran(answer: Answer) | LoanNotActive | InflowAlreadyMatched | InflowNotFound

  class Database {
    var loans: seq<Loan>
    var inflows: seq<Inflow>

    function Value(): Book
      reads this
    {
      Book(loans, inflows)
    }

    constructor (loans: seq<Loan>)
      ensures Value() == Book(loans, [])
    {
      this.loans, inflows := loans, [];
    }

    /** _storeUnmatchedInflow: a re-delivered order neither writes nor pages; any other failed write still pages. */
    method StoreUnmatchedInflow(order: nat, amount: real, untrusted: bool, persistOk: bool) returns (paged: bool)
      modifies this
      ensures Value() == if persistOk then Inserted(old(Value()), order, amount, untrusted) else old(Value())
      ensures paged <==> !persistOk || forall f :: f in old(inflows) ==> f.order != order
      ensures loans == old(loans)
      ensures inflows == if persistOk && paged then old(inflows) + [Inflow(order, amount, untrusted, false, None)]
                         else old(inflows)
    {
      if persistOk {
        if FindOrder(inflows, order).Some? {
          return false;
        }
        inflows := inflows + [Inflow(order, amount, untrusted, false, None)];
      }
      return true;
    }

    method UpsertInflow(order: nat, amount: real) returns (inflow: nat)
      modifies this
      ensures Value() == Inserted(old(Value()), order, amount, false)
      ensures loans == old(loans) && inflow < |inflows| && Some(inflow) == FindOrder(inflows, order)
      ensures inflows[inflow].order == order
      ensures (exists f :: f in old(inflows) && f.order == order) ==> inflows == old(inflows)
      ensures (forall f :: f in old(inflows) ==> f.order != order) ==>
                inflows == old(inflows) + [Inflow(order, amount, false, false, None)]
    {
      var existing := FindOrder(inflows, order);
      if existing.Some? {
        return existing.value;
      }
      inflows := inflows + [Inflow(order, amount, false, false, None)];
      return |inflows| - 1;
    }

    /** The transaction of creditInflow. */
    method CreditInflow(inflow: nat, loan: nat, amount: real, skipFloor: bool, now: int) returns (answer: Answer)
      requires inflow < |inflows| && loan < |loans|
      modifies this
      ensures (Value(), answer) == CreditTx(old(Value()), inflow, loan, amount, skipFloor, now)
      ensures answer == UniqueViolation <==>
                && old(loans)[loan].status == Active && (skipFloor || amount >= 10_000.0)
                && Uses(old(loans), inflow) > 0
      ensures answer == Done(AlreadyRepaid) <==> old(loans)[loan].status == Repaid && (skipFloor || amount >= 10_000.0)
      ensures inflows != old(inflows) || loans != old(loans) ==>
                && inflows == old(inflows)[inflow := old(inflows)[inflow].(matched := true, source := Some(loan))]
                && |loans| == |old(loans)|
                && forall i :: 0 <= i < |loans| && i != loan ==> loans[i] == old(loans)[i]
    {
      var (l, result) := Credit(loans[loan], inflow, amount, skipFloor, now);
      if !result.Credited? {
        return Done(result);
      }
      if Uses(loans, inflow) > 0 {
        return UniqueViolation;
      }
      loans := loans[loan := l];
      inflows := inflows[inflow := inflows[inflow].(matched := true, source := Some(loan))];
      return Done(result);
    }

    /** The tail of the webhook, with nobody in between: the same three steps as the interleaved system. */
    method CreditVerified(order: nat, amount: real, loan: nat, now: int)
      requires loan < |loans|
      modifies this
      ensures Value() == Step(Step(Step(System(old(Value()), map[]), Verify(0, order, amount, loan)), Upsert(0)),
                              RunCredit(0, now)).book
    {
      hide CreditTx, Inserted;
      var inflow := UpsertInflow(order, amount);
      if inflows[inflow].matched {
        return;
      }
      var answer := CreditInflow(inflow, loan, amount, false, now);
    }

    /** applyInflowToLoan, with nobody in between. */
    method ApplyInflowToLoan(inflow: nat, loan: nat, now: int) returns (result: ApplyResult)
      requires loan < |loans|
      modifies this
      ensures Value()
           == Step(Step(Step(System(old(Value()), map[]), ClaimLoan(0, loan)), ClaimInflow(0, inflow)),
                   RunCredit(0, now)).book
      ensures result.Ran? <==>
                && old(loans[loan]).status == Active && inflow < |old(inflows)|
                && !old(inflows)[inflow].matched && !old(inflows)[inflow].untrusted
    {
      if loans[loan].status != Active {
        return LoanNotActive;
      }
      if inflow >= |inflows| {
        return InflowNotFound;
      }
      if inflows[inflow].matched {
        return InflowAlreadyMatched;
      }
      if inflows[inflow].untrusted {
        return InflowNotFound;
      }
      var answer := CreditInflow(inflow, loan, inflows[inflow].amount, true, now);
      return Ran(answer);
    }
  }
}
