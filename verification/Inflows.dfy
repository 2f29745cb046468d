/**
 * The inflow and loan tables under the collection webhook (palmpay-collection-va.webhook.controller.ts) and customer
 * claims (loans.service.ts): re-deliveries and claims interleave at every await outside a transaction.
 */
module Inflows {
  import opened Options
  import opened Sums
  import opened Accrual
  import opened Loans
  import opened Ledger

  /** An inflow row; its id is its position in the table. `order` is provider_reference, a unique key. */
  datatype Inflow = Inflow(order: nat, amount: real, untrusted: bool, matched: bool, source: Option<nat>)

  /** The tables: a loan's id is its position. Repayment rows live with their loan; inflowId is a unique key. */
  datatype Book = Book(loans: seq<Loan>, inflows: seq<Inflow>)

  // ── Table operations ───────────────────────────────────────────────────────

  function FindOrder(inflows: seq<Inflow>, order: nat): (found: Option<nat>)
    ensures found.Some? ==> found.value < |inflows| && inflows[found.value].order == order
    ensures found.None? ==> forall i :: 0 <= i < |inflows| ==> inflows[i].order != order
  {
    if inflows == [] then None
    else if inflows[|inflows| - 1].order == order then Some(|inflows| - 1)
    else FindOrder(inflows[..|inflows| - 1], order)
  }

  function Inserted(b: Book, order: nat, amount: real, untrusted: bool): Book {
    if FindOrder(b.inflows, order).Some? then b
    else b.(inflows := b.inflows + [Inflow(order, amount, untrusted, false, None)])
  }

  /** How many of these repayment rows name an inflow. */
  function RowUses(reps: seq<Repayment>, inflow: nat): nat {
    if reps == [] then 0
    else RowUses(reps[..|reps| - 1], inflow) + if reps[|reps| - 1].inflowId == inflow then 1 else 0
  }

  /** How many repayment rows, of any loan, name an inflow. */
  function Uses(loans: seq<Loan>, inflow: nat): nat {
    if loans == [] then 0 else Uses(loans[..|loans| - 1], inflow) + RowUses(loans[|loans| - 1].repayments, inflow)
  }

  datatype Answer = Done(result: CreditResult) | UniqueViolation

  /** creditInflow's transaction: all of it, or nothing when the unique key on inflow_id is violated. */
  function CreditTx(b: Book, inflow: nat, loan: nat, amount: real, skipFloor: bool, now: int): (Book, Answer)
    requires loan < |b.loans| && inflow < |b.inflows|
  {
    var (l, result) := Credit(b.loans[loan], inflow, amount, skipFloor, now);
    if !result.Credited? then (b, Done(result))
    else if Uses(b.loans, inflow) > 0 then (b, UniqueViolation)
    else
      (Book(b.loans[loan := l], b.inflows[inflow := b.inflows[inflow].(matched := true, source := Some(loan))]),
       Done(result))
  }

  // ── Interleaved deliveries and claims ──────────────────────────────────────

  /** Where one delivery or claim is between its awaits. */
  datatype Pc =
    | Idle
    | Verified(order: nat, amount: real, loan: nat)       // re-query passed, inflow row not written yet
    | Crediting(inflow: nat, amount: real, loan: nat)     // upserted, row read as unmatched
    | ClaimingLoan(loan: nat)                             // claim read the loan as ACTIVE
    | Claiming(inflow: nat, amount: real, loan: nat)      // and the inflow as trusted and unmatched
    | Finished

  datatype Action =
    | Park(actor: nat, order: nat, amount: real, untrusted: bool)  // _storeUnmatchedInflow
    | Verify(actor: nat, order: nat, amount: real, loan: nat)
    | Upsert(actor: nat)
    | ClaimLoan(actor: nat, loan: nat)
    | ClaimInflow(actor: nat, inflow: nat)
    | RunCredit(actor: nat, now: int)

  datatype System = System(book: Book, actors: map<nat, Pc>)
  {
    function At(i: nat): Pc { if i in actors then actors[i] else Idle }
  }

  function Step(y: System, a: Action): System {
    match a
    case Park(i, order, amount, untrusted) =>
      if !y.At(i).Idle? then y
      else System(Inserted(y.book, order, amount, untrusted), y.actors[i := Finished])
    case Verify(i, order, amount, loan) =>
      if !y.At(i).Idle? || loan >= |y.book.loans| then y
      else System(y.book, y.actors[i := Verified(order, amount, loan)])
    case Upsert(i) =>
      if !y.At(i).Verified? then y
      else
        var pc := y.At(i);
        var book := Inserted(y.book, pc.order, pc.amount, false);
        var inflow := FindOrder(book.inflows, pc.order).value;
        System(book, y.actors[i := if book.inflows[inflow].matched then Finished
                                   else Crediting(inflow, pc.amount, pc.loan)])
    case ClaimLoan(i, loan) =>
      if !y.At(i).Idle? || loan >= |y.book.loans| || y.book.loans[loan].status != Active then y
      else System(y.book, y.actors[i := ClaimingLoan(loan)])
    case ClaimInflow(i, inflow) =>
      if !y.At(i).ClaimingLoan? || inflow >= |y.book.inflows|
         || y.book.inflows[inflow].matched || y.book.inflows[inflow].untrusted
      then y
      else System(y.book, y.actors[i := Claiming(inflow, y.book.inflows[inflow].amount, y.At(i).loan)])
    case RunCredit(i, now) =>
      var pc := y.At(i);
      if !(pc.Crediting? || pc.Claiming?) || pc.loan >= |y.book.loans| || pc.inflow >= |y.book.inflows| then y
      else System(CreditTx(y.book, pc.inflow, pc.loan, pc.amount, pc.Claiming?, now).0, y.actors[i := Finished])
  }

  function Run(y: System, actions: seq<Action>): System
    decreases |actions|
  {
    if actions == [] then y else Run(Step(y, actions[0]), actions[1..])
  }

  /** Premise of the amounts clauses: the provider reports one amount per order number. */
  predicate OneAmountPerOrder(actions: seq<Action>, amountOf: nat -> real) {
    forall i :: 0 <= i < |actions| ==>
                  (actions[i].Park? || actions[i].Verify?) ==> actions[i].amount == amountOf(actions[i].order)
  }

  // ── Invariant ──────────────────────────────────────────────────────────────

  predicate UniqueOrders(inflows: seq<Inflow>) {
    forall i, j :: 0 <= i < j < |inflows| ==> inflows[i].order != inflows[j].order
  }

  /** Every inflow is named by one repayment row if it is matched and by none otherwise. */
  ghost predicate UsedExactly(b: Book) {
    && (forall i: nat :: i < |b.inflows| ==> Uses(b.loans, i) == if b.inflows[i].matched then 1 else 0)
    && (forall i: nat :: i >= |b.inflows| ==> Uses(b.loans, i) == 0)
  }

  /** A matched inflow names the loan whose ledger holds its repayment. */
  predicate Sourced(loans: seq<Loan>, f: Inflow, id: nat) {
    && (f.matched <==> f.source.Some?)
    && (f.source.Some? ==> f.source.value < |loans| && RowUses(loans[f.source.value].repayments, id) == 1)
  }

  predicate AllSourced(b: Book) { forall i :: 0 <= i < |b.inflows| ==> Sourced(b.loans, b.inflows[i], i) }

  ghost predicate BookSound(b: Book) { UniqueOrders(b.inflows) && UsedExactly(b) && AllSourced(b) }

  function MatchedAmount(): Inflow -> real { (f: Inflow) => if f.matched then f.amount else 0.0 }

  function RepaidAmount(): Loan -> real { (l: Loan) => Sum(ToAmount(), l.repayments) }

  /** How much more was repaid than the matched inflows brought. */
  function Gap(b: Book): real { Sum(RepaidAmount(), b.loans) - Sum(MatchedAmount(), b.inflows) }

  /** Matched inflow amounts sum to repayment amounts. */
  predicate Balanced(b: Book) { Gap(b) == 0.0 }

  predicate ActorSound(b: Book, pc: Pc) {
    (pc.Crediting? || pc.Claiming? ==> pc.inflow < |b.inflows|)
  }

  predicate ActorsSound(y: System) { forall i :: i in y.actors ==> ActorSound(y.book, y.actors[i]) }

  lemma InsertKeepsBook(b: Book, order: nat, amount: real, untrusted: bool)
    requires BookSound(b)
    ensures BookSound(Inserted(b, order, amount, untrusted))
    ensures Gap(Inserted(b, order, amount, untrusted)) == Gap(b)
    ensures b.inflows <= Inserted(b, order, amount, untrusted).inflows
    ensures Inserted(b, order, amount, untrusted).loans == b.loans
    ensures FindOrder(Inserted(b, order, amount, untrusted).inflows, order).Some?
  {
    SumAppend(MatchedAmount(), b.inflows, Inflow(order, amount, untrusted, false, None));
  }

  lemma RowUsesAppend(reps: seq<Repayment>, row: Repayment, inflow: nat)
    ensures RowUses(reps + [row], inflow) == RowUses(reps, inflow) + if row.inflowId == inflow then 1 else 0
  {
    assert (reps + [row])[..|reps|] == reps;
  }

  /** Replacing one loan changes the count by the difference of that loan alone. */
  lemma {:induction false} UsesUpdate(loans: seq<Loan>, loan: nat, l: Loan, inflow: nat)
    requires loan < |loans|
    ensures Uses(loans[loan := l], inflow) + RowUses(loans[loan].repayments, inflow)
         == Uses(loans, inflow) + RowUses(l.repayments, inflow)
    decreases |loans|
  {
    var n := |loans| - 1;
    if loan < n {
      assert loans[loan := l][..n] == loans[..n][loan := l];
      UsesUpdate(loans[..n], loan, l, inflow);
    } else {
      assert loans[loan := l][..n] == loans[..n];
    }
  }

  /** One more repayment row on one loan. */
  lemma UsesAfterCredit(loans: seq<Loan>, loan: nat, l: Loan, row: Repayment, inflow: nat)
    requires loan < |loans| && l.repayments == loans[loan].repayments + [row]
    ensures Uses(loans[loan := l], inflow) == Uses(loans, inflow) + if row.inflowId == inflow then 1 else 0
    ensures Sum(RepaidAmount(), loans[loan := l]) == Sum(RepaidAmount(), loans) + row.amount
  {
    UsesUpdate(loans, loan, l, inflow);
    RowUsesAppend(loans[loan].repayments, row, inflow);
    SumUpdate(RepaidAmount(), loans, loan, l);
    SumAppend(ToAmount(), loans[loan].repayments, row);
  }

  lemma {:induction false} RowUsesWithin(loans: seq<Loan>, k: nat, inflow: nat)
    requires k < |loans|
    ensures RowUses(loans[k].repayments, inflow) <= Uses(loans, inflow)
    decreases |loans|
  {
    var n := |loans| - 1;
    if k < n { RowUsesWithin(loans[..n], k, inflow); }
  }

  /** The book with a credit written to it. */
  function WithCredit(b: Book, inflow: nat, loan: nat, l: Loan): Book
    requires loan < |b.loans| && inflow < |b.inflows|
  {
    Book(b.loans[loan := l], b.inflows[inflow := b.inflows[inflow].(matched := true, source := Some(loan))])
  }

  /** The credited inflow names the loan that got the row, and no other inflow's row moved. */
  lemma CreditKeepsSourced(b: Book, inflow: nat, loan: nat, l: Loan, row: Repayment)
    requires AllSourced(b) && loan < |b.loans| && inflow < |b.inflows| && Uses(b.loans, inflow) == 0
    requires l.repayments == b.loans[loan].repayments + [row] && row.inflowId == inflow
    ensures AllSourced(WithCredit(b, inflow, loan, l))
  {
    hide Uses, RowUses;
    RowUsesWithin(b.loans, loan, inflow);
    RowUsesAppend(b.loans[loan].repayments, row, inflow);
    forall i: nat | i < |b.inflows| && i != inflow ensures Sourced(b.loans[loan := l], b.inflows[i], i) {
      assert Sourced(b.loans, b.inflows[i], i);
      RowUsesAppend(b.loans[loan].repayments, row, i);
    }
  }

  /** What a transaction that writes leaves behind. */
  lemma CreditWrites(b: Book, inflow: nat, loan: nat, amount: real, skipFloor: bool, now: int)
    requires loan < |b.loans| && inflow < |b.inflows|
    ensures var after := CreditTx(b, inflow, loan, amount, skipFloor, now).0;
            after != b ==>
              var row := RepaymentRow(inflow, amount, Split(amount, b.loans[loan].OwedAt(now)), now);
              && Uses(b.loans, inflow) == 0
              && (exists l: Loan ::
                    l.repayments == b.loans[loan].repayments + [row] && after.loans == b.loans[loan := l])
              && after.inflows == b.inflows[inflow := b.inflows[inflow].(matched := true, source := Some(loan))]
  {
    hide Uses, Split, Owed;
    var after := CreditTx(b, inflow, loan, amount, skipFloor, now).0;
    if after != b {
      assert after.loans == b.loans[loan := Credit(b.loans[loan], inflow, amount, skipFloor, now).0];
    }
  }

  /**
   * The credit transaction keeps exactly-once, whatever the amount; and one that writes keeps the sums equal exactly
   * when it credits the amount of the inflow's row.
   */
  lemma CreditKeepsBook(b: Book, inflow: nat, loan: nat, amount: real, skipFloor: bool, now: int)
    requires BookSound(b) && loan < |b.loans| && inflow < |b.inflows|
    ensures var after := CreditTx(b, inflow, loan, amount, skipFloor, now).0;
            && BookSound(after)
            && |after.inflows| == |b.inflows| && |after.loans| == |b.loans|
            && (forall i :: 0 <= i < |b.inflows| ==>
                  after.inflows[i].order == b.inflows[i].order && after.inflows[i].amount == b.inflows[i].amount)
            && Gap(after) == Gap(b) + (if after == b then 0.0 else amount - b.inflows[inflow].amount)
            && (Balanced(b) && after != b ==> (Balanced(after) <==> amount == b.inflows[inflow].amount))
  {
    hide Uses, CreditTx, Split, Owed, Sourced, AllSourced;
    var after := CreditTx(b, inflow, loan, amount, skipFloor, now).0;
    CreditWrites(b, inflow, loan, amount, skipFloor, now);
    if after != b {
      var row := RepaymentRow(inflow, amount, Split(amount, b.loans[loan].OwedAt(now)), now);
      var l: Loan :| l.repayments == b.loans[loan].repayments + [row] && after.loans == b.loans[loan := l];
      CreditKeepsUses(b, inflow, loan, l, row);
      CreditKeepsSourced(b, inflow, loan, l, row);
      CreditMovesGap(b, inflow, loan, l, row);
    }
  }

  lemma CreditKeepsUses(b: Book, inflow: nat, loan: nat, l: Loan, row: Repayment)
    requires UsedExactly(b) && loan < |b.loans| && inflow < |b.inflows| && Uses(b.loans, inflow) == 0
    requires l.repayments == b.loans[loan].repayments + [row] && row.inflowId == inflow
    ensures UsedExactly(WithCredit(b, inflow, loan, l))
  {
    hide Uses;
    var after := WithCredit(b, inflow, loan, l);
    forall i: nat ensures Uses(after.loans, i) == Uses(b.loans, i) + if inflow == i then 1 else 0 {
      UsesAfterCredit(b.loans, loan, l, row, i);
    }
    assert forall i: nat :: i < |b.inflows| && i != inflow ==> after.inflows[i] == b.inflows[i];
  }

  lemma CreditMovesGap(b: Book, inflow: nat, loan: nat, l: Loan, row: Repayment)
    requires loan < |b.loans| && inflow < |b.inflows| && !b.inflows[inflow].matched
    requires l.repayments == b.loans[loan].repayments + [row]
    ensures Gap(WithCredit(b, inflow, loan, l)) == Gap(b) + row.amount - b.inflows[inflow].amount
  {
    hide Uses;
    var f := b.inflows[inflow].(matched := true, source := Some(loan));
    UsesAfterCredit(b.loans, loan, l, row, inflow);
    SumUpdate(MatchedAmount(), b.inflows, inflow, f);
    assert MatchedAmount()(f) == f.amount && MatchedAmount()(b.inflows[inflow]) == 0.0;
    assert WithCredit(b, inflow, loan, l).inflows == b.inflows[inflow := f];
  }

  lemma StepKeepsBook(y: System, a: Action)
    requires BookSound(y.book) && ActorsSound(y)
    ensures BookSound(Step(y, a).book) && ActorsSound(Step(y, a))
    ensures Gap(Step(y, a).book) == Gap(y.book) + Mispriced(y, a)
  {
    hide BookSound, Credit, Uses, Gap, CreditTx, Inserted;
    match a
    case Park(i, order, amount, untrusted) => InsertKeepsBook(y.book, order, amount, untrusted);
    case Verify(_, _, _, _) =>
    case Upsert(i) =>
      if y.At(i).Verified? { InsertKeepsBook(y.book, y.At(i).order, y.At(i).amount, false); }
    case ClaimLoan(_, _) =>
    case ClaimInflow(_, _) =>
    case RunCredit(i, now) =>
      var pc := y.At(i);
      if Step(y, a) != y { CreditKeepsBook(y.book, pc.inflow, pc.loan, pc.amount, pc.Claiming?, now); }
  }

  lemma {:induction false} RunKeepsBook(y: System, actions: seq<Action>)
    requires BookSound(y.book) && ActorsSound(y)
    ensures BookSound(Run(y, actions).book) && ActorsSound(Run(y, actions))
    decreases |actions|
  {
    hide BookSound, ActorsSound, Step;
    if actions != [] {
      StepKeepsBook(y, actions[0]);
      RunKeepsBook(Step(y, actions[0]), actions[1..]);
    }
  }

  // ── Prices ─────────────────────────────────────────────────────────────────

  /** By how much the step credits more than the row of its inflow says; zero for every step that credits nothing. */
  function Mispriced(y: System, a: Action): real {
    if a.RunCredit? && Step(y, a).book != y.book && y.At(a.actor).inflow < |y.book.inflows|
    then y.At(a.actor).amount - y.book.inflows[y.At(a.actor).inflow].amount
    else 0.0
  }

  function Drift(y: System, actions: seq<Action>): real
    decreases |actions|
  {
    if actions == [] then 0.0 else Mispriced(y, actions[0]) + Drift(Step(y, actions[0]), actions[1..])
  }

  lemma {:induction false} RunDrifts(y: System, actions: seq<Action>)
    requires BookSound(y.book) && ActorsSound(y)
    ensures Gap(Run(y, actions).book) == Gap(y.book) + Drift(y, actions)
    decreases |actions|
  {
    hide BookSound, ActorsSound, Step, Gap, Mispriced;
    if actions != [] {
      StepKeepsBook(y, actions[0]);
      RunDrifts(Step(y, actions[0]), actions[1..]);
    }
  }

  /** Every credit along the run is at the amount of its inflow's row. */
  predicate CreditsAtRowAmount(y: System, actions: seq<Action>)
    decreases |actions|
  {
    actions == [] || (Mispriced(y, actions[0]) == 0.0 && CreditsAtRowAmount(Step(y, actions[0]), actions[1..]))
  }

  /** The sums are equal after every step of the run. */
  predicate StaysBalanced(y: System, actions: seq<Action>)
    decreases |actions|
  {
    Balanced(y.book) && (actions == [] || StaysBalanced(Step(y, actions[0]), actions[1..]))
  }

  lemma {:induction false} RunStaysBalanced(y: System, actions: seq<Action>)
    requires BookSound(y.book) && ActorsSound(y) && Balanced(y.book)
    ensures StaysBalanced(y, actions) <==> CreditsAtRowAmount(y, actions)
    decreases |actions|
  {
    hide BookSound, ActorsSound, Step, Gap, Mispriced;
    if actions != [] {
      var next := Step(y, actions[0]);
      StepKeepsBook(y, actions[0]);
      if Balanced(next.book) {
        RunStaysBalanced(next, actions[1..]);
      }
    }
  }

  /** Amounts in hand are the amounts of their rows. */
  predicate PcPriced(inflows: seq<Inflow>, pc: Pc, amountOf: nat -> real) {
    && (pc.Verified? ==> pc.amount == amountOf(pc.order))
    && (pc.Crediting? || pc.Claiming? ==> pc.inflow < |inflows| && pc.amount == inflows[pc.inflow].amount)
  }

  predicate RowsPriced(inflows: seq<Inflow>, amountOf: nat -> real) {
    forall i :: 0 <= i < |inflows| ==> inflows[i].amount == amountOf(inflows[i].order)
  }

  predicate Priced(y: System, amountOf: nat -> real) {
    && RowsPriced(y.book.inflows, amountOf)
    && (forall i :: i in y.actors ==> PcPriced(y.book.inflows, y.actors[i], amountOf))
  }

  /** Rows keep their orders and amounts; new ones come last. */
  predicate Extends(more: seq<Inflow>, inflows: seq<Inflow>) {
    && |inflows| <= |more|
    && (forall i :: 0 <= i < |inflows| ==> more[i].order == inflows[i].order && more[i].amount == inflows[i].amount)
  }

  lemma PricedStep(y: System, book: Book, i: nat, pc: Pc, amountOf: nat -> real)
    requires Priced(y, amountOf) && Extends(book.inflows, y.book.inflows)
    requires RowsPriced(book.inflows, amountOf) && PcPriced(book.inflows, pc, amountOf)
    ensures Priced(System(book, y.actors[i := pc]), amountOf)
  {
    var z := System(book, y.actors[i := pc]);
    forall k | k in z.actors ensures PcPriced(book.inflows, z.actors[k], amountOf) {
      if k != i { assert PcPriced(y.book.inflows, y.actors[k], amountOf); }
    }
  }

  lemma InsertedPriced(b: Book, order: nat, amount: real, untrusted: bool, amountOf: nat -> real)
    requires RowsPriced(b.inflows, amountOf) && amount == amountOf(order)
    ensures RowsPriced(Inserted(b, order, amount, untrusted).inflows, amountOf)
    ensures Extends(Inserted(b, order, amount, untrusted).inflows, b.inflows)
    ensures var found := FindOrder(Inserted(b, order, amount, untrusted).inflows, order);
            found.Some? && Inserted(b, order, amount, untrusted).inflows[found.value].amount == amount
  {
  }

  lemma StepKeepsPrices(y: System, a: Action, amountOf: nat -> real)
    requires BookSound(y.book) && Priced(y, amountOf)
    requires (a.Park? || a.Verify?) ==> a.amount == amountOf(a.order)
    ensures Priced(Step(y, a), amountOf) && Mispriced(y, a) == 0.0
  {
    var book, pc := Step(y, a).book, Step(y, a).At(a.actor);
    if Step(y, a) != y {
      assert a.actor in y.actors ==> PcPriced(y.book.inflows, y.At(a.actor), amountOf);
      match a {
        case Park(_, order, amount, untrusted) => InsertedPriced(y.book, order, amount, untrusted, amountOf);
        case Upsert(i) => InsertedPriced(y.book, y.At(i).order, y.At(i).amount, false, amountOf);
        case RunCredit(i, now) =>
          CreditKeepsBook(y.book, y.At(i).inflow, y.At(i).loan, y.At(i).amount, y.At(i).Claiming?, now);
        case _ =>
      }
      hide BookSound, CreditTx, Inserted;
      PricedStep(y, book, a.actor, pc, amountOf);
      assert Step(y, a) == System(book, y.actors[a.actor := pc]);
    }
  }

  lemma {:induction false} RunKeepsPrices(y: System, actions: seq<Action>, amountOf: nat -> real)
    requires BookSound(y.book) && ActorsSound(y) && Priced(y, amountOf)
    requires OneAmountPerOrder(actions, amountOf)
    ensures CreditsAtRowAmount(y, actions)
    decreases |actions|
  {
    hide BookSound, Mispriced, Priced, ActorsSound, Step;
    if actions != [] {
      StepKeepsBook(y, actions[0]);
      StepKeepsPrices(y, actions[0], amountOf);
      RunKeepsPrices(Step(y, actions[0]), actions[1..], amountOf);
    }
  }

  // ── Exactly-once crediting ─────────────────────────────────────────────────

  predicate Fresh(loans: seq<Loan>) { forall i :: 0 <= i < |loans| ==> loans[i].repayments == [] }

  function Opening(loans: seq<Loan>): System { System(Book(loans, []), map[]) }

  lemma {:induction false} FreshUses(loans: seq<Loan>, inflow: nat)
    requires Fresh(loans)
    ensures Uses(loans, inflow) == 0
  {
    if loans != [] { FreshUses(loans[..|loans| - 1], inflow); }
  }

  lemma OpeningSound(loans: seq<Loan>)
    requires Fresh(loans)
    ensures BookSound(Opening(loans).book) && ActorsSound(Opening(loans)) && Balanced(Opening(loans).book)
  {
    forall i: nat ensures Uses(loans, i) == 0 {
      FreshUses(loans, i);
    }
    SumOfZeros(RepaidAmount(), loans);
  }

  /**
   * Under any interleaving of re-delivered webhooks, parked deliveries and customer claims: each order number has
   * at most one inflow row, and each inflow is named by exactly one repayment if it is matched and by none if not; that
   * repayment is in the ledger of the loan the inflow names as its source.
   */
  lemma CreditsExactlyOnce(loans: seq<Loan>, actions: seq<Action>)
    requires Fresh(loans)
    ensures var b := Run(Opening(loans), actions).book;
            && (forall i, j :: 0 <= i < j < |b.inflows| ==> b.inflows[i].order != b.inflows[j].order)
            && (forall i: nat :: i < |b.inflows| ==> Uses(b.loans, i) == if b.inflows[i].matched then 1 else 0)
            && (forall i: nat :: i >= |b.inflows| ==> Uses(b.loans, i) == 0)
            && (forall i :: 0 <= i < |b.inflows| ==> Sourced(b.loans, b.inflows[i], i))
  {
    OpeningSound(loans);
    RunKeepsBook(Opening(loans), actions);
  }

  /**
   * Over any run: the sums are equal after every step exactly when every credit along it is at the amount of its
   * inflow's row, and they are equal at the end exactly when what the credits were off by adds up to nothing.
   */
  lemma SumsAgreeExactlyWhen(loans: seq<Loan>, actions: seq<Action>)
    requires Fresh(loans)
    ensures StaysBalanced(Opening(loans), actions) <==> CreditsAtRowAmount(Opening(loans), actions)
    ensures var b := Run(Opening(loans), actions).book;
            Sum(MatchedAmount(), b.inflows) == Sum(RepaidAmount(), b.loans) <==> Drift(Opening(loans), actions) == 0.0
  {
    OpeningSound(loans);
    RunStaysBalanced(Opening(loans), actions);
    RunDrifts(Opening(loans), actions);
  }

  lemma {:induction false} NoDrift(y: System, actions: seq<Action>)
    requires CreditsAtRowAmount(y, actions)
    ensures Drift(y, actions) == 0.0
    decreases |actions|
  {
    hide Mispriced, Step;
    if actions != [] {
      NoDrift(Step(y, actions[0]), actions[1..]);
    }
  }

  /** One amount per order number is enough: the sums are equal then, at the end and after every step. */
  lemma MatchedEqualsRepaid(loans: seq<Loan>, actions: seq<Action>, amountOf: nat -> real)
    requires Fresh(loans) && OneAmountPerOrder(actions, amountOf)
    ensures var b := Run(Opening(loans), actions).book;
            Sum(MatchedAmount(), b.inflows) == Sum(RepaidAmount(), b.loans)
    ensures StaysBalanced(Opening(loans), actions)
  {
    OpeningSound(loans);
    RunKeepsPrices(Opening(loans), actions, amountOf);
    NoDrift(Opening(loans), actions);
    SumsAgreeExactlyWhen(loans, actions);
  }

  /** A parked delivery of one amount and a verified one of another, of the same order. */
  function TwoDeliveries(parked: real, credited: real): seq<Action> {
    [Park(0, 1, parked, false), Verify(1, 1, credited, 0), Upsert(1), RunCredit(1, 0)]
  }

  lemma RunOfFour(y: System, a: Action, b: Action, c: Action, d: Action)
    ensures Run(y, [a, b, c, d]) == Step(Step(Step(Step(y, a), b), c), d)
    ensures Drift(y, [a, b, c, d])
         == Mispriced(y, a) + Mispriced(Step(y, a), b) + Mispriced(Step(Step(y, a), b), c)
            + Mispriced(Step(Step(Step(y, a), b), c), d)
  {
    hide Step, Mispriced;
    var y1 := Step(y, a);
    var y2 := Step(y1, b);
    var y3 := Step(y2, c);
    assert [a, b, c, d] == [a] + [b, c, d] && [b, c, d] == [b] + [c, d] && [c, d] == [c] + [d] && [d] == [d] + [];
    RunCons(y, a, [b, c, d]);
    RunCons(y1, b, [c, d]);
    RunCons(y2, c, [d]);
    RunCons(y3, d, []);
  }

  lemma RunCons(y: System, a: Action, rest: seq<Action>)
    ensures Run(y, [a] + rest) == Run(Step(y, a), rest)
    ensures Drift(y, [a] + rest) == Mispriced(y, a) + Drift(Step(y, a), rest)
  {
    assert ([a] + rest)[1..] == rest;
    hide Step, Mispriced;
  }

  lemma DeliveriesReachCredit(loan: Loan, parked: real, credited: real)
    ensures var y1 := Step(Opening([loan]), Park(0, 1, parked, false));
            var y2 := Step(y1, Verify(1, 1, credited, 0));
            var y3 := Step(y2, Upsert(1));
            && y3.book == Book([loan], [Inflow(1, parked, false, false, None)])
            && y3.At(1) == Crediting(0, credited, 0)
  {
    hide Credit;
    var row := Inflow(1, parked, false, false, None);
    var y1 := Step(Opening([loan]), Park(0, 1, parked, false));
    assert y1 == System(Book([loan], [row]), map[0 := Finished]) by { assert [] + [row] == [row]; }
    var y2 := Step(y1, Verify(1, 1, credited, 0));
    assert y2 == System(y1.book, map[0 := Finished, 1 := Verified(1, credited, 0)]);
    assert Inserted(y2.book, 1, credited, false) == y2.book && FindOrder(y2.book.inflows, 1) == Some(0);
  }

  /** The row keeps the parked amount and the loan is credited with the other: the sums differ by the difference. */
  lemma ParkThenCredit(loan: Loan, parked: real, credited: real)
    requires loan.status == Active && loan.repayments == [] && credited >= MIN_PARTIAL_REPAYMENT_NGN
    ensures var y := Run(Opening([loan]), TwoDeliveries(parked, credited));
            && y.book.inflows == [Inflow(1, parked, false, true, Some(0))]
            && y.book.loans == [Credit(loan, 0, credited, false, 0).0]
            && Drift(Opening([loan]), TwoDeliveries(parked, credited)) == credited - parked
  {
    RunOfFour(Opening([loan]), Park(0, 1, parked, false), Verify(1, 1, credited, 0), Upsert(1), RunCredit(1, 0));
    DeliveriesReachCredit(loan, parked, credited);
    var y3 := Step(Step(Step(Opening([loan]), Park(0, 1, parked, false)), Verify(1, 1, credited, 0)), Upsert(1));
    FirstCreditWrites(loan, parked, credited);
    hide CreditTx, Run, Drift;
    assert y3.book.inflows[0].amount == parked;
  }

  lemma FirstCreditWrites(loan: Loan, parked: real, credited: real)
    requires loan.status == Active && loan.repayments == [] && credited >= MIN_PARTIAL_REPAYMENT_NGN
    ensures var b := Book([loan], [Inflow(1, parked, false, false, None)]);
            && CreditTx(b, 0, 0, credited, false, 0).0
               == Book([Credit(loan, 0, credited, false, 0).0], [Inflow(1, parked, false, true, Some(0))])
            && CreditTx(b, 0, 0, credited, false, 0).0 != b
  {
    hide Owed, Split;
    FreshUses([loan], 0);
  }

  /** So for these two deliveries the sums agree exactly when the amounts do. */
  lemma SumsNeedOneAmountPerOrder(loan: Loan, parked: real, credited: real)
    requires loan.status == Active && loan.repayments == [] && credited >= MIN_PARTIAL_REPAYMENT_NGN
    ensures Balanced(Run(Opening([loan]), TwoDeliveries(parked, credited)).book) <==> parked == credited
  {
    ParkThenCredit(loan, parked, credited);
    SumsAgreeExactlyWhen([loan], TwoDeliveries(parked, credited));
  }

  // ── Every ledger stays sound ───────────────────────────────────────────────

  predicate PcNonNegative(pc: Pc) {
    (pc.Verified? || pc.Crediting? || pc.Claiming?) ==> pc.amount >= 0.0
  }

  predicate NonNegative(y: System) {
    && (forall i :: 0 <= i < |y.book.inflows| ==> y.book.inflows[i].amount >= 0.0)
    && (forall i :: i in y.actors ==> PcNonNegative(y.actors[i]))
  }

  predicate LoansSound(loans: seq<Loan>, t: int) { forall i :: 0 <= i < |loans| ==> Sound(loans[i], t) }

  /** Amounts reported are not negative, and credits run at non-decreasing times. */
  predicate InTime(actions: seq<Action>, t: int)
    decreases |actions|
  {
    actions == []
    || (&& ((actions[0].Park? || actions[0].Verify?) ==> actions[0].amount >= 0.0)
        && t <= TimeOf(actions[0], t) && InTime(actions[1..], TimeOf(actions[0], t)))
  }

  function TimeOf(a: Action, t: int): int { if a.RunCredit? then a.now else t }

  function EndTime(actions: seq<Action>, t: int): int
    decreases |actions|
  {
    if actions == [] then t else EndTime(actions[1..], TimeOf(actions[0], t))
  }

  lemma StepKeepsNonNegative(y: System, a: Action)
    requires NonNegative(y) && ((a.Park? || a.Verify?) ==> a.amount >= 0.0)
    ensures NonNegative(Step(y, a))
  {
    hide Uses, Credit;
    if a.actor in y.actors { assert PcNonNegative(y.actors[a.actor]); }
  }

  lemma StepKeepsLoansSound(y: System, a: Action, t: int)
    requires NonNegative(y) && LoansSound(y.book.loans, t) && t <= TimeOf(a, t)
    ensures LoansSound(Step(y, a).book.loans, TimeOf(a, t))
  {
    hide Sound, Credit, Uses;
    var next := Step(y, a).book.loans;
    if a.RunCredit? {
      var pc := y.At(a.actor);
      if a.actor in y.actors { assert PcNonNegative(y.actors[a.actor]); }
      forall i | 0 <= i < |next| ensures Sound(next[i], a.now) {
        SoundLater(y.book.loans[i], t, a.now);
        if next[i] != y.book.loans[i] {
          CreditKeepsSound(y.book.loans[i], t, pc.inflow, pc.amount, pc.Claiming?, a.now);
        }
      }
    }
  }

  lemma {:induction false} RunKeepsLoansSound(y: System, actions: seq<Action>, t: int)
    requires NonNegative(y) && LoansSound(y.book.loans, t) && InTime(actions, t)
    ensures LoansSound(Run(y, actions).book.loans, EndTime(actions, t))
    decreases |actions|
  {
    hide NonNegative, LoansSound, Step;
    if actions != [] {
      StepKeepsNonNegative(y, actions[0]);
      StepKeepsLoansSound(y, actions[0], t);
      RunKeepsLoansSound(Step(y, actions[0]), actions[1..], TimeOf(actions[0], t));
    }
  }

  function PaidCustody(): Loan -> real { (l: Loan) => Sum(ToCustody(), l.repayments) }
  function PaidInterests(): Loan -> real { (l: Loan) => PaidInterest(l) }
  function PaidPrincipals(): Loan -> real { (l: Loan) => PaidPrincipal(l) }
  function Overpaid(): Loan -> real { (l: Loan) => Sum(ToOverpay(), l.repayments) }

  lemma {:induction false} LoansConserve(loans: seq<Loan>, t: int)
    requires LoansSound(loans, t)
    ensures Sum(RepaidAmount(), loans)
         == Sum(PaidCustody(), loans) + Sum(PaidInterests(), loans) + Sum(PaidPrincipals(), loans)
            + Sum(Overpaid(), loans)
  {
    hide Sound;
    if loans != [] {
      RowsOfSound(loans[0], t);
      LedgerConserves(loans[0].repayments, t);
      LoansConserve(loans[1..], t);
    }
  }

  lemma RowsOfSound(l: Loan, t: int)
    requires Sound(l, t)
    ensures RowsSound(l.repayments, t)
  {
  }

  /**
   * Under every interleaving at non-decreasing times, every loan's ledger stays sound; and with one amount per order
   * number, what the matched inflows brought is what custody, interest, principal and overpay received.
   */
  lemma SystemConserves(loans: seq<Loan>, actions: seq<Action>, amountOf: nat -> real, t: int)
    requires Fresh(loans) && LoansSound(loans, t) && InTime(actions, t)
    ensures var b := Run(Opening(loans), actions).book;
            && LoansSound(b.loans, EndTime(actions, t))
            && (OneAmountPerOrder(actions, amountOf) ==>
                  Sum(MatchedAmount(), b.inflows)
                  == Sum(PaidCustody(), b.loans) + Sum(PaidInterests(), b.loans) + Sum(PaidPrincipals(), b.loans)
                     + Sum(Overpaid(), b.loans))
  {
    hide Sound, Run, LoansSound;
    RunKeepsLoansSound(Opening(loans), actions, t);
    LoansConserve(Run(Opening(loans), actions).book.loans, EndTime(actions, t));
    if OneAmountPerOrder(actions, amountOf) {
      MatchedEqualsRepaid(loans, actions, amountOf);
    }
  }

  // ── What stays, what writes ────────────────────────────────────────────────

  /** An inflow that was credited stays credited, to the same loan and row count, whatever is delivered afterwards. */
  lemma CreditedStaysCredited(y: System, actions: seq<Action>, inflow: nat)
    requires BookSound(y.book) && ActorsSound(y)
    requires inflow < |y.book.inflows| && y.book.inflows[inflow].matched
    ensures inflow < |Run(y, actions).book.inflows| && Run(y, actions).book.inflows[inflow] == y.book.inflows[inflow]
    decreases |actions|
  {
    if actions != [] {
      StepKeepsBook(y, actions[0]);
      if actions[0].Park? {
        InsertKeepsBook(y.book, actions[0].order, actions[0].amount, actions[0].untrusted);
      } else if actions[0].Upsert? && y.At(actions[0].actor).Verified? {
        InsertKeepsBook(y.book, y.At(actions[0].actor).order, y.At(actions[0].actor).amount, false);
      }
      CreditedStaysCredited(Step(y, actions[0]), actions[1..], inflow);
    }
  }

  /** The transaction writes exactly when the loan is ACTIVE, the floor is met or waived, and the inflow is unused. */
  lemma CreditWritesExactlyWhen(b: Book, inflow: nat, loan: nat, amount: real, skipFloor: bool, now: int)
    requires BookSound(b) && loan < |b.loans| && inflow < |b.inflows|
    ensures CreditTx(b, inflow, loan, amount, skipFloor, now).0 != b
       <==> b.loans[loan].status == Active
            && (skipFloor || amount >= MIN_PARTIAL_REPAYMENT_NGN)
            && !b.inflows[inflow].matched
  {
    var l := Credit(b.loans[loan], inflow, amount, skipFloor, now).0;
    assert Uses(b.loans, inflow) == if b.inflows[inflow].matched then 1 else 0;
  }
}
