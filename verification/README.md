# Verification of the loan service's money core

A Dafny model of the Bitcoin-backed loan service: what a loan owes, how money received is applied to it, when it is
liquidated, how its collateral is released, how its payout is carried out, and how inflows are matched to loans.
Three self-contained pieces are modelled beside it: name matching, cursor paging of the activity feed, and the PIN
lockout. `dafny verify dfyconfig.toml` checks everything.

## How it is organised

| file | what it holds |
|---|---|
| `Options.dfy` | a value that may be missing |
| `Sums.dfy` | sums over rows, and when two of them are equal |
| `Accrual.dfy` | the balance of a loan: a plain sum over days, and the service's segment walk proved equal to it |
| `Loans.dfy` | the loan row as a class, the status machine, the waterfall, crediting an inflow, and every other writer |
| `Ledger.dfy` | the ledger invariant, what a credit does to the balance, two credits of a day against one |
| `Coverage.dfy` | collateral sizing, the liquidation decision, and the bounds that hold across sizing, accrual and monitor |
| `Lifecycle.dfy` | runs of one loan under all its writers: log, conservation, monitorability |
| `Monitor.dfy` | the liquidation sweep with its throttled notices |
| `Release.dfy` | collateral release: interleaved callers, a lock that may expire at any moment |
| `Disbursements.dfy` | one payout and its attempts: dispatch, retry, webhook, reconciler, abandon, cancel |
| `Inflows.dfy` | interleaved webhook deliveries and claims over the inflow and loan tables |
| `Collections.dfy` | the collection webhook's choice of a loan, its floor, and the tables as the handlers update them |
| `Jaro.dfy`, `Names.dfy` | Jaro and Jaro-Winkler scores; tokens and the comparison of two names |
| `FeedOrder.dfy` | the order of the activity feed, sorting and merging by it |
| `Activity.dfy` | the two-source activity feed and what following its cursor returns |
| `Untrusted.dfy` | what page size 1 shows when some inflows carry an untrusted reason |
| `Spacing.dfy` | when pages of any size show everything in spite of them |
| `Pin.dfy` | the failed-attempt counter and the lockout, with overlapping verifications |

Code that updates rows in place is a class whose methods are proved equal to a function of the old row; runs, invariants
and interleavings are then proved about those functions. Loops of the source are loops here, proved against a
specification.

## Conventions and premises

- Money is `real` and exact. decimal.js works with 20 digits and the columns have a fixed scale; neither is modelled.
- Time is an integer number of milliseconds. A repayment's `created_at` is the `now` of its transaction.
- Runs of a loan have non-decreasing times and non-negative amounts received. The schema accepts any orderAmount;
  `Ledger.CreditReportsRederivedBalance` shows that a non-negative amount is exactly what its claim needs.
- A provider call, an e-mail and a hash comparison are nondeterministic results given as parameters. A send that throws
  did not pay.
- In `Lifecycle.dfy` and `Disbursements.dfy` a worker's select and the write it leads to are one step, and so are the
  reads that `activateLoan` and `cancelLoan` make before their transactions and what these write. `liquidateLoan`,
  `expireLoan`, `handleSuccess` and `handleFailure` write by id alone and those two services from a status read earlier, so
  the premise matters: `Lifecycle.WritesChainExactlyWhenFresh` states what the log needs of every write, and
  `Lifecycle.ActivateAndCancelBreakTheChain` is an input on which the premise fails. `Release.dfy`, `Inflows.dfy` and
  `Pin.dfy` do interleave between awaits.
- In `Activity.dfy` the database orders ids of one table as `localeCompare` orders the item ids, and the data does not
  change while a client pages.

## Where the code does less than it says

- The collection webhook's comment (lines 224-229) promises that a below-floor payoff is not parked. It is let past the
  floor check, but the credit is then made without waiving the floor and refused:
  `Collections.BelowFloorPayoffIsNotCredited`, for an input that `Collections.BelowFloorPayoffIsReachable` gives.
  `Collections.VerifiedDeliveryCreditsExactlyWhen` states when a delivery is credited.
- CANCELLED is not absorbing: a verdict about an attempt in flight overwrites it. It is absorbing exactly when no attempt
  is in flight (`Disbursements.CancelledIsAbsorbingUnlessInFlight`).
- The collateral can be sent twice. `Release.NoMoreSendsExactlyWhen` states from which states another send can follow:
  exactly those in which some caller is past its read and about to send, or the loan is not stamped and neither EXPIRED
  nor CANCELLED (a LIQUIDATED loan may be restored). One lock expiry under a running attempt
  (`Release.ExpiryUnderAttemptPaysTwice`) and one stamp that fails (`Release.FailedStampPaysAgain`) lead there from the
  start.
- The status log need not chain: when activateLoan and cancelLoan both read PENDING_COLLATERAL, the one that commits last
  writes an entry from a status that is gone (`Lifecycle.ActivateAndCancelBreakTheChain`, `Lifecycle.OpenedCanBreak`).
  It chains exactly when every write starts from the status the loan has (`Lifecycle.WritesChainExactlyWhenFresh`).
- Matched inflow amounts need not equal repayment amounts: a row keeps the amount it was first stored with, and a credit
  takes the amount its own delivery names. They stay equal along a run exactly when every credit is at the amount of its
  row (`Inflows.SumsAgreeExactlyWhen`); one amount per order number is enough for that (`Inflows.MatchedEqualsRepaid`).
- The activity cursor compares ids across the two tables, so over-fetching alone does not keep pages strictly correct as
  the comment at lines 63-65 says. Paging is complete exactly when, at an instant shared by a log and an inflow, the
  inflow has the lower id, and page size 1 already tells (`Activity.FollowingReturnsTheFeedExactlyWhen`). The filter of
  untrusted inflows runs after the limit: `Untrusted.OneByOneShowsAllExactlyWhen` states when page size 1
  loses nothing, and `Spacing.SpacedOutIsEnough` a condition for every page size.
- The PIN throttle, 5 · (⌊T/900⌋ + 1) wrong PINs checked in T seconds, holds of all runs with at most k verifications in
  flight exactly when k ≤ 1 (`Pin.ThrottlesExactlyWhen`). Any number of overlapping ones are all checked and count as one
  failure (`Pin.OverlapsAreAllChecked`), and a late write lifts a lock set meanwhile (`Pin.StaleWriteUnlocks`).

## Model

| member | source | states |
|---|---|---|
| Accrual.CeilDaysBucket | src/modules/loans/accrual.service.ts:45-49 | elapsed time is counted in whole 24-hour buckets, the right end of a bucket included |
| Accrual.Compute | src/modules/loans/accrual.service.ts:53-141 | the filter, sort and segment walk give the balance defined by the plain day-by-day sum over the unordered repayments |
| Accrual.OwedAddsUp | src/modules/loans/accrual.service.ts:53-141 | nothing is owed for custody, the total is principal plus interest, neither is negative, and without collateral received only the principal is owed |
| Accrual.WalkSegments | src/modules/loans/accrual.service.ts:87-110 | the loop with its early break and day clamp accumulates exactly the sum over days d < final day of rate times the principal not yet repaid by day d |
| Accrual.OwedIgnoresOrder | src/modules/loans/accrual.service.ts:72-77 | the balance is the same for every ordering of the repayment list |
| Accrual.SegmentCharge | src/modules/loans/accrual.service.ts:87-108 | between the days of consecutive repayments the day sum grows by running principal times rate times days |
| Accrual.RelevantDaySum | src/modules/loans/accrual.service.ts:72-77 | leaving out repayments after as_of and sorting the rest does not change the interest up to as_of |
| Loans.Waterfall | src/modules/loans/loans.service.ts:1261-1284 | the running remainder produces the split that is characterised by WaterfallFillsInOrder |
| Loans.WaterfallFillsInOrder | src/modules/loans/loans.service.ts:1261-1284 | nothing is created or lost, no bucket is overfilled, and a bucket gets money only when every bucket before it is full |
| Loans.LoanRecord.constructor | src/modules/loans/loans.service.ts:210-241 | a new loan is PENDING_COLLATERAL with its LOAN_CREATED entry and nothing else |
| Loans.LoanRecord.Transition | src/modules/loans/loan-status.service.ts:43-86 | the status and one log entry change together exactly for the pairs of the two tables; otherwise nothing changes |
| Loans.LoanRecord.CreditInflow | src/modules/loans/loans.service.ts:682-903 | exactly when a credit is refused below the floor, is a no-op on REPAID, is refused on another status, or is made; a refusal changes nothing, a credit appends one row with its inflow, amount and instant and sets status and repaid_at |
| Loans.LoanRecord.Activate | src/modules/loans/loans.service.ts:623-664 | only a PENDING_COLLATERAL loan changes: it becomes ACTIVE with its receipt time and one entry |
| Loans.LoanRecord.Cancel | src/modules/loans/loans.service.ts:497-511 | succeeds exactly on PENDING_COLLATERAL |
| Loans.LoanRecord.StampRelease | src/modules/loans/collateral-release.service.ts:151-182 | the conditional stamp and its log entry happen exactly on a REPAID loan not yet released |
| Loans.LoanRecord.LiquidateLoan | workers/liquidation-monitor.worker.ts:487-520 | the direct write: status, instant, rate and an entry that names ACTIVE as its start |
| Loans.LoanRecord.ExpireLoan | workers/loan-expiry.worker.ts:75-102 | the direct write: status and an entry that names PENDING_COLLATERAL as its start |
| Loans.LoanRecord.RestoreOne | scripts/restore-bad-rate-liquidations.ts:184-217 | the one backward transition clears the liquidation's instant and rate and appends its entry |
| Ledger.GrossMonotone | src/modules/loans/accrual.service.ts:81-110 | on a ledger built by credits, gross interest never falls as time passes |
| Ledger.FloorsNeverBite | src/modules/loans/accrual.service.ts:111-129 | on such a ledger both subtractions are non-negative before their floor at zero, at every later instant |
| Ledger.ActiveOwesPrincipal | workers/liquidation-monitor.worker.ts:215-227 | an ACTIVE loan owes principal at every later instant, so the coverage division is defined |
| Ledger.CreditReportsRederivedBalance | src/modules/loans/loans.service.ts:753-792 | on any ledger, the balance a credit reports equals, component by component, the one re-derived from the extended ledger at that instant, if and only if the amount is not negative |
| Ledger.CreditKeepsSound | src/modules/loans/loans.service.ts:751-837 | a credit keeps: repaid principal within principal, repaid interest within gross interest, overpay only on the closing row, REPAID settled to the last unit |
| Ledger.ClosesExactlyWhenCovered | src/modules/loans/loans.service.ts:786-815 | a loan becomes REPAID exactly when the amount covers everything owed |
| Ledger.LedgerConserves | src/modules/loans/loans.service.ts:759-784 | over a history, amounts sum to custody + interest + principal + overpay |
| Ledger.SplitInTwo | src/modules/loans/loans.service.ts:1261-1284 | splitting a + b is splitting a, then b over what a leaves |
| Ledger.TwoCreditsAreOne | src/modules/loans/loans.service.ts:752-837 | two credits in one day bucket, the first below the balance, each past the floor or waiving it, split in total like one credit of their sum and leave the same status and the same balance at every later instant |
| Coverage.CollateralIsLeast | src/modules/loans/calculator.service.ts:58-62 | the collateral is the least whole number of SAT worth principal / 0.60, that is 5/3 of the principal |
| Coverage.QuoteDiscloses | src/modules/loans/calculator.service.ts:53-109 | fee and payout make up the principal, one SAT less would not cover the LTV, day-0 coverage is at most 1.10 and 1.20 exactly at or below the displayed rates, and a day costs 3/1000 of the principal |
| Coverage.QuotesExactlyWhen | src/modules/loans/calculator.service.ts:111-125 | which inputs get a quote, and for each other one which of the three refusals |
| Coverage.OwedAtMostSimple | src/modules/loans/accrual.service.ts:53-141 | whatever was repaid, the balance is at most principal plus simple interest on all of it |
| Coverage.OwedWithoutRepayments | src/modules/loans/accrual.service.ts:53-141 | with nothing repaid that bound is attained |
| Coverage.DecidesExactlyWhen | workers/liquidation-monitor.worker.ts:226-249 | of a loan that owes something: LIQUIDATE if and only if the rate is at least half the creation rate and the collateral is worth at most 1.10 times what is owed; suspect if and only if the rate is below half |
| Coverage.BadRateExactlyWhen | scripts/restore-bad-rate-liquidations.ts:177-181 | the restore script takes a loan if and only if its liquidation rate is missing or below half the creation rate |
| Coverage.NoEarlyLiquidation | workers/liquidation-monitor.worker.ts:226-249 | while the sell rate stays at or above the creation rate, no repayment history leads to liquidation in the first 171 day buckets |
| Coverage.HundredSeventyTwoDaysCanLiquidate | workers/liquidation-monitor.worker.ts:226-249 | 171 is the best possible bound: a loan that is liquidated on day 172 at an unchanged rate |
| Coverage.LiquidationIsNeverBadRate | scripts/restore-bad-rate-liquidations.ts:163-181 | a liquidation the monitor carries out seizes at least 5/6 of the principal and never satisfies the restore test |
| Lifecycle.WriteChainsExactlyFromStatus | workers/liquidation-monitor.worker.ts:493-513 | an appended entry keeps the log chained if and only if it starts from the status the loan has at the write |
| Lifecycle.AllowedExactlyWhen | src/modules/loans/loan-status.service.ts:8-25 | a changing pair is allowed, whatever the reason, if and only if it goes one step further from PENDING_COLLATERAL or ACTIVE; a keeping one exactly for the reasons of its status |
| Lifecycle.WritesChainExactlyWhenFresh | src/modules/loans/loan-status.service.ts:43-72 | over any run of status writes by any writers, the log chains if and only if each starts from the status the loan has when it lands |
| Lifecycle.ActivateAndCancelBreakTheChain | src/modules/loans/loans.service.ts:623-655 | when activateLoan and cancelLoan both read PENDING_COLLATERAL, either order of their commits breaks the chain |
| Lifecycle.OpenedCanBreak | src/modules/loans/loans.service.ts:497-511 | any loan just opened is such an input |
| Lifecycle.StepKeepsSound | src/modules/loans/loans.service.ts:623-837 | every writer keeps the ledger invariant |
| Lifecycle.StepKeepsLog | src/modules/loans/loan-status.service.ts:43-86 | every writer, with or without the transition table, keeps the log invariant |
| Lifecycle.RunKeepsInv | src/modules/loans/loan-status.service.ts:8-86 | both invariants hold along every well-timed run |
| Lifecycle.OpenedInv | src/modules/loans/calculator.service.ts:58-62 | a loan opened with the calculator's terms satisfies both invariants |
| Lifecycle.EveryRunLogs | src/modules/loans/loan-status.service.ts:8-86 | from creation on: status is the last target, entries chain, at most two status changes, nothing for the restore script to do, released means REPAID with exactly one COLLATERAL_RELEASED entry |
| Lifecycle.EveryRunConserves | src/modules/loans/loans.service.ts:759-837 | from creation on: money in is money accounted for, overpay only on the closing row, a REPAID loan repaid principal and gross interest exactly |
| Lifecycle.EveryRunIsMonitorable | workers/liquidation-monitor.worker.ts:215-227 | from creation on: an ACTIVE loan owes principal, and the balance is what was not repaid |
| Lifecycle.EveryRunIsSafeFor171Days | workers/liquidation-monitor.worker.ts:226-276 | over every run from creation whose monitor cycles see rates at or above the creation rate, the loan is at no time in its first 171 day buckets LIQUIDATED |
| Lifecycle.HistoryOnlyGrows | src/modules/loans/loans.service.ts:732-784 | rows and entries are never rewritten, and a REPAID loan's ledger is closed for good |
| Monitor.Worker.EvaluateCoverageTiers | workers/liquidation-monitor.worker.ts:347-395 | a warning goes out if and only if coverage is below 1.20 and none went out for 8 hours, a margin call likewise below 1.15; exactly those notices are added and those keys set |
| Monitor.Worker.Examine | workers/liquidation-monitor.worker.ts:207-315 | one loan: the verdict of Coverage.DecidesExactlyWhen is carried out (LIQUIDATED at this rate and instant, or unchanged), and ops are alerted if and only if a watched loan is at 1.20 or less and no alert went out for 24 hours |
| Monitor.SweepLiquidatesExactlyWhen | workers/liquidation-monitor.worker.ts:226-276 | a selected loan ends LIQUIDATED at the current rate if and only if that is at least half the creation rate and coverage is at most 1.10; otherwise it is unchanged |
| Monitor.Worker.Sweep | workers/liquidation-monitor.worker.ts:200-315 | the loop makes of every selected loan what Monitor.SweepLiquidatesExactlyWhen says, counts each kind, and leaves the notices and alerts of those loans in order |
| Monitor.Worker.RunLiquidationCycle | workers/liquidation-monitor.worker.ts:100-331 | nothing happens on a stale, missing or non-positive price (the last marks the feed stale); otherwise exactly the selected loans at half their creation rate or more and coverage of 1.10 or less end LIQUIDATED, the others stay as they were, and the nudges are those of one cycle of CyclesAreThrottled |
| Monitor.EvaluatedKeepsInv | workers/liquidation-monitor.worker.ts:347-395 | an evaluation keeps notices of one loan and tier a cooldown apart and margin calls preceded by a warning |
| Monitor.NoticesAreThrottled | workers/liquidation-monitor.worker.ts:347-395 | over any run of evaluations: at most three notices per loan and tier in any half-open 24 hours, every margin call within 8 hours of a warning for that loan |
| Monitor.VisitsOfCyclesInOrder | workers/liquidation-monitor.worker.ts:100-331 | the visits of cycles at non-decreasing times are in order of time |
| Monitor.CyclesAreThrottled | workers/liquidation-monitor.worker.ts:100-331 | over any run of cycles, at any rates and over any rows: at most three notices per loan and tier in any half-open 24 hours, every margin call within 8 hours of a warning for that loan |
| Release.StepKeepsInv | src/modules/loans/collateral-release.service.ts:77-238 | every await of every caller, and every lock expiry, keeps each accepted send stamped, reported, or still in some caller's hand |
| Release.ReleaseIsSafe | src/modules/loans/collateral-release.service.ts:77-238 | any callers, any lock expiry, any failing stamp: at most one stamp with exactly one log entry, and at rest every accepted send is the stamped one or a critical alert |
| Release.OrderlyKeepsExclusive | src/modules/loans/collateral-release.service.ts:77-84 | while no lock expires under an attempt and stamps commit, one caller holds the lock and a send is stamped before it is given up |
| Release.OneSendWhileLocksLast | src/modules/loans/collateral-release.service.ts:129-182 | under those premises at most one send ever happens and the already-stamped branch is never reached |
| Release.NoMoreSendsExactlyWhen | src/modules/loans/collateral-release.service.ts:77-182 | from any state, of a loan in any status: no continuation sends any more if and only if the loan is stamped, EXPIRED or CANCELLED, and no caller is about to send |
| Release.ExpiryUnderAttemptPaysTwice | src/modules/loans/collateral-release.service.ts:78-144 | from the start, a run in which one expiry under an attempt is the only misfortune and the collateral is sent twice |
| Release.FailedStampPaysAgain | src/modules/loans/collateral-release.service.ts:151-238 | from the start, a run without any expiry in which one stamp fails, the send is reported, and a second caller sends |
| Release.ReleaseService.ReleaseForLoan | src/modules/loans/collateral-release.service.ts:77-238 | for each answer the exact condition on row, lock and failing awaits: released with its reference exactly if the lock was free, the loan REPAID, unstamped and with an address, and every await from read to notice succeeded; what each leaves of stamp, sends, notices, critical alerts and lock; and equality with the protocol's steps run one after the other |
| Release.ReleaseService.Attempt | src/modules/loans/collateral-release.service.ts:86-232 | the outer try: the exact condition of each of its answers and what it leaves |
| Release.ReleaseService.SendAndStamp | src/modules/loans/collateral-release.service.ts:129-232 | a send that is accepted and then stamped, cleared and told is released, any other accepted one is a critical alert and SendFailed; a refused one is SendFailed once ops are paged |
| Release.ReleaseService.StampAndNotify | src/modules/loans/collateral-release.service.ts:151-232 | released exactly if the stamp found none and committed, and clearing and notice succeeded; otherwise the accepted send ends in a critical alert |
| Release.ReleaseService.ClearAndNotify | src/modules/loans/collateral-release.service.ts:194-232 | after the stamp: released with its reference and one notice exactly if both calls succeed, else a critical alert; the key is cleared exactly if the first succeeds |
| Release.ReleaseService.MaybeAlertOps | src/modules/loans/collateral-release.service.ts:243-265 | ops are paged about a failed send once while the dedupe key lives, and not if setting it throws |
| Disbursements.RunKeepsInv | src/modules/disbursements/outflows.service.ts:26-191 | every run of calls, from any state that satisfies it, keeps the attempt invariant |
| Disbursements.EveryRun | src/modules/disbursements/outflows.service.ts:26-241 | attempts are 1..n, at most one in flight, all but the last FAILED, at most one SUCCESSFUL, the non-CANCELLED status is fixed by the last, one ops page per FAILED attempt, one notice per SUCCESSFUL one of a loan |
| Disbursements.SuccessfulIsAbsorbing | src/modules/disbursements/disbursements.service.ts:69-125 | no event changes a SUCCESSFUL disbursement in any way |
| Disbursements.CancelledIsAbsorbingUnlessInFlight | src/modules/ops/disbursements/ops-disbursements.service.ts:128-165 | CANCELLED is absorbing if and only if no attempt is in flight |
| Disbursements.VerdictDecides | src/modules/webhooks/palmpay-payout.webhook.controller.ts:141-187 | of an attempt in flight, webhook or effective reconciler pass: attempt and parent SUCCESSFUL if and only if the verdict is successful (with the notice of a loan), attempt FAILED and parent ON_HOLD with one page if and only if it is failed, else nothing changes; the reconciler is effective after 300 seconds |
| Disbursements.SignalsAgree | src/modules/webhooks/palmpay-payout.webhook.controller.ts:141-187 | one verdict through webhook, reconciler or both, in any order and number, ends like one webhook delivery as soon as one signal is effective, with at most one notice |
| Disbursements.SignalsSettle | workers/outflow-reconciler.worker.ts:79-168 | one verdict through any signals, in any order and number, settles the attempt in that sense as soon as one is effective |
| Disbursements.Disbursement.MarkProcessing | src/modules/disbursements/disbursements.service.ts:69-78 | PROCESSING with both on-hold stamps cleared |
| Disbursements.Disbursement.MarkOnHold | src/modules/disbursements/disbursements.service.ts:98-125 | only the first transition writes, and says so |
| Disbursements.Disbursement.MarkOnHoldAndMaybeAlert | src/modules/disbursements/outflows.service.ts:197-241 | ops are paged exactly on the first transition |
| Disbursements.Disbursement.HandleSuccess | src/modules/disbursements/outflows.service.ts:62-93 | the attempt and its parent become SUCCESSFUL and, for a loan, one notice goes out |
| Disbursements.Disbursement.HandleFailure | src/modules/disbursements/outflows.service.ts:99-119 | the attempt fails and the parent goes on hold |
| Disbursements.Disbursement.ExecuteDispatch | src/modules/disbursements/outflows.service.ts:121-191 | one numbered attempt, in flight if the bank is known to the provider and the provider accepts, else FAILED with the parent on hold |
| Disbursements.Disbursement.Dispatch | src/modules/disbursements/outflows.service.ts:26-44 | a no-op on a terminal parent or with an attempt in flight; otherwise one more attempt, in flight or failed by what the provider answers |
| Disbursements.Disbursement.RetryDispatch | src/modules/disbursements/outflows.service.ts:50-60 | only an ON_HOLD parent gets a new attempt |
| Disbursements.Disbursement.HandleWebhook | src/modules/webhooks/palmpay-payout.webhook.controller.ts:131-196 | an attempt in flight is SUCCESSFUL on success and FAILED with the parent on hold on failure; a settled or unknown attempt, or one still processing, is left alone |
| Disbursements.Disbursement.AbandonAttempt | src/modules/ops/disbursements/ops-disbursements.service.ts:288-342 | every attempt in flight is failed; refused on a terminal parent or with none in flight |
| Disbursements.Disbursement.CancelByOps | src/modules/ops/disbursements/ops-disbursements.service.ts:128-165 | refused exactly on a terminal parent |
| Disbursements.RunReconcilerCycle | workers/outflow-reconciler.worker.ts:72-197 | every stale row changes as Disbursements.VerdictDecides says of its verdict, and is counted once, under that verdict |
| Inflows.CreditKeepsBook | src/modules/loans/loans.service.ts:679-784 | the credit transaction keeps the exactly-once invariant of the tables, and one that writes keeps matched equal to repaid if and only if it credits the amount of the inflow's row |
| Inflows.CreditsExactlyOnce | src/modules/webhooks/palmpay-collection-va.webhook.controller.ts:348-429 | under any interleaving: one inflow row per order number, one repayment per matched inflow, in the ledger of the loan it names as its source, and none per unmatched one |
| Inflows.SumsAgreeExactlyWhen | src/modules/webhooks/palmpay-collection-va.webhook.controller.ts:348-429 | over any run: matched amounts equal repayment amounts after every step if and only if every credit is at the amount of its row, and at the end if and only if the differences add up to zero |
| Inflows.MatchedEqualsRepaid | src/modules/webhooks/palmpay-collection-va.webhook.controller.ts:348-429 | with one amount per order number, matched amounts sum to repayment amounts at the end and after every step |
| Inflows.ParkThenCredit | src/modules/webhooks/palmpay-collection-va.webhook.controller.ts:348-460 | a parked delivery fixes the row's amount while a later delivery credits its own, and the sums differ by the difference |
| Inflows.SumsNeedOneAmountPerOrder | src/modules/webhooks/palmpay-collection-va.webhook.controller.ts:348-460 | for those two deliveries the sums agree exactly when the amounts do |
| Inflows.SystemConserves | src/modules/loans/loans.service.ts:759-784 | under every interleaving at non-decreasing times every loan's ledger stays sound, and what matched inflows brought is what custody, interest, principal and overpay received |
| Inflows.CreditedStaysCredited | src/modules/webhooks/palmpay-collection-va.webhook.controller.ts:348-460 | a credited inflow row never changes again |
| Inflows.CreditWritesExactlyWhen | src/modules/loans/loans.service.ts:690-784 | the transaction writes if and only if the loan is ACTIVE, the floor is met or waived, and the inflow is unused; so crediting a REPAID loan changes nothing |
| Collections.FindMatching | src/modules/loans/loans.service.ts:1101-1136 | the oldest loan whose balance is within the tolerance, and whether it is the only one |
| Collections.AmountClosesAny | src/modules/loans/loans.service.ts:1153-1171 | true exactly when some loan's balance less the tolerance is covered |
| Collections.MatchesExactlyWhen | src/modules/loans/loans.service.ts:1122-1168 | a loan matches within half a naira of its balance and is closed from half a naira below it |
| Collections.SmartMatchLeavesDust | src/modules/loans/loans.service.ts:1101-1136 | a smart-matched credit leaves at most the tolerance owing and overpays at most the tolerance |
| Collections.BelowFloorPayoffIsNotCredited | src/modules/webhooks/palmpay-collection-va.webhook.controller.ts:224-240 | in every state of the tables, a below-floor amount that closes an ACTIVE loan passes the floor check and leaves the ledger unchanged |
| Collections.BelowFloorPayoffIsReachable | src/modules/webhooks/palmpay-collection-va.webhook.controller.ts:384-390 | a run after which 5 000 closes the loan, is refused without the waiver, and would close it with the waiver |
| Collections.VerifiedDeliveryCreditsExactlyWhen | src/modules/webhooks/palmpay-collection-va.webhook.controller.ts:348-429 | a verified delivery for an ACTIVE loan changes its ledger if and only if the amount meets the floor and the order was not credited before |
| Collections.ClaimCreditsExactlyWhen | src/modules/loans/loans.service.ts:1047-1085 | a claim on an ACTIVE loan changes its ledger if and only if the inflow is unmatched and trusted, then by the inflow's amount and however small it is |
| Collections.Handle | src/modules/webhooks/palmpay-collection-va.webhook.controller.ts:175-345 | exactly when a delivery goes on to credit and to which loan, and exactly when it is skipped, malformed, deferred, or parked for which reason |
| Collections.AmountIsInNaira | src/modules/webhooks/palmpay-collection-va.webhook.controller.ts:202-202 | the payload is in kobo, and the floor is met from a million of them |
| Collections.Database.StoreUnmatchedInflow | src/modules/webhooks/palmpay-collection-va.webhook.controller.ts:496-555 | a re-delivered order neither writes nor pages; a write that fails otherwise still pages |
| Collections.Database.UpsertInflow | src/modules/webhooks/palmpay-collection-va.webhook.controller.ts:348-382 | the row of the order, created only if there was none |
| Collections.Database.CreditInflow | src/modules/loans/loans.service.ts:679-784 | loan row and inflow row change together, or not at all on the unique key |
| Collections.Database.CreditVerified | src/modules/webhooks/palmpay-collection-va.webhook.controller.ts:348-460 | the webhook's tail run alone is its steps in the interleaved system |
| Collections.Database.ApplyInflowToLoan | src/modules/loans/loans.service.ts:1047-1085 | runs the credit exactly for an ACTIVE loan and a trusted unmatched inflow, and is then the claim's steps in the interleaved system |
| Jaro.GreedyPairs | src/common/name-match/name-match.service.ts:13-24 | as many flags on either side, and the flagged characters are permutations of each other |
| Jaro.GreedyIsMatching | src/common/name-match/name-match.service.ts:13-24 | the flags are those of a one-to-one matching of equal characters, each inside its window |
| Jaro.GreedyIsMaximal | src/common/name-match/name-match.service.ts:13-24 | no unmatched equal pair remains inside a window |
| Jaro.FlagMatches | src/common/name-match/name-match.service.ts:13-24 | the two flag arrays and the count are those of the greedy pass |
| Jaro.NextFlagged | src/common/name-match/name-match.service.ts:32-32 | the scan with no bounds check stops inside the array, at the next flagged position |
| Jaro.CountTranspositions | src/common/name-match/name-match.service.ts:28-35 | counts the positions where the two sequences of flagged characters differ |
| Jaro.JaroLaw | src/common/name-match/name-match.service.ts:26-38 | for unequal non-empty strings with m pairs matched and t positions at which the matched characters differ: 6·m·a·b times the score is 2·m²·(a + b) + (2·m − t)·a·b, and without a pair it is 0 |
| Jaro.MarthaScore | src/common/name-match/name-match.service.ts:3-38 | "martha" and "marhta" score 17/18 |
| Jaro.ComputeJaro | src/common/name-match/name-match.service.ts:3-38 | the two passes over flag arrays compute the score that Jaro.JaroLaw characterises |
| Jaro.JaroWithin | src/common/name-match/name-match.service.ts:3-38 | the score is in [0, 1], and is 1 exactly for equal strings |
| Jaro.ComputeJaroWinkler | src/common/name-match/name-match.service.ts:40-48 | the loop finds the common prefix of at most four characters |
| Jaro.WinklerLaw | src/common/name-match/name-match.service.ts:40-48 | each character of the common prefix, up to four, takes a tenth off the distance to 1 |
| Jaro.JaroWinklerWithin | src/common/name-match/name-match.service.ts:40-48 | never below Jaro, in [0, 1], and 1 exactly for equal strings |
| Names.TokensAreLetterRuns | src/common/name-match/name-match.service.ts:50-58 | white space separates tokens, and between white space all letters a-z form one token |
| Names.BestIsGreatest | src/common/name-match/name-match.service.ts:62-64 | the best score of a token is attained by a target and none scores more |
| Names.ScoreIsMeanOfBest | src/common/name-match/name-match.service.ts:60-66 | the score of two token lists is the mean of the best scores, and 0 if one is empty |
| Names.ScoreTokensWithin | src/common/name-match/name-match.service.ts:60-66 | the mean of best scores is in [0, 1], and is 1 exactly when every source token occurs among the targets |
| Names.CompareIsGreater | src/common/name-match/name-match.service.ts:81-101 | the greater of the score of the shorter name against the longer and of first and last token against first and last, the second only if both have two tokens |
| Names.CompareIsOneExactlyWhen | src/common/name-match/name-match.service.ts:81-101 | 1 exactly when every token of the shorter name occurs in the longer, or both have two tokens and a's first and last are among b's first and last; otherwise in [0, 1) |
| Activity.GetPage | src/modules/me/activity.service.ts:56-145 | the loop, filter, merge and slice produce the specified page and next cursor |
| Activity.LastPageExactlyWhen | src/modules/me/activity.service.ts:134-142 | a page of trusted rows has no cursor if and only if it is empty, or both queries came back short and all they brought fits |
| Activity.NextIsCloser | src/modules/me/activity.service.ts:66-73 | every next cursor leaves strictly fewer rows, whatever the rows, so following it stops |
| Activity.PageIsHeadOfRemaining | src/modules/me/activity.service.ts:63-142 | taking `limit` rows of each table is enough: a page is the head of all that remains below the cursor, and no cursor means nothing remains |
| Activity.RemainingAfter | src/modules/me/activity.service.ts:66-73 | the rows below the cursor of a page's last item are what remains after the page |
| Activity.FollowIsRemaining | src/modules/me/activity.service.ts:56-145 | from any cursor, following returns everything below it |
| Activity.FeedListsEachOnce | src/modules/me/activity.service.ts:14-18 | the feed holds every typed log and unmatched inflow once, newest first |
| Activity.FollowingReturnsTheFeedExactlyWhen | src/modules/me/activity.service.ts:56-145 | following from the start returns the whole feed for every page size from 1 to 50, if and only if at a shared instant the inflow has the lower id; page size 1 alone decides it |
| Untrusted.OneByOneIsSeen | src/modules/me/activity.service.ts:118-142 | whatever is untrusted, page size 1 shows what remains with everything between an untrusted inflow and the next log left out |
| Untrusted.OneByOneShowsAllExactlyWhen | src/modules/me/activity.service.ts:118-142 | page size 1 shows every typed log and every trusted inflow if and only if no trusted inflow follows an untrusted one in the feed without a log between them |
| Spacing.SpacedOutIsEnough | src/modules/me/activity.service.ts:97-142 | for every page size, paging shows every typed log and every trusted inflow if any trusted inflow that follows an untrusted one has at least that many logs between them |
| Spacing.SpacedOutByOneIsNoneHidden | src/modules/me/activity.service.ts:118-142 | for page size 1 that condition is the exact one |
| Untrusted.UntrustedRowHidesTheNext | src/modules/me/activity.service.ts:118-124 | the least feed that loses something: its one trusted inflow is never shown |
| Pin.TransactionPin.VerifyCurrentPin | src/modules/auth/transaction-pin.service.ts:165-219 | the exact answer for an unset, locked, right and wrong PIN and what it leaves: a right PIN clears counter and lock, a wrong one counts or, as the fifth, locks for 900 seconds and clears the counter, the others change nothing; run alone it is one read step and one write step |
| Pin.TransactionPin.WritePin | src/modules/auth/transaction-pin.service.ts:86-94 | a write of the PIN clears counter and lock |
| Pin.CounterCountsWrongInARow | src/modules/auth/transaction-pin.service.ts:183-211 | over any run of verifications and PIN writes that do not overlap, from a zero counter: the counter is the number of wrong PINs in a row since the last right one or PIN write, modulo five |
| Pin.LocksExactlyOnEveryFifthWrong | src/modules/auth/transaction-pin.service.ts:183-211 | in such a run a verification locks if and only if its PIN is the fifth, tenth, ... wrong one in a row |
| Pin.CounterStaysBelowMax | src/modules/auth/transaction-pin.service.ts:196-211 | under every interleaving of verifications and PIN writes the counter stays below 5, and is 0 while a lock is recorded |
| Pin.CheckedWithinAllowance | src/modules/auth/transaction-pin.service.ts:177-211 | from any row, locked or not and with a comparison in flight or not: the wrong PINs still checked by an instant are bounded by the attempts left and the lockouts that fit |
| Pin.WrongPinsAreThrottled | src/modules/auth/transaction-pin.service.ts:165-219 | from an unlocked zero counter, wrong PINs whose verifications do not overlap get at most 5 · (⌊T/900⌋ + 1) checks in T seconds |
| Pin.ThrottleIsExact | src/modules/auth/transaction-pin.service.ts:196-211 | the bound is reached at every whole number of lockouts |
| Pin.ThrottlesExactlyWhen | src/modules/auth/transaction-pin.service.ts:165-219 | the bound holds of every wrong-PIN run with at most k verifications in flight if and only if k is at most one |
| Pin.OverlapsAreAllChecked | src/modules/auth/transaction-pin.service.ts:166-211 | any number of overlapping wrong PINs are all checked at one instant, and leave the row as one wrong PIN does |
| Pin.StaleWriteUnlocks | src/modules/auth/transaction-pin.service.ts:166-211 | from a fresh row, a run that is locked for 900 seconds and unlocked by a late write at the same instant |

## Left out

- decimal.js rounding, column scale and JavaScript floating point: arithmetic is exact.
- Crashes between two awaits: a step may fail or be overtaken, but each caller's steps are carried out.
- Lifecycle.EveryRunLogs: assumes that a worker's select and its write are one step, and likewise the reads of activateLoan and cancelLoan, made outside their transactions, and what those write.
- Lifecycle.StepKeepsLog: the same premise.
- Loans.LoanRecord.ExpireLoan: the EXPIRED status of the payment request, written in the same transaction.
- Monitor.Worker.EvaluateCoverageTiers: a notice counts when its cooldown key is set; a missing user or account, or an e-mail that fails, sends nothing, and a throw is not modelled.
- Monitor.Worker.Examine: a liquidation, nudge or swap that throws is caught and logged by the worker; here none throws.
- Monitor.Worker.Sweep: likewise.
- Monitor.Worker.RunLiquidationCycle: likewise, and not the heartbeat; an unparsable rate counts as a missing one.
- Monitor.NoticesAreThrottled: a notice is one whose key was set, as above; so in Monitor.CyclesAreThrottled.
- Disbursements.RunReconcilerCycle: a handler that throws part way, which the worker counts as an error.
- Collections.Database.ApplyInflowToLoan: loan and inflow are taken to belong to the caller and to be in NGN; others are answered as not found.
- Collections.Handle: the paging of ops after a failed credit.
- Untrusted.OneByOneShowsAllExactlyWhen: exact for page size 1 and for feeds whose ties agree; for larger pages Spacing.SpacedOutIsEnough is sufficient, not necessary.
- Release.ReleaseIsSafe: a send that throws is taken not to have paid, a page handed to the alert service counts as made, and no stale write takes a REPAID loan out of REPAID.
- Encoding of the activity cursor as base64 text, and malformed cursors.
- claimInflow's lookup of a candidate by amount; only the claim it leads to is modelled.
- Collateral top-ups: no code in the repository credits the SAT to the loan.
- recreateForActiveLoan, which may open a second disbursement; one obligation is modelled at a time.
- scripts/release-collateral-for-repaid-loan.ts, which skips the lock and the log, and the other one-off scripts.
- The Me page's risk card, which divides by SATS_PER_BTC where the monitor does not.
- Lower-casing of characters outside the basic multilingual plane, and names as UTF-16 units.
- HTTP, guards, DTO validation, provider clients, signatures, hashing, TOTP, e-mail, KYC, sessions, ops login: outside the
  model.
