# Verified model of the maintenance platform's core

A Dafny model of the parts of the platform whose correctness is not visible in any one function, with
proofs of what they promise over every input, run and interleaving.

- **Inventory** (`inventory*.dfy`, `sums.dfy`): stock balances, reservations and the append-only ledger; the
  eight transactions as guarded in-place updates; runs; snapshot-isolated interleavings with a unique
  idempotency key; the service's look-up, retry and recovery; and what `reconcile` reports.
- **Maintenance** (`intervals.dfy`, `calendar.dfy`, `recurrence.dfy`, `maintenance*.dfy`): the UTC calendar of
  section 21.4.1 of ECMA-262 on day numbers, the occurrence-date scan, and the life cycle of plans and
  occurrences under creating, approving, rejecting, skipping, archiving and assigning.
- **Locations** (`locations.dfy`): the parent links as a forest, and the walk that guards it.
- **Task queue** (`local_queue.dfy`): the bounded, re-entrant in-process scheduler.
- **CSV** (`csv.dfy`): the import's line parser against section 2 of RFC 4180.
- **Cache** (`cache.dfy`): the bounded first level over a key store with expiry.
- **Procurement** (`procurement*.dfy`): applications, quotations and contract awards over shared work orders, one
  call at a time and interleaved write by write.
- **Billing** (`billing*.dfy`): the subscription policy, the webhook transaction with its outbox, checkouts, and
  interleaved and repeated deliveries.

Each part has a specification on values (functions and invariants over every run) and, where the program
changes state in place, classes whose methods are proved to do exactly what the specification says, failures
and partial effects included. What each operation leaves and answers is also stated from its arguments and the
documents it finds alone (`inventory_effects.dfy`, `maintenance_results.dfy`, `procurement_results.dfy`,
`billing_results.dfy`, and the answers in `inventory_service.dfy`). `dafny verify dfyconfig.toml` checks the whole project.

## How the model is set up

- Stored documents are fields; identifiers are fresh numbers or positions. Quantities of stock are reals.
- A database transaction is atomic and is rolled back on an error. Interleaved transactions read a snapshot
  and commit only if no document they write was written since (first committer wins); unique indexes are
  checked on commit.
- Outcomes of code outside the model are parameters: whether work-order creation succeeds, what the payment
  gateway answers, whether a vendor is eligible, whether a location name is taken, the clock.
- Whether a required string may be empty is the document library's decision; the inventory model has it as
  the parameter `strict`, because the ledger row of a release has an empty unit of measure
  (`src/modules/inventory/inventory.repository.ts:506-518`, `src/modules/inventory/inventory-transaction.model.ts:55`).
- Authorization, request validation and mapping to responses are preconditions or left out.

## What turned out otherwise than documented or expected

Each with the exact condition, and a concrete run where one is short.

- `reconcile` counts a transfer as 0 at its source (`src/modules/inventory/inventory.repository.ts:140`), so it
  reports exactly the locations stock was transferred out of (`DiscrepanciesAreTransferSources`).
- The idempotency key is unique over all organizations and requests, while look-up and recovery do not ask what
  request it belongs to. `SwallowedIff` says for every kind of request when it is answered as done and does
  nothing, `TakesEffectIff` when it takes effect; `ReceiptIsSwallowed` is a run.
- If empty required strings are refused, no reservation can ever be released (`ReleaseCommitsIff`).
- Approving a plan never makes the plan itself approved, and looks at its earliest occurrence only; a plan is
  approved exactly while it is a manager's and not archived (`ApprovedPlanIff`, `StepDecides`), although section 3
  of the module's architecture document describes plans as being approved.
- An approved occurrence has no work order exactly if it was stored by a creation or a skip whose order then
  failed (`EveryRun`, `StepOrphans`).
- A failed skip has cancelled the due occurrence unless nothing was due or the plan cannot be skipped at all;
  it fails so without a next date and also if another plan of the asset has that date
  (`FailedSkipChangesNothingIff`).
- Archiving stops after a thousand occurrences (`ArchiveExact`, `ArchivingStopsAtThousand`) and does not keep
  pending ones from being approved (`StepDecides`).
- Concurrent location updates can form a cycle, since the check and the write are separate
  (`InterleavedUpdates` says which, `SwappedRootsFormCycle`).
- A quoted field of quote characters only gains one quote (`RoundTripIff`).
- Start, end and horizon dates in the years 0 to 99 are taken as of the twentieth century (`UtcDayIsOwnIff`).
- A deleted or overwritten value comes back exactly if a copy was on its way from or to the store (`Delete`,
  `DeleteStored`, `SetAndLand`, `DeletedComesBackAnswered`).
- A lifetime of zero seconds means no expiry in the store, so an answer has an age bound exactly if its lifetime
  is not zero (`SetThenGet`).
- Concurrent awards are safe, because the work order is saved only in the version that was loaded
  (`src/modules/work-orders/work-order.model.ts:152`); but applications are written unconditionally, so a withdrawal
  or review that checked before an award and writes after it takes the award back, while the work order stays
  assigned (`AwardTakenBackIff`, `WithdrawalTakesAwardBack`).
- An award rejects every application that could still win, but a review may put a rejected one under review
  again, so one that lost can be under review for a work order that is another vendor's (`LoserUnderReviewIff` says
  when, `LoserIsReviewed` is a run). None is ever submitted then (`LosersAreDecided`).
- The review route admits `withdrawn` (`src/modules/vendor-applications/vendor-application.schema.ts:11-13`), which
  the service's own type does not name, so an organization can withdraw an application, even a rejected one
  (`ReviewResult`).
- A withdrawn application comes back exactly by a contract, which does not ask for its status
  (`WithdrawnComesBackIff`).
- A failed payment takes a cancelled or expired subscription back to past due, and nothing else about a delivery
  does (`TerminalComesBackIff`), although `src/modules/billing/payments/payment.types.ts:31-35` lets the status at
  checkout decide and `src/modules/billing/billing.policy.ts:58-68` calls both states final. The policy's comment
  allows trial to active only; its code lets past due through too.
- The activation event tells the plan and cycle at commit, the payment's amount is that of the checkout
  (`RowPaidForIff`).

## Model

| member | source | states |
|---|---|---|
| InventoryConcurrency.Serializable | src/modules/inventory/inventory.repository.ts:584-668 | any interleaving of snapshot-isolated transactions, with aborts, crashes and retries, leaves the database that running its commits one after the other leaves |
| InventoryConcurrency.InterleavingsAreSafe | src/modules/inventory/inventory.repository.ts:584-668 | so in every interleaving no issue is over-consumed, no transaction over-returned, 0 <= reserved <= quantity everywhere, keys are unique, and balances agree with ledger and reservations |
| InventoryConcurrency.CommitIsAtomic | src/modules/inventory/inventory.repository.ts:583-631 | a commit on a snapshot whose written documents are unchanged equals the atomic execution on the current database, although it read ledger rows it does not write |
| InventoryConcurrency.KeyCommitsOnce | src/modules/inventory/inventory-transaction.model.ts:65 | no two commits of an interleaving carry one idempotency key, and the ledger holds one row per commit |
| InventoryConcurrency.NoInterleavingSeesInconsistency | src/modules/inventory/inventory.repository.ts:481-505 | even on an outdated snapshot a release never finds too little reserved and an issue from a reservation never too little stock |
| InventoryConcurrency.UndisturbedCommits | src/modules/inventory/inventory.repository.ts:583-631 | a transaction that nothing interferes with commits whenever its atomic execution would |
| InventoryRuns.ReachableAgreement | src/modules/inventory/inventory.repository.ts:116-244 | in every reachable state each quantity is the signed ledger sum, each reserved quantity the sum of open reservations, and 0 <= reserved <= quantity |
| InventoryRuns.LedgerDeterminesState | src/modules/inventory/inventory.repository.ts:245-249 | two runs with equal ledgers have equal balances and reservations: the ledger is a complete event log |
| InventoryRuns.InconsistencyNeverSeen | src/modules/inventory/inventory.repository.ts:432-505 | the inconsistent-reservation abort and the insufficient-stock abort on the reservation path cannot happen |
| InventoryRuns.ReleaseCommitsIff | src/modules/inventory/inventory.repository.ts:472-528 | a release commits exactly for an open reservation of the organization, and never if required strings must be non-empty, since its row has an empty unit |
| InventoryRuns.NothingOverdrawn | src/modules/inventory/inventory.repository.ts:584-668 | consumptions naming an issue never total more than it, nor do returns of a transaction |
| InventoryRuns.TransferConserves | src/modules/inventory/inventory.repository.ts:690-745 | a transfer leaves the organization-wide quantity and reserved totals of the item unchanged |
| InventoryRuns.TotalsAreLedgerSums | src/modules/inventory/inventory.repository.ts:706-725 | the organization-wide totals are the sums of the non-transfer ledger deltas |
| InventoryReconcile.ReconcileReports | src/modules/inventory/inventory.repository.ts:116-209 | the reported quantity difference is exactly minus what was ever transferred out, the reserved difference is zero, and an entry is consistent iff nothing was transferred out |
| InventoryReconcile.ExpectedIsSignedPlusOut | src/modules/inventory/inventory.repository.ts:131-151 | the recomputed quantity is the signed ledger sum plus all that was transferred out, since a transfer counts 0 at its source |
| InventoryReconcile.DiscrepanciesAreTransferSources | src/modules/inventory/inventory.service.ts:920-927 | the returned discrepancies are precisely the locations stock was ever transferred out of |
| InventoryReconcile.TransferIsReportedInconsistent | src/modules/inventory/inventory.repository.ts:140-150 | concrete run: receive 5, transfer 2, and a correct balance of 3 is reported as inconsistent with 5 |
| InventoryInvariants.CommitIsReplay | src/modules/inventory/inventory.repository.ts:210-249 | what a commit does to balances and reservations can be read off its ledger row alone |
| InventoryInvariants.BodyTold | src/modules/inventory/inventory.repository.ts:251-745 | each of the eight transaction bodies moves its balances and its reservation by exactly what its row says, within the bounds |
| InventoryInvariants.Step | src/modules/inventory/inventory.repository.ts:251-745 | one committed transaction of any kind keeps the whole invariant |
| InventoryStore.Repository.ReceiveAtomic | src/modules/inventory/inventory.repository.ts:251-288 | commits the specified change or fails with the specified error and no effect |
| InventoryStore.Repository.ReserveAtomic | src/modules/inventory/inventory.repository.ts:289-344 | same, for reservations of unreserved stock |
| InventoryStore.Repository.IssueAtomic | src/modules/inventory/inventory.repository.ts:403-471 | same, from free stock or from a reservation that may be used up |
| InventoryStore.Repository.ReleaseAtomic | src/modules/inventory/inventory.repository.ts:472-528 | same, giving back the unused part of a reservation |
| InventoryStore.Repository.AdjustAtomic | src/modules/inventory/inventory.repository.ts:529-567 | same, where a negative adjustment takes unreserved stock only |
| InventoryStore.Repository.ConsumeSourceAtomic | src/modules/inventory/inventory.repository.ts:568-631 | same, bounded by the issue drawn on less what was consumed of it |
| InventoryStore.Repository.ReturnAtomic | src/modules/inventory/inventory.repository.ts:632-689 | same, bounded by the original transaction less what was returned of it |
| InventoryStore.Repository.TransferAtomic | src/modules/inventory/inventory.repository.ts:690-745 | same, decreasing one balance and increasing the other |
| InventoryStore.Repository.DecreaseAvailable | src/modules/inventory/inventory.repository.ts:217-223 | takes unreserved stock if and only if there is enough |
| InventoryStore.Repository.ConsumeReserved | src/modules/inventory/inventory.repository.ts:238-244 | takes from quantity and reserved together if and only if both suffice |
| InventoryEffects.ReceiptEffect | src/modules/inventory/inventory.repository.ts:251-288 | the whole result of a receipt: refused only for its key; the stock at its location grows by its quantity and nothing else moves; the row tells the request |
| InventoryEffects.ReserveEffect | src/modules/inventory/inventory.repository.ts:289-344 | the same of a reservation: refused exactly without that much free stock or for its key; its quantity becomes reserved under a new open reservation |
| InventoryEffects.IssueEffect | src/modules/inventory/inventory.repository.ts:403-471 | the same of an issue from stock: its quantity of free stock, and no more, leaves |
| InventoryEffects.ReservedIssueEffect | src/modules/inventory/inventory.repository.ts:432-471 | the same of an issue from a reservation: refused exactly when it is not open there, has less left, or the stock lacks; stock, reserved and the reservation move by the requested quantity, and it is consumed when nothing is left |
| InventoryEffects.ReleaseEffect | src/modules/inventory/inventory.repository.ts:472-528 | the same of a release: what is left of the open reservation is freed and recorded |
| InventoryEffects.AdjustEffect | src/modules/inventory/inventory.repository.ts:529-567 | the same of an adjustment: what it takes must be free |
| InventoryEffects.ConsumeEffect | src/modules/inventory/inventory.repository.ts:568-631 | the same of a consumption of an issue: within what that issue has left and what is free |
| InventoryEffects.ReturnEffect | src/modules/inventory/inventory.repository.ts:632-689 | the same of a return: within what was taken, to where it was taken from |
| InventoryEffects.TransferEffect | src/modules/inventory/inventory.repository.ts:690-745 | the same of a transfer: its quantity of free stock leaves one location and arrives at the other |
| InventoryEffects.DrawnOneMore | src/modules/inventory/inventory.repository.ts:355-378 | what counts against a limit: the quantities of all rows that name the row as their source, or that return it, in its organization |
| InventoryService.Service.Call | src/modules/inventory/inventory.service.ts:358-417 | answers a known key from stored documents without a new effect; otherwise one transaction, its error mapped or recovered from |
| InventoryService.Service.Issue | src/modules/inventory/inventory.service.ts:513-659 | a consumption must name a reservation or an issue and draws on the issue if it names one |
| InventoryService.RetryIsReplayed | src/modules/inventory/inventory.service.ts:370-407 | once a keyed request has committed, repeating it at any later time changes nothing and is answered from what was stored, before or after a duplicate key |
| InventoryService.EffectAnswer | src/modules/inventory/inventory.service.ts:358-417 | a call that takes effect is answered with the document it has stored: the new reservation, the transfer's row, or the balance at the row's location |
| InventoryService.RepetitionAnswer | src/modules/inventory/inventory.service.ts:370-407 | and a repetition with the same key is told the same at once, without a further effect |
| InventoryService.FailureAnswer | src/modules/inventory/inventory.service.ts:453-837 | a call that fails has had no effect, and which error of the transaction is told as which answer |
| InventoryService.PossibleErrors | src/modules/inventory/inventory.repository.ts:251-745 | which kind of request can end with which error |
| InventoryService.SameKeyCommitsOnce | src/modules/inventory/inventory.service.ts:530-541 | any number of requests with one key together do nothing or exactly what one of them does alone |
| InventoryService.TakesEffectIff | src/modules/inventory/inventory.service.ts:370-407 | a call of any kind takes effect if and only if its key is free, over all organizations, and its transaction is accepted |
| InventoryService.ReceiptTakesEffectIff | src/modules/inventory/inventory.service.ts:370-407 | a receipt or positive adjustment takes effect if and only if its key is free |
| InventoryService.SwallowedIff | src/modules/inventory/inventory.service.ts:370-407 | for every kind: a request does nothing and is still answered as done, exactly if its organization used the key before and the answer's document exists, or it is a receipt or covered adjustment on an existing balance and anybody used the key |
| InventoryService.ReceiptIsSwallowed | src/modules/inventory/inventory.service.ts:395-407 | concrete run: a receipt of 3 is answered with the old balance of 5 because another organization used the key |
| InventoryService.FindByKeyComplete | src/modules/inventory/inventory.repository.ts:353-355 | the look-up finds every committed row by its key |
| Calendar.DayFromYearClosedForm | src/modules/preventive-maintenance/pm.recurrence.ts:3-5 | counting years with their lengths agrees with the closed form of section 21.4.1 of ECMA-262, for all years |
| Calendar.DateThenDay | src/modules/preventive-maintenance/pm.recurrence.ts:3-5 | every day number is the day of its own year, month and date |
| Calendar.DayThenDate | src/modules/preventive-maintenance/pm.recurrence.ts:3-5 | and every valid date is the date of its day: days and dates correspond one to one |
| Calendar.SameDateOrder | src/modules/preventive-maintenance/pm.recurrence.ts:15-18 | days with the same date are ordered like their months |
| Calendar.WeekDaysFollow | src/modules/preventive-maintenance/pm.recurrence.ts:20-28 | 1 January 1970 was a Thursday, and weekdays follow each other in a cycle of seven |
| Recurrence.GenerateOccurrenceDates | src/modules/preventive-maintenance/pm.recurrence.ts:6-37 | for every configuration, in its own terms: the result is strictly increasing and holds an instant iff it is a midnight not before the start, up to end and horizon, that meets the frequency, interval, weekdays and day of the month |
| Recurrence.WeeklyPlanCount | src/modules/preventive-maintenance/pm.recurrence.ts:20-28 | any 7 * interval days of a weekly plan hold one date for each distinct weekday of its configuration, or for the start's if it names none |
| Recurrence.MonthlyPlanDate | src/modules/preventive-maintenance/pm.recurrence.ts:29-31 | a monthly plan has, in every interval-th month from the start's, the day of its configuration or else the start's, where the month has it |
| Recurrence.CursorMatches | src/modules/preventive-maintenance/pm.recurrence.ts:13-34 | the remainder tests of the loop agree with the frequency rule |
| Recurrence.DaysExact | src/modules/preventive-maintenance/pm.recurrence.ts:6-37 | the dates are strictly increasing, in range, and contain exactly the matching days |
| Recurrence.UtcDayIsOwnIff | src/modules/preventive-maintenance/pm.recurrence.ts:3-5 | the midnight made of an instant is that of its own day iff its year is outside 0 to 99, which are taken as 1900 to 1999 |
| Recurrence.TwoDigitDay | src/modules/preventive-maintenance/pm.recurrence.ts:3-5 | in those years it is the same date 1900 years later, or 1 March for a 29 February that year does not have |
| Recurrence.AppendsIff | src/modules/preventive-maintenance/pm.recurrence.ts:8-12 | one last day's dates continue another's iff nothing is due between an earlier and a later one |
| Recurrence.LongerHorizonAppends | src/modules/preventive-maintenance/pm.recurrence.ts:8-10 | a longer horizon only appends, unless the shorter one lies in a year that is taken for a later one |
| Recurrence.DailyClosedForm | src/modules/preventive-maintenance/pm.recurrence.ts:25-26 | daily and interval plans: start + k * interval, floor((end - start) / interval) + 1 dates |
| Recurrence.WeeklyPeriodic | src/modules/preventive-maintenance/pm.recurrence.ts:27-28 | weekly plans repeat every 7 * interval days |
| Recurrence.WeeklyWindowDates | src/modules/preventive-maintenance/pm.recurrence.ts:20-28 | any window of one period inside the range holds as many dates as there are distinct chosen weekdays |
| Recurrence.MonthlyExact | src/modules/preventive-maintenance/pm.recurrence.ts:29-31 | a month holds a date iff it is a multiple of the interval from the start month and has the chosen day; then it is that day |
| Recurrence.AtMostOnePerMonth | src/modules/preventive-maintenance/pm.recurrence.ts:29-31 | no calendar month holds two dates |
| Recurrence.MonthlyStep | src/modules/preventive-maintenance/pm.recurrence.ts:15-31 | for a chosen day up to 28 consecutive dates are exactly interval months apart |
| Recurrence.YearlyScanIsMonthly | src/modules/preventive-maintenance/pm.recurrence.ts:32-34 | a yearly plan yields the dates of a monthly plan of twelve times the interval |
| MaintenanceRuns.EveryRun | src/modules/preventive-maintenance/pm.service.ts:158-302 | over every run: one occurrence per plan and date; work order iff approved and not stored by an operation whose work order failed; generated implies both; no shared work orders; nothing ever completed |
| MaintenanceRuns.StepOrphans | src/modules/preventive-maintenance/pm.service.ts:191-226 | each operation: an approved occurrence without work order is added exactly by a manager's creation of a plan with a date, or a skip reaching a new occurrence, whose order fails; and none is ever repaired |
| MaintenanceRuns.SkipLeavesUnorderedIff | src/modules/preventive-maintenance/pm.service.ts:797-843 | when a skip fails over its work order, and that the plan has moved and the occurrence is beyond approval then |
| MaintenanceRuns.ApprovedMeansOrdered | src/modules/preventive-maintenance/pm.service.ts:191-226 | if no work-order creation fails, approved means having a work order |
| MaintenanceRuns.ApprovedPlanIff | src/modules/preventive-maintenance/pm.service.ts:228-238 | over every run a plan is approved exactly while it is a manager's and not archived, so a submitted plan is never skipped |
| MaintenanceEffects.StepDecides | src/modules/preventive-maintenance/pm.service.ts:228-326 | every operation on every occurrence: exactly which one approves it with a fresh work order, rejects it, cancels it or reassigns it; a cancelled or archived one can be approved |
| MaintenanceEffects.CreateExact | src/modules/preventive-maintenance/pm.service.ts:80-156 | creating a plan: refused without effect, or exactly one occurrence for each date, the first approved and ordered for a manager, alone if its order fails; none if there is no date |
| MaintenanceEffects.RunGrows | src/modules/preventive-maintenance/pm.service.ts:158-302 | over any continuation an occurrence keeps its plan, date, decided approval, work order and history; a cancelled one comes back only by approval |
| MaintenanceRuns.StepKeeps | src/modules/preventive-maintenance/pm.service.ts:80-843 | every operation keeps the invariant of plans and occurrences |
| MaintenanceEffects.PlanApprovalReachesEarliest | src/modules/preventive-maintenance/pm.service.ts:228-274 | approving a plan reaches its earliest occurrence only and cannot be repeated |
| MaintenanceEffects.RejectionKeepsApprovedWork | src/modules/preventive-maintenance/pm.service.ts:287-326 | a plan can be rejected after its first occurrence was approved; the work order stays |
| MaintenanceRuns.NextIsLeast | src/modules/preventive-maintenance/pm.service.ts:824-831 | the date a skip moves to is the least due date after the present one, if one lies within the horizon |
| MaintenanceRuns.IsDueMeetsRule | src/modules/preventive-maintenance/pm.recurrence.ts:6-37 | due dates are those that meet the rule of the plan's configuration, and within a horizon those the scan generates |
| MaintenanceSkips.SkipMovesIff | src/modules/preventive-maintenance/pm.service.ts:786-843 | exactly when a skip moves the plan, and to which date |
| MaintenanceSkips.SkipExact | src/modules/preventive-maintenance/pm.service.ts:797-843 | a successful skip cancels the occurrence on the date it leaves, ensures one on the next date, approved with its own work order if new, and changes no other |
| MaintenanceSkips.FailedSkipChangesNothingIff | src/modules/preventive-maintenance/pm.service.ts:797-843 | a failed skip changes nothing exactly if the plan cannot be skipped, or it has no free next date and nothing was due; otherwise the due occurrence is cancelled |
| MaintenanceSkips.SkippedDatesAreConsecutive | src/modules/preventive-maintenance/pm.service.ts:797-843 | over every run a plan has gone, from its first skip on, through consecutive recurrence dates |
| MaintenanceSkips.SkipsNeverRepeatAndEnd | src/modules/preventive-maintenance/pm.service.ts:797-843 | over every run no date is skipped twice, and with an end date there are at most as many skips as recurrence dates |
| MaintenanceSkips.SkipLeavesNext | src/modules/preventive-maintenance/pm.routes.ts:74-98 | the skip route cancels its occurrence and leaves one on the next date, new only if there was none |
| MaintenanceResults.SkipRouteResult | src/modules/preventive-maintenance/pm.routes.ts:74-98 | the whole result of the skip route: with no date, or one that is taken, the occurrence alone is cancelled; otherwise one more is stored, scheduled, pending, without work order, with the skipped one's assignee and an empty history |
| MaintenanceResults.SkippedToCanBeApproved | src/modules/preventive-maintenance/pm.routes.ts:85-98 | and that one can be approved, with the next work order |
| MaintenanceResults.CreateRefusedIff | src/modules/preventive-maintenance/pm.service.ts:80-110 | exactly when and why a plan is not created |
| MaintenanceResults.NewPlanIs | src/modules/preventive-maintenance/pm.service.ts:100-131 | the plan that is stored, with its first date, status and recorded assignee |
| MaintenanceResults.CreateResult | src/modules/preventive-maintenance/pm.service.ts:80-156 | the whole result of creating a plan, by its configuration: one occurrence for each date of the next 90 days, the first with the default assignee and from a manager with a work order, the others pending and unassigned; if that order fails, the first alone |
| MaintenanceResults.CreateOccurrenceResult | src/modules/preventive-maintenance/pm.service.ts:158-226 | the whole result of storing an occurrence: what is on the date is kept; else it is stored as pending, or approved with a fresh work order, or approved without one if that fails |
| MaintenanceResults.ApproveResult | src/modules/preventive-maintenance/pm.service.ts:239-266 | the whole result of approving an occurrence: only a pending one, whatever its status, and nothing without a work order |
| MaintenanceResults.ApprovePlanResult | src/modules/preventive-maintenance/pm.service.ts:228-286 | approving a plan is approving its earliest occurrence, if plan and occurrence are pending |
| MaintenanceResults.RejectPlanResult | src/modules/preventive-maintenance/pm.service.ts:287-326 | the whole result of rejecting a plan: the plan, and its earliest occurrence if that is pending |
| MaintenanceResults.SkipRefusedIff | src/modules/preventive-maintenance/pm.service.ts:786-855 | exactly when a plan can be skipped |
| MaintenanceResults.SkipPlanResult | src/modules/preventive-maintenance/pm.service.ts:797-843 | the whole result of a skip: what was due is cancelled, and the plan moves to the next due date within 90 days unless another plan of the asset has it |
| MaintenanceResults.ArchiveResult | src/modules/preventive-maintenance/pm.service.ts:658-675 | the whole result of archiving: the plan, and its scheduled occurrences with fewer than a thousand earlier ones |
| MaintenanceResults.AssignResult | src/modules/preventive-maintenance/pm.service.ts:453-592 | assigning or clearing changes the one assignment and adds one history entry, or none if there was nothing to clear |
| MaintenanceEffects.ArchiveExact | src/modules/preventive-maintenance/pm.service.ts:658-675 | archiving cancels the scheduled occurrences among the first thousand by date and no others |
| MaintenanceEffects.ArchivingStopsAtThousand | src/modules/preventive-maintenance/pm.service.ts:658-675 | concrete run: a daily plan of 1091 occurrences is archived and the one with a thousand before it stays scheduled |
| MaintenanceInvariants.ReassignIsRecorded | src/modules/preventive-maintenance/pm.service.ts:520-592 | the assignment history always leads to the current assignee, in an order that makes sense |
| MaintenanceService.PMService.CreatePlan | src/modules/preventive-maintenance/pm.service.ts:80-156 | does exactly what the specified creation does, failures included |
| MaintenanceService.PMService.StoreOccurrence | src/modules/preventive-maintenance/pm.service.ts:158-226 | keeps an existing occurrence, or stores one and then its work order |
| MaintenanceService.PMService.Approve | src/modules/preventive-maintenance/pm.service.ts:228-238 | the specified approval of a plan |
| MaintenanceService.PMService.ApproveOne | src/modules/preventive-maintenance/pm.service.ts:239-256 | the specified approval of an occurrence |
| MaintenanceService.PMService.Reject | src/modules/preventive-maintenance/pm.service.ts:287-326 | the specified rejection |
| MaintenanceService.PMService.Skip | src/modules/preventive-maintenance/pm.service.ts:786-855 | the specified skip, partial effects included |
| MaintenanceService.PMService.SkipOne | src/modules/preventive-maintenance/pm.routes.ts:65-115 | the specified skip of one occurrence |
| MaintenanceService.PMService.ArchivePlan | src/modules/preventive-maintenance/pm.service.ts:658-697 | the specified archiving, by a loop over the occurrences |
| MaintenanceService.PMService.SetDefaultAssignee | src/modules/preventive-maintenance/pm.service.ts:453-519 | the specified assigning and clearing of a plan's default |
| MaintenanceService.PMService.SetAssignee | src/modules/preventive-maintenance/pm.service.ts:520-592 | the specified assigning and clearing of an occurrence's assignee |
| Locations.LocationService.HasDescendant | src/modules/locations/location.repository.ts:48-55 | ends on every reachable state, with true exactly when the location is a proper ancestor of the candidate |
| Locations.ReparentKeepsForestIff | src/modules/locations/location.service.ts:97-112 | a new parent keeps the forest if and only if the location is neither the parent nor one of its ancestors: the guard is exact |
| Locations.ForestHasNoCycle | src/modules/locations/location.service.ts:108-109 | in a forest no location is its own proper ancestor |
| Locations.InterleavedUpdates | src/modules/locations/location.service.ts:97-121 | two updates that both passed their checks form a cycle iff each new parent is the other moved location or lies below it |
| Locations.SwappedRootsFormCycle | src/modules/locations/location.service.ts:97-121 | two roots moved under each other at the same time pass both checks and form a cycle |
| Locations.LocationService.CreateLocation | src/modules/locations/location.service.ts:18-57 | keeps the forest inside one facility and organization; each refusal as specified |
| Locations.LocationService.UpdateLocation | src/modules/locations/location.service.ts:80-123 | keeps the forest; refuses foreign parents, itself and cycles; clears the parent or leaves it, as the store decides |
| LocalQueue.LocalTaskQueue.Drain | src/infrastructure/local-queue/local-task-queue.ts:86-96 | ends with all slots busy or nothing waiting, re-entrant calls included; starts tasks in enqueue order, each once, within the concurrency |
| LocalQueue.LocalTaskQueue.Enqueue | src/infrastructure/local-queue/local-task-queue.ts:53-66 | appends the task behind all earlier ones and drains |
| LocalQueue.LocalTaskQueue.Submit | src/infrastructure/local-queue/local-task-queue.ts:53-66 | a call from outside: at rest afterwards, with every spawned task enqueued too |
| LocalQueue.LocalTaskQueue.Finish | src/infrastructure/local-queue/local-task-queue.ts:92-95 | a finished or failed task frees its slot, and a waiting task takes it |
| LocalQueue.LocalTaskQueue.OnIdle | src/infrastructure/local-queue/local-task-queue.ts:69-83 | idle means every task submitted or spawned has been started and has finished, and no other |
| LocalQueue.LocalTaskQueue.constructor | src/infrastructure/local-queue/local-task-queue.ts:37-43 | the concurrency is the requested one but at least 1 |
| Csv.ParseCsvLine | src/modules/assets/asset.service.ts:85-105 | the character loop computes the specified cells |
| Csv.ReadLine | src/modules/assets/asset.service.ts:85-105 | reading back any line written with legal quoting yields its fields, where a quoted field of quotes only gains one quote |
| Csv.RoundTripIff | src/modules/assets/asset.service.ts:85-105 | parsing undoes the quoting of section 2 of RFC 4180 if and only if no quoted field consists of quotes only |
| Csv.MinimalRoundTripIff | src/modules/assets/asset.service.ts:85-105 | with quoting only where needed: if and only if no non-empty field consists of quotes only |
| Csv.ImportRecords | src/modules/assets/asset.service.ts:46-53 | each data line becomes the record of its cells by header |
| Csv.TrimExact | src/modules/assets/asset.service.ts:46-53 | trimming removes the white space at both ends and nothing else |
| Csv.TableImports | src/modules/assets/asset.service.ts:46-53 | a table written with any legal quoting imports its own trimmed cells under its own headers, and no other field |
| TwoLevelCache.RememberedExact | src/infrastructure/cache/redis.cache.ts:93-97 | the in-process map never exceeds 1000 entries, and only a full one that does not know the key loses an entry: its oldest |
| TwoLevelCache.RememberedInOrder | src/infrastructure/cache/redis.cache.ts:93-97 | a known key keeps its place, a new one comes last, and a map of a thousand loses its oldest |
| TwoLevelCache.RedisCache.Lookup | src/infrastructure/cache/redis.cache.ts:18-27 | a hit never extends an entry's life, and its value is younger than its lifetime, 5000 ms and two delays, unless set without a lifetime |
| TwoLevelCache.RedisCache.Receive | src/infrastructure/cache/redis.cache.ts:28-39 | a value from the store is younger than its lifetime and two delays, unless set without one, and remembered for 5000 ms |
| TwoLevelCache.RedisCache.Get | src/infrastructure/cache/redis.cache.ts:18-39 | uninterrupted: the live local value, else the live stored one, else nothing, within the age bound |
| TwoLevelCache.SetThenGet | src/shared/services/redis.service.ts:26-43 | a value set and asked for at any later time is answered exactly if its lifetime was zero or is not over, so the age bound holds iff the lifetime is not zero |
| TwoLevelCache.RedisCache.Set | src/infrastructure/cache/redis.cache.ts:59-62 | remembers the value for its lifetime but at most five seconds, and sends it on |
| TwoLevelCache.RedisCache.Land | src/shared/services/redis.service.ts:26-43 | a write that reaches the store expires its lifetime later |
| TwoLevelCache.GetAtTheBound | src/infrastructure/cache/redis.cache.ts:28-39 | with a write, an answer and a hold that all take their longest, the age bound is reached but for one millisecond |
| TwoLevelCache.RedisCache.DeleteStored | src/infrastructure/cache/redis.cache.ts:73-85 | when the store deletes, a value of the key is gone for good iff it was neither on its way nor remembered again |
| TwoLevelCache.RedisCache.Delete | src/infrastructure/cache/redis.cache.ts:73-85 | uninterrupted: removes the key from both levels, and a value is gone for good iff it was not on its way |
| TwoLevelCache.SetAndLand | src/infrastructure/cache/redis.cache.ts:59-62 | once a new value has landed, another one of the key is gone for good iff it was not on its way |
| TwoLevelCache.DeletedComesBackAnswered | src/infrastructure/cache/redis.cache.ts:28-39 | a deleted value comes back for five seconds with an answer that was on its way |
| TwoLevelCache.DeletedComesBackWritten | src/infrastructure/cache/redis.cache.ts:59-85 | a deleted value comes back for its lifetime with a write that was on its way |
| TwoLevelCache.OverwrittenComesBack | src/infrastructure/cache/redis.cache.ts:28-39 | an overwritten value replaces the new one for five seconds with an answer that was on its way |
| TwoLevelCache.RedisCache.DeleteByPattern | src/infrastructure/cache/redis.cache.ts:87-91 | removes every key with the prefix from the first level; from the store too, unless the final star is missing |
| ProcurementRuns.OneWinner | src/modules/vendor-applications/vendor-application.service.ts:206-223 | over every run a work order has at most one awarded application and at most one accepted quotation |
| ProcurementRuns.AwardedIsAssigned | src/modules/vendor-applications/vendor-application.service.ts:206-212 | an awarded application's work order is not open and is assigned to its vendor |
| ProcurementRuns.AcceptedIsAwarded | src/modules/quotations/quotation.service.ts:183-197 | an accepted quotation's application is the awarded one and its vendor the assigned one |
| ProcurementRuns.ContractIsAwarded | src/modules/contract-awards/contract-award.service.ts:92-122 | the same of a contract |
| ProcurementRuns.WinnersAgree | src/modules/contract-awards/contract-award.service.ts:92-122 | a quotation accepted and a contract awarded for one work order have one winner |
| ProcurementRuns.AssignedIffAwarded | src/modules/contract-awards/contract-award.service.ts:117-120 | over every run a work order is assigned to a vendor exactly if that vendor's application for it is awarded |
| ProcurementRuns.AwardsAreFinal | src/modules/contract-awards/contract-award.service.ts:66-128 | an awarded application stays awarded over any continuation |
| ProcurementRuns.AcceptanceIff | src/modules/quotations/quotation.service.ts:183-197 | exactly when a quotation can be accepted |
| ProcurementRuns.RepairIsIdle | src/modules/quotations/quotation.service.ts:143-157 | the repair on the read path never finds anything to do |
| ProcurementRuns.WithdrawnComesBackIff | src/modules/contract-awards/contract-award.service.ts:66-103 | over every run a withdrawn application comes back exactly by a contract award while the work order is open and without contract, and is then awarded |
| ProcurementResults.ReviewResult | src/modules/vendor-applications/vendor-application.service.ts:189-224 | the whole result of a review: exactly when it is refused; an award assigns the work order and leaves every other application for it withdrawn if it was, else rejected, and those of other orders alone |
| ProcurementResults.ContractResult | src/modules/contract-awards/contract-award.service.ts:66-128 | the same of a contract, whatever the application's status |
| ProcurementResults.QuotationResult | src/modules/quotations/quotation.service.ts:166-199 | the same of a quotation's status: the transitions allowed, and the award that acceptance makes first |
| ProcurementResults.ApplyResult | src/modules/vendor-applications/vendor-application.service.ts:40-98 | the whole result of applying |
| ProcurementResults.WithdrawResult | src/modules/vendor-applications/vendor-application.service.ts:246-254 | the whole result of withdrawing |
| ProcurementResults.QuoteResult | src/modules/quotations/quotation.service.ts:37-80 | the whole result of quoting: the total is labor plus material |
| ProcurementResults.ReviseResult | src/modules/quotations/quotation.service.ts:212-250 | the whole result of revising: the given lines, their subtotal, the tax, and the quotation sent again |
| ProcurementResults.SubtotalAdds | src/modules/quotations/quotation.service.ts:219-223 | a subtotal adds each line rounded to the nearest unit, halves upwards |
| ProcurementResults.LosingStep | src/modules/vendor-applications/vendor-application.service.ts:205-223 | whatever call makes an application lose its work order to another leaves it withdrawn if it was, else rejected |
| ProcurementResults.LosersAreDecided | src/modules/vendor-applications/vendor-application.service.ts:205-223 | over every run no application of a work order that another one has won is submitted |
| ProcurementResults.LoserUnderReviewIff | src/modules/vendor-applications/vendor-application.service.ts:189-224 | over every continuation one that lost is under review iff it was put under review, while not withdrawn, and not closed since |
| ProcurementResults.LoserIsReviewed | src/modules/vendor-applications/vendor-application.service.ts:206-224 | concrete run: a rejected application is under review for a work order assigned to another vendor |
| ProcurementConcurrency.NextKeeps | src/modules/work-orders/work-order.model.ts:150-153 | every step of any number of concurrent calls keeps the invariant: the work order is saved only in the version that was loaded, other documents unconditionally |
| ProcurementRaces.OneWinnerConcurrently | src/modules/vendor-applications/vendor-application.service.ts:205-224 | in every interleaving of reviews, withdrawals, contracts and quotation changes a work order has at most one awarded application, one accepted quotation and one contract, all of its assigned vendor |
| ProcurementRaces.ReviewsOfOneOrder | src/modules/vendor-applications/vendor-application.service.ts:205-224 | any number of awarding reviews of one work order, in any order of their steps, leave the documents of exactly one of them alone, the others having written nothing |
| ProcurementRaces.AwardTakenBackIff | src/modules/vendor-applications/vendor-application.service.ts:224-254 | over every interleaving an awarded application is still awarded iff no withdrawal or review of it that checked before the award has written since; the work order stays its vendor's |
| ProcurementRaces.AloneIsInOnePiece | src/modules/vendor-applications/vendor-application.service.ts:205-224 | a call nothing interferes with does, with its separate writes, what the service does in one piece |
| ProcurementRaces.WithdrawalTakesAwardBack | src/modules/vendor-applications/vendor-application.service.ts:246-254 | concrete run: a withdrawal checked before an award and written after it leaves a withdrawn application on the work order assigned to it |
| ProcurementRuns.SecondApplicationRefused | src/modules/vendor-applications/vendor-application.service.ts:71-98 | a vendor applies once, to an open unassigned marketplace work order |
| ProcurementRuns.StepKeeps | src/modules/contract-awards/contract-award.service.ts:39-128 | every step of the three services keeps the invariant |
| ProcurementRuns.RevisionsAreInOrder | src/modules/quotations/quotation.service.ts:212-250 | revisions are numbered without gaps and a quotation's totals are those of its latest one |
| ProcurementRuns.SubtotalWithinRounding | src/modules/quotations/quotation.service.ts:219-223 | rounding each line moves the subtotal by at most half a minor unit per line |
| ProcurementService.Marketplace.SubmitApplication | src/modules/vendor-applications/vendor-application.service.ts:40-98 | the specified application, each refusal included |
| ProcurementService.Marketplace.UpdateApplication | src/modules/vendor-applications/vendor-application.service.ts:189-224 | the specified review; an award assigns the work order and rejects the others |
| ProcurementService.Marketplace.WithdrawApplication | src/modules/vendor-applications/vendor-application.service.ts:246-254 | the specified withdrawal |
| ProcurementService.Marketplace.CreateAward | src/modules/contract-awards/contract-award.service.ts:39-128 | the specified contract award |
| ProcurementService.Marketplace.SubmitQuotation | src/modules/quotations/quotation.service.ts:37-80 | the specified quotation |
| ProcurementService.Marketplace.UpdateQuotation | src/modules/quotations/quotation.service.ts:166-199 | the specified transition; accepting awards the application first |
| ProcurementService.Marketplace.CreateRevision | src/modules/quotations/quotation.service.ts:212-250 | the specified revision |
| BillingConcurrency.ActivationsMatchPayments | src/modules/billing/billing.service.ts:291-347 | however deliveries repeat and interleave, a subscription has exactly as many activation rows as succeeded payments |
| BillingConcurrency.PaymentsSettleOnce | src/modules/billing/payments/payment.repository.ts:32-44 | a payment leaves pending at most once: its settled status never changes again |
| BillingConcurrency.CommitIsAtomic | src/modules/billing/billing.service.ts:295-347 | a committed delivery equals the whole webhook run at that moment; otherwise nothing changes |
| BillingConcurrency.NoActivationAgainstPolicy | src/modules/billing/billing.policy.ts:53-69 | no delivery activates a subscription that is active, cancelled or expired when it commits, and its payment claim is undone |
| BillingConcurrency.DeliverySettlesIff | src/modules/billing/billing.service.ts:295-347 | in every interleaving a delivery settles its payment iff payment and subscription were not written since its snapshot, the payment is pending and policy allows it; otherwise it changes nothing |
| BillingConcurrency.StepLeavesTerminalIff | src/modules/billing/billing.service.ts:340-346 | any event: a cancelled or expired subscription comes back exactly by a failed delivery that settles its payment or another operation's write |
| BillingConcurrency.TerminalComesBackIff | src/modules/billing/billing.service.ts:340-346 | over every interleaving without such writes: it is back iff a failed delivery for it settled its payment |
| BillingConcurrency.RowPaidForIff | src/modules/billing/billing.service.ts:220-328 | the amount paid is the price of the activation row's plan and cycle iff the choice at checkout and at commit cost the same |
| Billing.DeliveriesAmountToFirst | src/modules/billing/billing.service.ts:289-311 | any number of deliveries of any outcomes amounts to the first that can settle the payment |
| Billing.WebhookKeeps | src/modules/billing/billing.service.ts:295-347 | payment and activation row come together or not at all |
| BillingResults.WebhookResult | src/modules/billing/billing.service.ts:295-347 | the whole result of a webhook: which status the payment and the subscription get, the row appended, and which error refuses it |
| BillingResults.DeliverResult | src/modules/billing/billing.service.ts:285-288 | the reference finds its payment, and an unknown one is ignored |
| BillingResults.AmountIs | src/modules/billing/billing.config.ts:41-61 | the price of every plan in cents, and a year at a fifth less than twelve months |
| BillingResults.RankIs | src/modules/billing/billing.policy.ts:11-18 | the order of the plans, in which a higher one never costs less |
| BillingResults.PaidCounts | src/modules/billing/payments/payment.repository.ts:32-44 | the payments counted as paid are those of the subscription that succeeded |
| BillingResults.ActivationsCount | src/modules/billing/billing.service.ts:329-339 | and the activation rows those of the subscription |
| BillingService.Service.HandleWebhook | src/modules/billing/billing.service.ts:273-357 | one delivery as one transaction: all of its writes or none |
| BillingService.Service.InitiateCheckout | src/modules/billing/billing.service.ts:185-264 | reuses a pending payment, else stores one and marks it failed if the gateway fails; at most one pending payment per subscription |
| BillingService.Service.CreateSubscription | src/modules/billing/billing.service.ts:76-129 | one subscription per owner, on trial |
| BillingService.Service.Activate | src/modules/billing/billing.service.ts:366-391 | activates exactly trial and past-due subscriptions |
| BillingService.Service.Cancel | src/modules/billing/billing.service.ts:397-421 | cancels exactly those that are neither cancelled nor expired |
| BillingService.Service.ChangePlan | src/modules/billing/billing.service.ts:427-495 | moves up or down in plan rank, exactly while the subscription is live |
| BillingService.Service.ExpireTrial | src/modules/billing/billing.service.ts:502-524 | expires exactly trials whose end is set and reached |

## Left out

- Floating-point rounding of stock quantities: the guards and sums are over reals.
- The checks of items, stock locations and work orders before an inventory request (`context`, the work-order look-ups), roles and organizations of callers: preconditions.
- A reservation and its ledger row get one identifier here; they are never compared with each other.
- The limit of 1000 balances of `findBalances`: a look-up by item and location finds one document.
- Work-order fields, references, reasons and timestamps of inventory documents.
- Retries inside the database driver: a retried transaction is a new one in the interleavings.
- Interleavings of the maintenance and location services, whose calls are several separate writes: modelled one call at a time, except for two concurrent location updates.
- `PMService.update`, listing, calendar and mapping: a plan's recurrence is fixed once created.
- Organization and facility of plans and occurrences: the model is the documents of one organization, with the asset standing for its place.
- The deletion of archived plans after thirty days by the database.
- Whether a work order still exists when an occurrence that names one is approved: such an occurrence is never pending.
- Vendor and team assignees, which the service refuses, and time and actor of assignment changes.
- An upper limit of 366 on recurrence intervals: the proofs hold for every interval from 1 on.
- Location names, types and archiving; the name check is an outcome parameter.
- `onIdle` polls every 10 ms; the model has the condition it polls for.
- Splitting an import file into lines, row validation and the creation of assets.
- Cache statistics, logging and values that do not parse; other users of the key store, glob characters inside a prefix, and outages, which are answers that never come.
- TwoLevelCache.RedisCache.DeleteByPattern: the store's scan and deletion are one step here; they can only remove more or fewer entries, which no bound depends on.
- Interleaved procurement calls: a call's loads and checks are one step, a bulk rejection is one write, a revision's amounts are not followed, and a contract's transaction is atomic.
- Contract-award status changes, renewals and covered work orders; service-level agreements and the unchecked quotation reference of an award.
- Reopening or reassigning work orders by other modules: assumed not to happen.
- Conversion of quotation costs to minor units (`toMinorUnits`) and currencies.
- The trial length of a new subscription (its end is a parameter) and `updateSubscriptionCycle`.
- A checkout's reading of the subscription and storing of the payment: one step in the interleavings.
- Signature checks of webhooks, the outbox worker and published events.
- BillingService.Service.InitiateCheckout: at most one pending payment per subscription holds one call at a time; concurrent calls can both find none.
- HTTP, controllers, tokens, notifications, reports, search, settings, uploads, start-up and shutdown.
