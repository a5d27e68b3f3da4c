# Expense tracker pay-period engine, in Dafny

This project models the core of a personal budgeting app that plans expenses
across pay periods. The user keeps a list of recurring expense **templates**.
From them the app builds **24 pay periods** of 14 days. The periods alternate
between paycheck A and paycheck B, and each holds:

- instances of the templates assigned to its paycheck;
- one-off expenses;
- a list of template ids that were deliberately moved or deleted out of it
  (its *exclusions*).

The user can work on the periods in several ways:

- move an instance to the neighbouring period;
- delete an instance and undo the deletion;
- mark an instance paid or cleared;
- record partial payments;
- edit one instance, or the template together with every later period;
- add and edit one-offs.

Around this engine sit a few calculators:

- period totals, in two versions;
- a debt payoff simulation with the snowball and avalanche strategies;
- the 2024 US paycheck tax arithmetic;
- analytics by month and by category;
- CSV export;
- the template list editor.

The model has these modules:

- `Values`: the records and the JavaScript idioms every operation uses. `x || d` on an optional number is `OrElse`, `x ?? d` is `Coalesce`, and the bounded undo push `[...s.slice(-9), x]` is `PushBounded`.
- `Sorting`: a stable insertion sort on a real-valued key, standing for `Array.prototype.sort`.
- `Generator`: one rebuilt period, and the whole rebuild as a value.
- `PeriodOps`: the store's list updates as functions on the period list.
- `Store`: the store (`src/store/expenseStore.js`) as a class holding the templates, the income settings, the periods, an undo stack of replayable actions and the expense modal. `GeneratePeriods` is its 24-step loop.
- `AppOps` and `App`: the main component (`src/ExpenseTrackingApp.jsx`). Its undo stack holds whole-list snapshots, and its move, delete, save, partial-payment and sort rules differ from the store's.
- `Totals`: the period totals of `src/utils/calculations.js` and of the component.
- `Debt`: `calculateDebtPayoff`, with its monthly loop as a method.
- `Paycheck`: `calculateTaxes`, with its bracket loop as a method.
- `Analytics`: `getAnalyticsData`, with its accumulation loop as a method.
- `CsvExport`: the row and text construction of `exportToCSV`.
- `Templates`: the template list editor.

Amounts are reals and dates are day numbers. The following are parameters of the operations that need them:

- date formatting;
- turning a number into text;
- turning a calendar date into a timestamp;
- fresh ids and the clock.

Two behaviours of the code that a reader might not expect are modelled as the
code has them:

- Instances of a deactivated template are kept by a rebuild, not dropped (`Generator.InactiveTemplateInstanceKept`).
- The store's undo of a move replays the move backwards. That does not restore the periods exactly (`PeriodOps.MoveUndoNotExact`). Only the component's snapshot undo does (`App.ExpenseTrackingApp.MoveThenUndo`).

## Model

| member | source | states |
|---|---|---|
| Values.PushBounded | src/store/expenseStore.js:319 | the undo stack keeps at most 10 entries: the newest nine old ones, then the new one on top |
| Generator.FindActiveTemplate | src/store/expenseStore.js:162 | a found template is active, in the list and has the id; none found means every template with that id is inactive |
| Generator.Resync | src/store/expenseStore.js:161-175 | an instance without an active template, or individually modified (amount, description, category, status, notes or period differ), is kept as is; otherwise it takes the template's fields, with its period, its pending status, `amountCleared || amount` and `position ?? 0` |
| Generator.Matching | src/store/expenseStore.js:186-187 | exactly the active templates of the period's paycheck |
| Generator.Candidates | src/store/expenseStore.js:176-181 | exactly the active templates of the paycheck whose id is neither already present nor excluded |
| Generator.AppendAll | src/store/expenseStore.js:182-184 | appending keeps the kept instances as a prefix and adds one instance per candidate |
| Generator.AppendedAt | src/store/expenseStore.js:183 | each appended template is instantiated pending with position one above the largest position before it |
| Generator.MaxPositionBounds | src/store/expenseStore.js:183 | the position reduce yields the largest `position ?? -1`, or -1 |
| Generator.Fresh | src/store/expenseStore.js:185-189 | a period built from scratch has one instance per matching template |
| Generator.Generated | src/store/expenseStore.js:150-202 | always 24 periods with ids 0..23; period i is paycheck A iff i is even (first paycheck A) or odd (first paycheck B); default income by paycheck; 14-day windows; extra income, one-offs and exclusions carried over from the old period with that id, else 0, [] and [] |
| Generator.ExistingInstancesFirst | src/store/expenseStore.js:160-175 | a period that had instances keeps each of them, re-synced or kept, in order and ahead of anything appended |
| Generator.AppendedInstances | src/store/expenseStore.js:176-184 | every appended instance comes from an active template of the paycheck that was neither present nor excluded, at a position above every earlier one |
| Generator.ExclusionRespected | src/store/expenseStore.js:180 | an excluded id absent from a non-empty period is never re-inserted |
| Generator.EmptiedPeriodIgnoresExclusions | src/store/expenseStore.js:160-189 | a period whose instance list became empty is rebuilt from scratch and gets even excluded templates back |
| Generator.FreshPeriod | src/store/expenseStore.js:185-189 | a period without instances gets every active template of its paycheck in template order, pending, cleared amount = amount, position 0 |
| Generator.InactiveTemplateInstanceKept | src/store/expenseStore.js:162-174 | an instance whose template is inactive is kept unchanged |
| Generator.NoDuplicateIds | src/store/expenseStore.js:176-184 | with distinct active template ids, a rebuild keeps a period's instance ids distinct |
| Generator.ResyncIdempotent | src/store/expenseStore.js:161-175 | re-syncing twice is re-syncing once |
| Generator.InstantiateStable | src/store/expenseStore.js:164-171 | a fresh instance of an active template is not individually modified, so the next rebuild leaves it unchanged |
| Generator.RebuiltResyncStable | src/store/expenseStore.js:159-189 | every instance of a rebuilt list is a fixed point of the re-sync |
| Generator.RebuiltComplete | src/store/expenseStore.js:176-189 | after a rebuild every active template of the paycheck that is not excluded is present |
| Generator.PeriodExpensesIdempotent | src/store/expenseStore.js:159-189 | the instance list of a rebuilt period is a fixed point of the rebuild |
| Generator.GeneratedIdempotent | src/store/expenseStore.js:147-205 | rebuilding from a rebuild with the same templates and income gives the same 24 periods |
| Store.DefaultTemplatesUnique | src/store/expenseStore.js:22-29 | the six starter templates have ids 1..6 and are distinct |
| Store.ModalIndex | src/store/expenseStore.js:254 | `findIndex` on the modal's period id: -1 for a null id or a missing period, else the first match |
| Store.ExpenseStore.constructor | src/store/expenseStore.js:22-40 | the starter templates, paychecks 2800/2800 from "now" with paycheck A first, no periods, empty undo stack, closed modal |
| Store.ExpenseStore.GeneratePeriods | src/store/expenseStore.js:147-205 | the 24-step loop stores exactly `Generator.Generated` of the old state and changes nothing else |
| Store.ExpenseStore.MoveRaw | src/store/expenseStore.js:285-302 | the periods become `PeriodOps.Moved` of the old periods; nothing else changes |
| Store.ExpenseStore.MoveExpense | src/store/expenseStore.js:303-323 | a target index outside the list changes nothing; otherwise the swapped move is pushed on the bounded stack and the move is applied |
| Store.ExpenseStore.AddExpenseRaw | src/store/expenseStore.js:103-117 | the periods become the re-add of the record; a null period id changes nothing |
| Store.ExpenseStore.HandleUndo | src/store/expenseStore.js:214-229 | an empty stack changes nothing; otherwise exactly the newest action is popped and replayed |
| Store.ExpenseStore.DeleteEditingExpense | src/store/expenseStore.js:118-146 | without a modal record nothing changes; otherwise a re-add action is pushed, the record leaves the modal's period and the modal closes |
| Store.ExpenseStore.UpdateExpenseStatus | src/store/expenseStore.js:230-245 | the periods become `PeriodOps.StatusUpdated`; nothing else changes |
| Store.ExpenseStore.HandleExpenseModalSave | src/store/expenseStore.js:246-284 | the template scope rewrites and re-activates the template and spreads the edit over the instances from the modal's period on (`PeriodOps.TemplateScopeEdited`); the instance scope replaces the record in the modal's period; the modal closes |
| Store.ExpenseStore.UpdateIncomeInPeriods | src/store/expenseStore.js:206-213 | the periods become `PeriodOps.IncomeUpdated`; nothing else changes |
| Store.ExpenseStore.AddOneOff | src/store/expenseStore.js:78-93 | the new one-off is appended to the first period with that id |
| Store.ExpenseStore.UpdateOneOff | src/store/expenseStore.js:94-102 | the first one-off with that id takes the patch |
| Store.MoveUndoReplay | src/store/expenseStore.js:220-222 | undoing a move puts the instance back in its source period and out of the destination, but the destination still excludes its id |
| PeriodOps.Arrived | src/store/expenseStore.js:293-298 | the moved record lands with the destination's id and pending; a template instance with cleared amount = amount, a one-off with its cleared amount unchanged |
| PeriodOps.Moved | src/store/expenseStore.js:285-302 | length and ids kept; a missing source or destination period leaves the list unchanged |
| PeriodOps.MoveInstance | src/store/expenseStore.js:294-299 | a template instance leaves the source, whose exclusions gain its id; the destination gets it appended and no longer excludes it; every other period and both one-off lists are unchanged |
| PeriodOps.MoveOneOff | src/store/expenseStore.js:290-293 | moving a one-off changes only the two one-off lists |
| PeriodOps.MoveRepeatsExclusion | src/store/expenseStore.js:296 | the store does not de-duplicate: an id already excluded is excluded twice |
| PeriodOps.MoveUndoNotExact | src/store/expenseStore.js:311-321 | replaying the swapped move brings the instance back to the end of the source, pending, and leaves the destination excluding it |
| PeriodOps.ExpenseAdded | src/store/expenseStore.js:103-117 | the first period with the id gets the record appended; a template instance is also removed from its exclusions; a missing period changes nothing |
| PeriodOps.Deleted | src/store/expenseStore.js:131-143 | the first period with the modal's id loses the record; a template instance's id is appended to its exclusions |
| PeriodOps.DeleteUndoRestores | src/store/expenseStore.js:118-146 | deleting the last instance of a period and undoing restores the periods exactly when the id was not excluded or duplicated there |
| PeriodOps.DeleteUndoReadds | src/store/expenseStore.js:108-113 | after delete and undo the instance is at the end of its period and its id is no longer excluded there |
| PeriodOps.StatusUpdated | src/store/expenseStore.js:230-242 | in periods with that id, instances with that id take the status, and "cleared" records the amount as cleared; one-offs and all else unchanged |
| PeriodOps.StatusUpdatedIdempotent | src/store/expenseStore.js:236-239 | setting a status twice equals setting it once |
| PeriodOps.InstanceSaved | src/store/expenseStore.js:270-280 | only in periods with the modal's id, the record with the edited id is replaced, among one-offs or instances by its kind |
| PeriodOps.InstanceSavedUnchanged | src/store/expenseStore.js:270-280 | saving the record already stored changes nothing |
| PeriodOps.TemplateScopeEdited | src/store/expenseStore.js:254-268 | periods before the modal's index untouched; from it on, the edited record is spread over each matching instance, so its amount is the edited one while an original amount, paid amount or notes the edited record lacks stay the instance's own; it takes its period's id and is pending except in the modal's period |
| PeriodOps.TemplateScopeKeepsPaymentHistory | src/store/expenseStore.js:260-264 | an edited record without payment history leaves each matching later instance's original and paid amounts unchanged and sets its amount |
| Values.Spread | src/store/expenseStore.js:261 | `{ ...e, ...x }`: every key of the edited record wins; an absent optional number, timestamp or empty notes keeps the instance's value |
| PeriodOps.TemplateScopeIdempotent | src/store/expenseStore.js:256-267 | the same template-scope edit twice equals once |
| PeriodOps.IncomeUpdated | src/store/expenseStore.js:206-213 | each period's default income is re-read by its paycheck; nothing else changes |
| PeriodOps.IncomeUpdatedMatchesRebuild | src/store/expenseStore.js:206-213 | refreshing the income of a rebuilt list equals rebuilding with the new paycheck amounts |
| PeriodOps.Patched | src/store/expenseStore.js:99 | present patch fields win over the record's; id, kind and creation time are kept |
| PeriodOps.NewOneOff | src/store/expenseStore.js:83-89 | a new one-off has the fresh id, is a one-off, is stamped with the time, and is pending unless the fields say otherwise |
| PeriodOps.OneOffAdded | src/store/expenseStore.js:78-91 | only the first period with that id gets the one-off appended; a missing period changes nothing |
| PeriodOps.OneOffUpdated | src/store/expenseStore.js:94-102 | only the first one-off with that id, in the first period with that id, is patched |
| PeriodOps.AddThenUpdateOneOff | src/store/expenseStore.js:78-102 | adding a one-off under a fresh id and then patching it equals adding the patched record |
| AppOps.AppArrived | src/ExpenseTrackingApp.jsx:657-663 | the moved record lands pending with the destination's id and the given position; a template instance is marked fully uncleared, a one-off keeps its cleared amount, and every other field is kept |
| AppOps.AppMoved | src/ExpenseTrackingApp.jsx:647-692 | length and ids kept; a missing period leaves the list unchanged |
| AppOps.AppMoveInstance | src/ExpenseTrackingApp.jsx:664-689 | the source period differs only in its template list, which loses exactly the records with the instance's id, and its exclusions, which gain the id once unless already there; the destination differs only in its exclusions, which lose the id, and its template list, which keeps every record and gets the instance appended, pending, fully uncleared, with every other field kept, at a position above every position there; no other period changes |
| AppOps.AppMoveOneOff | src/ExpenseTrackingApp.jsx:652-662 | the source period differs only in its one-off list, which loses exactly the records with the one-off's id; the destination differs only in its one-off list, which keeps every record and gets the one-off appended, pending, with its cleared amount and other fields kept, at a position above every one-off position there; no other period changes |
| AppOps.AppMoveKeepsExclusions | src/ExpenseTrackingApp.jsx:670-672 | moving out of a period that already excludes the id leaves its exclusions as they were |
| AppOps.AppDeleted | src/ExpenseTrackingApp.jsx:1403-1413 | periods with the modal's id lose the record; a template instance's id is then excluded there, added at most once |
| AppOps.PaymentApplied | src/ExpenseTrackingApp.jsx:1518-1531 | the original amount is `originalAmount \|\| amount`; the paid amount accumulates; amount + paid = original; status paid iff amount ≤ 0.001, else pending |
| AppOps.PaymentKeepsOriginal | src/ExpenseTrackingApp.jsx:1520 | a second payment keeps the captured original amount and adds to the paid amount |
| AppOps.AcceptedPaymentNeverOverpays | src/ExpenseTrackingApp.jsx:1502-1509 | an accepted payment leaves a non-negative amount and raises the paid amount |
| AppOps.PartiallyPaid | src/ExpenseTrackingApp.jsx:1514-1544 | in the first period with that id, records of the payment's kind with that id get the payment; nothing else changes; a missing period changes nothing |
| AppOps.Unflattened | src/ExpenseTrackingApp.jsx:790-807 | a changed total resets paid to 0, drops the original amount, and reopens paid or cleared as pending; an unchanged total restores amount, original and paid amounts |
| AppOps.SaveUneditedRoundTrip | src/ExpenseTrackingApp.jsx:1345-1348 | opening the modal and saving without edits gives back the stored record |
| AppOps.SaveChangedTotal | src/ExpenseTrackingApp.jsx:792-800 | after a changed total the record's total is the new amount and nothing counts as paid |
| AppOps.AppInstanceSaved | src/ExpenseTrackingApp.jsx:809-827 | the saved record replaces the one with its id in the modal's period; no modal period changes nothing |
| AppOps.AppStatusUpdated | src/ExpenseTrackingApp.jsx:744-754 | matching instances take the status, and the given cleared amount if one is given |
| AppOps.StatusVersionsAgree | src/ExpenseTrackingApp.jsx:751 | without a cleared amount the component's status change equals the store's for every status but cleared |
| AppOps.DueMonth | src/ExpenseTrackingApp.jsx:596-607 | a due day before the start day falls in the next month, December wrapping to January of the next year |
| AppOps.DueMonthValid | src/ExpenseTrackingApp.jsx:598-606 | the due month is a valid month not earlier than the start |
| AppOps.SortExpenses | src/ExpenseTrackingApp.jsx:590-632 | the default key returns the list itself; other keys return a permutation ordered ascending or descending by the sort value |
| AppOps.SortExpensesIdempotent | src/ExpenseTrackingApp.jsx:620-631 | sorting a sorted list changes nothing |
| AppOps.NewAppOneOff | src/ExpenseTrackingApp.jsx:27-37 | a new one-off has the fresh id and time, with defaults '' / 0 / 'Other' under the fields |
| AppOps.OneOffVersionsDiffer | src/ExpenseTrackingApp.jsx:32-36 | the component's new one-off differs from the store's only in the default category |
| App.ExpenseTrackingApp.constructor | src/ExpenseTrackingApp.jsx:127-173 | the given templates, no periods, empty undo stack, closed modal |
| App.ExpenseTrackingApp.TrimUndo | src/ExpenseTrackingApp.jsx:707-711 | a stack longer than 10 keeps its newest 10 snapshots |
| App.ExpenseTrackingApp.MoveExpense | src/ExpenseTrackingApp.jsx:637-695 | an out-of-range target changes nothing; otherwise the old periods are pushed and the move is applied |
| App.ExpenseTrackingApp.MoveRaw | src/ExpenseTrackingApp.jsx:647-692 | the periods become `AppOps.AppMoved` of the old ones |
| App.ExpenseTrackingApp.HandleUndo | src/ExpenseTrackingApp.jsx:697-704 | an empty stack changes nothing; otherwise the newest snapshot is restored and popped |
| App.ExpenseTrackingApp.MoveThenUndo | src/ExpenseTrackingApp.jsx:645-701 | a move followed by undo restores the periods exactly, and the stack when it had room |
| App.ExpenseTrackingApp.HandleDelete | src/ExpenseTrackingApp.jsx:1401-1416 | a snapshot is pushed, the record leaves the modal's period and the modal closes |
| App.ExpenseTrackingApp.PartialPayment | src/ExpenseTrackingApp.jsx:1504-1548 | a refused payment (not a number, ≤ 0, above what is left) changes nothing; an accepted one pushes a snapshot and applies the payment |
| App.ExpenseTrackingApp.HandleExpenseModalSave | src/ExpenseTrackingApp.jsx:784-831 | the saved record replaces the stored one in the modal's period and the modal closes |
| App.ExpenseTrackingApp.HandleScopeConfirm | src/ExpenseTrackingApp.jsx:1368-1399 | the template scope rewrites and re-activates the template and spreads the edit over the instances from the modal's period on (`PeriodOps.TemplateScopeEdited`); the instance scope is the instance save |
| App.ExpenseTrackingApp.UpdateExpenseStatus | src/ExpenseTrackingApp.jsx:744-761 | the periods become `AppOps.AppStatusUpdated` |
| App.ExpenseTrackingApp.DeleteTemplate | src/ExpenseTrackingApp.jsx:715-716 | the template list becomes its soft delete; the periods are untouched |
| App.ExpenseTrackingApp.AddOneOff | src/ExpenseTrackingApp.jsx:22-40 | the component's new one-off is appended to the first period with that id |
| App.ExpenseTrackingApp.UpdateOneOff | src/ExpenseTrackingApp.jsx:42-50 | the first one-off with that id takes the patch |
| Totals.SumAppend | src/utils/calculations.js:5-7 | a sum over base and one-off records is the sum of the two sums |
| Totals.PeriodTotals | src/utils/calculations.js:1-23 | income is default + additional; difference = income − expenses; remaining = income − paid |
| Totals.ExpensesSplit | src/utils/calculations.js:15-21 | total expenses = unpaid amount + the amounts of cleared records |
| Totals.AllPendingNothingPaid | src/utils/calculations.js:8-14 | pending records count nothing as paid and everything as unpaid |
| Totals.AllPendingPeriod | src/utils/calculations.js:8-22 | in an all-pending period paid is 0, unpaid = expenses and remaining = income |
| Totals.EmptyPeriodTotals | src/utils/calculations.js:22 | a period without records has every total 0 except income, difference and remaining |
| Totals.MixedStatusExample | src/utils/calculations.test.js:10-23 | income 2100, expenses 800, paid 550, unpaid 750, difference 1300, remaining 1550 |
| Totals.NoExpensesExample | src/utils/calculations.test.js:1-66 | a period with income 1500 and no records |
| Totals.OverspentExample | src/utils/calculations.test.js:1-66 | a period whose expenses exceed its income has a negative difference |
| Totals.AppPeriodTotals | src/ExpenseTrackingApp.jsx:502-547 | income is default + additional; difference = income − expenses; remaining = income − paid |
| Totals.VersionsAgree | src/ExpenseTrackingApp.jsx:512-537 | without partial payments, and with cleared amounts equal to the amounts, the two calculations agree |
| Totals.PaymentShares | src/ExpenseTrackingApp.jsx:515-527 | a payment on a pending record keeps its total and raises what it counts as paid by the payment |
| Totals.PaidListShares | src/ExpenseTrackingApp.jsx:1518-1540 | over a list, expenses are unchanged and paid rises by the payment once per matching record |
| Totals.PaidTimesUnique | src/ExpenseTrackingApp.jsx:1519 | with unique ids the payment is counted once if the id is present, else not at all |
| Totals.PeriodPaymentTotals | src/ExpenseTrackingApp.jsx:1535-1541 | one period's totals after a payment on the records of one kind |
| Totals.PartialPaymentTotals | src/ExpenseTrackingApp.jsx:1504-1548 | a partial payment leaves the period's total expenses and income unchanged and raises its total paid by the payment |
| Debt.Debts | src/utils/calculations.js:26 | exactly the active debt templates |
| Debt.SortedDebts | src/utils/calculations.js:29-33 | a permutation; snowball ascending balance, avalanche descending APR, other strategies keep the order |
| Debt.Stepped | src/utils/calculations.js:41-51 | each debt's balance becomes max(0, balance − min(payment − interest, balance)) |
| Debt.Outstanding | src/utils/calculations.js:52 | only debts with a positive balance remain |
| Debt.CalculateDebtPayoff | src/utils/calculations.js:25-55 | total debt and monthly payments are the sums over the active debts; the ordered debts; months and interest are the simulation's |
| Debt.RunPayoff | src/utils/calculations.js:34-53 | the while loop computes the simulation's months and interest |
| Debt.PayMonth | src/utils/calculations.js:40-51 | one month's forEach gives the stepped debts and the sum of the month's interest |
| Debt.BalanceStep | src/utils/calculations.js:49-50 | a balance never goes below 0, is non-increasing iff payment ≥ interest, and grows by the shortfall otherwise |
| Debt.ExtraOnlyToFirst | src/utils/calculations.js:44-48 | only the first remaining debt receives the extra payment |
| Debt.RemainingPositive | src/utils/calculations.js:50 | a non-negative balance stays non-negative |
| Debt.AllPaidOffInOneMonth | src/utils/calculations.js:49-52 | if every payment covers balance and interest, no debt remains |
| Debt.SimulateMonths | src/utils/calculations.js:38-39 | the loop ends within 360 months and runs while debts remain |
| Debt.PayoffMonths | src/utils/calculations.js:38-54 | payoff months ≤ 360, and 0 exactly when there is no active debt |
| Debt.SortedDebtsAreInputs | src/utils/calculations.js:29-36 | the returned debts are the active debt templates themselves, balances unchanged |
| Paycheck.PeriodsPerYear | src/PaycheckCalculator.jsx:60-65 | 52, 26, 24 or 12 periods per year |
| Paycheck.TablesWellFormed | src/PaycheckCalculator.jsx:5-41 | both 2024 bracket tables have increasing bounds, an unbounded last bracket and rates up to 37% |
| Paycheck.SlicesCoverIncome | src/PaycheckCalculator.jsx:87-97 | the bracket slices add up to the taxable income and the tax lies between 0 and 37% of it |
| Paycheck.NothingLeft | src/PaycheckCalculator.jsx:91 | with nothing left to tax no bracket adds tax |
| Paycheck.FederalTax | src/PaycheckCalculator.jsx:87-97 | the bracket loop computes the bracket tax |
| Paycheck.Taxable | src/PaycheckCalculator.jsx:84 | taxable income is never negative |
| Paycheck.CalculateTaxes | src/PaycheckCalculator.jsx:53-119 | the results of the form, none for an invalid gross pay |
| Paycheck.ResultsIffValidGross | src/PaycheckCalculator.jsx:54-58 | results exist exactly for a gross pay that parsed and is positive |
| Paycheck.NetPayAddsUp | src/PaycheckCalculator.jsx:109 | net pay plus all deductions is the gross pay |
| Paycheck.FederalTaxBounds | src/PaycheckCalculator.jsx:84-98 | per-period federal tax is non-negative, at most 37% of the per-period taxable income, and 0 without taxable income |
| Paycheck.SocialSecurityCap | src/PaycheckCalculator.jsx:101-104 | Social Security is 6.2% of the annual gross up to 168600 and fixed above it |
| Paycheck.MedicareUncapped | src/PaycheckCalculator.jsx:106-107 | Medicare is 1.45% of every period's gross pay, without cap |
| Paycheck.SingleBracketExamples | src/PaycheckCalculator.jsx:5-20 | single filer: 11600 taxed 1160; 50000 taxed 1160 + 4266 + 627 |
| Analytics.Window | src/utils/analytics.js:6 | at most the first 12 periods |
| Analytics.MonthKey | src/utils/analytics.js:7 | period k goes to bucket ⌊k/2⌋ + 1, which holds periods 2m−2 and 2m−1 |
| Analytics.BucketDifference | src/utils/analytics.js:9-12 | each bucket's difference is its income minus its expenses |
| Analytics.AddPeriodTrend | src/utils/analytics.js:7-12 | after adding period k, buckets 1..⌈(k+1)/2⌉ exist and each holds the sum of the totals of its periods among the first k+1 |
| Analytics.AddCategories | src/utils/analytics.js:13-15 | each record adds its amount to its category; the keys are the old ones plus the records' categories |
| Analytics.GetAnalyticsData | src/utils/analytics.js:3-18 | buckets 1..⌈n/2⌉ hold the sums of their periods' totals; each category total is the sum of the amounts of that category's records in the first 12 periods |
| CsvExport.RecordRow | src/utils/export.js:8-17 | the period column is id + 1 and the last is `amountCleared \|\| amount` |
| CsvExport.ExportRows | src/utils/export.js:5-19 | the nested loops push exactly the rows of every period in order |
| CsvExport.RowCount | src/utils/export.js:6-7 | one row per base or one-off record |
| CsvExport.RowsInOrder | src/utils/export.js:6-7 | record j of period i is at row (records before period i) + j: periods in order, base records before one-offs |
| CsvExport.Cells | src/utils/export.js:4-17 | eight fields per row, in header order |
| CsvExport.ExportToCsv | src/utils/export.js:3-20 | the text is the header line and the row lines, fields joined by ',' and lines by '\n' |
| CsvExport.HeaderCommas | src/utils/export.js:4 | the header line has exactly seven commas |
| CsvExport.RowCommas | src/utils/export.js:20 | fields are not quoted: a line has seven commas plus every comma inside its fields |
| CsvExport.LineCount | src/utils/export.js:20 | with no newline inside a field, the text has one newline per row |
| Templates.NewTemplateId | src/features/Expenses/SourceExpenseManagement.jsx:24 | a new id is at least 1, above every id in use, and either 1 or one more than an id in use |
| Templates.FormSaved | src/features/Expenses/SourceExpenseManagement.jsx:19-29 | an edit replaces only the templates with the edited id, keeping it and activating them; a new template is appended active under the new id; the form is closed |
| Templates.TemplateDeleted | src/features/Expenses/SourceExpenseManagement.jsx:31-32 | the length and order are kept; only templates with the id become inactive |
| Templates.FormSavedKeepsIdsUnique | src/features/Expenses/SourceExpenseManagement.jsx:21-25 | saving never introduces a duplicate id |
| Templates.NewTemplateFresh | src/features/Expenses/components/SourceExpenseManagement.jsx:31-32 | the id of a new template was not in use and is in use afterwards |
| Templates.EditReplacesOnlyMatch | src/features/Expenses/components/SourceExpenseManagement.jsx:28 | an edit leaves the other templates unchanged and keeps the edited one's id, active |
| Templates.DeletedTemplateInactive | src/features/Expenses/components/SourceExpenseManagement.jsx:38-39 | after a delete no active template has the id, so the rebuild no longer finds it; other templates unchanged |
| Templates.SaveThenDeleteKeepsTemplate | src/features/Expenses/components/SourceExpenseManagement.jsx:31-39 | creating then deleting a template leaves it in the list, inactive |

## Left out

- Persistence and I/O are not modelled. This covers local storage, the persisted store and its date reviver, file sync and the debounced autosave, JSON import and export, and the CSV download (`Blob`, URL, link click).
- Celebration messages, timers and every rendering component are not modelled. Of the component's React effects that change state:
  - `App.ExpenseTrackingApp.TrimUndo` models the undo-stack trim (src/ExpenseTrackingApp.jsx:707-711).
  - The effect that regenerates the periods (src/ExpenseTrackingApp.jsx:472-477) is the component's copy of `generatePeriods`. It is modelled once, by `Store.ExpenseStore.GeneratePeriods`, and not as an `App` method.
  - The effect that re-reads each period's default income (src/ExpenseTrackingApp.jsx:479-490) is modelled by `Store.ExpenseStore.UpdateIncomeInPeriods`, and not as an `App` method. On an empty period list `Store.ExpenseStore.GeneratePeriods` and `Store.ExpenseStore.UpdateIncomeInPeriods` change nothing.
- Calendar and locale are not modelled. Dates are integer day numbers. `formatDate`, number-to-text conversion and the timestamp of a calendar date are parameters. The sort key's `new Date(...)` is therefore a parameter `time`. A period's `startDate` falling back to "now" is the caller's `startDay`.
- `makeId` and the clock are the parameters `freshId` and `now`. `updatedAt` stamps are not modelled.
- Floating point is not modelled. Amounts are exact reals, and the 0.001 epsilon is a plain real comparison. NaN is not modelled: a non-numeric input that `parseFloat` rejects is an absent (`None`) value. A non-numeric 401(k) or insurance value, which makes the paycheck results NaN, is not modelled.
- The component's copies of `generatePeriods`, `calculateDebtPayoff` and `exportToCSV` repeat the store and utility versions and are modelled once.
- The component's own `getAnalyticsData` (src/ExpenseTrackingApp.jsx:764-781) is not modelled: it follows the utility version but totals each period with the component's `calculatePeriodTotals`, which `Totals.AppPeriodTotals` models, so its trends count `originalAmount || amount` and partial payments. It agrees with `Analytics.GetAnalyticsData` wherever `Totals.VersionsAgree` shows the two totals agree.
- AppOps.SortExpenses: does not state that records with equal sort values keep their input order, as JavaScript's stable sort does; the construction keeps that order, but no clause says so.
- PeriodOps.TemplateScopeEdited: the model does not tell a key that is absent from the edited record from a key set to `null` or to "". An explicit `null` (src/ExpenseTrackingApp.jsx:798) or an emptied notes field, spread over a later instance, overwrites the instance's value in the source. In the model it keeps the instance's value.
- Fields that are absent on a record are modelled as "" or 0, or `None` for optional numbers. `x || []` on a missing list is the empty list. The JSON snapshot of the component's undo stack is an exact copy.
- A lookup by period id that finds nothing throws a TypeError in the source. The model leaves the periods unchanged instead. An undo push made before the throw still happens.
- Analytics.GetAnalyticsData: month buckets are keyed by the number m rather than the string "Month m".
- Totals.PartialPaymentTotals: proved only when the record's id occurs once in its list, the matching records are pending with a non-negative paid amount, and their total is non-zero. The code promises no more for other records.
- AppOps.AcceptedPaymentNeverOverpays: proved only for records whose paid amount is set only together with an original amount, as the payment modal keeps them.
- Paycheck.SocialSecurityCap: states the annual amount, i.e. the per-period amount times the periods per year.
- CsvExport.RowCommas: states that fields are not quoted by counting commas. It does not describe how a spreadsheet would then split the line.
- Debt.SimulateMonths: the payoff simulation is bounded by the 360-month cap. Balances that grow, when a payment is below the month's interest, are only described per month by `Debt.BalanceStep`.
- The move-eligibility guard of the expense list item (pending status, neighbour in range) is not a precondition of the move operations: they accept any record, as the handlers themselves do.
