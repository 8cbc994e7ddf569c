# Instalment accounting and its surroundings, verified

A Dafny model of the parts of the shop system where an error costs money or sends a message twice, with proofs
of what those parts promise.

**The instalment (Nasiya) money core.** A sale is turned into an even schedule and a frozen plan of principal,
margin and interest; payments are poured over the rows and over those three purposes by cumulative rounding; a
contract may be settled early with a waiver of the unpaid interest, deferred, marked overdue, returned; and an
audit may run at any moment. `WeightedShares`, `ProfitAllocation`, `PaymentComponents`, `ScheduleGeneration`,
`PaymentAllocation`, `Settlement`, `ContractStatus`, `NasiyaLedger` and `UzsReporting` model the functions;
`ContractLifecycle` models the routes as a state machine whose commands may be refused, and `ContractInvariant`,
`ContractPayments`, `ContractPriority`, `ContractSettlements`, `ContractDeferrals`, `ContractRuns` and
`ContractLifetime` prove what commands write and what every history of a contract keeps; `LedgerReasons` states what
an audit reports; `ContractProgress` proves that none leaves a contract that cannot be brought to its end, and
`ContractObstacles` and `ContractMirror` what can hold it up. `Currency`, `ReturnAccounting`, `RefundCaps` and
`ReturnQuote` follow money across currencies and back to the customer.

**The notification workers.** `ClaimProtocol` is a step relation over rows, runs, snapshots and one clock;
`PromptAttempts` adds the assumption that attempts end before they count as stale, and `AttemptRuns` shows runs that
reach its bounds. `TelegramDelivery` plans the sends of one notification, `NotificationDelivery` follows its attempts,
`ExactlyOnce` puts workers and sends together, and `DeliveryRuns` shows that they also deliver.

**Small loops with hard specifications.** `Csv`, `ReminderPages`, `RateLimit`, `FeatureClosure`.

Amounts are integers in minor units (so'm or cents), rates are ten-thousandths of a so'm per dollar, and
`Math.round(a / b)` is the nearest integer with ties upwards. A function that throws returns an error value or
`None`. Code that updates variables in a loop is a method proved equal to a specification function, objects whose
fields are updated are classes, and the properties are proved about the specification functions.

## What the proofs found

- A row sold exactly at cost can reach a state in which both roundings are ties; it then shows a margin paid of -1
  and the component gate refuses it. On a contract with complete evidence that blocks both kinds of settlement until
  another payment moves the row off the tie (`Settlement.GateAfterPayments`, `ContractSettlements.SettlementAcceptedIff`,
  `ContractObstacles.HalfPaidSaleAtCostCannotBeSettled`).
- The payment, settlement and deferral routes refuse a contract as soon as one stored row status is stale, so between
  midnight and the overdue pass a contract with a newly late row takes no payment; the return route ignores such lag
  (`ContractPayments.PaymentAcceptedIff`, `ContractObstacles.LateContractTakesNoPayment`,
  `NasiyaLedger.NothingBlocksIffMoneyBalances`).
- The comment over `convertMoneyDtoAtMost` promises the largest amount that converts back within the bound. From
  dollars to so'm, at rates above 300, it never is; when it is depends on the amount in between (`Currency.LargestIff`,
  `Currency.NeverLargestWhenTargetIsFiner`).
- A receipt paid in four or more parts can be allocated more of a refund than it applied to the contract. The database
  compares the two when the return is committed, so such a return fails there, after the screen has offered it
  (`RefundCaps.NoReceiptOverRefundedIff`, `RefundCaps.FourPartsAreOverRefunded`, `ReturnQuote.ShownRefundIsBookedIff`).
- A schedule for less than one unit per month has instalments of nothing. The generator lets it pass and an audit of it
  never succeeds; what keeps it out is the check on the schedule table (`ContractLifetime.SoldContractNeverBlocksIff`).
- Settling or returning a contract cancels its reminders even while one is being sent; the outcome of that attempt
  then overwrites the cancellation, that of the last attempt too when it succeeds. CANCELLED is final exactly when no
  attempt on the row is live (`AttemptRuns.CancelledIsFinalIff`, `PromptAttempts.CancellationIsOverwritten`,
  `AttemptRuns.CancellationIsOverwrittenInSomeRun`).
- The so'm interest kept beside a dollar contract is reckoned from the converted price, and a waiver is converted from
  the interest in cents. Where that was rounded up by more than half a so'm, the waiver exceeds the mirror and a fresh
  contract cannot be settled with one (`ContractMirror.WholeRateWaiverPassesIff`,
  `ContractMirror.ShortMirrorRefusesWaiver`).
- An attempt that crashes is not counted out, so with one crash a row is attempted a sixth time, with two a seventh
  (`AttemptRuns.AttemptBoundIsReached`).
- The cap of an hour on the delay between attempts never applies: the fourth and last retry waits eight minutes
  (`ClaimProtocol.FailedRowIsDueAgainIff`).
- A deferred instalment that is partly paid is DEFERRED to the audit and shown as PARTIAL
  (`NasiyaLedger.CurrentStatusIsShownIff`).
- The comments beside the text fallback promise not to repeat a text that was turned down nor to retry a rate limit at
  once; with an unsigned image pending it does both (`NotificationDelivery.RefusedTextIsSentAgainIff`).
- The limiter's options call the window rolling. It is fixed: up to one less than twice the limit pass within one
  window length (`RateLimit.TwiceTheLimitLessOneCanPass`).

## Model

| member | source | states |
|---|---|---|
| `WeightedShares.AllocateUnitsByWeight` | src/lib/payment-profit-allocation.ts:42-58 | the running loop hands out exactly the rounded-prefix shares of the specification |
| `WeightedShares.SharesConserve` | src/lib/payment-profit-allocation.ts:37-58 | shares add up to the total, and every prefix lies within half a unit of its exact share |
| `WeightedShares.ShareBounds` | src/lib/payment-profit-allocation.ts:42-58 | a share is non-negative and lies on the side of its weight on which the total lies of the whole weight |
| `ProfitAllocation.PlanAcceptsReconcilingInput` | src/lib/payment-profit-allocation.ts:81-93 | with non-negative rows a plan is built exactly when the entry guards hold; the error for a base that is negative or does not reconcile cannot occur |
| `ProfitAllocation.PlanReconciles` | src/lib/payment-profit-allocation.ts:89-113 | principals add up to cost, margins to price less cost, interests to contract interest; each row makes up its instalment; every margin has the sign of the whole margin |
| `ProfitAllocation.PlanIsProrated` | src/lib/payment-profit-allocation.ts:42-113 | every row of a plan bears interest in proportion to its instalment and recovers cost in proportion to what it contributes to the price: up to any row, both are within half a unit of exact |
| `PaymentComponents.PaymentLandsOnTarget` | src/lib/payment-profit-allocation.ts:158-188 | a payment is taken exactly when it is positive and fits; its result depends on the cumulative amount alone, and its allocation is what it adds to each purpose |
| `PaymentComponents.PaymentsArePathIndependent` | src/lib/payment-profit-allocation.ts:131-194 | any split of a sum ends in the components one payment of that sum ends in, and is accepted exactly when every part is positive and the sum fits |
| `PaymentComponents.PaidAtEnds` | src/lib/payment-profit-allocation.ts:162-170 | nothing paid is nothing recovered; full payment lands exactly on the budget |
| `PaymentComponents.RecoveryIsProrated` | src/lib/payment-profit-allocation.ts:158-175 | after any accepted payments the principal and interest recovered are their exact shares of the sum paid, to the nearest unit with ties upwards, and margin makes up the rest |
| `PaymentComponents.RecoveryStaysWithinBudget` | src/lib/payment-profit-allocation.ts:162-170 | principal and interest never fall and never exceed their budgets, and the cash a waiver asks for is never negative |
| `PaymentComponents.MarginStaysInRange` | src/lib/payment-profit-allocation.ts:168-170 | margin paid stays between nothing and its budget, except that a row sold at cost shows -1 exactly when both roundings are ties |
| `PaymentComponents.TieRoundsUpByHalf` | src/lib/payment-profit-allocation.ts:162-167 | a rounding gains half a unit exactly on a tie |
| `UzsReporting.UzsSplitIsFair` | src/lib/payment-profit-allocation.ts:197-211 | the so'm parts of a payment add up, principal and interest within half a so'm and margin within one so'm of exact; a payment in so'm keeps its parts |
| `UzsReporting.UzsIsConserved` | src/lib/payment-profit-allocation.ts:214-221 | a so'm receipt is spread without loss, and accepted exactly when it and one contract amount are positive |
| `UzsReporting.UzsIsProrated` | src/lib/payment-profit-allocation.ts:204-221 | each instalment gets so'm in proportion to what it was paid: up to any of them, within half a so'm of exact |
| `UzsReporting.EveryShareIsReported` | src/lib/payment-profit-allocation.ts:204-221 | a receipt worth at least a so'm for each contract unit gives every instalment that much, and a receipt in so'm exactly what it paid |
| `UzsReporting.SmallReceiptLeavesNothing` | src/lib/payment-profit-allocation.ts:204-206 | with less an instalment may get nothing, which the split over its purposes refuses: 1 so'm over 30, 10 and 10 |
| `ScheduleGeneration.AmountsAreExact` | src/lib/nasiya-utils.ts:42-91 | which terms are accepted; the interest is its percentage of what is financed and the monthly payment the debt over the months, each to the nearest unit |
| `ScheduleGeneration.MonthlyIsKept` | src/lib/nasiya-utils.ts:111-162 | a typed monthly payment is accepted exactly when it covers the financed price with at most 300 percent, and is then due in full every month; the percentage shown is its interest to the nearest percent |
| `ScheduleGeneration.MonthlyGivesBackDebtIff` | src/lib/nasiya-utils.ts:93-162 | typing in the monthly payment that a percentage led to gives back the same debt exactly when the debt is a whole number of units per month |
| `ScheduleGeneration.GeneratePaymentSchedule` | src/lib/nasiya-utils.ts:174-199 | one numbered instalment per month, each the rounded-down average and the last with the remainder |
| `ScheduleGeneration.EvenScheduleIsExact` | src/lib/nasiya-utils.ts:164-199 | instalments add up to the financed amount; each but the last is the largest amount that can be asked for every month, and the last is less than a unit per month above it |
| `ScheduleGeneration.EvenScheduleIsPositiveIff` | src/lib/nasiya-utils.ts:181-197 | every instalment is positive exactly when the amount holds at least one unit per month |
| `ScheduleGeneration.GenerateImportSchedule` | src/lib/nasiya-utils.ts:225-263 | the loop produces exactly the specified amounts or the specified error, numbered from the first due date on |
| `ScheduleGeneration.ImportIsExact` | src/lib/nasiya-utils.ts:202-263 | a schedule exists exactly for positive amounts with a unit per row; its rows are positive and add up; the error for a row of nothing cannot occur |
| `ScheduleGeneration.ImportKeepsAgreedInstalment` | src/lib/nasiya-utils.ts:207-211 | without a forced length every row but the last is the agreed instalment and the last is no more |
| `ScheduleGeneration.ImportKeepsForcedLength` | src/lib/nasiya-utils.ts:225-263 | a forced length is kept: the agreed instalment as long as a unit is left for every later row, then single units, and the last row takes what remains |
| `ScheduleGeneration.AcceptedTermsHaveAPlan` | src/lib/nasiya-utils.ts:42-91 | accepted terms always give a schedule that adds up and a plan, whatever the non-negative cost |
| `PaymentAllocation.AllocateNasiyaPayment` | src/lib/nasiya-payment-allocation.ts:104-167 | the loop yields exactly the specified updates |
| `PaymentAllocation.AllocationConserves` | src/lib/nasiya-payment-allocation.ts:169-191 | the contract amount applied is the smaller of the payment and the outstanding debt |
| `PaymentAllocation.RowsFillInOrder` | src/lib/nasiya-payment-allocation.ts:116-164 | owing rows fill in order, at most the last stays unfinished, and every update balances; a closed row has both mirrors full |
| `PaymentAllocation.MirrorsFillInOrder` | src/lib/nasiya-payment-allocation.ts:134-143 | each row reached fills the gap in its so'm mirror with what the rows before it left; a closed row shows its mirror full, an unfinished one what it was given |
| `PaymentAllocation.UpdatesPourThePayment` | src/lib/nasiya-payment-allocation.ts:150-163 | storing the updates by row id gives the rows over which the payment is poured |
| `PaymentAllocation.PaymentsCompose` | src/lib/nasiya-payment-allocation.ts:97-167 | paying a and then b leaves the same contract state as paying a + b |
| `PaymentAllocation.ContractIgnoresLegacy` | src/lib/nasiya-payment-allocation.ts:134-143 | contract results do not depend on legacy so'm fields or amounts |
| `Settlement.CalculateNasiyaSettlement` | src/lib/nasiya-settlement.ts:148-289 | the accumulating pass returns exactly the specified quote or error |
| `Settlement.TallyRows` | src/lib/nasiya-settlement.ts:162-265 | one pass over the rows finds the first malformed row, or the sums of debt, cash and waivers and the reasons of all rows |
| `Settlement.SettlementAlwaysBalances` | src/lib/nasiya-settlement.ts:267-272 | cash and waiver always make up the remaining debt, so the last of the thrown checks never fires |
| `Settlement.SettleQuotesIff` | src/lib/nasiya-settlement.ts:148-272 | a quote is given exactly for well-formed rows whose sums are those of the contract |
| `Settlement.QuoteIsExact` | src/lib/nasiya-settlement.ts:196-289 | each reason against a waiver is named exactly when it holds, and every row quote makes up the debt of its own row and settles it exactly when interest is waived |
| `Settlement.GateOpenIff` | src/lib/nasiya-settlement.ts:201-224 | the gate of a well-formed row is open exactly when budget and recovery add up, no purpose is recovered beyond its budget and the cash of a waiver is not negative; that cash and interest make up the debt follows |
| `Settlement.WaiverTakesBaseOnly` | src/lib/nasiya-settlement.ts:225-237 | an open gate asks for exactly the unpaid principal and margin and waives exactly the unpaid interest |
| `Settlement.FullTakesEverything` | src/lib/nasiya-settlement.ts:238-250 | without a waiver it asks for everything unpaid, purpose by purpose |
| `Settlement.GateAfterPayments` | src/lib/nasiya-settlement.ts:201-224 | after any payments the component gate admits a row, unless it was sold at cost and both roundings are ties: then it never does |
| `Settlement.GateRefusesTie` | src/lib/nasiya-settlement.ts:201-213 | a concrete row refused: cost 1, interest 1, half paid, margin paid -1 |
| `ContractStatus.DerivedIffTrue` | src/lib/nasiya-contract-status.ts:169-217 | a live contract gets the one status that is true of its rows: completed when none owes anything, overdue when midnight in Tashkent has passed since an open row was due, active otherwise |
| `ContractStatus.ShownRowIsTrue` | src/lib/nasiya-contract-status.ts:89-144 | what is shown of a row -- debt, lateness, status -- is true of it |
| `ContractStatus.CompletedIffNothingRemains` | src/lib/nasiya-contract-status.ts:205-217 | a contract without cancelled debt is completed exactly when its rows owe nothing |
| `ContractStatus.TimeOnlyAddsLateness` | src/lib/nasiya-contract-status.ts:196-217 | time alone turns an active contract overdue and changes nothing else |
| `NasiyaLedger.CollectEvidence` | src/lib/nasiya-ledger.ts:214-226 | the map collected from the allocations holds exactly the evidenced sum of every row; it fails exactly where a sum overflows |
| `NasiyaLedger.ReconcileNasiyaLedger` | src/lib/nasiya-ledger.ts:160-296 | the passes over rows and allocations produce exactly the specified audit, or none where an addition overflows |
| `NasiyaLedger.NothingBlocksIffMoneyBalances` | src/lib/nasiya-return.ts:97-102 | the audit finds no blocking reason exactly when rows, totals, cache and evidence balance; the clock does not matter |
| `NasiyaLedger.HealthyIffAllAgrees` | src/lib/nasiya-ledger.ts:260-269 | a contract is healthy exactly when its money balances and all stored statuses are current |
| `NasiyaLedger.HealthyIffEveryStatusIsTrue` | src/lib/nasiya-ledger.ts:141-158 | that is, exactly when its money balances and what every stored status says is the case |
| `NasiyaLedger.AuditedStatusIsTrue` | src/lib/nasiya-ledger.ts:236-248 | the status an audit reports of balanced rows is true of them, and no other is |
| `NasiyaLedger.CurrentStatusIsShownIff` | src/lib/nasiya-contract-status.ts:131-133 | a status an audit accepts is the one shown, unless the row is deferred and partly paid |
| `LedgerReasons.ReasonsAreExact` | src/lib/nasiya-ledger.ts:160-289 | an audit reports each reason exactly when what the reason says is the case |
| `LedgerReasons.EvidenceStateIsExact` | src/lib/nasiya-ledger.ts:205-235 | the evidence is called unavailable exactly when it is not complete, and at odds exactly when a mismatch is reported |
| `LedgerReasons.ReportIsExact` | src/lib/nasiya-ledger.ts:236-296 | the totals reported are those of the rows, and they are what a repair writes |
| `NasiyaLedger.RepairableMeansEvidenceInOrder` | src/lib/nasiya-ledger.ts:260-269 | a repair is offered only when rows and evidence are in order and just the parent cache differs |
| `NasiyaLedger.RepairHeals` | src/lib/nasiya-ledger.ts:292-294 | writing the proposed repair makes the next audit at that time healthy, rows and evidence untouched |
| `NasiyaLedger.CompletedIffPaidOff` | src/lib/nasiya-ledger.ts:236-248 | unless quarantined or cancelled, a contract is completed exactly when nothing remains on its rows |
| `NasiyaLedger.QuarantinedIffStatusStale` | src/lib/nasiya-ledger.ts:187-193 | rows and evidence in order are quarantined exactly when some stored row status is not the current one |
| `ContractInvariant.InvariantMeansNothingBlocks` | src/lib/nasiya-ledger.ts:160-269 | what every contract keeps rules out blocking reasons at any time |
| `ContractInvariant.AdmitsIff` | src/app/api/nasiya/[id]/payment/route.ts:436-442 | a route lets a contract in exactly when it owes something and every stored row status is current |
| `ContractPayments.OrderHoldsOpenRows` | src/app/api/nasiya/[id]/payment/route.ts:450-463 | the payment order holds every open row once and no other |
| `ContractPriority.PaymentFillsChosenFirst` | src/app/api/nasiya/[id]/payment/route.ts:450-463 | an accepted payment leaves the chosen row with what the payment could not cover; another row is paid only when the chosen one and every other due earlier are closed |
| `ContractPriority.PaymentFillsMirrors` | src/lib/nasiya-payment-allocation.ts:134-143 | in the so'm mirror a row not paid keeps what it had, a closed one is full, and the chosen one, while open, gains the so'm of the payment as far as it has room |
| `ContractPayments.PaymentKeepsInvariant` | src/app/api/nasiya/[id]/payment/route.ts:484-724 | an accepted payment is booked to the last unit, on rows that carry their status of that moment |
| `ContractPayments.PaymentAcceptedIff` | src/app/api/nasiya/[id]/payment/route.ts:436-553 | exactly when a payment is accepted, whatever the contract and whenever its two audits run: open row, positive amount within the debt, no stale stored status at the first nor, on the rows not reached, at the last, a so'm share for every instalment reached, and room in its tracked components |
| `ContractPayments.PaymentAcceptedAtOnceIff` | src/app/api/nasiya/[id]/payment/route.ts:436-553 | on a contract the program created, with both audits at one instant, the so'm shares are all that remains to be asked |
| `ContractPayments.ConvertedPaymentIsReported` | src/app/api/nasiya/[id]/payment/route.ts:450-553 | and they are there at 100 so'm and more per dollar, in whichever currency the payment was entered |
| `ContractPayments.WorthIsReported` | src/app/api/nasiya/[id]/payment/route.ts:513-553 | every instalment reached gets such a share when the payment is worth at least a so'm for each of its units |
| `ContractSettlements.SettlementKeepsInvariant` | src/app/api/nasiya/[id]/settlement/route.ts:541-794 | an accepted settlement splits the whole debt into cash and waiver, closes every row and passes its closing audit |
| `ContractSettlements.SettlementAcceptedIff` | src/app/api/nasiya/[id]/settlement/route.ts:541-794 | exactly when a contract can be settled: open debt, current statuses, no row stuck at a double tie, for a waiver some interest unpaid, and so'm values that can be spread over the rows and fit the legacy mirror |
| `ContractSettlements.FullSettlementIsReported` | src/app/api/nasiya/[id]/settlement/route.ts:598-615 | the so'm values of a settlement in full can be spread whenever the debt is worth a so'm for each of its units |
| `ContractSettlements.ConvertedSettlementIsReported` | src/app/api/nasiya/[id]/settlement/route.ts:583-615 | as it is when its cash is converted at 100 so'm and more per dollar |
| `ContractSettlements.SomSettlementIsReported` | src/app/api/nasiya/[id]/settlement/route.ts:598-636 | on a contract in so'm whose mirror shows the same amounts, those of either settlement can be spread |
| `ContractMirror.FreshWaiverNeedsMirror` | src/app/api/nasiya/[id]/settlement/route.ts:583-636 | a waiver closes a dollar contract just sold on accepted terms exactly when its rows are current, it bears interest, the so'm values can be spread, and the converted interest is within that of the so'm mirror |
| `ContractMirror.WholeRateWaiverPassesIff` | src/lib/server/nasiya-contract-core.ts:53-83 | at a whole number of so'm per cent it is within it exactly when rounding the interest to a cent added at most half a so'm |
| `ContractMirror.ShortMirrorRefusesWaiver` | src/app/api/nasiya/[id]/settlement/route.ts:618-623 | a sale of 10.06 dollars at 10 percent and 12 600 so'm, as it opens: no waiver of any so'm values is accepted |
| `ContractSettlements.AcceptedWaiverCollectsBase` | src/lib/nasiya-settlement.ts:225-237 | an accepted waiver collects exactly the unpaid principal and margin of every row and waives exactly the unpaid interest |
| `ContractRuns.DeferralKeepsInvariant` | src/app/api/nasiya/[id]/defer/route.ts:122-226 | an accepted deferral moves no money and leaves a current status |
| `ContractDeferrals.DeferralAcceptedIff` | src/app/api/nasiya/[id]/defer/route.ts:122-226 | exactly when a deferral is accepted -- current statuses, an open row due before the new date, and that date not past -- and that it changes that row and the statuses alone |
| `ContractRuns.OverduePassKeepsInvariant` | src/lib/server/overdue-transition.ts:61-139 | the overdue pass moves no money and leaves row and contract with their current status |
| `ContractDeferrals.OverdueAcceptedIff` | src/lib/server/overdue-transition.ts:61-139 | the pass writes exactly on an open row whose day has passed, and makes that row and its contract overdue |
| `ContractDeferrals.EveryStepWritesTheTruth` | src/lib/nasiya-ledger.ts:236-296 | whatever command is accepted, the statuses it writes are true of the contract and of the rows |
| `ContractRuns.EveryStepAdvances` | src/app/api/nasiya/[id]/payment/route.ts:686-724 | every accepted command only turns debt into payments and waivers and writes rows with the status due at that time |
| `ContractRuns.EveryRunKeepsInvariant` | src/lib/nasiya-ledger.ts:160-269 | every sequence of commands, refused ones included, keeps the invariant and the sum of paid, waived and remaining |
| `ContractRuns.CompletedIsFinal` | src/app/api/nasiya/[id]/payment/route.ts:442 | no command changes a contract that owes nothing |
| `ContractProgress.EveryRunLags` | src/lib/nasiya-ledger.ts:187-193 | over any history on a forward clock a stored status is never wrong except by lagging behind a due date that has passed |
| `ContractProgress.OverduePassMakesCurrent` | src/lib/server/overdue-transition.ts:60-139 | run over every row of a contract, the overdue pass makes all stored statuses current and moves no money |
| `ContractProgress.PayingOffCompletes` | src/app/api/nasiya/[id]/payment/route.ts:436-724 | one payment of all that remains, worth a so'm for each of its units, on some open row of an up-to-date contract, is accepted and completes it |
| `ContractProgress.PayingOffAcceptedIff` | src/app/api/nasiya/[id]/payment/route.ts:436-724 | where components are tracked it is accepted exactly when those recorded leave every open row room for its debt, as on a contract the program created they do |
| `ContractProgress.EveryContractCanBePaidOff` | src/app/api/nasiya/[id]/payment/route.ts:436-724 | no history leaves a contract stuck: after the overdue pass, such a payment of what remains is accepted and completes it, under partial reconstruction too where that room is left |
| `ContractProgress.EverySaleCanBePaidOff` | src/lib/server/nasiya-contract-core.ts:163-260 | so every sale on accepted terms can be paid off, whatever has happened to it |
| `ContractProgress.EveryImportCanBePaidOff` | src/lib/nasiya-utils.ts:225-263 | and so can every imported contract |
| `ContractProgress.ConvertedDebtIsWorthIt` | src/lib/currency.ts:208-221 | the so'm these ask for are there when the debt is converted at 100 so'm and more per dollar |
| `ContractObstacles.LateContractTakesNoPayment` | src/app/api/nasiya/[id]/payment/route.ts:436-438 | from the day after a due date until the overdue pass a contract just sold takes no payment of any amount |
| `ContractObstacles.HalfPaidSaleAtCostCannotBeSettled` | src/lib/nasiya-settlement.ts:201-213 | a sale at odd cost with odd interest in one instalment, half paid, is refused by either settlement |
| `ContractLifetime.SaleOpensInOrder` | src/lib/server/nasiya-contract-core.ts:163-260 | a planned sale with positive instalments opens with the invariant |
| `ContractLifetime.SoldContractNeverBlocksIff` | src/lib/nasiya-return.ts:97-102 | a sale on accepted terms never shows a blocking reason, over any history and at any later time, exactly when its debt is storable and holds a unit for every month; otherwise no audit of it passes |
| `ContractLifetime.ImportedContractNeverBlocksIff` | src/lib/nasiya-return.ts:97-102 | the same for every imported schedule, exactly when its debt is storable |
| `ContractLifetime.LifetimeConservation` | src/lib/payment-profit-allocation.ts:60-194 | once nothing is owed: principal collected is cost, margin is price less cost, interest collected and waived is contract interest, receipts are price plus interest less waiver |
| `Currency.DivideRoundsHalfUp` | src/lib/currency.ts:203-205 | integer halving of the denominator makes no difference: this rounds half up |
| `Currency.ConvertedIsNearest` | src/lib/currency.ts:208-221 | an amount converts to the nearest unit at so many ten-thousandths of a so'm per dollar |
| `Currency.ConvertMoneyDtoAtMost` | src/lib/currency.ts:229-249 | the downward search ends after at most one step, in the specified bound |
| `Currency.BoundIsLargestUpToNearest` | src/lib/currency.ts:229-249 | the bound is the largest amount, up to the nearest one, that converts back to no more than its source |
| `Currency.AtMostIsSafe` | src/lib/currency.ts:223-248 | the bound converts back to at most its source, and no larger amount up to the nearest-rounded one does |
| `Currency.LargestWhenTargetIsCoarser` | src/lib/currency.ts:223-228 | where a target unit is worth at least a source unit the bound is the largest amount of all that converts back within the source |
| `Currency.NeverLargestWhenTargetIsFiner` | src/lib/currency.ts:223-228 | where it is worth less than a third it never is: one more always converts back too |
| `Currency.LargestIff` | src/lib/currency.ts:223-249 | the bound is the largest of all amounts that convert back within the source exactly when the nearest amount reaches the closed form of that largest amount |
| `Currency.ConvertsBackIff` | src/lib/currency.ts:223-228 | which amounts convert back within the source: those up to that closed form |
| `Currency.BoundConvertsBack` | src/lib/currency.ts:224-227 | every amount up to the bound converts back to at most the source |
| `Currency.BoundMonotone` | src/lib/currency.ts:229-249 | bounds grow with their sources, and below a convertible amount all are convertible |
| `Currency.DollarsSurviveRoundTrip` | src/lib/currency.ts:208-221 | at 100 so'm per dollar and more, cents survive the way to so'm and back |
| `Currency.SomAreNeverFewer` | src/lib/currency.ts:208-221 | at those rates an amount in either currency is worth at least as many so'm as units of a contract in either |
| `Currency.DollarBoundIsLargest` | src/lib/currency.ts:223-249 | at those rates the dollar bound of a so'm amount is the largest that converts back within it |
| `Currency.SomBoundIsNotLargest` | src/lib/currency.ts:223-228 | one cent at 12 650: the bound is 127 so'm, and 189 also convert back to one cent |
| `ReturnAccounting.AppliedIsStoredOrConverted` | src/lib/return-accounting.ts:52-66 | a receipt applied what is stored with it or, in dollars, what its so'm were worth at the rate frozen with it or with the contract, to the nearest cent |
| `ReturnAccounting.ReceiptBuckets` | src/lib/return-accounting.ts:68-90 | the loop over the parts yields exactly the specified buckets |
| `ReturnAccounting.BucketsStandForParts` | src/lib/return-accounting.ts:68-90 | every part of a receipt that holds something has one bucket, with its tender and its share to the nearest unit, the last part taking the rest |
| `ReturnAccounting.BucketsAddUpIffHeadFits` | src/lib/return-accounting.ts:79-86 | buckets add up to their receipt exactly when the separately rounded parts do not exceed it, and otherwise hold more |
| `ReturnAccounting.ThreePartsFit` | src/lib/return-accounting.ts:79-86 | up to three parts always fit |
| `ReturnAccounting.AllocateReturnRefund` | src/lib/return-accounting.ts:100-162 | the two loops yield exactly the specified refunds or error |
| `ReturnAccounting.RefundReconciles` | src/lib/return-accounting.ts:131-161 | a refund within the receipts is allocated in full, to the contract unit and to the so'm; the late error cannot occur; every part gives back something, and something in so'm exactly when the parts before the last leave it any |
| `ReturnAccounting.RefundIsProrated` | src/lib/return-accounting.ts:145-161 | every part but the last is worth its exact share in so'm to the nearest one, or one so'm where that is nothing |
| `ReturnAccounting.SomPartsArePositiveWhen` | prisma/migrations/202607130001_immutable_return_ledger/migration.sql:188-189 | every part is worth a so'm when a contract unit is worth at least half as many so'm as there are parts, or the refund is in so'm |
| `ReturnAccounting.OlderOnlyAfterNewer` | src/lib/return-accounting.ts:118-142 | newest receipts first: every refunded bucket but the last is given back whole, under the receipt and tender it came from |
| `ReturnAccounting.SortIsStable` | src/lib/return-accounting.ts:118-121 | sorting keeps the receipts of every moment and their order |
| `RefundCaps.NoReceiptOverRefundedIff` | src/lib/return-accounting.ts:97-98 | no refund of any amount gives back more of a receipt than it applied exactly when every receipt that applied anything has a rounded head that fits |
| `RefundCaps.ThreePartsAreNeverOverRefunded` | src/lib/return-accounting.ts:79-86 | so receipts of up to three parts are never over-refunded |
| `RefundCaps.RefundWithinReceiptsIff` | src/lib/return-accounting.ts:131-145 | for one refund: exactly when every receipt it uses up and goes beyond, newest first, has a head that fits |
| `RefundCaps.FourPartsAreOverRefunded` | src/lib/return-accounting.ts:68-90 | a receipt of two cents paid in four times 63 so'm gives back three, while an older one gives nothing |
| `RefundCaps.StoredCapsHoldIff` | prisma/migrations/202607230003_usd_uzs_evidence_integrity/migration.sql:1433-1493 | the caps of the database hold for a refund exactly when that is so and every receipt it reaches carries the amount it applied |
| `ReturnQuote.PresentationIsSafe` | src/lib/nasiya-return.ts:109-213 | showing a quote fails only for an unshowable amount, never in the subtraction; the shown split makes up the shown receipts, and a refund is offered exactly for a contract that may be returned at a known rate |
| `ReturnQuote.QuoteProposesDownPayment` | src/lib/nasiya-return.ts:109-172 | a contract that may be returned is quoted the sum of what its receipts applied, with the down payment proposed as the refund; any other its debt alone |
| `ReturnQuote.PresentationShowsQuote` | src/lib/nasiya-return.ts:179-213 | each amount shown is the largest, up to the nearest, that converts back within the quoted one |
| `ReturnQuote.ShownRefundIsCovered` | src/lib/nasiya-return.ts:174-178 | any refund up to the shown maximum converts back within the verified receipts and is allocated to them in full |
| `ReturnQuote.ShownRefundIsBookedIff` | src/app/api/nasiya/[id]/return/route.ts:343-396 | of the refunds shown, exactly those are booked that are worth a contract unit and leave a so'm for the last part after the others are rounded, where the receipts reached carry what they applied and those used up were not rounded up beyond it |
| `ReturnQuote.WorthyRefundIsBooked` | src/app/api/nasiya/[id]/return/route.ts:343-396 | on receipts of up to three parts that carry what they applied, every shown refund is whose contract unit is worth half a so'm, and more than half as many so'm as parts before the last |
| `ReturnQuote.DollarRefundIsBooked` | src/app/api/nasiya/[id]/return/route.ts:343-396 | so every shown refund in dollars is, on a contract in dollars, when a cent is worth at least as many so'm as the refund has parts |
| `ReturnQuote.SomRefundIsBooked` | src/app/api/nasiya/[id]/return/route.ts:343-396 | and every shown refund in so'm, on a contract in so'm |
| `ClaimProtocol.BackOffIsPositive` | src/lib/notification-service.ts:38-41 | a retry is never due at once; without a hint it waits between a minute and an hour and never less than before |
| `ClaimProtocol.BackOffDoubles` | src/lib/notification-service.ts:38-41 | without a hint the first delay is a minute and each later one twice the one before, up to an hour |
| `ClaimProtocol.FailedRowIsDueAgainIff` | src/lib/notification-service.ts:576-599 | after a failure short of the last a row is due exactly from the end of the receiver's hint on or, without one, one, two, four or eight minutes later, and not before it was scheduled; after any other outcome never |
| `ClaimProtocol.ClaimedRowIsDueAgainIff` | src/lib/notification-service.ts:105-123 | a claimed row is due again exactly from five minutes on |
| `ClaimProtocol.CancellationIsPossibleIff` | src/app/api/nasiya/[id]/settlement/route.ts:855-872 | which rows can be cancelled from outside, and that none of them is due afterwards |
| `ClaimProtocol.EveryStepKeepsInvariant` | src/lib/notification-service.ts:105-123 | no step of any worker brings a row back within reach of a run that has touched it |
| `ClaimProtocol.ClaimsAreExclusive` | src/lib/notification-service.ts:533-537 | a claim that succeeds finds the row as its run read it, no attempt begun in between, and no run claims a row twice |
| `PromptAttempts.AttemptsDoNotOverlap` | src/lib/notification-service.ts:113-123 | when attempts end before they count as stale: one live attempt per row, with the right count and the current progress |
| `PromptAttempts.AttemptsAreBounded` | src/lib/notification-service.ts:578-599 | at most five attempts, and one more for every crash |
| `AttemptRuns.AttemptBoundIsReached` | src/lib/notification-service.ts:578-599 | for every number of crashes there is a run with that many and five attempts more, so the bound is exact |
| `PromptAttempts.SentAndCancelledAreFinal` | src/lib/notification-service.ts:541-576 | SENT is final, and so is CANCELLED without a live attempt |
| `PromptAttempts.OnlyLiveAttemptLeavesCancelled` | src/lib/notification-service.ts:576-599 | only the outcome of an attempt already under way overwrites CANCELLED |
| `AttemptRuns.CancelledIsFinalIff` | src/lib/notification-service.ts:541-599 | wherever prompt workers have got to, a cancelled row stays cancelled whatever they do next exactly when no attempt on it is live |
| `PromptAttempts.AttemptPutsBackInLineIff` | src/lib/notification-service.ts:576-599 | an attempt under way can put its row back in line exactly when it is not the last, and any attempt that succeeds marks it SENT, whatever has become of the row |
| `PromptAttempts.CancellationIsOverwritten` | src/app/api/nasiya/[id]/settlement/route.ts:855-872 | so a reminder cancelled while it is being sent becomes SENT when the send succeeds, and is back in line when it fails and was not the last |
| `AttemptRuns.CancellationIsOverwrittenInSomeRun` | src/app/api/nasiya/[id]/settlement/route.ts:855-872 | from any start there is a run in which this happens |
| `TelegramDelivery.PlanTelegramDelivery` | src/lib/telegram-delivery.ts:21-42 | the loop over groups of ten yields exactly the specified plan |
| `TelegramDelivery.SortKeepsItems` | src/lib/telegram-delivery.ts:26 | sorting by position loses and adds no image |
| `TelegramDelivery.PlanDeliversEverythingOnce` | src/lib/telegram-delivery.ts:13-20 | a plan delivers the text once, unless it was sent before, and then every image once in order |
| `TelegramDelivery.PlanStaysWithinLimits` | src/lib/telegram-delivery.ts:31-40 | albums of two to ten, captions of at most 1024 code units |
| `TelegramDelivery.PlanIsAlbumsOfTen` | src/lib/telegram-delivery.ts:21-42 | the plan in full: a new text is the caption of the first album when UTF-16 writes it in at most 1024 units, else a message ahead of everything; images follow in order, ten at a time |
| `NotificationDelivery.Notification.SendSteps` | src/lib/notification-service.ts:438-467 | the loop sends, records and saves exactly as specified, up to the first step not taken |
| `NotificationDelivery.Notification.Deliver` | src/lib/notification-service.ts:404-497 | a whole attempt, fallback included, leaves exactly the specified state and report |
| `NotificationDelivery.AttemptIsFaithful` | src/lib/notification-service.ts:404-497 | whatever its sends come back with, an attempt delivers nothing twice, and reports success exactly when the recipient has everything |
| `NotificationDelivery.RetriesDeliverAtMostOnce` | src/lib/notification-service.ts:389-402 | over any number of attempts with any failures, text and images are delivered at most once |
| `NotificationDelivery.SuccessMeansExactlyOnce` | src/lib/notification-service.ts:488-496 | when an attempt reports success, text and all images were delivered exactly once |
| `NotificationDelivery.SendingSendsPrefix` | src/lib/notification-service.ts:438-467 | the plan is sent up to the first send not taken, whose refusal is the failure |
| `NotificationDelivery.TextFallsBackIff` | src/lib/notification-service.ts:469-497 | exactly when the text goes out on its own at the end of an attempt, and that nothing else does |
| `NotificationDelivery.TakenAttemptDeliversEverything` | src/lib/notification-service.ts:404-497 | an attempt whose images are signed and whose sends are taken delivers everything and says so |
| `NotificationDelivery.RefusedTextIsSentAgainIff` | src/lib/notification-service.ts:469-486 | whenever a send is turned down that must not be retried at once, before the text is out, the text is sent in the same attempt exactly when an image is pending that could not be signed |
| `ExactlyOnce.EveryMoveKeepsInvariant` | src/lib/notification-service.ts:527-599 | no move of any worker, one answer of one send at a time, parts what is recorded from what was received |
| `ExactlyOnce.SentIsDeliveredExactlyOnce` | src/lib/notification-service.ts:404-599 | over any interleaving of any number of prompt workers nobody gets anything twice, and a SENT notification reached its recipient exactly once, text and all images |
| `DeliveryRuns.EveryDueRowCanBeDelivered` | src/lib/notification-service.ts:404-599 | wherever any number of prompt workers has got to, every due row can be claimed, sent in full and marked SENT by prompt moves |
| `Csv.ParseCsvMatrix` | src/lib/csv-import.ts:7-47 | the index loop returns exactly what reading the input from the start comes to |
| `Csv.WrittenTableIsRead` | src/lib/csv-import.ts:7-47 | a table is read as it was meant, less its blank rows, whichever parts of its cells are quoted and whether lines end in a line feed, a carriage return or both |
| `Csv.RefusedIffQuotesAreOdd` | src/lib/csv-import.ts:43-45 | input is refused exactly when its quotes are odd in number |
| `Csv.CsvRoundTrip` | src/lib/csv.ts:1-10 | reading what was written gives back the table as shown, less its blank rows, whatever the cells hold |
| `Csv.CsvRoundTripIsIdentityIff` | src/lib/csv-import.ts:7-47 | a table of strings comes back unchanged exactly when it has no blank row and no cell that looks like a formula |
| `Csv.ShownIsHarmless` | src/lib/csv.ts:3 | a string gets an apostrophe exactly when only white space stands before a character that starts a formula; it then never looks like one, and guarding twice is guarding once |
| `ReminderPages.ReminderPass.ProcessReminderPages` | src/lib/reminder-pagination.ts:15-47 | the loop over pages, with time-outs and crashes anywhere, does exactly what the specification says |
| `ReminderPages.RunDoesScript` | src/lib/reminder-pagination.ts:15-47 | a run takes exactly the actions of its pages in order, for as long as there is time, up to the first that fails; it reports its rows, and completion exactly when there was time for a page more than they fill |
| `ReminderPages.EveryRunKeepsCoverage` | src/lib/reminder-pagination.ts:9-14 | any run resumes at the next row, leaves all rows up to the cursor processed, and repeats at most a page after a crash |
| `ReminderPages.RunsSkipNothing` | src/lib/reminder-pagination.ts:9-14 | no number of runs skips a row; repeats are bounded by a page per crash, and there are none without crashes |
| `ReminderPages.CompletionMeansAllDone` | src/lib/reminder-pagination.ts:31-43 | a run that reports completion has seen every row processed, without crashes each exactly once |
| `RateLimit.RateLimiter.CheckRateLimit` | src/lib/rate-limit.ts:54-74 | one check changes the table and answers exactly as specified |
| `RateLimit.NeverMoreThanTheCap` | src/lib/rate-limit.ts:34-38 | the table never holds more than 5 000 keys, and its order lists exactly its keys |
| `RateLimit.OnlyOldestIsForgotten` | src/lib/rate-limit.ts:58-64 | a call forgets nothing of other keys, unless it opens a window in a full table: then the key that came first |
| `RateLimit.FewerThanTwiceTheLimit` | src/lib/rate-limit.ts:54-74 | at most twice the limit less one calls pass within any interval as long as the window |
| `RateLimit.TwiceTheLimitLessOneCanPass` | src/lib/rate-limit.ts:40-45 | that many can pass, whatever the limit: the window does not roll |
| `RateLimit.WaitingIsEnough` | src/lib/rate-limit.ts:67-70 | waiting as long as a refusal says is enough and a whole second less is not; until the window ends every call is refused |
| `RateLimit.RemainingIsExact` | src/lib/rate-limit.ts:64-74 | as many calls of the key as a call is told remain still pass in its window, and no more |
| `FeatureClosure.RequiredFeatures.Search` | src/components/admin/shop-package-editor.tsx:152-163 | the depth-first search finds exactly the direct and indirect prerequisites, cycles or not |
| `FeatureClosure.FindEnabledDependents` | src/components/admin/shop-package-editor.tsx:135-150 | the repeated passes find exactly the enabled features that depend on one by way of enabled ones |
| `FeatureClosure.DependentsAreThoseThatRequire` | src/components/admin/shop-package-editor.tsx:135-150 | in a closed package these are exactly the enabled features that need it |
| `FeatureClosure.EnableIsLeastClosed` | src/components/admin/shop-package-editor.tsx:220-236 | enabling yields the smallest closed set with the feature and all that was enabled |
| `FeatureClosure.DisableIsGreatestClosed` | src/components/admin/shop-package-editor.tsx:239-253 | disabling yields the largest closed subset without the feature |
| `FeatureClosure.TogglesKeepClosedIff` | src/lib/access-control.ts:370-377 | from whichever closed package, every sequence of toggles, the staff switch among them, keeps it as saving demands, exactly when the staff feature needs no other and no other needs it |
| `FeatureClosure.SwitchOnlyKeepsClosedIff` | src/components/admin/shop-package-editor.tsx:201-218 | the staff switch, which sets a single flag, is safe exactly when its feature needs no other and no other needs it |
| `FeatureClosure.PackageEditor.SetFeatureEnabled` | src/components/admin/shop-package-editor.tsx:214-254 | a toggle in the editor changes the enabled set exactly so |

## Left out

- Floating point: quotients such as `part / whole` are exact rationals here; the program computes them in doubles.
- Storable range: amounts inside the money core are unbounded integers; `MAX_STORABLE_MONEY` is modelled in
  `Currency`, `NasiyaLedger` and `ReturnQuote`, and bounds the contracts that `ContractLifetime` opens. Amounts with too
  many decimals are not representable and so count as out of range.
- Database, network, Telegram, storage and clocks: sends are arbitrary answers, clock readings are parameters, and each
  transaction is one step.
- Calendar: Tashkent days are whole days at a fixed offset of five hours; due dates are given, not computed by adding
  months.
- ContractLifecycle: the idempotent replay of a payment, roles, input validation, FX look-ups, size limits and the
  concurrency guards on expected amounts are not modelled; return and cancellation of a contract are not commands of it.
- ContractLifecycle: a settlement checks its waiver against the legacy so'm mirror but does not write that mirror, which
  nothing reads after it; the so'm values of commands are parameters, and what converting them at a rate implies is
  stated beside the commands.
- SettlementAcceptedIff: holds for any so'm values and any legacy interest; `ContractMirror` ties both to the rate of
  the sale for contracts just sold, not for contracts already paid on.
- EveryContractCanBePaidOff: assumes that clock readings never go back; the date given to a settlement may lie anywhere.
- SoldContractNeverBlocksIff: covers sales on a percentage; of those on a typed monthly payment `MonthlyIsKept` says that
  every instalment is that payment, and `SaleOpensInOrder` applies to them.
- LifetimeConservation: is stated for sold contracts; imported ones carry no components.
- AllocateNasiyaPayment: computes debt as expected less paid, as the program does, so rows with a waiver are outside
  its use; the lifecycle proves that none are passed to it.
- ReconcileNasiyaLedger: overdue totals, overdue counts, the next payment date and the copied row amounts of the report
  are not modelled; the legacy status fallback is unreachable from it.
- Legacy: trust and payment scores, shop statistics and status derivation for contracts without native amounts would
  only add piecewise formulas.
- ClaimsAreExclusive: batches, their order and size, and the time budget of a run are not modelled; a run may fetch any
  due row at any time, which allows more interleavings than the program has.
- AttemptsDoNotOverlap: assumes that no attempt outlives the stale time and that all workers read one clock.
- ShownRefundIsBookedIff: the concurrency guards on expected amounts and rates, and the writes beside the refund
  allocations, are not modelled.
- SentIsDeliveredExactlyOnce: assumes, besides, that attempts are prompt; how many images a notification has is fixed
  when it is posted rather than at its first attempt.
- RetriesDeliverAtMostOnce: assumes a send and the saving of its progress are one step, a non-empty message, and media
  keys fixed by the first attempt.
- Csv: strings are sequences of Unicode scalar values; the mapping of headers to customer fields is left out.
- ReminderPages: the table does not change while it is paged; the phases that follow one another are left out.
- FewerThanTwiceTheLimit: assumes a key is always checked with the same options and not evicted by another key.
- FeatureClosure: labels, prices and the contents of the catalogue are left out; the catalogue is arbitrary.
