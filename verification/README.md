# Verified model of the HanStock order ledger and its sizing, scheduling and reporting code

The service keeps, for every trading strategy, its own virtual positions. Broker fills are attributed to
managed orders, orders to positions, and every open quantity must be under a durable hard stop; a
reservation table keeps several strategies from spending the same cash or risk twice. All of this is one
transactional state machine over six tables and their logs. Each repository function runs in one serialized
transaction that rolls back on failure, so concurrent workers are arbitrary interleavings of atomic steps.

Tables are append-only sequences of rows, a row's number is its index, and a NULL or zero foreign key is
`None`. Prices, averages and money are exact reals; quantities are integers.

| file | what it holds |
|---|---|
| `Wrappers.dfy`, `Tables.dfy`, `LedgerSteps.dfy`, `RiskSteps.dfy` | the rows, and what each repository function does to them as one step |
| `Ledger.dfy` | the repository object: mutable tables, writes in source order, rollback; each method proved equal to its step |
| `Books.dfy`, `EventLog.dfy`, `HardStops.dfy`, `RiskBudget.dfy`, `LedgerInvariant.dfy` | the invariant, table by table, and why every step keeps it |
| `LedgerRuns.dfy`, `LedgerTheorems.dfy`, `DeliveryOrder.dfy` | runs of commands, and the main results about every run |
| `FillRules.dfy`, `StopRules.dfy`, `RowRules.dfy` | which calls write and what they leave, in terms of the stored columns alone; what raises and lifts the unprotected alarm |
| `Exposure.dfy`, `ExposureColumns.dfy`, `ExposureExamples.dfy` | which rows the exposure sums count, how every command moves them, when the limits hold over runs, and runs on which they do not |
| `AverageCost.dfy`, `StrategyBooks.dfy`, `PeriodicReport.dfy`, `HoldingSweep.dfy` | the trade-list fold, the periodic report and the holding sweep, against from-scratch definitions and each other |
| `Allocator.dfy`, `TradingSession.dfy`, `PlanSizing.dfy`, `CandidateOrders.dfy` | the buy-sizing pipeline |
| `Schedule.dfy`, `EquityCurve.dfy`, `InquiryPages.dfy` | the fixed-grid schedule, the equity curve, broker pagination |
| `Sums.dfy`, `Reals.dfy` | finite sums; minima and maxima, products, quotients, floors and truncation |

## What the proofs found

- `RaisedStopEndsBuying`: nothing ever updates the stop of a position row, and a buy fill is refused when that
  stop is below the protection's. Once the broker acknowledges a higher stop, no later buy fill of that position
  is accepted.
- `NoCashBypassesBudget`: with no cash the allocator's rescaling is skipped, and the returned orders are
  affordable exactly when no candidate's weight buys one share. `NoCashExample` is a concrete call.
- `ExposureAdmission`: the check adds the amount a request asks for, but the admitted row counts with the open
  value of its position's latest working buy. The sums therefore stay within the limits exactly when that value
  fits too; in `AdmissionCanOvershoot` a limit of 1000 admits a row that counts 10000.
- `CompletingFillMovesExposure`: completing an order raises a sum exactly when the reservations it stood for fall
  back on more than the shares still to come were worth, because a reservation counts in full again until it is
  released. `CompletionCanRaise` is a run on which every limit passed is 1000 and the last fill lifts the market
  sum to 1900. `ExposureNeverExceeded` states a
  discipline on the rows before each call that keeps the limits over whole runs; letting reservations go before
  their order completes is part of it, while the service lets them go once the order has reached a terminal status.
- `PartialFillFreesExposure`: an order's asked price is not validated, so a partial fill raises pending exposure
  exactly when that price is negative and the order stands for a reservation of that sum (`NegativePriceRaises`).
  For the same reason the exposure listing can show more than the admission check counts
  (`NegativePriceHidesExposure`; `AdmissionSeesListing` gives the exact condition).
- `AlarmMoves`: a position leaves the unprotected listing not only when the broker acknowledges exactly its open
  quantity. A new request, or a fill that leaves exactly the quantity still protected, takes it off as well, even
  after its stop was reported failed or its cancel was requested, because both overwrite the stop's status.
- `StopRequestNeverCreates`: for positions created with zero quantities, as the service creates them, the
  documented "create" half of `request_position_protection` is dead in every reachable state, since the first buy
  fill already created the row. `create_strategy_position` also accepts a remaining quantity, and for a row
  inserted that way (`tests/test_autonomy_protection.py` does it) the create half runs.
- `list_unprotected_strategy_positions` is documented as listing quantities "not fully covered by an active stop";
  the query also accepts a stop whose amendment is pending. The model follows the query.

## Model

| member | source | states |
|---|---|---|
| LedgerTheorems.EventLogRebuildsTables | src/db/ai_execution_repository.py:411-418 | in every reachable state the order event log alone rebuilds each order's status, filled quantity and average price, and each owner's quantities, average and profit; consecutive events of an order link up; the stop log rebuilds each stop |
| EventLog.StatusChain | src/db/ai_execution_repository.py:559-569 | per order the from/to statuses form one chain: first event creates, each next starts where the previous ended, the last one is the stored status |
| LedgerTheorems.CashIdentity | src/db/ai_execution_repository.py:654-760 | realized profit is proceeds minus cost plus average price times held quantity, and exactly proceeds minus cost once flat |
| LedgerTheorems.QuantitiesConserved | src/db/ai_execution_repository.py:662-677 | filled quantity is what the buy orders filled, remaining is buys minus sells, no order is ever over-filled, whatever statuses are stored |
| LedgerTheorems.FillTouchesOnlyOwner | src/db/ai_execution_repository.py:635-652 | a fill moves one order, its owning position (same strategy, symbol and market) and that position's stop, and no other row |
| LedgerTheorems.RedeliveryChangesNothing | src/db/ai_execution_repository.py:595-624 | deleting any later redelivery of an accepted keyed fill leaves all tables of the run unchanged; it is answered as a duplicate and never fails; the same key with other numbers is refused without effect |
| LedgerTheorems.KeyedFillsAccountForAll | src/db/ai_execution_repository.py:813-824 | if every delivery is keyed, recorded fills sum to exactly the filled quantity of every order |
| LedgerTheorems.RecordedAtMostFilled | src/db/ai_execution_repository.py:813-824 | in any run recorded fills sum to at most the filled quantity |
| LedgerTheorems.BuyFillAcceptedIff | src/db/ai_execution_repository.py:661-708 | a new, matching buy fill goes through exactly when the position has a stop, the protection's stop was not raised above it, and a closed row would not reopen beside another active row of its key |
| LedgerTheorems.SellFillAcceptedIff | src/db/ai_execution_repository.py:741-760 | a new, matching sell fill goes through exactly when the strategy owns the quantity; the unique index never aborts it |
| LedgerTheorems.OnlyReopeningClashes | src/db/ai_schema_repository.py:307-313 | the partial unique index can only abort a fill that reopens a closed position |
| FillRules.FillTakenIff | src/db/ai_execution_repository.py:585-689 | a fill is taken as new exactly when it is positive, its key is fresh, its order is submitting, submitted, partially filled, of unknown outcome or being canceled and has that much left, its owner exists with the order's strategy, symbol and market, and a buy has a hard stop that was not raised and reopens nothing beside an active row, or a sell sells no more than is owned |
| FillRules.TakenFillLeaves | src/db/ai_execution_repository.py:654-836 | the rows of order, owner and stop, the fill, the event and the answer that every taken fill leaves |
| FillRules.LateFillsAreTaken | src/db/ai_execution_repository.py:625-630 | an order that was submitted takes the same fills, to the same rows, after a cancel was requested or the broker's answer got lost |
| FillRules.OrderRefusalNamesFirst | src/db/ai_execution_repository.py:588-652 | a refusal by the order's own checks names the first one that fails |
| LedgerTheorems.OpenQuantityHasItsStop | src/db/ai_execution_repository.py:678-727 | every open quantity belongs to an open position with exactly one stop row, asking for exactly that quantity at a positive stop |
| LedgerTheorems.StopStatusMeaning | src/db/ai_risk_repository.py:440-458 | active means fully protected, partial strictly between, pending and canceled unprotected, cancel-pending and canceled only on a flat position |
| LedgerTheorems.ListingOmitsOnlyCovered | src/db/ai_risk_repository.py:678-707 | an open long quantity is left out of the unprotected listing exactly when an acknowledged stop of exactly that quantity is on record |
| StopRules.ListingIsAlarm | src/db/ai_risk_repository.py:678-707 | the listing shows exactly the open long quantities without an acknowledged, not failed stop of exactly that quantity |
| StopRules.AlarmMoves | src/db/ai_risk_repository.py:419-521 | for every command, exactly when a position is on the listing afterwards: a failed stop, an acknowledgement of less and a fill that leaves another quantity than is protected put it there; an acknowledgement of exactly the open quantity, a request or a fill that leaves just what is protected, or nothing, take it off; no other command does either |
| StopRules.FailedStopStaysListed | src/db/ai_risk_repository.py:479-521 | in every run, an open long position whose stop was reported failed is listed, and stays listed until one of those commands takes it off |
| LedgerTheorems.StopRequestNeverCreates | src/db/ai_risk_repository.py:380-397 | an explicit stop request always finds its row, in every state reached from positions created with zero quantities |
| LedgerTheorems.StopsNeverFall | src/db/ai_risk_repository.py:364-378 | along any continuation of any run no stop falls and no position changes hands or stop price |
| LedgerTheorems.RaisedStopEndsBuying | src/db/ai_execution_repository.py:678-689 | after a stop was raised above the position's own, every later buy fill of it leaves the tables unchanged |
| LedgerTheorems.PositionLifecycle | src/db/ai_execution_repository.py:254-271 | open exactly while something is held, pending entry only before the first fill, one active position per key |
| LedgerTheorems.BudgetNeverExceeded | src/db/ai_risk_repository.py:108-127 | over any interleaving, the active cash and risk of an account and market stay within the largest limits its calls passed |
| LedgerTheorems.ReservationsAreFinal | src/db/ai_risk_repository.py:296-330 | one active reservation per key; a released, consumed or expired row never changes again; amounts never change |
| LedgerTheorems.ReservingTwiceIsReservingOnce | src/db/ai_risk_repository.py:82-106 | repeating a request while its reservation is active, at any later time and under any limits, returns the same row and changes nothing |
| Exposure.ExposureAdmission | src/db/ai_risk_repository.py:128-178 | a row is created exactly when no active row has its key and cash, risk and, in all four dimensions, pending plus new exposure fit; afterwards every sum has grown by the row's pending exposure, and is within its limit exactly when that fits, which holds whenever no working buy of the position is worth more than the amount asked for; a release takes out of every sum exactly what the admission put in |
| ExposureColumns.ReservedIff | src/db/ai_risk_repository.py:37-205 | exactly when a new reservation row is made, and the row, in terms of the request and the stored columns |
| ExposureColumns.HeldKeyAnswer | src/db/ai_risk_repository.py:82-106 | a request for a held key is answered with its row when every amount, symbol and sector is the same, and refused otherwise |
| ExposureColumns.RefusalNamesFirst | src/db/ai_risk_repository.py:119-178 | a refusal names the first check that fails |
| ExposureColumns.PendingByColumns | src/db/ai_risk_repository.py:131-163 | a reservation counts with the newest order still buying for its position, else with its own amount |
| ExposureColumns.SumsByColumns | src/db/ai_risk_repository.py:164-170 | the position limit counts all strategies' active reservations on the symbol, the sector and strategy limits those of the sector and strategy, the market limit all of the account and market |
| ExposureColumns.MarketIsSumOfDimension | src/db/ai_risk_repository.py:164-170 | the market sum is the total of the position sums over all symbols, of the sector sums over all sectors and of the strategy sums over all strategies |
| ExposureColumns.SymbolNeverExceedsLimit | src/db/ai_risk_repository.py:164-178 | under the discipline of ExposureNeverExceeded, what all strategies have pending on one symbol together stays within the position limit in every run |
| Exposure.AdmissionHolds | src/db/ai_risk_repository.py:164-178 | once a request was admitted under a limit, for at least its position's working buy and with no negative price asked before, the sum stays within that limit along every continuation under the discipline of ExposureNeverExceeded |
| Exposure.StepMovesExposure | src/db/ai_risk_repository.py:143-163 | by exactly how much every command moves every exposure sum: a new or released reservation by its pending exposure, a new buy order by taking over from what counted before, a status change across the working list and a completing fill by the fallback of the reservations the order stood for, a partial fill by the shares freed; all other commands by nothing |
| Exposure.RunMovesExposure | src/db/ai_risk_repository.py:143-163 | along every run each sum is the start plus the moves of its commands |
| Exposure.OnlyTheseRaise | src/db/ai_risk_repository.py:143-163 | while no order asks for a negative price, only a new reservation, a new buy order, a buy order crossing the working list and a completing buy fill can raise a sum |
| Exposure.ExposureNeverExceeded | src/db/ai_risk_repository.py:143-178 | over any interleaving the sum stays within the cap if every reservation passes a limit of at most the cap and asks for at least its position's working buy, every order that starts to work asks no negative price and is worth no more than each active reservation it takes over from counts with, and every order that stops working leaves its active reservations nothing larger to fall back on than it had open; nothing is asked of any other command |
| Exposure.CarefulNeverRaises | src/db/ai_risk_repository.py:143-163 | while no stored price is negative, a command under that discipline other than a reservation raises no sum |
| Exposure.PartialFillFreesExposure | src/db/ai_execution_repository.py:654-659 | an accepted fill that leaves its order open frees its shares' asked value once per reservation the order stands for, so it raises no sum exactly when the asked price is not negative or there is no such reservation |
| Exposure.CompletingFillMovesExposure | src/db/ai_execution_repository.py:654-659 | an accepted fill that completes its order moves each sum by what the reservations it stood for fall back on, less the value still open; it raises the sum exactly when the fallback is worth more |
| ExposureExamples.NegativePriceRaises | src/db/ai_risk_repository.py:146-150 | a run after which a partial fill at a negative asked price is accepted and raises the sum |
| ExposureExamples.CompletionCanRaise | src/db/ai_risk_repository.py:143-163 | a run under limits of 1000 after which a completing fill is accepted and lifts the market sum from 1000 to 1900 |
| ExposureExamples.AdmissionCanOvershoot | src/db/ai_risk_repository.py:173-178 | a run under limits of 1000 that leaves the market sum at 10000 |
| Exposure.AdmissionSeesListing | src/db/ai_risk_repository.py:258-294 | the admission total is at least the listed total whenever no negative price stands for a reservation the listing leaves out, and in general exactly when those reservations add up to no negative amount |
| Exposure.ListingOmitsOrphans | src/db/ai_risk_repository.py:285-291 | the two totals differ by exactly the reservations without a position row |
| ExposureExamples.NegativePriceHidesExposure | src/db/ai_risk_repository.py:258-294 | a run after which the listing shows more than the admission check counts |
| RiskBudget.ReleaseReturns | src/db/ai_risk_repository.py:296-330 | a release returns exactly the cash and risk of an active row, once |
| LedgerRuns.RunKeepsValid | src/db/ai_stock_support.py:22-24 | every run of steps, accepted or rejected, keeps the invariant over all tables |
| LedgerRuns.RunGrows | src/db/ai_execution_repository.py:526-571 | along every run logs and keyed fills are append-only, static order and position columns and a bound approval never change, filled quantities never shrink |
| RowRules.PositionCreatedIff | src/db/ai_execution_repository.py:177-220 | a position is created exactly when no active one has its market, account, symbol and strategy, with the row it starts as |
| RowRules.AbandonedIff | src/db/ai_execution_repository.py:254-271 | exactly an unfilled pending shell is closed |
| RowRules.OrderCreatedIff | src/db/ai_execution_repository.py:379-420 | an order is created once per client key, for a positive quantity, with its row and first event |
| RowRules.ApprovalBoundIff | src/db/ai_execution_repository.py:429-441 | an approval is bound exactly once, in the expected status |
| RowRules.TransitionedIff | src/db/ai_execution_repository.py:526-571 | a status is set exactly when the expected one is stored, with its event |
| RowRules.StopRequestedIff | src/db/ai_risk_repository.py:332-417 | a request is accepted exactly for the open quantity of a long position at a stop not below the one on record, with the row it leaves |
| RowRules.StopActivatedIff | src/db/ai_risk_repository.py:419-477 | an acknowledgement is accepted exactly for at most what is asked for at a stop not below the one on record; active when it is all, partial when it is less |
| RowRules.StopFailedIff | src/db/ai_risk_repository.py:479-521 | a failure is stored as failed and changes nothing else of the row |
| RowRules.StopCanceledIff | src/db/ai_risk_repository.py:523-569 | canceled exactly under a flat position, protecting nothing any more |
| RowRules.StopCancelRequestedIff | src/db/ai_risk_repository.py:571-621 | a cancel is requested exactly under a flat position, and written once |
| RowRules.ReleasedIff | src/db/ai_risk_repository.py:296-330 | an active reservation ends in the status asked for, an ended one is left alone |
| LedgerInvariant.TransitionKeepsValid | src/db/ai_execution_repository.py:526-571 | a transition to any status whatever keeps the whole invariant |
| DeliveryOrder.DeliveryOrderDoesNotMatter | src/db/ai_execution_repository.py:631-708 | any reordering of positive buy fills that fit their order is fully accepted and ends with the same orders, positions, stops and reservations, and the same bag of keyed fills |
| DeliveryOrder.DeliverReaches | src/db/ai_execution_repository.py:654-708 | the tables after delivering a list of fills, in closed form from their total quantity and money |
| Ledger.LedgerStore.constructor | src/db/ai_schema_repository.py:274-313 | the empty tables, which satisfy the invariant |
| Ledger.LedgerStore.CreateStrategyPosition | src/db/ai_execution_repository.py:177-220 | the new row or the failure, in the order the code tests them; invariant kept |
| Ledger.LedgerStore.AbandonPendingStrategyPosition | src/db/ai_execution_repository.py:254-271 | closes exactly an unfilled pending shell; invariant kept |
| Ledger.LedgerStore.CreateManagedOrder | src/db/ai_execution_repository.py:379-420 | the new order with its creation event, or the failure; invariant kept |
| Ledger.LedgerStore.BindManagedOrderApproval | src/db/ai_execution_repository.py:429-441 | binds an approval once, in the expected status only; invariant kept |
| Ledger.LedgerStore.TransitionManagedOrder | src/db/ai_execution_repository.py:526-571 | compare-and-set of the status with its event, or nothing; invariant kept |
| Ledger.LedgerStore.ApplyManagedFill | src/db/ai_execution_repository.py:573-846 | the whole new state and answer of a fill, every refusal with all tables as before; invariant kept |
| Ledger.LedgerStore.NewFill | src/db/ai_execution_repository.py:626-846 | check, attribute, record: the state after a fill that is no redelivery |
| Ledger.LedgerStore.BuyFill | src/db/ai_execution_repository.py:661-740 | position written first, then the checks; a failed check leaves every table as it was |
| Ledger.LedgerStore.SellFill | src/db/ai_execution_repository.py:741-798 | position and stop after a sell, or the refusal with every table as it was |
| Ledger.LedgerStore.RequestPositionProtection | src/db/ai_risk_repository.py:332-417 | the amended stop and its event, or the failure; invariant kept |
| Ledger.LedgerStore.ActivatePositionProtection | src/db/ai_risk_repository.py:419-477 | the acknowledged stop and its event, or the failure; invariant kept |
| Ledger.LedgerStore.FailPositionProtection | src/db/ai_risk_repository.py:479-521 | the failed stop and its event; invariant kept |
| Ledger.LedgerStore.CancelPositionProtection | src/db/ai_risk_repository.py:523-569 | canceled only on a flat position; invariant kept |
| Ledger.LedgerStore.RequestPositionProtectionCancel | src/db/ai_risk_repository.py:571-621 | requested only on a flat position and only once; invariant kept |
| Ledger.LedgerStore.ListUnprotectedStrategyPositions | src/db/ai_risk_repository.py:678-707 | exactly the uncovered open long positions of the market asked for, or of all, in id order; an unknown market is refused |
| Ledger.LedgerStore.ReserveRiskBudget | src/db/ai_risk_repository.py:37-205 | the reservation, the existing row, or the first failing check with the table unchanged; invariant kept |
| Ledger.LedgerStore.ReleaseRiskReservation | src/db/ai_risk_repository.py:296-330 | releases an active row once; invariant kept |
| AverageCost.ReconstructStrategyPositions | src/db/scheduler_repository.py:664-690 | one pass over all trades gives each symbol what a pass over its own trades gives, and returns exactly the open or earning lots |
| AverageCost.TradeListAgreesWithLedger | src/db/scheduler_repository.py:664-690 | for every run and position the trade-list fold on its accepted fills gives the ledger's quantity, profit and (while open) average cost |
| StrategyBooks.TradeListAgreesWithBook | src/db/scheduler_repository.py:652-690 | for every run, one fold over all fills of a strategy's book in log order, with its symbols and its closed, reopened and successive positions mixed, gives for each symbol the shares of the one position that holds any, at that position's average, and the profit of all its positions together |
| AverageCost.RowsCountAsPlain | src/db/scheduler_repository.py:664-673 | only rows of a symbol that are filled or carry no status count, for their filled quantity if known and else the quantity ordered |
| AverageCost.OversellSellsWhatIsHeld | src/db/scheduler_repository.py:682-688 | selling more than is held sells what is held |
| Allocator.Allocate | src/strategy/allocator.py:23-77 | the loops compute the allocation defined candidate by candidate |
| Allocator.AllocationWithinBudget | src/strategy/allocator.py:31-77 | with cash, the orders cost at most the cash and at most capital times (1 - buffer) squared after flooring and rescaling; each is a positive whole quantity within its conviction cap |
| Allocator.WeightIsMonotone | src/strategy/allocator.py:6-15 | a higher score never gets a lower target weight |
| Allocator.WeightIsCappedShare | src/strategy/allocator.py:38-54 | a weight is the share of the scores after the buffer, capped by the quality of the signal |
| Allocator.SharesAreLargest | src/strategy/allocator.py:55-60 | a weight buys as many whole shares as its part of the money pays for, costs included |
| Allocator.EveryoneGetsTheirShare | src/strategy/allocator.py:37-77 | the result holds exactly one kind of order per candidate: its shares, cut in proportion to the budget when all weights together exceed it, unless nothing is left |
| Allocator.BillIsSumOfShares | src/strategy/allocator.py:67-69 | the bill that decides about the cut is the sum of what the weights buy |
| Allocator.NoCashBypassesBudget | src/strategy/allocator.py:68-75 | without cash the result is affordable exactly when no candidate's weight buys one share |
| Allocator.NoCashExample | src/strategy/allocator.py:68-75 | a concrete call without cash that returns orders |
| TradingSession.ApplyMarketRegimeSizing | src/strategy/regime_sizing.py:6-29 | sizes every buy row in place and no other row |
| TradingSession.SizingOnlyShrinks | src/strategy/regime_sizing.py:13-22 | sizing never raises a quantity, keeps the cost per share, and leaves exits alone |
| TradingSession.SizingKeepsWholeShare | src/strategy/regime_sizing.py:13-22 | a sized buy is the whole part of its share, no less, and only quantity and estimated cost change |
| TradingSession.CapitalIsLesser | src/strategy/budget.py:8-20 | the capital in use is the lesser of what is configured and what the account holds, where they are there |
| TradingSession.LimitIsShareOfCapital | src/strategy/budget.py:32-34 | the investable limit is the whole won of the capital's share after the buffer |
| TradingSession.BuyingCashIsLargest | src/strategy/budget.py:38-64 | the buying cash is the largest amount that the broker cash covers and that stays within the investable limit on top of existing exposure |
| TradingSession.CostIsWholeEstimate | src/trader.py:289-301 | a buy costs its estimate, or price times quantity with costs, in whole won |
| TradingSession.RunPlan | src/trader.py:1212-1279 | every row is decided in turn by the cash the earlier accepted buys have left: a buy reaches execution exactly when its category is allowed, it is not blocked, has a quantity, no loss halt is on and its cost fits that cash, and each refusal names the first guard that failed; for arbitrary router answers |
| TradingSession.SpendingIsConserved | src/trader.py:1240-1279 | estimated cost of accepted buys plus cash left is the starting cash, which is never overdrawn |
| TradingSession.SessionSpendsWithinLimits | src/strategy/budget.py:38-64 | if a session bought anything, the bill fits the broker cash and, on top of existing exposure, the investable limit; untruncated it exceeds the budget by less than one per buy |
| TradingSession.SellsAlwaysReach | src/trader.py:1214-1246 | exactly the allowed sells reach execution, in plan order, whatever cash, multiplier, block, halt and router answers |
| Schedule.ScheduleRow.Dispatch | src/strategy_scheduler.py:187-195 | which polls run and where the mark ends, poll by poll |
| Schedule.EachSlotAtMostOnce | src/db/scheduler_repository.py:582-605 | of two successful runs the later one always belongs to a later slot |
| Schedule.EveryPolledSlotRuns | src/db/scheduler_repository.py:594-605 | when the runs executed so far ended within their slots, every eligible polled slot has been executed: run time never accumulates as drift |
| Schedule.EverySlotExactlyOnce | src/db/scheduler_repository.py:582-605 | then the slot is executed exactly once, however many more polls it sees |
| Schedule.EveryGridSlotExactlyOnce | src/db/scheduler_repository.py:590-605 | the same for the k-th interval of a day's window: from its start to the next it is executed exactly once, by a poll within it |
| Schedule.SlotIsGridPoint | src/db/scheduler_repository.py:594-601 | the slot of a moment is the window start plus the whole intervals that have passed |
| Schedule.DueIffGridPointPassed | src/db/scheduler_repository.py:552-605 | a schedule is due exactly when it is enabled, its gates are open, the minute is within its window and it never ran or some grid point of today lies after the last run and not after now |
| Schedule.DueAfterOneInterval | src/db/scheduler_repository.py:601-605 | a poll in the window at least one interval after the last completion is always due |
| Schedule.ExecutedIff | src/strategy_scheduler.py:187-195 | exactly which polls run: the eligible ones that succeed and whose slot began after the stored mark and after everything that ran before them was over |
| Schedule.FailedRunsStayDue | src/strategy_scheduler.py:187-195 | after any sequence of polls in a due slot, the slot is still due exactly when none of them was eligible and succeeded |
| PlanSizing.QuantityIsLargestThatFits | src/ai_stock/execution_plan_service.py:63-74 | with an account, a positive quantity is within the result exactly when it respects risk, capital, cash, position and market limits |
| PlanSizing.QuantityWithoutAccount | src/ai_stock/execution_plan_service.py:188-197 | without an account snapshot exactly risk, capital and the fixed ceiling bind |
| PlanSizing.HeldValueOfSymbol | src/ai_stock/execution_plan_service.py:206-206 | exactly the account's holdings of the symbol count against its limit |
| PlanSizing.CreatePlan | src/ai_stock/execution_plan_service.py:26-106 | a plan is created exactly when the first checks pass, something can be bought and the minimum order is met; the account checks after sizing never block it |
| EquityCurve.BuildAccountEquityPerformance | src/db/performance_repository.py:470-520 | the published series, return and drawdown are those of the curve, withheld once blocked |
| EquityCurve.BlockedIff | src/db/performance_repository.py:480-483 | the curve is blocked exactly from the first day without positive starting capital or with an unconfirmed flow on |
| EquityCurve.PublishedUnlessUnmeasurable | src/db/performance_repository.py:479-500 | index and drawdown are published exactly until the first unmeasurable day, and the return is the one on yesterday's equity plus today's flow |
| EquityCurve.IndexIsTimeWeighted | src/db/performance_repository.py:480-487 | while unblocked, index times all starting capitals is 100 times all ending equities |
| EquityCurve.IndexTelescopes | src/db/performance_repository.py:480-487 | without flows, index times first equity is 100 times last equity |
| EquityCurve.DrawdownIsWorstPair | src/db/performance_repository.py:487-488 | the one-pass drawdown is the minimum over all pairs of days of the percentage drop, within -100 and 0 |
| PeriodicReport.BuildPeriodicPerformance | src/dashboard/core.py:2401-2529 | the three tables hold exactly the keys that occur, each with the sum of its own trades' entries |
| PeriodicReport.TablesTallyTrades | src/dashboard/core.py:2407-2451 | every count and amount of a day, month or strategy is the sum over exactly the trades reported under it |
| PeriodicReport.SoldCostIsClose | src/dashboard/core.py:2480-2488 | the reported cost of the shares sold is within less than one per sell of what they had cost |
| PeriodicReport.GrandTotalsAgree | src/dashboard/core.py:2426-2456 | days, months and strategies have equal grand totals |
| PeriodicReport.MonthIsSumOfDays | src/dashboard/core.py:2426-2434 | every month is the sum of its days in every field |
| PeriodicReport.ReportedProfitIsClose | src/dashboard/core.py:2480-2529 | per symbol the truncated profit is within less than one per sell of the exact profit of the trade-list fold, whose holding it shares |
| PeriodicReport.TotalProfitIsClose | src/dashboard/core.py:2480-2529 | the grand total of the days is within less than one per sell of the exact profit of all trades, which is the trade-list fold's profit over all symbols |
| HoldingSweep.SweepPositions | src/dashboard/core.py:2212-2222 | one two-pointer sweep shows on every date the clamped fold of all trades before it |
| HoldingSweep.SweepAgreesWithTradeList | src/dashboard/core.py:2217-2222 | the sweep's quantity of a symbol on a date is the one the trade-list fold rebuilds from the trades before it |
| CandidateOrders.BuildCandidateOrders | src/dashboard/core.py:706-729 | the considered candidates are served in turn, so whoever can buy a share with the cash left has the next order, for all it can buy, and nobody else has one; the orders fit the cash and the free slots, get strictly cheaper, and leave nobody enough for one more share |
| CandidateOrders.ServedOneWay | src/dashboard/core.py:711-728 | there is only one list of orders that serves the candidates |
| CandidateOrders.NobodyCanBuyMore | src/dashboard/core.py:717-728 | in the end no considered candidate could buy one more share |
| CandidateOrders.LaterOrdersAreCheaper | src/dashboard/core.py:711-728 | every further order is for a strictly cheaper share |
| InquiryPages.FetchInquiryPages | src/broker/nhplug_adapter.py:106-124 | all pages exactly when an unbroken chain of fresh tokens ends within the limit, otherwise a failure without pages |
| InquiryPages.HonestBrokerIsReadCompletely | src/broker/nhplug_adapter.py:106-124 | against a broker that pages its data properly the inquiry returns all of it, or the page-limit failure when it is longer |

## Left out

- Ledger.LedgerStore.CreateStrategyPosition: quantities, profit and status always start at their defaults, because the only caller (src/strategy/autonomy/orchestrator.py:393-419) passes no quantities and the default status; a row inserted with other values is not modelled.
- Ledger.LedgerStore.CreateManagedOrder: likewise starts unfilled in the default status; `decision_id` and `order_type` are not part of this model.
- Ledger.LedgerStore.ReserveRiskBudget: the cash, risk and exposure sums are taken by the query functions of the step rather than by loops; non-finite numbers do not exist among reals.
- Exposure.ExposureAdmission: an order stored with a literal position number 0 counts as an order without position.
- LedgerTheorems.StopRequestNeverCreates: covers positions created with zero quantities only, for the reason given at CreateStrategyPosition.
- Ledger.LedgerStore.ListUnprotectedStrategyPositions: returns position numbers; the other columns are those of the position and stop rows.
- TradingSession.SellsAlwaysReach: a sell with a non-positive quantity reaches execution, where `execute_plan_row` drops it before the router (src/trader.py:285-292).
- Schedule.EachSlotAtMostOnce: assumes polls in time order, which the dispatcher's process lock provides, and a positive interval.
- HoldingSweep.SweepPositions: takes trades sorted by day and dates ascending, as the code's sorts leave them; the price lookups and percentage behind the sweep are not modelled.
- EquityCurve.DrawdownIsWorstPair: assumes non-negative equities, which recording a snapshot enforces (src/db/performance_repository.py:351-352); picking the last finalized snapshot and summing the flows of a day are not modelled.
- PlanSizing.CreatePlan: watch status, freshness, kill switch, duplicates, liquidity and market hours are one arbitrary gate.
- TradingSession.RunPlan: the router and the approval queue are arbitrary answers per row; action words are taken in lower case.
- StrategyBooks.TradeListAgreesWithBook: the trade list is the log of accepted fills in log order; the writing of the `trades` table is not part of this model.
- AverageCost.ReconstructStrategyPositions: the result is a map, so the order of the returned list is not captured.
- PeriodicReport.BuildPeriodicPerformance: the account-trade filter, detail rows, rates and market context are not modelled.
- CandidateOrders.BuildCandidateOrders: the exchange tick rule is an arbitrary price.
- Rounding of floating-point numbers and of displayed values: exact reals, with floor or truncation where the code has it.
- SQL text, JSON, connections, migrations and database differences: only the unique indexes remain, as abort conditions.
- Market names are taken as normalized.
- Timestamps, error texts, payloads, broker order numbers and the owner columns copied into stop rows: no invariant depends on them.
- Network clients, notifications, web routes, model training, scoring, gates and regime classification.
- The weekday list and the market calendar: one arbitrary gate per poll.
