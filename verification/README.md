# HunterFi factory and self-hedging strategy: a verified model

The project models two canisters of the HunterFi repository in Dafny and proves what holds over
every interleaving of their messages.

**The factory** keeps prepaid accounts. A request for a strategy debits the deployment fee, stores
a deployment record and spawns a task that creates a canister, installs code and initialises it.
Every one of those calls may fail, and a failure credits the fee back. An administrator may force
another execution of any stored deployment, a timer archives old records and refunds records that
are marked failed, and the canister may be upgraded at any time. The central results are that money
is conserved, that refunds equal handled executions, that the fee of a deployment that is not itself
forced goes back at most once and exactly if its record says `Refunded`, that its unfinished record has
exactly one task unless an upgrade met it, exactly when forcing makes a second refund possible, and that the owner index, the transaction cache, the transaction map
and the id counter agree with simple specifications.

**The self-hedging strategy** sells a hold token and buys it back, in one or in several orders. The
central results are that a cycle is neutral in the other token up to the unfilled orders of its
second stage (plus an excess in exactly one named case), that an amount is split exactly precisely
when it is large enough, that executions never overlap and lose no update, exactly when and for how
long status and execution timer come apart, and exactly when a stop can be overridden.

## How it is modelled

On the Internet Computer the code between two inter-canister calls runs atomically. Module `Factory`
(and `Strategy`) therefore describes one *segment* per function: the old memory and the answer that
arrived go in, the new memory and the next suspended task come out. `FactoryMachine` and
`StrategyMachine` let the segments interleave in any order, with arbitrary answers, a clock that
never runs backwards, and upgrades that drop all suspended tasks. A run is its list of events with
its states; a theorem about `r.states[k]` is a theorem about every yield point of every run.

The code of both canisters changes cells and maps in place. The classes `FactoryCanister.Canister`,
`StrategyCanister.Canister`, `StrategyTimerModule.TimerModule`, `CleanupTimerModule.TimerModule` and
`HedgeExecution.PoolAccount` have that form; each method is proved to take the memory from its old
value to the one the segment function of the same name gives, for all fields. The lemmas are then
about the segment functions; of the methods only those with loops or a proof of their own have a row
below. An `async fn` that calls no other canister does not suspend and belongs to its caller's
segment.

What happened outside canister memory is recorded in `History`, for specification only: what the
ledger confirmed (`paidIn`, `paidOut`), grants (`adjusted`), fees whose record was never stored
(`orphaned`), withdrawals paid but not debited (`undebited`), the ids of all stored deployments, the
archived records, and how many executions of each were begun (`started`) and entered the failure
handler (`handled`). The transaction log `Books.log` lists every stored transaction.

Integers have their source width. The canisters are built in release mode without overflow checks,
so additions that the source does not saturate wrap. `YieldPoint` of the factory asks for no more
than 2^64 issued deployment ids; nothing else about a run is restricted.

## What the code does not do

Each of these is a lemma with the exact condition, or part of one.

- A withdrawal is checked before its ledger call and debited after it: it is debited exactly if the
  balance still covers it then (`WithdrawalDebited`), so concurrent withdrawals are paid without a
  debit (`DoubleWithdrawal`). Conservation carries these amounts as `undebited`.
- A fee is debited before the configuration is serialized. If that fails, no record exists and
  nothing is refunded; conservation carries these fees as `orphaned`.
- An upgrade drops the task of every unfinished deployment (`UpgradeAttends`). A paid deployment that
  was not forced is without a task exactly if an upgrade met it unfinished (`StrandedByUpgrade`), and
  until it is forced it stays so, neither delivered nor refunded (`StrandedForGood`).
- A forced execution does not look at the status. It makes a second refund possible exactly if there was
  a refund or a suspended execution before (`ForceAllowsSecondRefund`); for a deployment never forced,
  exactly if the record says `Refunded`, or is unfinished and was met by no upgrade
  (`ForceIsSafeExactly`). The number of refunds a deployment can reach without being forced again is
  exactly what it had plus its suspended executions (`MostRefunds`).
- The sweep of failed records credits without changing the status, so it would pay again every time
  (`SweepPaysAgain`). It never does, because no record is failed at a yield point
  (`SweepCreditsNothing`). The refund of the spawned task's error arm never happens
  (`ErrorArmOnEveryRun`), and for a deployment that is not forced the arm is not even reached
  (`ErrorArmUnreached`).
- A transaction id is built from time, caller and canister. Two transactions share one exactly if they
  were posted at the same time under the same caller (`SharedIds`), and the transaction map keeps one
  exactly if the last of them equals it (`KeptInMap`). Fee and refund of a request that fails at once
  are such a pair (`FeeEntryOverwritten`).
- After an upgrade the transaction cache is empty: the code that refills it reads the cache itself.
  The history query answers from the cache, and of more than a hundred records it returns the oldest
  hundred (`HistoryQuery`).
- `balance + total_consumed == total_deposited` survives every debit, and a credit exactly if nothing
  was consumed yet or the total of deposits stays below its ceiling (`UpdateKeepsTotals`).
  `TotalsOnEveryRun` says when it holds at a yield point, `TotalsCanDisagree` is a run where it fails.
- A withdrawal by an administrator with a configured limit of 3 attempts makes at most 2 calls
  (`WithdrawFunds`).
- `split_amount` allocates more than the total, and clamps a subtraction, exactly if the total is below
  the order count less one (`SplitIsExact`, `ClampsExactly`); with a drawn order count that costs a
  cycle at most eight units (`DrawnCountExcess`). An unsplit first stage sells the sum of the split, so it inherits the excess
  (`FirstStageSells`, `StageOneWithinBalance`).
- `update_config` accepts a hold token outside the pair; then the quote token is sold
  (`TradingPlan`).
- A `stop` or `pause` can be overridden without a new `start` exactly if a `start` waits for an answer
  at that moment (`StopHolds`).
- An upgrade does not restart the execution timer, and initialising a canister that an anonymous caller
  has started leaves a timer behind. `ApartExactly` says for every run when status and timer are apart.
- A trading pair of one token with itself is not rejected; no cycle that sells anything is neutral then
  (`HedgeNeutrality`, `OneTokenPair`).
- `time_until_next_execution` says zero during the last second before an execution is due
  (`ZeroWait`).

The repository's README promises refunds of deployments older than 24 hours, retries of failed
installations, creations and refunds, and tasks every five minutes. The code has none of these: its
only timer is the cleanup timer, which runs once a day after `reset_system_timers` was called. The
model follows the code.

## Model

| member | source | states |
|---|---|---|
| FactoryConservation.Conservation | src/factory/src/deployment_manager.rs:114-329 | for every user and every run, forced executions, archiving and upgrades included: balance, paid withdrawals and all fees charged equal confirmed deposits, grants, refunds and undebited withdrawals, up to what saturation clipped |
| FactoryConservation.NothingClipped | src/factory/src/state.rs:599-621 | the clipped amount is zero while a user's lifetime credits fit 64 bits |
| FactoryConservation.RefundsAreHandledExecutions | src/factory/src/deployment_manager.rs:184-329 | refunds credited for a deployment equal its executions that reached the failure handler with the record stored, and with the suspended ones never exceed the executions begun |
| FactoryConservation.SweepCreditsNothing | src/factory/src/timer.rs:265-288 | at every yield point no record is failed, all fees are positive, and a cleanup credits nobody and only removes completed records |
| FactoryConservation.CleanupArchives | src/factory/src/timer.rs:215-234 | at every yield point a cleanup that archives removes the oldest completed records, as many as exceed ten thousand or are older than ninety days, one that does not removes none, and nothing else changes |
| FactoryConservation.ErrorArmNeverRefunds | src/factory/src/deployment_manager.rs:156-173 | every segment of an execution, the first included, ends in an error exactly if the record is gone, and then changes nothing: the refund of the error arm never happens |
| FactoryConservation.IdsNeverRepeat | src/factory/src/state.rs:173-183 | over a run with upgrades and archived records all deployment ids are different, and the next one collides with no record, live or archived |
| FactoryConservation.OnlySelfHedgingIsCharged | src/factory/src/deployment_manager.rs:120-138 | an invalid request or another strategy type changes nothing |
| FactoryAnswers.RequestAnswers | src/factory/src/deployment_manager.rs:114-181 | the answer is the id exactly if the request is valid, self-hedging, covered by a positive fee and encodes; that id is then the one new record, of the caller, with the charged fee, and its task waits or the fee is back; every error is named by its cause, charges nothing and stores nothing, except that a request that does not encode is charged |
| FactoryAnswers.ExecutionAnswers | src/factory/src/deployment_manager.rs:184-301 | what each segment of an execution answers to its caller, with the cause of every failure and the cycles it takes |
| FactoryAnswers.EveryAnswerIsTrue | src/factory/src/deployment_manager.rs:184-329 | a segment answers success exactly with a record deployed and indexed, failure with one refunded, error without a record and without a change |
| FactoryAnswers.DeploymentSucceeds | src/factory/src/deployment_manager.rs:184-301 | a task whose calls succeed deploys its record and enters the strategy in the table for its owner, without moving money |
| FactoryAnswers.ErrorArmRefunds | src/factory/src/deployment_manager.rs:156-173 | the error arm itself would refund a stored record, for a spawned task only |
| FactoryAnswers.DepositBegins | src/factory/src/payment.rs:141-173 | which deposits reach the ledger, with both limits, and why others do not |
| FactoryAnswers.WithdrawalBegins | src/factory/src/payment.rs:244-297 | which withdrawals reach the ledger, with every limit, and why others do not |
| FactoryAnswers.LedgerAnswers | src/factory/src/payment.rs:173-316 | a confirmed deposit or covered withdrawal is one posting; every error is named by its cause |
| FactoryAnswers.RefundIsOnePosting | src/factory/src/payment.rs:220-241 | a refund of nothing is refused; any other is one posting and marks its record, and no other, as refunded |
| FactoryAnswers.FeeIsTheOneSet | src/factory/src/state.rs:297-301 | the fee is one ICP at first and then the one set last; no other event changes it |
| FactoryAnswers.SweepCounts | src/factory/src/timer.rs:265-288 | a sweep reports the number of failed records it paid |
| FactoryAnswers.SweepIsOnePosting | src/factory/src/state.rs:659-680 | each of its payments is one posting, and none for a fee of zero |
| FactoryAnswers.StoredLast | src/factory/src/state.rs:256-269 | a stored strategy comes last in its owner's answer, and nobody else's answer changes |
| FactoryForced.ForceAllowsSecondRefund | src/factory/src/api.rs:260-264 | for any cycles and administrator, a forced execution of a stored deployment can be followed by a second refund, without another force, exactly if it had a refund or a suspended execution before |
| FactoryForced.ForceIsSafeExactly | src/factory/src/api.rs:260-264 | on every run, for a deployment not forced before, that is exactly if its record is Refunded, or unfinished and met by no upgrade |
| FactoryForced.MostRefunds | src/factory/src/deployment_manager.rs:184-329 | the number of refunds a stored deployment can reach without being forced is exactly the number it had plus its suspended executions |
| FactoryForced.RefundsBounded | src/factory/src/deployment_manager.rs:184-329 | over any run in which a known deployment is not forced its refunds stay within that number |
| FactoryForced.PotentialAfterStep | src/factory/src/deployment_manager.rs:184-329 | a forced execution raises that number by exactly one, no other event raises it |
| FactoryConservation.ForcedRefund | src/factory/src/api.rs:260-264 | with too few cycles a forced execution refunds any stored deployment at once, whatever its status, and does nothing without a record; the general case is ForceAllowsSecondRefund |
| FactoryConservation.ErrorArmOnEveryRun | src/factory/src/deployment_manager.rs:156-173 | the same at every yield point for every suspended execution and every answer |
| FactorySimulation.ErrorArmUnreached | src/factory/src/deployment_manager.rs:156-173 | no answer to the task of a deployment that was not forced ends it in an error |
| FactoryView.MoveOfStep | src/factory/src/deployment_manager.rs:114-329 | every event moves every single deployment in one of eleven ways, loses its tasks only by an upgrade and adds an execution by force only if it names it |
| FactoryConservation.WithdrawalDebited | src/factory/src/payment.rs:297-316 | a confirmed withdrawal is debited exactly if the balance covers it when the answer arrives; otherwise memory is unchanged and the amount is undebited |
| FactoryConservation.DoubleWithdrawal | src/factory/src/payment.rs:244-317 | two withdrawals checked against one balance are both paid and only one is debited, whenever the balance does not cover both |
| FactoryTrace.SharedIds | src/factory/src/state.rs:510-518 | on every run two stored transactions share an id exactly if they were posted at the same time under the same caller |
| FactoryTrace.KeptInMap | src/factory/src/state.rs:541-544 | on every run the map still holds a transaction exactly if the last one of the same time and caller equals it |
| FactoryTrace.TransactionIdInjective | src/factory/src/state.rs:510-518 | within one canister an id determines time and caller |
| FactoryTrace.TransactionIdReads | src/factory/src/state.rs:510-518 | an id reads time, caller and canister, in this order |
| FactoryTrace.RefundsPayFees | src/factory/src/payment.rs:220-241 | on every run, forced executions included, each refund entry pays the fee of the deployment it names to its owner |
| FactoryTrace.GrowsAfterStep | src/factory/src/deployment_manager.rs:114-329 | every event only appends to the log, under its own time and caller, and forgets no deployment, owner or fee |
| FactoryConservation.FeeEntryOverwritten | src/factory/src/state.rs:510-518 | the collision inside one segment: a request failing before its first call logs fee and refund under one id, and the map keeps the refund alone |
| FactoryConservation.TotalsOnEveryRun | src/factory/src/state.rs:599-621 | at every yield point balance and totals agree exactly if the balance was clipped by as much as the total of deposits, or debits are full and the balance is zero |
| FactoryConservation.TotalsCanDisagree | src/factory/src/state.rs:599-621 | a run of grants and one withdrawal after which they disagree although nothing was clipped |
| FactoryConservation.LedgerOnEveryRun | src/factory/src/state.rs:541-621 | at every yield point accounts are the replay of the log, debits were covered, the map holds the last record of each id, the cache the newest thousand since the last upgrade |
| FactoryConservation.InvOnEveryRun | src/factory/src/deployment_manager.rs:114-329 | the factory invariant holds at every yield point of every run |
| FactoryInvariant.InvAfterStep | src/factory/src/deployment_manager.rs:114-329 | every possible event keeps the factory invariant |
| FactoryInvariant.InvAfterRequest | src/factory/src/deployment_manager.rs:114-181 | a request, accepted or not, keeps the invariant |
| FactoryInvariant.InvAfterRefund | src/factory/src/deployment_manager.rs:304-329 | a refund of a running execution keeps books, records, sums and counts in agreement |
| FactoryInvariant.InvAfterForce | src/factory/src/api.rs:260-264 | so does a forced execution |
| FactoryInvariant.InvAfterCleanup | src/factory/src/timer.rs:215-234 | so does a cleanup |
| FactoryInvariant.InvAfterUpgrade | src/factory/src/state.rs:629-657 | so does an upgrade that drops all suspended tasks |
| FactoryInvariant.InvAfterCreateAnswered | src/factory/src/deployment_manager.rs:192-234 | so does any answer to canister creation |
| FactoryInvariant.InvAfterInstallAnswered | src/factory/src/deployment_manager.rs:237-265 | so does any answer to code installation |
| FactoryInvariant.InvAfterInitAnswered | src/factory/src/deployment_manager.rs:254-301 | so does any answer to initialisation |
| FactoryInvariant.InvAfterEndWithdrawal | src/factory/src/payment.rs:297-316 | so does any answer to a withdrawal, debited or not |
| FactoryInvariant.NewIdIsFresh | src/factory/src/state.rs:173-183 | a generated id differs from all ids issued before while the counter has not wrapped |
| FactoryInvariant.RefundedFeesBump | src/factory/src/deployment_manager.rs:317-325 | one handled execution more gives its owner exactly one fee more, and nobody else anything |
| FactorySegments.FailRefundsOnce | src/factory/src/deployment_manager.rs:304-329 | the failure handler refunds once and leaves the record refunded; what it returns makes the spawned task refund nothing |
| FactorySegments.FailWithoutRecord | src/factory/src/deployment_manager.rs:310-315 | without a record the handler reports an error and changes nothing |
| FactorySegments.AdvanceThenFail | src/factory/src/deployment_manager.rs:246-284 | a status written earlier in a failing segment leaves no trace |
| FactorySegments.RequestCases | src/factory/src/deployment_manager.rs:114-181 | the state after a request: nothing changes unless it is valid, self-hedging and covered; then it is charged and stored, and refunded at once or suspended on canister creation; its answer is the subject of RequestAnswers |
| FactorySegments.ForceCases | src/factory/src/deployment_manager.rs:184-212 | the three outcomes of a forced execution |
| FactorySegments.CreateAnsweredCases | src/factory/src/deployment_manager.rs:192-234 | the record advances, the fee goes back, or the record is gone and nothing is stored |
| FactorySegments.InstallAnsweredCases | src/factory/src/deployment_manager.rs:237-265 | the same three outcomes for code installation and the decoding that follows it |
| FactorySegments.InitAnsweredCases | src/factory/src/deployment_manager.rs:254-301 | the same for initialisation, where success also indexes the strategy |
| FactorySegments.EndDepositCases | src/factory/src/payment.rs:173-191 | a confirmed deposit is one posting, a failed one nothing |
| FactorySegments.EndWithdrawalCases | src/factory/src/payment.rs:297-316 | a confirmed withdrawal is one posting if covered; a failed or uncovered one leaves memory alone |
| FactorySegments.CleanupCases | src/factory/src/timer.rs:215-234 | with no failed record a cleanup removes exactly the records archiving asks for, with the limits written out, and posts nothing |
| FactorySegments.SweepCreditsEachFailed | src/factory/src/timer.rs:265-288 | one sweep credits each failed deployment with a positive fee exactly once and no other |
| FactorySegments.SweepPaysAgain | src/factory/src/state.rs:659-680 | the sweep leaves records as they are, so two sweeps would pay a failed one twice |
| FactorySimulation.ExactlyOnceRefund | src/factory/src/deployment_manager.rs:304-329 | whatever else is forced, the fee of a deployment that is not forced is credited back, in full and to the owner, at most once, and exactly once if and only if the record, live or archived, is Refunded |
| FactorySimulation.MessageTellsRefund | src/factory/src/payment.rs:232-238 | the record of a deployment that is not forced carries the refund message exactly if its fee went back, and no other |
| FactorySimulation.ChangesAreStamped | src/factory/src/state.rs:230-253 | every event that changes a stored record, forced ones included, stamps it with its time and leaves id, owner, fee, type and request time |
| FactoryStranded.RecordsFollowTasks | src/factory/src/deployment_manager.rs:184-301 | whatever else is forced, upgrades included: every task of a deployment that is not forced finds the status and canister its program counter implies; a completed record has no task, an unfinished one exactly one, or none exactly if an upgrade met it unfinished |
| FactoryStranded.StrandedByUpgrade | src/factory/src/deployment_manager.rs:156-173 | an unfinished record that was not forced is without a task exactly if it was stored and unfinished at some earlier upgrade |
| FactoryStranded.UpgradeAttends | src/factory/src/state.rs:629-657 | after an upgrade every unfinished record has a task exactly if there is none |
| FactoryStranded.StrandedStays | src/factory/src/deployment_manager.rs:184-329 | a stranded deployment keeps its record and counts and gets no task in any event but a forced execution of it |
| FactoryStranded.StrandedForGood | src/factory/src/deployment_manager.rs:184-329 | over any run in which it is not forced a stranded deployment stays as it is, and no refund is added |
| FactorySimulation.StatusesMoveForward | src/factory/src/deployment_manager.rs:184-301 | each step moves the status of a deployment that is not forced only along payment, creation, installation, deployed, or to refunded; completed records and set canister ids never change; archived records were completed and stay |
| FactorySimulation.SimAfterStep | src/factory/src/deployment_manager.rs:184-329 | every event but a forced execution of it keeps the simulation of a deployment, and every event but an upgrade leaves it its task |
| FactorySimulation.AtMostOneTask | src/factory/src/deployment_manager.rs:156-173 | at every yield point two suspended executions of a deployment that is not forced are the same |
| FactorySimulation.ConservationByStatus | src/factory/src/deployment_manager.rs:114-329 | for a user none of whose deployments was forced: balance, paid withdrawals and fees of deployments not refunded equal deposits and grants, up to clipped, orphaned and undebited amounts |
| FactorySimulation.OpenFeesAreTheRest | src/factory/src/deployment_manager.rs:304-329 | charged fees split into those refunded and those of deployments not marked Refunded |
| FactoryIndex.IndexRefinesScan | src/factory/src/api.rs:139-156 | on every run with fresh canister ids, forced executions included, the indexed query lists exactly the owner's strategies of the table, each once, and every deployed record is in the table |
| FactoryIndex.QueryIsScan | src/factory/src/api.rs:139-156 | an index without duplicates that lists every strategy under its owner answers like a scan |
| FactoryIndex.IndexAfterStep | src/factory/src/deployment_manager.rs:275-297 | every event keeps index, table, suspended canisters and deployed records in agreement |
| FactoryIndex.IndexAfterStore | src/factory/src/state.rs:256-269 | storing the metadata of a new canister keeps the lists free of duplicates and equal to the table |
| Ledger.PostKeepsBooks | src/factory/src/state.rs:541-621 | a posting of any kind and amount keeps accounts, map and cache in step with the log |
| Ledger.LedgerReplay | src/factory/src/state.rs:599-621 | balance is credits less debits, and balance plus consumed is deposited, while lifetime credits fit 64 bits |
| Ledger.ReplayAccounting | src/factory/src/state.rs:599-621 | without that bound: the exact balance with the clipped amount, and both totals saturated |
| Ledger.TotalsAgreeExactly | src/factory/src/state.rs:599-621 | the exact condition for balance and totals of any funded log to agree |
| Ledger.UpdateKeepsTotals | src/factory/src/state.rs:599-621 | a debit keeps the agreement, a credit exactly if nothing was consumed or the total of deposits does not reach its ceiling |
| Ledger.FoundInMap | src/factory/src/state.rs:541-544 | a stored record is found under its id exactly if the last record with that id equals it |
| Ledger.HistoryQuery | src/factory/src/api.rs:325-337 | the query returns the first hundred of the caller's records among the newest thousand since the last upgrade, and all of them exactly if there are no more than a hundred |
| Ids.DeploymentIdInjective | src/factory/src/state.rs:173-183 | two ids are equal exactly if time, caller and counter are, whatever dashes the caller's text has |
| Ids.DeploymentIdReads | src/factory/src/state.rs:173-183 | an id reads time, caller and counter, in this order |
| Ids.DecimalRoundTrip | src/factory/src/state.rs:173-183 | numbers are written in decimal digits that denote them, without leading zeros |
| Deployments.ArchiveCorrect | src/factory/src/state.rs:335-386 | archiving removes completed records only, the oldest ones and among equally old ones the first in iteration order, exactly as many as the limit of ten thousand and the ninety days require, returns their number and leaves none too many or too old |
| Deployments.ArchiveTwice | src/factory/src/state.rs:335-386 | a second run at the same time, in any iteration order, removes nothing |
| Deployments.ToArchiveContent | src/factory/src/state.rs:339-370 | the selected ids are a prefix of the completed ids sorted by time |
| Deployments.SortByTimeContent | src/factory/src/state.rs:348-350 | the sort is sorted and a permutation |
| Deployments.SortByTimeStable | src/factory/src/state.rs:348-350 | the sort keeps the order of records of equal time |
| Deployments.RemoveAllContent | src/factory/src/state.rs:372-382 | removing the selected keys one by one removes that set and counts it |
| Factory.UpgradeRoundTrip | src/factory/src/state.rs:432-507 | saving, clearing the heap and restoring changes nothing but the transaction cache |
| FactoryCanister.Canister.ArchiveOldDeploymentRecords | src/factory/src/state.rs:335-386 | the loops over completed, selected and removed records compute what ArchiveCorrect is about |
| FactoryCanister.Canister.ProcessFailedDeployments | src/factory/src/timer.rs:265-288 | the loop credits the failed records in iteration order and counts the successes |
| Withdrawal.WithdrawFunds | src/factory/src/payment.rs:320-401 | for any limit: calls are made exactly while answers are transient rejections, at most one less than the limit (one for 1, none for 0, two for the configured 3), never after a success; the outcome is the last answer; every refusal without a call is named by its cause and limit |
| Withdrawal.CallsAreDetermined | src/factory/src/payment.rs:361-400 | the contract of the loop fixes the number of calls |
| CleanupTimer.OneCleanupChain | src/factory/src/timer.rs:191-262 | over any firings, resets and upgrades at most one cleanup timer is pending, it is the stored one, and there is one exactly if timers were reset since the last upgrade |
| CleanupTimer.ScheduleAloneForks | src/factory/src/timer.rs:237-244 | scheduling without cancelling would leave two chains |
| StrategyTimer.SetKeepsRegistry | src/strategy_common/src/timer.rs:35-64 | setting a timer replaces the one of its name by a new one that counts from now, keeps all others with their times and keeps the registry equal to the live timers |
| StrategyTimer.ClearKeepsRegistry | src/strategy_common/src/timer.rs:26-32 | so does clearing |
| StrategyTimer.RateLimit | src/strategy_common/src/timer.rs:67-81 | n successful triggers of a name span at least n - 1 intervals, whatever sets, clears or touches timers in between |
| StrategyTimer.TriggerSucceedsExactly | src/strategy_common/src/timer.rs:67-81 | a trigger succeeds exactly if the interval has passed since the last execution, zero if there is none, and then writes its time and nothing else |
| StrategyTimer.LastTimeFollows | src/strategy_common/src/timer.rs:67-89 | successes are an interval apart and never later than the last execution time |
| StrategyTimer.AnnouncedWait | src/strategy_common/src/timer.rs:92-104 | with the last execution untouched nothing is due before the announced wait is over, and everything a second later |
| StrategyTimer.NoTriggerDuringWait | src/strategy_common/src/timer.rs:67-104 | no trigger succeeds during the announced wait, whatever is triggered, touched, set or cleared in it |
| StrategyTimer.ZeroWait | src/strategy_common/src/timer.rs:92-104 | zero is announced exactly if less than a second is left |
| Split.SplitIsExact | src/strategies/self_hedging/src/lib.rs:688-739 | for every amount, count and seed: count parts summing to the larger of amount and count - 1, exact if and only if the amount is at least count - 1, and parts within their bounds if it is at least count |
| Split.PartIs | src/strategies/self_hedging/src/lib.rs:688-739 | every part of a split of at least one unit each: the minimum and the hundredths of what can be spared that seed and order number determine, the last one the rest; products modulo 2^128 |
| Split.MinAmountIs | src/strategies/self_hedging/src/lib.rs:698-701 | the minimum is a tenth of the average, but at least one |
| Split.EveryFactorOccurs | src/strategies/self_hedging/src/lib.rs:717-720 | for each of the first ten orders every factor from 0 to 100 comes from some seed |
| Split.SplitOfNothing | src/strategies/self_hedging/src/lib.rs:689-691 | nothing, or one order, is not split |
| Split.SplitOfLittle | src/strategies/self_hedging/src/lib.rs:703-731 | less than one unit per order gives one unit to every order but the last |
| Split.ClampsExactly | src/strategies/self_hedging/src/lib.rs:707-731 | no subtraction saturates on the way through the orders exactly if the amount is at least the order count less one |
| Split.OrdersExact | src/strategies/self_hedging/src/lib.rs:703-731 | for any random factors the remaining orders partition the remaining amount with every part between the minimum and the most |
| Split.OrdersShort | src/strategies/self_hedging/src/lib.rs:703-731 | with too little left every order but the last is one unit |
| Split.MinAmountFits | src/strategies/self_hedging/src/lib.rs:698-701 | the minimum is affordable for every order even if its product wraps, and a tenth of the average if it does not |
| Split.RandomPart | src/strategies/self_hedging/src/lib.rs:717-724 | the random part is that many hundredths of its range, rounded down, and stays within it even where the product wraps |
| Split.SplitAmountLoop | src/strategies/self_hedging/src/lib.rs:688-739 | the loop computes the split that SplitIsExact is about |
| Split.DrawOrder | src/strategies/self_hedging/src/lib.rs:708-728 | one pass of the loop draws the next order |
| Hedge.HedgeNeutrality | src/strategies/self_hedging/src/lib.rs:742-975 | a successful cycle changes the other token by the unfilled second-stage orders less the excess of an inexact split, and the hold token by what was bought less what was sold, exactly if the tokens differ and the proceeds fit 128 bits, or nothing was sold; its volume is the filled inputs of both stages |
| Hedge.SucceedsExactly | src/strategies/self_hedging/src/lib.rs:742-975 | a cycle succeeds exactly if every order of stage one that is not zero was filled, and its outputs add up to nothing, or stage two is split, or its single order was filled |
| Hedge.StageTwoIsExecuted | src/strategies/self_hedging/src/lib.rs:866-963 | with stage one filled and proceeds to spend, all orders of stage two are executed, whatever is then reported |
| Hedge.SplittingTable | src/strategies/self_hedging/src/lib.rs:762-771 | which stage is split, by split type, hold token and direction |
| Hedge.FailedCycleKeepsProceeds | src/strategies/self_hedging/src/lib.rs:742-975 | a cycle that reports an error moved what its first stage moved and nothing else; its proceeds are in the other token exactly if the tokens differ or nothing moved |
| Hedge.DrawnCountExcess | src/strategies/self_hedging/src/lib.rs:681-685 | with a drawn order count the excess is at most eight units, and none once the proceeds are nine |
| Hedge.OneTokenPair | src/strategies/self_hedging/src/lib.rs:742-975 | for a pair of one token with itself every cycle, successful or not, moves its filled inputs out of the second position and its outputs into the first |
| Hedge.TradeMovesItsTokens | src/exchange/src/icpswap.rs:1029-1072 | for any pair and either order of ids a swap debits the token sold and credits the token bought, as the balance check reports them, exactly if the tokens differ or nothing moves |
| Hedge.ExecuteMoves | src/strategies/self_hedging/src/lib.rs:778-831 | for any pair a list of orders moves its filled inputs and outputs, token by token, exactly if the tokens differ or nothing moves |
| Hedge.ExecuteMovesPositions | src/strategies/self_hedging/src/lib.rs:778-831 | the same by pool position, without condition |
| Hedge.FilledOrNot | src/strategies/self_hedging/src/lib.rs:884-943 | filled and unfilled orders add up to the split |
| Hedge.LexTotal | src/exchange/src/icpswap.rs:199-202 | exactly one direction of a pair of different tokens is zero-for-one |
| Hedge.LexMeans | src/exchange/src/icpswap.rs:199-202 | the order of token ids is the lexicographic one |
| Hedge.FirstStageSells | src/strategies/self_hedging/src/lib.rs:832-834 | stage one sells the planned amount exactly if it is at least the order count less one, split or not |
| Hedge.OneUnitOverdraws | src/strategies/self_hedging/src/lib.rs:832-834 | one unit with ten orders sells nine |
| Hedge.SplitOrderCount | src/strategies/self_hedging/src/lib.rs:681-685 | three to ten orders, one more with each nanosecond and then anew |
| HedgeExecution.PoolAccount.ExecuteSplit | src/strategies/self_hedging/src/lib.rs:781-812 | the orders that are not zero are executed and their results keep their order |
| HedgeExecution.PoolAccount.SellHold | src/strategies/self_hedging/src/lib.rs:752-857 | stage one fails if any order fails, else yields volume and proceeds |
| HedgeExecution.PoolAccount.BuyBackSplit | src/strategies/self_hedging/src/lib.rs:884-943 | stage two passes over failed orders |
| HedgeExecution.PoolAccount.ExecuteHedgeTrades | src/strategies/self_hedging/src/lib.rs:742-975 | the two stages in place are the cycle HedgeNeutrality is about |
| HedgeExecution.AddFilled | src/strategies/self_hedging/src/lib.rs:923-943 | the loop over the results adds the filled inputs, saturating |
| HedgeExecution.FillingsTotals | src/strategies/self_hedging/src/lib.rs:809-831 | what the collected results add up to, order by order |
| Strategy.TradingPlan | src/strategies/self_hedging/src/lib.rs:472-536 | a cycle trades a positive amount within transaction size and balance, at least a twentieth of the size, and sells the hold token exactly if that is one of the pair |
| StrategyAnswers.BeginsExactly | src/strategies/self_hedging/src/lib.rs:404-456 | an execution begins, with the cell as it is, exactly if the strategy is Running, nobody is executing and the last completion is at least five seconds ago; otherwise nothing changes |
| StrategyAnswers.ExecuteBegins | src/strategies/self_hedging/src/lib.rs:404-456 | on every run a strategy in that state begins one execution when anybody calls it or its timer fires |
| StrategyAnswers.DeadTimerIsSilent | src/strategy_common/src/timer.rs:26-32 | a timer that is not live begins nothing |
| StrategyAnswers.BalanceDecides | src/strategies/self_hedging/src/lib.rs:457-550 | the whole effect of the first balance check: the balances recorded, and pause, end or a trade of the smaller of balance and size that sells the hold token |
| StrategyAnswers.CycleCompletes | src/strategies/self_hedging/src/lib.rs:457-565 | an execution that is answered well is counted with its volume and time, records its closing balances and frees the flag |
| StrategyAnswers.PauseAnswers | src/strategies/self_hedging/src/lib.rs:349-374 | who can pause, from which status, and that only timer and status change |
| StrategyAnswers.StopAnswers | src/strategies/self_hedging/src/lib.rs:378-400 | who can stop, and that only timer and status change |
| StrategyAnswers.StartBegins | src/strategies/self_hedging/src/lib.rs:231-245 | who can start, and from which statuses; such a start can reach Running |
| StrategyAnswers.StartGoesOn | src/strategies/self_hedging/src/lib.rs:254-285 | a start goes on once its pool is found, and after its balance check exactly if there is any balance |
| StrategyAnswers.QueryRecords | src/strategies/self_hedging/src/lib.rs:568-611 | a balance check records both balances in their places and its time, and nothing else |
| StrategyAnswers.InstalledIsEmpty | src/strategies/self_hedging/src/lib.rs:58-102 | a fresh canister belongs to nobody, is not executing and has no timers |
| StrategyAnswers.InitAnswers | src/strategies/self_hedging/src/lib.rs:157-227 | which initialisations are accepted, and the whole new cell |
| StrategyAnswers.ConfigureAnswers | src/strategies/self_hedging/src/lib.rs:1032-1151 | which configurations are accepted, what they set, and that the pair and all else stay |
| StrategyAnswers.UpgradeKeepsCell | src/strategies/self_hedging/src/lib.rs:1020-1029 | an upgrade keeps the cell and loses flag, timers and suspended calls |
| Strategy.StageOneWithinBalance | src/strategies/self_hedging/src/lib.rs:510-545 | the orders planned stay within the reported balance exactly if it is at least the order count less one |
| Strategy.BalancesAreAssigned | src/strategies/self_hedging/src/lib.rs:568-597 | base and quote balance are those of the tokens with these ids at the pool, for the quote token exactly if the tokens differ or the balances are equal |
| StrategyMachine.OneExecutionAtATime | src/strategies/self_hedging/src/lib.rs:404-565 | the flag is set exactly while one execution is past acquisition, there is never a second, and both counters equal number and volume of completed cycles, modulo their width |
| StrategyMachine.SingleAfterStep | src/strategies/self_hedging/src/lib.rs:404-565 | every event keeps that, upgrades and balance writes in between included |
| StrategyMachine.CompletionsAreSpaced | src/strategies/self_hedging/src/lib.rs:448-455 | consecutive completions are at least five seconds apart |
| StrategyMachine.RejectedCallChangesNothing | src/strategies/self_hedging/src/lib.rs:408-441 | a rejected call changes nothing and does not release the flag |
| StrategyMachine.TimerFollowsStatus | src/strategies/self_hedging/src/lib.rs:231-400 | on every run in which no upgrade and no accepted initialisation met a running strategy the status is Running exactly if one timer is live, never more than one is, and the registry lists exactly the live ones |
| StrategyMachine.AgreementAfterStep | src/strategies/self_hedging/src/lib.rs:231-400 | an event keeps the agreement exactly if it is not an upgrade or accepted initialisation that meets a running strategy |
| StrategyMachine.AgreementMeansOneTimer | src/strategy_common/src/timer.rs:26-64 | what the agreement says about the number of live timers |
| StrategyMachine.InitKeepsAgreement | src/strategies/self_hedging/src/lib.rs:157-227 | an initialisation keeps the agreement exactly if it is rejected or the strategy is not running |
| StrategyMachine.UpgradeKeepsAgreement | src/strategies/self_hedging/src/lib.rs:1020-1029 | an upgrade keeps it exactly if the strategy is not running |
| StrategyRuns.ApartExactly | src/strategies/self_hedging/src/lib.rs:231-400 | on every run Running lacks a timer exactly from an upgrade that met it until the next pause, stop, pause of an execution or initialisation, and a timer outlives Running exactly from an initialisation that met it until the next stop, finished start or upgrade |
| StrategyRuns.AgreementExactly | src/strategies/self_hedging/src/lib.rs:231-400 | on every run status and timer agree exactly if neither is the case; there is never a second timer, and the registry lists the live ones |
| StrategyRuns.StatusAndTimer | src/strategies/self_hedging/src/lib.rs:231-400 | the whole effect of every event on status and timer |
| StrategyRuns.RestartNeedsStart | src/strategies/self_hedging/src/lib.rs:231-345 | a strategy that is not running can reach Running without a new start exactly if a start waits for an answer |
| StrategyRuns.StopHolds | src/strategies/self_hedging/src/lib.rs:349-400 | a stop, or a pause, can be overridden without a new start exactly if a start waits for an answer when it is issued |
| StrategyRuns.StoppedUntilStarted | src/strategies/self_hedging/src/lib.rs:378-400 | on every run a stop that met no start holds until the next start: not running, no timer, and Terminated if owned |
| StrategyRuns.StopLetsOneCycleEnd | src/strategies/self_hedging/src/lib.rs:378-400 | on every run a stop that met no start lets at most one more cycle complete before the next start, and none if no execution was in flight |
| StrategyRuns.StopOverriddenByStart | src/strategies/self_hedging/src/lib.rs:305-345 | the shortest override: a start waiting for its approval |

## Left out

- The ledger, the swap pool and the management canister themselves: their answers are arbitrary, and nothing is said about on-ledger balances, transfer fees or the decoding of replies. A swap either fails without effect or moves both tokens; a swap that succeeds with a result too large for the caller's integers is not considered.
- Orders of one stage run concurrently at the pool; the model executes them in index order, since their effects on the balances add up.
- The strategy machine does not carry pool balances: a cycle's volume is an arbitrary value there, and the cycle itself is the subject of module `Hedge`.
- Byte encodings of keys and values, `stable_save` and the layout of stable memory: an upgrade is save, fresh heap, restore.
- Segments that trap are no steps, and stable writes succeed.
- Floating point: slippage, prices and the memory estimate. Whether to archive is an arbitrary boolean, and so is whether the slippage of a configuration is acceptable.
- Serialized configurations, token metadata and exchanges: whether a configuration is valid, can be encoded and can be decoded again are inputs.
- Permission checks of administrators, the set of administrators and get-only endpoints; the two queries modelled answer for the owner and for the caller.
- Error texts are datatype values, and descriptions of transactions are structured values instead of formatted text.
- The iteration order of the stable map is a parameter, any enumeration of its keys; the library's stable sort is an insertion sort.
- Awaits that follow each other without reading or writing canister memory in between are one call.
- `execute_icpswap_trade`, the transfer parts of deposits to and withdrawals from the exchange, approvals, the exchange factory and KongSwap: chains of foreign calls. The balance checks that deposits and withdrawals end with are events of the strategy machine.
- `RETRY_COUNTER`, `LAST_ERROR`, `RetryableTask`, the second `process_failed_deployments` in payment.rs and the helpers from line 682 of state.rs on, which nothing calls.
- FactoryConservation.IdsNeverRepeat: does not cover runs with more than 2^64 issued ids, where the counter wraps; an id could then repeat only for the same caller in the same nanosecond.
