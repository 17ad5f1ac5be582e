# AXQ, verified

AXQ is a trading framework. This project models three of its parts in Dafny and proves what
they are for.

**Execution and recovery.** An intent is reserved in an append-only ledger, checked, submitted
at most once and recorded once (`ExecutionContracts`, `RecoveryContracts`, `ExecutionLedger`,
`ExecutionAdapter`, `Mt5Entry`, `Mt5Position`). `ExecutionProtocol` interleaves any number of
adapters over one ledger, with a crash possible between any two steps. After a restart the
ledger is compared with the broker (`Reconciliation`, `ReconciliationHistory`), readiness is
evaluated (`Readiness`), and `Orchestrator` lets an adapter be called only right after a
refresh that found nothing unresolved.

**Hypotheses and theses.** Specialists read tool results into contract-bound evidence
(`AgentContracts`, `AgentMemory`, `Specialist`). The thesis state machine opens, continues,
closes and replaces one thesis at a time (`Thesis`, `ThesisRuns`). Evidence is fused into a
proposal (`Fusion`) and a material disagreement starts one bounded round of interaction
(`Interaction`).

**Research arithmetic.** Seeded averages and the indicators composed from them (`Smoothing`,
`Indicators`), delayed pivots, structure bias and Supertrend (`MarketStructure`), barrier labels
(`BarrierLabels`), purged and embargoed splits (`Splits`), and the end-to-end statement that no
label leaks (`Leakage`). `Numerics` and `Ordering` are shared.

## How it is modelled

- Times are integers (microseconds). Floating-point values are reals; `round(x, 10)`,
  `round(x)` and `math.isclose` keep their meaning over the reals. A value that is not finite is
  `None`.
- Identifiers are naturals: equality and order are all that is used of them, and 0 is the empty
  string. An identity computed by `canonical_hash` is either the content itself (`ThesisKey`,
  interaction records), or the value of a hash passed as a function, taken as injective where a
  proof needs it (`ContentHash`).
- What the broker, the terminal, the clock, the responder and the reducer answer, or raise, is
  the environment's choice: it arrives as arguments, or from methods that may return anything.
- The SQLite log is a sequence with one reservation per intent, as
  execution/README.md:22 states; the migration that declares the constraint is
  not part of this model. `record` checks and appends as one step. `CheckThenAppendCanOverwrite`
  shows why that matters.
- Methods of the orchestrator and the adapters are stated by specification functions; long bodies
  are cut into several methods at the points where the source can fail.

## Where the code does not do what one might expect

- A second call for an intent that is reserved but not yet answered records UNKNOWN, and the
  answer of the submission already made is then refused (`DuplicateCallHidesTheAnswer`). Once the
  transport has answered, the ledger holds the answer exactly when something was written and the
  first to write was not such a caller (`AnswerIsHeldExactlyWhen`).
- RESOLVED does not mean one-to-one: one broker object can resolve two live results
  (`OneObjectResolvesTwoResults`), unless there are as many of one as of the other
  (`ResolvedIsOneToOneExactlyWhenCountsAgree`).
- A shutdown that fails on the way leaves the phase STOPPING, and neither BLOCKED nor STOPPED is
  final: a later refresh overwrites them (`RuntimeOrchestrator.Shutdown`, `RefreshSnapshotIfDue`).
- A specialist whose remembered hypothesis is closed is refused when it reads the same one again
  (`ClosedHypothesisStalls`), and a tool result that names one fact twice with different values
  can make its evidence unacceptable (`ObserveSucceedsExactlyWhen`).
- A thesis that evidence invalidated is relabelled EXPIRED by a new M5 close past its deadline,
  and by nothing else (`InvalidatedExpiresExactlyWhen`); a larger bar limit can bring a closed
  thesis back (`LargerLimitRevives`).
- With a degraded multiplier of zero the fused proposal fails its own contract as soon as one
  specialist is degraded (`ProposalIsValidExactlyWhen`).
- A negative embargo leaks unless the purge makes up for it (`SeparatedExactlyWhen`).
- A label can look one row past its horizon: exactly when finer bars are to resolve a double touch
  by the very last row of the horizon, and that row's candle does not open before its time
  (`SettledExactlyWhen`). No other collision policy can peek (`AlwaysSettledExactlyWhen`).
- After `order_send` the position adapter records FAILED when the gateway itself raises the
  transport failure there (`FailedAfterSendExactlyWhen`).

## Model

| member | source | states |
|---|---|---|
| `ExecutionLedger.SQLiteExecutionLedger.Reserve` | src/axq/execution_boundary/persistence.py:44-55 | reserving wins, and adds one row, exactly when the intent was not reserved before; otherwise nothing changes |
| `ExecutionLedger.SQLiteExecutionLedger.Record` | src/axq/execution_boundary/persistence.py:57-72 | recording needs a reservation, repeats silently, refuses a different result, and otherwise adds one row |
| `ExecutionLedger.SQLiteExecutionLedger.Get` | src/axq/execution_boundary/persistence.py:74-80 | the scan over the rows returns the newest result of the intent |
| `ExecutionLedger.SQLiteExecutionLedger.LatestResults` | src/axq/execution_boundary/persistence.py:85-90 | the dictionary filled in a loop and read in key order is the listing of the plain map the log stands for |
| `ExecutionLedger.SQLiteExecutionLedger.AppendReconciliation` | src/axq/execution_boundary/persistence.py:92-104 | a report is appended only if it supersedes the latest one, and the first only if it supersedes none |
| `ExecutionLedger.InMemoryExecutionLedger.Record` | src/axq/execution_boundary/adapter.py:73-79 | the set-and-dictionary ledger answers as its map specification does |
| `ExecutionLedger.ViewMeaning` | src/axq/execution_boundary/persistence.py:38-42 | membership in the folded set and map is what the scans over the log answer |
| `ExecutionLedger.StepRefines` | src/axq/execution_boundary/persistence.py:38-90 | each single ledger call answers the same on the log and on the map, and leaves states that correspond |
| `ExecutionLedger.LogRefinesMap` | src/axq/execution_boundary/persistence.py:31-90 | for every sequence of calls, restarts included, log and map give the same answers and errors, and the log only grows at its end |
| `ExecutionLedger.StepKeepsWellFormed` | src/axq/execution_boundary/persistence.py:44-72 | one reservation and at most one result per intent, the reservation first, is kept by every call |
| `ExecutionLedger.ResultsAreWriteOnce` | src/axq/execution_boundary/persistence.py:57-80 | the first result recorded for an intent is what every later read returns |
| `ExecutionLedger.CheckThenAppendCanOverwrite` | src/axq/execution_boundary/persistence.py:57-72 | two writers that both pass the check and then both append change an answer already given: why checking and appending must be one step |
| `Ordering.SortIds` | src/axq/execution_boundary/reconciliation.py:75 | sorting a set of identifiers gives its one strictly increasing listing |
| `Ordering.ListingIsUnique` | src/axq/execution_boundary/persistence.py:90 | any two strictly increasing listings of one set are equal |
| `ReconciliationHistory.NamesAreDistinct` | src/axq/execution_boundary/recovery_contracts.py:151-175 | in a chain of reports named by an injective hash of their content no two have the same name |
| `ReconciliationHistory.GuardAcceptsExactlyTheSuccessor` | src/axq/execution_boundary/persistence.py:92-104 | the append guard accepts a report exactly when it supersedes the latest one; such a report never collides with an earlier row |
| `ReconciliationHistory.HistoryStaysLinear` | src/axq/execution_boundary/persistence.py:92-113 | over every sequence of ledger calls the reports stay one linear chain with pairwise distinct names |
| `ExecutionAdapter.ReportResultIsValid` | src/axq/execution_boundary/adapter.py:215-288 | every result built from a well-formed broker report meets the result contract, and filled plus remaining misses the request by at most the rounding to ten digits |
| `ExecutionAdapter.ProceedMeansGuarded` | src/axq/execution_boundary/adapter.py:112-150 | submission is reached exactly in demo mode, on an observation inside every preflight bound that the validator passed |
| `ExecutionAdapter.DecisionsAreValid` | src/axq/execution_boundary/adapter.py:172-213 | every result decided before submission meets the result contract and carries its intent |
| `ExecutionAdapter.DemoExecutionAdapter.Execute` | src/axq/execution_boundary/adapter.py:102-162 | one execution looks up, reserves, checks, submits and records as specified, and logs a submission exactly when it makes one |
| `ExecutionAdapter.SubmitsExactlyWhenGuarded` | src/axq/execution_boundary/adapter.py:102-152 | a call submits exactly when the intent is bound, unreserved and unrecorded, the mode is demo and every bound and check holds |
| `ExecutionAdapter.AnswerIsRecordedAndValid` | src/axq/execution_boundary/adapter.py:102-162 | what a call returns is what the ledger then holds, it meets the result contract, and rows are only added |
| `ExecutionAdapter.RetriesNeverResend` | src/axq/execution_boundary/adapter.py:102-110 | a repeated call never submits again; once a call returned, every later one returns the same and writes nothing |
| `ExecutionProtocol.StepKeepsInv` | src/axq/execution_boundary/adapter.py:102-162 | every interleaved step of every adapter, crashes included, keeps the protocol invariant |
| `ExecutionProtocol.AtMostOneSubmission` | src/axq/execution_boundary/adapter.py:102-213 | in every run of any number of adapters no intent is submitted twice, and every submission was guarded |
| `ExecutionProtocol.FirstResultStands` | src/axq/execution_boundary/persistence.py:57-80 | in every run the first recorded result of an intent never changes, and log and submissions only grow |
| `ExecutionProtocol.RecordedResultsAreHonest` | src/axq/execution_boundary/adapter.py:107-162 | a recorded result is what the transport answered, or the intent is never submitted at any later time, or it is an UNKNOWN a second caller wrote |
| `ExecutionProtocol.FirstWriterDecides` | src/axq/execution_boundary/persistence.py:57-72 | in every run the ledger holds for an intent exactly what the first of its writers wrote |
| `ExecutionProtocol.AnswerIsHeldExactlyWhen` | src/axq/execution_boundary/adapter.py:107-162 | once the transport has answered, the ledger holds that answer exactly when some write went through and the first one was not the UNKNOWN of a caller that found the intent reserved; a crash before the first write leaves nothing |
| `ExecutionProtocol.DuplicateCallHidesTheAnswer` | src/axq/execution_boundary/adapter.py:107-110 | a concrete run in which a second call makes the ledger keep UNKNOWN although the broker answered |
| `Reconciliation.FindingsAddUp` | src/axq/execution_boundary/reconciliation.py:33-85 | findings = live results + broker objects - claimed objects |
| `Reconciliation.NothingIsReportedTwice` | src/axq/execution_boundary/reconciliation.py:40-85 | no two findings are about the same intent or the same stray object |
| `Reconciliation.EachLiveResultHasItsFinding` | src/axq/execution_boundary/reconciliation.py:40-73 | every live result is reported, with the finding its own evidence calls for |
| `Reconciliation.EachObjectIsClaimedOrReported` | src/axq/execution_boundary/reconciliation.py:64-85 | a broker object is reported as broker-only exactly when no live result claims it |
| `Reconciliation.ResolvedMeansAccounted` | src/axq/execution_boundary/reconciliation.py:89-93 | all findings are resolved exactly when every live result has an agreeing object (tickets, direction, volume) and every object is claimed |
| `Reconciliation.ResolvedIsOneToOneExactlyWhenCountsAgree` | src/axq/execution_boundary/reconciliation.py:40-73 | a resolved comparison matches one-to-one exactly when there are as many live results as broker objects |
| `Reconciliation.OneObjectResolvesTwoResults` | src/axq/execution_boundary/reconciliation.py:40-73 | any live result with a ticket has a twin of another intent that one broker position resolves together with it |
| `Reconciliation.SortFindings` | src/axq/execution_boundary/reconciliation.py:86-88 | sorting in place by intent, object and kind keeps the findings as a multiset and orders them |
| `Reconciliation.SortingIsCanonical` | src/axq/execution_boundary/reconciliation.py:86-88 | a strictly sorted sequence is the only sorted arrangement of its elements |
| `Reconciliation.CompareAll` | src/axq/execution_boundary/reconciliation.py:33-88 | the loops over results and leftover objects, sorted, produce exactly the specified findings |
| `Reconciliation.Reconcile` | src/axq/execution_boundary/reconciliation.py:26-103 | the report of the ledger's own listing is built, named and appended through the guard, or nothing changes |
| `Reconciliation.ReportIsValid` | src/axq/execution_boundary/recovery_contracts.py:138-175 | the report built from any comparison passes its validator |
| `Reconciliation.FindingsIgnoreOrder` | src/axq/execution_boundary/reconciliation.py:33-85 | with distinct tickets and one link per intent, reordering positions, orders or links changes no finding |
| `Readiness.SafeMeansEveryCheckPassed` | src/axq/execution_boundary/readiness.py:25-70 | SAFE exactly when all six components are fresh, the report is resolved, and no thesis is discontinuous or expired |
| `Readiness.FailedMeaning` | src/axq/execution_boundary/readiness.py:45-54 | a block reason is listed exactly when its check failed |
| `Orchestrator.RuntimeOrchestrator.SetOperatorControls` | src/axq/orchestration/service.py:192-195 | controls are replaced unless that would clear the kill switch |
| `Orchestrator.RuntimeOrchestrator.ResumeNewEntries` | src/axq/orchestration/service.py:197-207 | the entry pause is lifted exactly in phase SAFE with a SAFE readiness and no execution block or kill switch |
| `Orchestrator.RuntimeOrchestrator.Startup` | src/axq/orchestration/service.py:209-232 | from CREATED it ends SAFE or BLOCKED, SAFE only after an acceptable refresh outside the offline modes; in any other phase nothing happens |
| `Orchestrator.RuntimeOrchestrator.ReduceSnapshot` | src/axq/orchestration/service.py:274-279 | a reduced snapshot takes exactly six consecutive source sequences, a failing one at most six; nothing else happens |
| `Orchestrator.RuntimeOrchestrator.CompareWithBroker` | src/axq/orchestration/service.py:281-286 | the report supersedes the ledger's latest, so the append guard never refuses it, and no recorded result changes |
| `Orchestrator.RuntimeOrchestrator.RefreshBroker` | src/axq/orchestration/service.py:269-302 | a completed refresh leaves the readiness of the compared state, and the phase is BLOCKED exactly when it is not acceptable; no event is taken and no adapter called |
| `Orchestrator.RuntimeOrchestrator.RevalidateBeforeMutation` | src/axq/orchestration/service.py:470-479 | true only when the last thing that happened is a SAFE refresh without anomaly whose ledger state still stands |
| `Orchestrator.RuntimeOrchestrator.CallEntry` | src/axq/orchestration/service.py:361-366 | the entry adapter is only callable through the gate, and its answer is what the ledger holds |
| `Orchestrator.RuntimeOrchestrator.TryActions` | src/axq/orchestration/service.py:372-387 | the adapter is handed a prefix of the planned actions, in order, in demo mode with no block; the results belong to that prefix, and only its last call can lack one |
| `Orchestrator.RuntimeOrchestrator.ProcessEvent` | src/axq/orchestration/service.py:333-408 | outside SAFE nothing happens; otherwise at most this event is taken, the adapters are handed at most the planned entry and then a prefix of the planned actions, whether the call returns or raises, and a cycle reports the ledger's answer and the answered actions |
| `Orchestrator.RuntimeOrchestrator.RunSource` | src/axq/orchestration/service.py:410-416 | the events taken are a prefix of the source in its order: all of it when the run finishes, none after a requested shutdown |
| `Orchestrator.RuntimeOrchestrator.RefreshSnapshotIfDue` | src/axq/orchestration/service.py:418-434 | in the offline modes, and when nothing is due, nothing changes; a refresh that raised leaves BLOCKED; one that ran leaves SAFE only when it was acceptable |
| `Orchestrator.RuntimeOrchestrator.Shutdown` | src/axq/orchestration/service.py:519-538 | a shutdown ends STOPPED, or STOPPING if anything failed on the way |
| `Orchestrator.RuntimeOrchestrator.AnyClient` | src/axq/orchestration/service.py:192-538 | after every sequence of public calls the invariant holds, the phase is the one the history comes to and not a transient one, and it is SAFE exactly when some declaration of safety still stands |
| `Orchestrator.CallsAreGated` | src/axq/orchestration/service.py:358-387 | every adapter call is made in demo mode without blocking control, right after a SAFE refresh of the ledger as it stands: broker and ledger accounted for, components fresh, theses sound |
| `Orchestrator.SafeRefresh` | src/axq/orchestration/service.py:269-302 | a refresh reads SAFE exactly when nothing in it is unresolved, stale, discontinuous or expired |
| `Orchestrator.NoCallAfterKill` | src/axq/orchestration/service.py:192-195 | no adapter is ever called after the kill switch was set |
| `Orchestrator.SequencesIncrease` | src/axq/orchestration/service.py:345 | allocated source sequences strictly increase and exceed every processed event's |
| `Orchestrator.SafeFollowsARefresh` | src/axq/orchestration/service.py:298-324 | the phase is SAFE exactly when nothing moved it since a declaration of safety, which in the live modes directly follows a completed refresh without anomaly that is SAFE or recoverable in shadow mode |
| `Orchestrator.ControlsTighten` | src/axq/orchestration/contracts.py:54-73 | every operator operation only tightens the gates |
| `Orchestrator.ExecutionKeepsLedgerOk` | src/axq/orchestration/service.py:361-371 | an execution leaves the ledger well formed and its reconciliation history untouched |
| `AgentMemory.MovedIsValid` | src/axq/agents/state.py:42-50 | the memory built by an accepted transition passes its validator |
| `AgentMemory.TerminalMemoryAbsorbs` | src/axq/agents/state.py:59-139 | an invalidated or expired memory keeps its status until the hypothesis changes, which only NEW and REVERSED do |
| `AgentMemory.ConfirmationsCountSinceReset` | src/axq/agents/state.py:151-157 | over every run the confirmation count is the number of CONFIRMED steps since the last resetting one |
| `AgentMemory.MemoryKeepsItsTrail` | src/axq/agents/state.py:140-180 | over every run the history names each piece of evidence in order, time never goes back, and the start is that of the last opening step |
| `Specialist.QualityIsAShare` | src/axq/agents/_deterministic.py:136-148 | evidence quality lies between 0.35 and 1 whenever there is a tool result |
| `Specialist.ReadingMovesMemory` | src/axq/agents/_deterministic.py:165-195 | what the relationship rules produce is accepted by the transition table exactly while the remembered hypothesis is open or another one is taken up |
| `Specialist.TerminalFactIsAccepted` | src/axq/agents/_deterministic.py:334-401 | a terminal fact is accepted exactly when it is the first of its name, time does not run back, and it closes or repeats |
| `Specialist.AbstentionIsAccepted` | src/axq/agents/_deterministic.py:279-332 | abstaining is always accepted and keeps the previous memory |
| `Specialist.ObserveSucceedsExactlyWhen` | src/axq/agents/_deterministic.py:54-109 | observing succeeds exactly when the facts and the memory allow it, and then evidence, output and memory meet their contracts |
| `Specialist.OpenHypothesisNeverStalls` | src/axq/agents/_deterministic.py:54-109 | from an open hypothesis observing always succeeds if time does not run back and no usable result is empty or names a fact twice; unusable results may be anything |
| `Specialist.EveryMemoryIsTracked` | src/axq/agents/_deterministic.py:54-195 | in every run from no memory, a CONFIRMED memory has a confidence of at least 0.7 |
| `Specialist.ClosedHypothesisStalls` | src/axq/agents/state.py:94-99 | reading a closed hypothesis again is always refused |
| `Specialist.ConfirmedWithoutConfidenceStalls` | src/axq/agents/_deterministic.py:179-194 | without that confidence the rules ask for a transition the table forbids |
| `Thesis.BuildScenarios` | src/axq/agents/scenarios.py:195-223 | the loop builds one watching scenario per definition, in order |
| `Thesis.UpdateScenarios` | src/axq/agents/scenarios.py:322-379 | the loop updates every scenario by the one-scenario rule, in order |
| `Thesis.EligibleExactlyWhen` | src/axq/agents/scenarios.py:335-352 | a scenario becomes eligible exactly when nothing invalidates it, every condition was supported now or before, and the evidence is CONFIRMED |
| `Thesis.ScenarioForgetsItsStatus` | src/axq/agents/scenarios.py:335-361 | a scenario's own past status has no say in its next one: invalidation is not sticky |
| `Thesis.ProgressMeaning` | src/axq/agents/scenarios.py:338-346 | progress lies between 0 and 1 and is 1 exactly when every condition is matched |
| `Thesis.CreatedIsOk` | src/axq/agents/scenarios.py:226-276 | a thesis that is opened passes every validator, starts at its event with one bar, and names what it supersedes |
| `Thesis.TerminalStateIsOk` | src/axq/agents/scenarios.py:279-319 | closing keeps every validator, the thesis identity and its matched facts |
| `Thesis.ContinueAdvances` | src/axq/agents/scenarios.py:532-570 | continuing keeps the whole invariant, and a closed thesis that continues closes again |
| `Thesis.StepIsSound` | src/axq/agents/scenarios.py:405-570 | every accepted event keeps all validators, never moves the causal key back, and carries the thesis on or opens a fresh one superseding it |
| `Thesis.InvalidatedIsRelabelled` | src/axq/agents/scenarios.py:501-502 | an invalidated thesis reads EXPIRED once its time is up |
| `Thesis.InvalidatedExpiresExactlyWhen` | src/axq/agents/scenarios.py:431-570 | an accepted event that opens no fresh thesis turns INVALIDATED into EXPIRED exactly when it is a new M5 close past the deadline; otherwise thesis and memory stay INVALIDATED |
| `Thesis.LargerLimitRevives` | src/axq/agents/scenarios.py:568-570 | an outlived thesis comes back to life exactly when the bar limit of the event's policy allows one more bar |
| `ThesisRuns.EveryThesisIsOk` | src/axq/agents/scenarios.py:87-170 | over every run, refused events included, each thesis satisfies all validators and the full invariant |
| `ThesisRuns.HistoryIsOne` | src/axq/agents/scenarios.py:405-430 | every sequence of events has a history, the one that applies them in order |
| `ThesisRuns.EligibleIsEarned` | src/axq/agents/scenarios.py:343-352 | ELIGIBLE means all conditions of some scenario matched, CONFIRMED memory, and time and bars left |
| `ThesisRuns.KeysNeverDecrease` | src/axq/agents/scenarios.py:393-402 | over every run the causal key of the thesis never decreases |
| `ThesisRuns.OneThesisOnlyGrows` | src/axq/agents/scenarios.py:338-341 | within one thesis identity and deadline stay, matched facts only grow, and closed is for good |
| `ThesisRuns.ClosedUntilReplaced` | src/axq/agents/scenarios.py:431-570 | a closed thesis is closed at every later time unless a fresh one that supersedes its predecessor took its place |
| `ThesisRuns.InvalidatedUntilTimeIsUp` | src/axq/agents/scenarios.py:431-570 | over every run an invalidated thesis that is not replaced stays INVALIDATED, unless a causally admissible new M5 close past its deadline, starting no hypothesis, makes it EXPIRED |
| `ThesisRuns.LiveWithinLimits` | src/axq/agents/scenarios.py:539-570 | no thesis stays live past its deadline or past the allowed number of M5 closes |
| `Fusion.ClampingChangesNothing` | src/axq/master/fusion.py:101-193 | every metric lies in its range as computed, so the clamps change nothing |
| `Fusion.NetAndConfidence` | src/axq/master/fusion.py:120-145 | the absolute net score is directional strength times one minus disagreement, and bounds the confidence |
| `Fusion.ScoreGateFollows` | src/axq/master/fusion.py:153-156 | whatever passes the confidence gate passes a score gate with no larger threshold |
| `Fusion.FlippingFlips` | src/axq/master/fusion.py:105-171 | flipping every direction swaps the scores, negates the net, keeps the rest, and turns the decision round exactly unless it was made at net zero |
| `Fusion.ReasonsAreExact` | src/axq/master/fusion.py:150-162 | each of the six reasons is given exactly when its gate fails, and none is given exactly when all pass |
| `Fusion.ProposalIsValidExactlyWhen` | src/axq/master/contracts.py:114-143 | a fused proposal meets its contract exactly when no degraded contribution is weighted by zero |
| `Interaction.StrongestMeaning` | src/axq/interaction/service.py:74-87 | the head of the list sorted by falling strength is the strongest, and the earliest specialist among equals |
| `Interaction.RequiredExactlyWhen` | src/axq/interaction/service.py:102-117 | an interaction is required exactly when the disagreement exceeds its threshold, which puts evidence on both sides |
| `Interaction.ParticipantsAreBounded` | src/axq/interaction/service.py:65-89 | two or three take part, in canonical order, the strongest of each side among them |
| `Interaction.Converse` | src/axq/interaction/service.py:149-207 | the exchanges run in order and stop at the first participant that does not restate its evidence, with the status its failure deserves |
| `Interaction.BuildInteraction` | src/axq/interaction/service.py:92-225 | whatever the responder does the session meets every contract, has at most six turns, and is COMPLETED exactly when everybody restated its evidence |
| `Smoothing.SmoothInto` | src/axq/features/indicators.py:34-73 | the two nested loops fill the array with the recursive average, gaps included |
| `Smoothing.SmoothIsCausal` | src/axq/features/indicators.py:34-73 | the average of a prefix is the prefix of the average |
| `Smoothing.DefinedExactlyWhen` | src/axq/features/indicators.py:42-52 | the average is defined on one contiguous interval: from the first full window until a value is missing |
| `Smoothing.SmoothDelays` | src/axq/features/indicators.py:62-72 | averaging delays the first valid row by the period less one |
| `Smoothing.AverageWithin` | src/axq/features/indicators.py:55-73 | every average lies between the least and the greatest value it saw |
| `Smoothing.AverageAdds` | src/axq/features/indicators.py:55-73 | the average of a sum is the sum of the averages |
| `Smoothing.AverageScales` | src/axq/features/indicators.py:55-73 | the average of a multiple is the multiple of the average |
| `Smoothing.TowardsIsHomogeneous` | src/axq/features/indicators.py:55-73 | the update of both averages, EMA and Wilder, commutes with scaling, as the scaling law asks |
| `Smoothing.AverageIsMonotone` | src/axq/features/indicators.py:55-73 | averaging keeps the order of two series |
| `Indicators.IndicatorsAreCausal` | src/axq/features/indicators.py:76-125 | ATR, RSI, DI, ADX and MACD signal of a prefix are the prefixes of the whole |
| `Indicators.MovesFitTheRange` | src/axq/features/indicators.py:112-115 | a bar's two directional moves together never exceed its true range |
| `Indicators.DiAddsUpToAtMost100` | src/axq/features/indicators.py:119-121 | where the average true range is positive, +DI and -DI are not negative and add up to at most 100 |
| `Indicators.AdxIsAPercentage` | src/axq/features/indicators.py:122-125 | ADX lies between 0 and 100 wherever it is defined |
| `Indicators.RsiIsAPercentage` | src/axq/features/indicators.py:96-106 | RSI lies between 0 and 100 wherever it is defined |
| `Indicators.AtrWarmUpIsExact` | src/axq/features/registry.py:178-182 | ATR is valid from exactly the row its declared lookback completes |
| `Indicators.RsiWarmUpIsExact` | src/axq/features/registry.py:154-155 | so is RSI |
| `Indicators.DirectionalWarmUpIsExact` | src/axq/features/registry.py:144-147 | so are +DI, -DI and ADX while the average true range is positive |
| `Indicators.MacdWarmUpIsExact` | src/axq/features/registry.py:156-157 | so is the MACD signal when fast does not exceed slow; otherwise it starts later than declared |
| `MarketStructure.FindPivots` | src/axq/features/market_structure.py:34-53 | the loop that carries the last swings fills in every delayed pivot and its comparison |
| `MarketStructure.PivotsAreConfirmedLate` | src/axq/features/market_structure.py:37-48 | a swing is never backdated: the row that first shows it comes the right-hand bars after it, and it tops everything up to that row |
| `MarketStructure.FindBias` | src/axq/features/market_structure.py:72-85 | the loop that carries the bias fills in bias and changes of character |
| `MarketStructure.BiasIsTheLastBreak` | src/axq/features/market_structure.py:75-85 | the bias is the direction of the last break of structure |
| `MarketStructure.NoBreakNoBias` | src/axq/features/market_structure.py:72-85 | the bias is neutral until the first break of structure |
| `MarketStructure.ChochReversesTheLastBreak` | src/axq/features/market_structure.py:79-80 | a change of character is exactly a break against the last one |
| `MarketStructure.StructureIsCausal` | src/axq/features/market_structure.py:37-86 | no later bar changes an emitted pivot, break, change of character or bias |
| `MarketStructure.FollowTrend` | src/axq/features/indicators.py:196-220 | the loop fills the Supertrend bands, directions and line |
| `MarketStructure.BandsRatchet` | src/axq/features/indicators.py:203-219 | a band moves away from the price only after a close beyond it, and the trend turns exactly on a cross |
| `MarketStructure.SupertrendIsCausal` | src/axq/features/indicators.py:182-226 | Supertrend of a prefix is the prefix of Supertrend |
| `BarrierLabels.LabelRow` | src/axq/labels/triple_barrier.py:83-178 | scanning the horizon until a barrier is touched gives the specified label |
| `BarrierLabels.TripleBarrierLabels` | src/axq/labels/triple_barrier.py:69-90 | every row of the frame gets the label of its own horizon, in order |
| `BarrierLabels.ResolveLowerTimeframe` | src/axq/labels/triple_barrier.py:28-46 | the scan of the finer bars returns what the first consulted touch says |
| `BarrierLabels.FirstTouchMeaning` | src/axq/labels/triple_barrier.py:98-103 | the touch found is a touch with none before it, and none is found exactly when there is none |
| `BarrierLabels.FirstTouchDecides` | src/axq/labels/triple_barrier.py:95-140 | TIMEOUT exactly when no bar of the horizon touches; otherwise the first touching bar is reported |
| `BarrierLabels.DecidingBar` | src/axq/labels/triple_barrier.py:105-139 | a single touch decides by itself and a double touch goes by the collision policy |
| `BarrierLabels.ResolutionMeaning` | src/axq/labels/triple_barrier.py:37-46 | a double touch is resolved by the first finer bar in the window that touches |
| `BarrierLabels.OutcomeAgreesWithExcursions` | src/axq/labels/excursions.py:20-41 | a hit target or stop was reached by the path, and a timeout stayed strictly inside both |
| `BarrierLabels.ReflectionKeepsTheLabel` | src/axq/labels/triple_barrier.py:83-178 | reflecting prices while swapping side and barriers keeps trade outcome, bars to hit and both raw excursions |
| `Splits.WalkForwardSplits` | src/axq/datasets/splits.py:114-179 | the loop terminates with exactly the closed-form number of folds, each where it belongs |
| `Splits.AnotherFits` | src/axq/datasets/splits.py:133 | another window fits exactly while the fold number is below the closed form |
| `Splits.ChronologicalConserves` | src/axq/datasets/splits.py:81-96 | kept, purged and embargoed rows add up to the three windows |
| `Splits.WalkForwardConserves` | src/axq/datasets/splits.py:138-159 | the same for every walk-forward fold |
| `Splits.SeparatedExactlyWhen` | src/axq/datasets/splits.py:80-91 | two parts are separated under every order-keeping row filter exactly when purge and embargo together cover the horizon |
| `Splits.ChronologicalIsSeparated` | src/axq/datasets/splits.py:63-111 | look-ahead ends before the next part in the chronological split, whatever rows were dropped |
| `Splits.SplitsAreSeparated` | src/axq/datasets/splits.py:114-180 | the same for every walk-forward fold |
| `Leakage.LabelLooksAheadByTheHorizon` | src/axq/labels/triple_barrier.py:83-178 | a label that does not peek is settled by its horizon: later rows and later finer bars change nothing, and only the policy that consults finer bars asks for rows in time order |
| `Leakage.SettledExactlyWhen` | src/axq/labels/triple_barrier.py:95-130 | a label stays under every continuation of its rows and all finer bars exactly when it does not peek: last row of the horizon touching both barriers first, finer bars consulted, candle not opening before its time |
| `Leakage.AlwaysSettledExactlyWhen` | src/axq/labels/triple_barrier.py:49-69 | a definition keeps every label of every ordered frame within its horizon exactly when its collision policy is not the finer-bars one |
| `Leakage.BuilderOpensFirst` | src/axq/datasets/builder.py:125-133 | the frame the builder labels has every open before its decision time, in time order |
| `Leakage.BuilderIsCausal` | src/axq/datasets/builder.py:107-133 | sources that agree up to a row give frames that agree up to it, average true ranges included |
| `Leakage.WalkForwardDoesNotLeak` | src/axq/datasets/builder.py:128-179 | in every walk-forward fold, changing any candle from a validation row on, and any finer bar after the label's last decision, changes no train label, ATR barriers included, and likewise validation to out-of-sample |
| `Leakage.ChronologicalDoesNotLeak` | src/axq/datasets/builder.py:128-179 | the same for the chronological split the builder uses |
| `Leakage.WithoutOpensItPeeks` | src/axq/labels/triple_barrier.py:106-120 | a concrete frame without candle opens whose label depends on the row just past the horizon |
| `Mt5Entry.MT5ExecutionTransport.Submit` | src/axq/mt5/entry.py:46-78 | one submission checks and sends as specified, in that order |
| `Mt5Entry.SentExactlyWhenAnswered` | src/axq/mt5/entry.py:63-78 | the answer is a well-formed report or an unknown submission exactly when the order was sent |
| `Mt5Entry.SendsRepeatTheCheck` | src/axq/mt5/entry.py:50-64 | every sent request was accepted by the check just before, on a demo account and on safe facts |
| `Mt5Entry.NoTransportFailureAfterSend` | src/axq/execution_boundary/adapter.py:152-162 | an intent whose order was sent is never recorded as a transport failure |
| `Mt5Position.MT5PositionActionAdapter.Execute` | src/axq/mt5/position.py:49-141 | one action is looked up, reserved, checked twice, sent and recorded as specified |
| `Mt5Position.ResultsOfActionsAreValid` | src/axq/position_actions/transport.py:48-76 | every result of an action passes its validator |
| `Mt5Position.FailedAfterSendExactlyWhen` | src/axq/mt5/position.py:91-141 | after a send the result is FAILED exactly when the gateway's own call raised the transport failure |
| `Mt5Position.ActionsRepeatTheCheck` | src/axq/mt5/position.py:91-95 | every sent action repeats a request accepted just before, on a demo account, for a position read as the intent describes it |
| `Mt5Position.ActionsAreSentOnce` | src/axq/mt5/position.py:50-61 | after any call for an intent no later call sends |
| `Mt5Position.StopOnlyRatchets` | src/axq/mt5/position.py:224-268 | over every run in which only this adapter moves it, the stop never moves against the position and never disappears |

## Left out

- Dashboards, command lines, readers, launchers, telemetry and scripts: presentation and I/O.
- SQL text, JSON encoding, file layout, the journal's own storage and string length limits other than a rebuttal's.
- The reducer, the decision processor, the risk boundary, the position-action evaluator and the scanner are opaque: they may answer or raise anything.
- `requires_reconciliation` and the recovery checkpoints of the ledger; the position-action anomaly is an arbitrary answer in the refresh.
- ExecutionLedger.SQLiteExecutionLedger.Record: does not model two connections interleaving between its check and its append, because the claim needs them to be one step.
- Texts are not modelled beyond being equal or different: broker return codes, comments and the wording of reasons, and the messages of the MetaTrader 5 transports.
- Tool-result provenance, setup identities, tool requests, reasoning records and rationales of evidence.
- How each specialist interprets its facts: any reading with a confidence that is not negative is covered.
- The list of tool-result identities a scenario accumulates, and the order in which it lists its matched facts.
- Percentages, ATR and R multiples of excursions and the realized return: quotients of modelled values.
- Barrier labels on prices that are not finite, and market structure on highs or lows that are not finite.
- BarrierLabels.ReflectionKeepsTheLabel: does not cover PERCENTAGE barriers or the LOWER_TIMEFRAME policy, because a reflection changes the entry price a percentage refers to and the finer bars are not reflected.
- Floating-point rounding, except where the source rounds on purpose.
- Direction and return labels, windowed features, synchronization, quality reports and manifests: thin wrappers over library code.
- The discipline guard, lot sizing, broker-hour inference, shadow process control and experience analytics.
