/**
 The runtime orchestrator: a phase machine that owns ordering and gates. The broker, the
 reducer, the decision processor, the position-action adapter and the journal are the
 environment's and may answer, or fail, in any way.
 */
module Orchestrator {
  import opened Numerics
  import opened ExecutionContracts
  import opened RecoveryContracts
  import opened ExecutionLedger
  import opened ExecutionAdapter
  import opened ReconciliationHistory
  import opened Reconciliation
  import opened Readiness

  datatype RuntimeMode = MODE_DISABLED | REPLAY | SHADOW | MODE_DEMO

  datatype Phase =
    | CREATED
    | OPENING_STORES
    | RESTORING
    | CONNECTING
    | SNAPSHOTTING
    | RECONCILING
    | VALIDATING
    | PHASE_SAFE
    | PHASE_BLOCKED
    | STOPPING
    | STOPPED

  datatype Controls = Controls(
    pauseNewEntries: bool,
    executionDisabled: bool,
    killSwitch: bool,
    shutdownRequested: bool
  )

  const NO_CONTROLS := Controls(false, false, false, false)

  // The modes that look at a broker.
  predicate LiveMode(mode: RuntimeMode) {
    mode == SHADOW || mode == MODE_DEMO
  }

  function Pause(c: Controls): Controls {
    c.(pauseNewEntries := true)
  }

  function DisableExecution(c: Controls): Controls {
    c.(executionDisabled := true)
  }

  function ActivateKillSwitch(c: Controls): Controls {
    c.(pauseNewEntries := true, executionDisabled := true, killSwitch := true)
  }

  function RequestShutdown(c: Controls): Controls {
    c.(pauseNewEntries := true, shutdownRequested := true)
  }

  predicate MutationBlocked(c: Controls) {
    c.executionDisabled || c.killSwitch || c.shutdownRequested
  }

  // ----- What a run leaves behind -----

  datatype Refresh = Refresh(
    snapshot: Snapshot,
    memory: Memory,             // what the ledger held when it was compared
    report: Report,
    runtime: RuntimeState,
    theses: seq<ThesisView>,
    continuity: Continuity,
    readiness: ResumeReadiness,
    anomaly: bool
  )

  datatype Happening =
    | ControlsSet(controls: Controls)
    | SequenceTaken(number: int)        // a source sequence the orchestrator allocated
    | EventProcessed(number: int)       // an outside event the runner accepted
    | Refreshed(refresh: Refresh, accepted: bool)   // a refresh that ran to its end
    | RefreshFailed
    | EnteredSafe
    | Blocked
    | StopBegun
    | StopFinished
    | EntryCalled(intent: Intent, memory: Memory)
    | ActionCalled(intentId: Id, memory: Memory)

  type Trace = seq<Happening>

  datatype AdapterCall = EntryOf(intent: Intent) | ActionOf(id: Id)

  // What a history comes to.
  datatype Standing = Standing(
    controls: Controls,
    phase: Phase,
    highest: int,             // the highest number in it
    events: seq<int>,         // the events taken, in order
    calls: seq<AdapterCall>   // the adapter calls made, in order
  )

  function StandingAfter(trace: Trace): Standing {
    if trace == [] then
      Standing(NO_CONTROLS, CREATED, -1, [], [])
    else
      var n := |trace| - 1;
      Moved(StandingAfter(trace[..n]), trace[n])
  }

  function Moved(s: Standing, h: Happening): Standing {
    match h
    case ControlsSet(c) => s.(controls := c)
    case SequenceTaken(number) => s.(highest := Larger(s.highest, number))
    case EventProcessed(number) => s.(highest := Larger(s.highest, number), events := s.events + [number])
    case EntryCalled(intent, _) => s.(calls := s.calls + [EntryOf(intent)])
    case ActionCalled(id, _) => s.(calls := s.calls + [ActionOf(id)])
    case _ => s.(phase := PhaseOf(h).value)
  }

  function Larger(a: int, b: int): int {
    if a < b then b else a
  }

  // The phase a happening leaves behind, if it moves the phase at all.
  function PhaseOf(h: Happening): Option<Phase> {
    match h
    case Refreshed(_, accepted) => Some(if accepted then VALIDATING else PHASE_BLOCKED)
    case RefreshFailed => Some(PHASE_BLOCKED)
    case EnteredSafe => Some(PHASE_SAFE)
    case Blocked => Some(PHASE_BLOCKED)
    case StopBegun => Some(STOPPING)
    case StopFinished => Some(STOPPED)
    case _ => None
  }

  function ControlsAfter(trace: Trace): Controls {
    StandingAfter(trace).controls
  }

  function PhaseAfter(trace: Trace): Phase {
    StandingAfter(trace).phase
  }

  function EventsIn(trace: Trace): seq<int> {
    StandingAfter(trace).events
  }

  function CallsIn(trace: Trace): seq<AdapterCall> {
    StandingAfter(trace).calls
  }

  predicate ExceedsAll(trace: Trace, number: int) {
    StandingAfter(trace).highest < number
  }

  // More happened, but no event was taken and no adapter was called.
  ghost predicate Quiet(trace: Trace, later: Trace) {
    trace <= later && EventsIn(later) == EventsIn(trace) && CallsIn(later) == CallsIn(trace)
  }

  predicate Numbered(h: Happening) {
    h.SequenceTaken? || h.EventProcessed?
  }

  // The recorded report and readiness are what the comparison and the gate come to.
  ghost predicate Faithful(r: Refresh) {
    && Describes(r.report, r.snapshot, r.memory)
    && r.readiness == EvaluateReadiness(r.runtime, r.report, r.theses, r.snapshot.availableAt, r.continuity)
  }

  lemma RefreshIsFaithful(r: Refresh)
    requires Describes(r.report, r.snapshot, r.memory)
    requires r.readiness == EvaluateReadiness(r.runtime, r.report, r.theses, r.snapshot.availableAt, r.continuity)
    ensures Faithful(r)
  {
  }

  ghost predicate Describes(report: Report, snapshot: Snapshot, memory: Memory) {
    && report.content.findings == Findings(snapshot, Listing(memory.results))
    && report.content.status == StatusOf(report.content.findings)
  }

  // Shadow mode may go on when only the market is stale, or when a thesis expired while the
  // broker holds nothing.
  predicate ShadowRecoverable(reasons: seq<BlockReason>, status: ResolutionStatus, runtime: RuntimeState) {
    && reasons != []
    && (forall k :: 0 <= k < |reasons| ==> reasons[k] == MARKET_NOT_FRESH || reasons[k] == THESIS_EXPIRED)
    && (THESIS_EXPIRED in reasons ==>
          && status == RESOLVED
          && runtime.openPositions == 0
          && runtime.openOrders == 0
          && runtime.grossLots == Some(0.0)
          && runtime.netLots == Some(0.0))
  }

  predicate Acceptable(r: Refresh, mode: RuntimeMode) {
    && !r.anomaly
    && (r.readiness.status == SAFE ||
        (mode == SHADOW && ShadowRecoverable(r.readiness.reasons, r.report.content.status, r.runtime)))
  }

  // How a completed refresh leaves the runtime.
  predicate Settled(
    trace: Trace, readiness: Option<ResumeReadiness>, phase: Phase, memory: Memory, mode: RuntimeMode
  ) {
    && trace != []
    && trace[|trace| - 1].Refreshed?
    && readiness == Some(trace[|trace| - 1].refresh.readiness)
    && trace[|trace| - 1].refresh.memory == memory
    && (trace[|trace| - 1].accepted <==> Acceptable(trace[|trace| - 1].refresh, mode))
    && phase == if trace[|trace| - 1].accepted then VALIDATING else PHASE_BLOCKED
  }

  predicate DeclaredSafe(trace: Trace, readiness: Option<ResumeReadiness>, memory: Memory, mode: RuntimeMode) {
    && 2 <= |trace|
    && trace[|trace| - 1] == EnteredSafe
    && trace[|trace| - 2].Refreshed?
    && readiness == Some(trace[|trace| - 2].refresh.readiness)
    && trace[|trace| - 2].refresh.memory == memory
    && Acceptable(trace[|trace| - 2].refresh, mode)
  }

  // The last thing that happened is a refresh that came out SAFE, and the ledger still
  // holds what it compared.
  predicate JustEnteredSafe(before: Trace, memory: Memory) {
    && 2 <= |before|
    && before[|before| - 1] == EnteredSafe
    && before[|before| - 2].Refreshed?
    && !before[|before| - 2].refresh.anomaly
    && before[|before| - 2].refresh.readiness.status == SAFE
    && before[|before| - 2].refresh.memory == memory
  }

  predicate CallGate(before: Trace, memory: Memory, mode: RuntimeMode) {
    && mode == MODE_DEMO
    && JustEnteredSafe(before, memory)
    && !MutationBlocked(ControlsAfter(before))
  }

  ghost predicate Proper(before: Trace, h: Happening, mode: RuntimeMode) {
    match h
    case ControlsSet(c) => ControlsAfter(before).killSwitch ==> c.killSwitch
    case SequenceTaken(number) => ExceedsAll(before, number)
    case EventProcessed(_) => PhaseAfter(before) == PHASE_SAFE
    case Refreshed(r, accepted) => Faithful(r) && (accepted <==> Acceptable(r, mode))
    case RefreshFailed => true
    case EnteredSafe =>
      if LiveMode(mode) then
        && before != []
        && before[|before| - 1].Refreshed?
        && before[|before| - 1].accepted
      else
        PhaseAfter(before) == CREATED
    case Blocked => true
    case StopBegun => true
    case StopFinished => PhaseAfter(before) == STOPPING
    case EntryCalled(_, memory) => CallGate(before, memory, mode) && !ControlsAfter(before).pauseNewEntries
    case ActionCalled(_, memory) => CallGate(before, memory, mode)
  }

  ghost predicate ProperTrace(trace: Trace, mode: RuntimeMode) {
    forall k {:trigger Proper(trace[..k], trace[k], mode)} ::
      0 <= k < |trace| ==> Proper(trace[..k], trace[k], mode)
  }

  lemma Extend(trace: Trace, h: Happening, mode: RuntimeMode)
    requires ProperTrace(trace, mode) && Proper(trace, h, mode)
    ensures ProperTrace(trace + [h], mode)
    ensures StandingAfter(trace + [h]) == Moved(StandingAfter(trace), h)
  {
    var longer := trace + [h];
    assert longer[..|longer| - 1] == trace;
    forall k | 0 <= k < |longer|
      ensures Proper(longer[..k], longer[k], mode)
    {
      if k < |trace| {
        assert longer[..k] == trace[..k] && longer[k] == trace[k];
        assert Proper(trace[..k], trace[k], mode);
      }
    }
  }

  lemma {:induction false} ExceedsEach(trace: Trace, k: nat)
    requires k < |trace| && Numbered(trace[k])
    ensures trace[k].number <= StandingAfter(trace).highest
  {
    var n := |trace| - 1;
    if k < n {
      ExceedsEach(trace[..n], k);
    }
  }

  // Consecutive source sequences.
  function Numbers(first: int, count: nat): (trace: Trace)
    ensures |trace| == count
  {
    seq(count, k requires 0 <= k < count => SequenceTaken(first + k))
  }

  lemma OneMoreNumber(trace: Trace, first: int, count: nat)
    ensures trace + Numbers(first, count) + [SequenceTaken(first + count)] == trace + Numbers(first, count + 1)
  {
  }

  // ----- What a proper trace guarantees -----

  predicate IsCall(h: Happening) {
    h.EntryCalled? || h.ActionCalled?
  }

  // Fail-closed: whenever an adapter is called the runtime is in demo mode, no blocking
  // control is set, and the broker snapshot taken for this very call is fully accounted for,
  // fresh in all six components, with no expired and no discontinuous thesis.
  lemma CallsAreGated(trace: Trace, mode: RuntimeMode, k: nat)
    requires ProperTrace(trace, mode) && k < |trace| && IsCall(trace[k])
    ensures mode == MODE_DEMO
    ensures !MutationBlocked(ControlsAfter(trace[..k]))
    ensures trace[k].EntryCalled? ==> !ControlsAfter(trace[..k]).pauseNewEntries
    ensures 2 <= k && trace[k - 1] == EnteredSafe && trace[k - 2].Refreshed?
    ensures trace[k - 2].refresh.memory == trace[k].memory
    ensures !trace[k - 2].refresh.anomaly && NothingUnresolved(trace[k - 2].refresh)
  {
    var before := trace[..k];
    assert Proper(before, trace[k], mode);
    assert before[k - 1] == trace[k - 1] && before[k - 2] == trace[k - 2];
    assert Proper(trace[..k - 2], trace[k - 2], mode);
    SafeRefresh(trace[k - 2].refresh);
  }

  // Every broker object is claimed by an agreeing live result, every live result is matched,
  // all six components are fresh, and no thesis is expired or discontinuous.
  ghost predicate NothingUnresolved(r: Refresh) {
    && Accounted(r.snapshot, LiveResults(Listing(r.memory.results)))
    && AllFresh(r.runtime, r.snapshot.availableAt)
    && Continuous(r.theses, r.continuity)
    && Unexpired(r.theses, r.snapshot.availableAt)
  }

  lemma SafeRefresh(r: Refresh)
    requires Faithful(r)
    ensures r.readiness.status == SAFE <==> NothingUnresolved(r)
  {
    SafeMeansEveryCheckPassed(r.runtime, r.report, r.theses, r.snapshot.availableAt, r.continuity);
    ResolvedMeansAccounted(r.snapshot, Listing(r.memory.results));
  }

  lemma {:induction false} KillSwitchStays(trace: Trace, mode: RuntimeMode, j: nat, k: nat)
    requires ProperTrace(trace, mode) && j <= k <= |trace|
    requires ControlsAfter(trace[..j]).killSwitch
    ensures ControlsAfter(trace[..k]).killSwitch
    decreases k - j
  {
    if j < k {
      KillSwitchStays(trace, mode, j, k - 1);
      assert trace[..k][..k - 1] == trace[..k - 1];
      assert Proper(trace[..k - 1], trace[k - 1], mode);
    }
  }

  // The kill switch is irrevocable: no adapter is ever called after it was set.
  lemma NoCallAfterKill(trace: Trace, mode: RuntimeMode, j: nat, k: nat)
    requires ProperTrace(trace, mode) && j < k < |trace|
    requires trace[j].ControlsSet? && trace[j].controls.killSwitch
    ensures !IsCall(trace[k])
  {
    assert trace[..j + 1][..j] == trace[..j];
    KillSwitchStays(trace, mode, j + 1, k);
    assert Proper(trace[..k], trace[k], mode);
  }

  // Allocated source sequences strictly increase and exceed every processed event's.
  lemma SequencesIncrease(trace: Trace, mode: RuntimeMode, j: nat, k: nat)
    requires ProperTrace(trace, mode) && j < k < |trace|
    requires Numbered(trace[j]) && trace[k].SequenceTaken?
    ensures trace[j].number < trace[k].number
  {
    assert Proper(trace[..k], trace[k], mode);
    ExceedsEach(trace[..k], j);
  }

  // Happening k declared the runtime safe, and nothing moved the phase since. Outside the
  // offline modes the broker was last looked at right before, by a refresh that ran to its
  // end with no position-action anomaly and a readiness that is SAFE or recoverable in shadow
  // mode.
  predicate SafeSince(trace: Trace, mode: RuntimeMode, k: nat) {
    && k < |trace|
    && trace[k] == EnteredSafe
    && (forall j :: k < j < |trace| ==> PhaseOf(trace[j]).None?)
    && (LiveMode(mode) ==> 0 < k && trace[k - 1].Refreshed? && Acceptable(trace[k - 1].refresh, mode))
  }

  lemma SafeFollowsARefresh(trace: Trace, mode: RuntimeMode)
    requires ProperTrace(trace, mode)
    ensures PhaseAfter(trace) == PHASE_SAFE <==> exists k :: SafeSince(trace, mode, k)
  {
    if PhaseAfter(trace) == PHASE_SAFE {
      var k := LastDeclared(trace, mode);
    } else if exists k :: SafeSince(trace, mode, k) {
      var k :| SafeSince(trace, mode, k);
      StaysSafe(trace, mode, k);
    }
  }

  lemma {:induction false} LastDeclared(trace: Trace, mode: RuntimeMode) returns (k: nat)
    requires ProperTrace(trace, mode) && PhaseAfter(trace) == PHASE_SAFE
    ensures SafeSince(trace, mode, k)
  {
    var n := |trace| - 1;
    assert Proper(trace[..n], trace[n], mode);
    if trace[n] == EnteredSafe {
      if LiveMode(mode) {
        assert trace[..n][n - 1] == trace[n - 1];
        assert Proper(trace[..n - 1], trace[n - 1], mode);
      }
      return n;
    }
    PrefixIsProper(trace, mode, n);
    k := LastDeclared(trace[..n], mode);
  }

  lemma {:induction false} StaysSafe(trace: Trace, mode: RuntimeMode, k: nat)
    requires SafeSince(trace, mode, k)
    ensures PhaseAfter(trace) == PHASE_SAFE
  {
    if k < |trace| - 1 {
      StaysSafe(trace[..|trace| - 1], mode, k);
    }
  }

  lemma PrefixIsProper(trace: Trace, mode: RuntimeMode, n: nat)
    requires ProperTrace(trace, mode) && n <= |trace|
    ensures ProperTrace(trace[..n], mode)
  {
    forall k | 0 <= k < n
      ensures Proper(trace[..n][..k], trace[..n][k], mode)
    {
      assert trace[..n][..k] == trace[..k];
      assert Proper(trace[..k], trace[k], mode);
    }
  }

  // Every operator control only ever tightens the gates.
  lemma ControlsTighten(c: Controls)
    ensures forall t :: t in [Pause(c), DisableExecution(c), ActivateKillSwitch(c), RequestShutdown(c)] ==>
              && (c.pauseNewEntries ==> t.pauseNewEntries)
              && (MutationBlocked(c) ==> MutationBlocked(t))
              && (c.killSwitch ==> t.killSwitch)
    ensures MutationBlocked(ActivateKillSwitch(c)) && MutationBlocked(RequestShutdown(c))
  {
  }

  // ----- The durable ledger an orchestrator works on -----

  ghost predicate LedgerOk(log: Log, hash: ContentHash) {
    && Linear(Reports(log))
    && Bound(Reports(log), hash)
    && WellFormed(log)
    && forall id :: id in View(log).results ==> 0 < id
  }

  lemma ExecutionKeepsLedgerOk(policy: Policy, log: Log, intent: Intent, e: Environment, hash: ContentHash)
    requires ValidIntent(intent) && LedgerOk(log, hash)
    ensures LedgerOk(Executed(policy, log, intent, e).log, hash)
    ensures Reports(Executed(policy, log, intent, e).log) == Reports(log)
  {
    var result, kept := ExecutionWrites(policy, log, intent, e);
    ReserveKeepsLedgerOk(log, intent, hash);
    if result.Some? {
      RecordKeepsLedgerOk(kept, result.value, hash);
    }
  }

  // An execution writes at most a reservation and one result.
  lemma ExecutionWrites(policy: Policy, log: Log, intent: Intent, e: Environment)
    returns (result: Option<ExecutionResult>, kept: Log)
    requires ValidIntent(intent)
    ensures kept == log || kept == AfterReserve(log, intent).1
    ensures result.Some? ==> result.value.intentId == intent.intentId
    ensures Executed(policy, log, intent, e).log == if result.Some? then AfterRecord(kept, result.value).1 else kept
  {
    AnswersCarryTheIntent(policy, intent, e);
    result, kept := None, log;
    if Binds(policy, intent) && Recorded(log, intent.intentId).None? {
      kept := AfterReserve(log, intent).1;
      var d := BeforeSubmit(policy, intent, e.observing, e.validating);
      if IsReserved(log, intent.intentId) {
        result := Some(UnknownResult(intent, DUPLICATE_REASON, None));
      } else if d.Decide? {
        result := Some(d.result);
      } else if d.Proceed? {
        result := AfterSubmit(intent, d.observation, e.replying);
      }
    }
  }

  lemma ReserveKeepsLedgerOk(log: Log, intent: Intent, hash: ContentHash)
    requires LedgerOk(log, hash)
    ensures var log' := AfterReserve(log, intent).1; LedgerOk(log', hash) && Reports(log') == Reports(log)
  {
    StepKeepsWellFormed(log, Reserve(intent));
    AppendReads(log, Reserved(intent));
  }

  lemma RecordRow(log: Log, result: ExecutionResult)
    ensures var log' := AfterRecord(log, result).1; log' == log || log' == log + [ResultRecorded(result)]
  {
  }

  lemma RecordKeepsWellFormed(log: Log, result: ExecutionResult)
    requires WellFormed(log)
    ensures WellFormed(AfterRecord(log, result).1)
  {
    StepKeepsWellFormed(log, Record(result));
  }

  lemma RecordKeepsLedgerOk(log: Log, result: ExecutionResult, hash: ContentHash)
    requires LedgerOk(log, hash) && 0 < result.intentId
    ensures var log' := AfterRecord(log, result).1; LedgerOk(log', hash) && Reports(log') == Reports(log)
  {
    RecordKeepsWellFormed(log, result);
    RecordRow(log, result);
    AppendReads(log, ResultRecorded(result));
  }

  // A report that supersedes the latest one is always accepted, and becomes the latest.
  lemma ReportKeepsLedgerOk(log: Log, report: Report, hash: ContentHash)
    requires Injective(hash) && LedgerOk(log, hash)
    requires report.reportId == hash(report.content)
    requires report.content.supersedes == NextSupersedes(Reports(log))
    ensures AfterReconciliation(log, report).0.Success?
    ensures var log' := AfterReconciliation(log, report).1;
            && log' == log + [ReconciliationRecorded(report)]
            && LedgerOk(log', hash)
            && Reports(log') == Reports(log) + [report]
            && View(log') == View(log)
            && LatestReport(log') == Some(report)
  {
    GuardAcceptsExactlyTheSuccessor(log, report, hash);
    AppendKeepsHistory(log, report, hash);
    ReportRow(log, report);
  }

  lemma ReportRow(log: Log, report: Report)
    requires WellFormed(log) && AfterReconciliation(log, report).0.Success?
    ensures var log' := log + [ReconciliationRecorded(report)];
            && AfterReconciliation(log, report).1 == log'
            && WellFormed(log')
            && Reports(log') == Reports(log) + [report]
            && View(log') == View(log)
  {
    ReportKeepsWellFormed(log, report);
    AppendReads(log, ReconciliationRecorded(report));
  }

  lemma ReportKeepsWellFormed(log: Log, report: Report)
    requires WellFormed(log)
    ensures WellFormed(AfterReconciliation(log, report).1)
  {
    StepKeepsWellFormed(log, Reconcile(report));
  }

  // ----- The environment: anything may be answered, and anything may fail -----

  datatype Plan = Plan(entry: Option<Intent>, actions: seq<Id>)

  method Succeeds() returns (ok: bool) {
    ok := *;
  }

  method Capture() returns (snapshot: Option<Snapshot>)
    ensures snapshot.Some? ==> forall o :: o in Objects(snapshot.value) ==> 0 < o.objectId
  {
    snapshot := *;
    if snapshot.Some? && exists o | o in Objects(snapshot.value) :: o.objectId == 0 {
      snapshot := None;
    }
  }

  method MakePlan() returns (plan: Option<Plan>)
    ensures plan.Some? && plan.value.entry.Some? ==> ValidIntent(plan.value.entry.value)
  {
    plan := *;
    if plan.Some? && plan.value.entry.Some? && !ValidIntent(plan.value.entry.value) {
      plan := None;
    }
  }

  method RunnerState() returns (runtime: RuntimeState, theses: seq<ThesisView>)
    ensures |theses| <= 1
  {
    runtime, theses := *, *;
    if 1 < |theses| {
      theses := [];
    }
  }

  // What the journal and the gateway answer at startup.
  method Restore() returns (cursor: Option<nat>, restored: bool, backfilled: Option<Continuity>, connected: bool) {
    cursor, restored, backfilled, connected := *, *, *, *;
  }

  method AnyAnomaly() returns (anomaly: bool, known: bool) {
    anomaly, known := *, *;
  }

  method AnyEnvironment() returns (e: Environment) {
    e := *;
  }

  // ----- The orchestrator -----

  datatype Cycle = Cycle(plan: Plan, entryResult: Option<ExecutionResult>, actionResults: seq<Id>)

  predicate IsEntryOf(h: Happening, intent: Intent) {
    h.EntryCalled? && h.intent == intent
  }

  predicate EntryIn(trace: Trace, intent: Intent) {
    exists k :: 0 <= k < |trace| && IsEntryOf(trace[k], intent)
  }

  // The adapter calls a plan asks for, up to a number of actions.
  function Asked(plan: Plan, entered: bool, acted: nat): (calls: seq<AdapterCall>)
    requires (entered ==> plan.entry.Some?) && acted <= |plan.actions|
  {
    (if entered then [EntryOf(plan.entry.value)] else []) + ActionCalls(plan.actions[..acted])
  }

  lemma OneMoreAction(calls: seq<AdapterCall>, actions: seq<Id>, k: nat)
    requires k < |actions|
    ensures calls + ActionCalls(actions[..k]) + [ActionOf(actions[k])] == calls + ActionCalls(actions[..k + 1])
  {
  }

  lemma JoinedCalls(before: seq<AdapterCall>, between: seq<AdapterCall>, after: seq<AdapterCall>, h: Handed)
    requires Within(h)
    requires between == before + if h.entered then [EntryOf(h.plan.entry.value)] else []
    requires after == between + ActionCalls(h.plan.actions[..h.acted])
    ensures after == before + Asked(h.plan, h.entered, h.acted)
  {
  }

  function ActionCalls(ids: seq<Id>): (calls: seq<AdapterCall>)
    ensures |calls| == |ids|
    ensures forall k :: 0 <= k < |ids| ==> calls[k] == ActionOf(ids[k])
  {
    seq(|ids|, k requires 0 <= k < |ids| => ActionOf(ids[k]))
  }

  // How one action of a plan went: not safe to call, the adapter raised, something raised
  // after its answer, or all went well.
  datatype Attempt = NOT_SAFE | CALL_RAISED | AFTERWARDS_RAISED | ANSWERED

  datatype PublicCall =
    | CallStartup
    | CallSetControls(controls: Controls)
    | CallResume
    | CallRefreshIfDue
    | CallProcess(number: nat)
    | CallRunSource(numbers: seq<nat>)
    | CallShutdown

  // The ledger's answer for an intent, as the caller received it.
  ghost predicate Answered(log: Log, intent: Intent, result: ExecutionResult) {
    result.intentId == intent.intentId && Recorded(log, intent.intentId) == Some(result)
  }

  lemma AnswerStays(log: Log, later: Log, intent: Intent, result: ExecutionResult)
    requires Answered(log, intent, result) && View(later) == View(log)
    ensures Answered(later, intent, result)
  {
    ViewMeaning(log, intent.intentId);
    ViewMeaning(later, intent.intentId);
  }

  // What of a plan was handed to the adapters.
  datatype Handed = Handed(plan: Plan, entered: bool, acted: nat)

  predicate Within(h: Handed) {
    (h.entered ==> h.plan.entry.Some?) && h.acted <= |h.plan.actions|
  }

  // A cycle reports the ledger's own answer to the planned intent and the answers to a
  // prefix of the planned actions. Only the last call may have gone without an answer.
  ghost predicate CycleOk(c: Cycle, log: Log, h: Handed) {
    && c.plan == h.plan
    && (c.entryResult.Some? ==>
          h.entered && c.plan.entry.Some? && Answered(log, c.plan.entry.value, c.entryResult.value))
    && c.actionResults <= c.plan.actions
    && |c.actionResults| <= h.acted <= |c.actionResults| + 1
  }

  class RuntimeOrchestrator {
    const mode: RuntimeMode
    const ledger: SQLiteExecutionLedger
    const entryAdapter: DemoExecutionAdapter?
    const hasPositionAdapter: bool
    const hasGateway: bool
    const hash: ContentHash
    ghost const submittedBefore: nat
    var controls: Controls
    var phase: Phase
    var readiness: Option<ResumeReadiness>
    var reconciliation: Option<Report>
    var continuity: Continuity
    var sourceSequence: int
    ghost var trace: Trace

    ghost predicate HistoryOk()
      reads this`trace, this`controls, this`sourceSequence
    {
      && ProperTrace(trace, mode)
      && controls == ControlsAfter(trace)
      && ExceedsAll(trace, sourceSequence)
    }

    ghost predicate DurableOk()
      reads this`reconciliation, ledger
    {
      && Injective(hash)
      && LedgerOk(ledger.log, hash)
      && (reconciliation.Some? ==> LatestReport(ledger.log) == reconciliation)
    }

    // Every submission made through the entry adapter belongs to a recorded, gated call.
    ghost predicate SubmissionsAreCalls()
      reads this`trace, entryAdapter
    {
      entryAdapter != null ==>
        && entryAdapter.ledger == ledger
        && forall k :: submittedBefore <= k < |entryAdapter.submissions| ==>
             EntryIn(trace, entryAdapter.submissions[k].intent)
    }

    // Holds at every point of every method, not only between calls.
    ghost predicate Valid()
      reads this, ledger, entryAdapter
    {
      HistoryOk() && DurableOk() && SubmissionsAreCalls()
    }

    // Holds between calls: the phase is what the history comes to, and not a transient one;
    // no number was allocated before startup.
    ghost predicate AtRest()
      reads this
    {
      && phase == PhaseAfter(trace)
      && (phase == CREATED || phase == PHASE_SAFE || phase == PHASE_BLOCKED || phase == STOPPING || phase == STOPPED)
      && (phase == CREATED ==> ExceedsAll(trace, 0))
    }

    constructor (
      mode: RuntimeMode, ledger: SQLiteExecutionLedger, entryAdapter: DemoExecutionAdapter?,
      hasPositionAdapter: bool, hasGateway: bool, hash: ContentHash, continuity: Continuity)
      requires Injective(hash) && LedgerOk(ledger.log, hash)
      requires entryAdapter != null ==> entryAdapter.ledger == ledger
      ensures Valid() && AtRest() && trace == [] && phase == CREATED
      ensures this.mode == mode && this.ledger == ledger && this.entryAdapter == entryAdapter
    {
      this.mode, this.ledger, this.entryAdapter := mode, ledger, entryAdapter;
      this.hasPositionAdapter, this.hasGateway, this.hash := hasPositionAdapter, hasGateway, hash;
      controls, phase, readiness, reconciliation := NO_CONTROLS, CREATED, None, None;
      this.continuity, sourceSequence, trace := continuity, 1_000_000, [];
      submittedBefore := if entryAdapter == null then 0 else |entryAdapter.submissions|;
    }

    // Appends one happening to the history.
    ghost method Note(h: Happening)
      requires ProperTrace(trace, mode) && Proper(trace, h, mode)
      modifies this`trace
      ensures trace == old(trace) + [h]
      ensures ProperTrace(trace, mode)
      ensures StandingAfter(trace) == Moved(StandingAfter(old(trace)), h)
      ensures old(SubmissionsAreCalls()) ==> SubmissionsAreCalls()
    {
      Extend(trace, h, mode);
      trace := trace + [h];
    }

    method SetOperatorControls(next: Controls) returns (accepted: bool)
      requires Valid() && AtRest()
      modifies this
      ensures Valid() && AtRest() && phase == old(phase) && ledger.log == old(ledger.log)
      ensures accepted <==> (old(controls).killSwitch ==> next.killSwitch)
      ensures controls == if accepted then next else old(controls)
      ensures trace == old(trace) + if accepted then [ControlsSet(next)] else []
    {
      if controls.killSwitch && !next.killSwitch {
        return false;
      }
      Note(ControlsSet(next));
      controls := next;
      return true;
    }

    method ResumeNewEntries() returns (accepted: bool)
      requires Valid() && AtRest()
      modifies this
      ensures Valid() && AtRest() && phase == old(phase) && ledger.log == old(ledger.log)
      ensures accepted <==> && phase == PHASE_SAFE
                            && readiness.Some? && readiness.value.status == SAFE
                            && !old(controls).executionDisabled && !old(controls).killSwitch
      ensures controls == if accepted then old(controls).(pauseNewEntries := false) else old(controls)
      ensures trace == old(trace) + if accepted then [ControlsSet(controls)] else []
    {
      if phase != PHASE_SAFE || readiness.None? || readiness.value.status != SAFE
         || controls.executionDisabled || controls.killSwitch {
        return false;
      }
      Note(ControlsSet(controls.(pauseNewEntries := false)));
      controls := controls.(pauseNewEntries := false);
      return true;
    }

    // The broker snapshot becomes six runtime events, each under a number of its own.
    // false stands for an exception raised by the reducer.
    method ReduceSnapshot() returns (reduced: bool)
      requires HistoryOk() && SubmissionsAreCalls()
      modifies this`trace, this`sourceSequence
      ensures HistoryOk() && SubmissionsAreCalls()
      ensures 1 <= sourceSequence - old(sourceSequence) <= 6
      ensures reduced ==> sourceSequence == old(sourceSequence) + 6
      ensures Numbering(old(trace), old(sourceSequence), sourceSequence - old(sourceSequence))
    {
      for offset := 0 to 6
        invariant HistoryOk() && SubmissionsAreCalls() && Numbering(old(trace), old(sourceSequence), offset)
      {
        TakeNext(old(trace), old(sourceSequence), offset);
        reduced := Succeeds();
        if !reduced {
          return;
        }
      }
      reduced := true;
    }

    // Since a point in time nothing happened but that many sequences were taken.
    ghost predicate Numbering(since: Trace, first: int, count: nat)
      reads this`trace, this`sourceSequence
    {
      && sourceSequence == first + count
      && trace == since + Numbers(first, count)
      && Quiet(since, trace)
      && PhaseAfter(trace) == PhaseAfter(since)
    }

    method TakeNext(ghost since: Trace, ghost first: int, ghost count: nat)
      requires HistoryOk() && SubmissionsAreCalls() && Numbering(since, first, count)
      modifies this`trace, this`sourceSequence
      ensures HistoryOk() && SubmissionsAreCalls() && Numbering(since, first, count + 1)
    {
      OneMoreNumber(since, first, count);
      TakeNumber();
    }

    method TakeNumber()
      requires HistoryOk() && SubmissionsAreCalls()
      modifies this`trace, this`sourceSequence
      ensures HistoryOk() && SubmissionsAreCalls()
      ensures trace == old(trace) + [SequenceTaken(old(sourceSequence))]
      ensures sourceSequence == old(sourceSequence) + 1
      ensures Quiet(old(trace), trace) && PhaseAfter(trace) == PhaseAfter(old(trace))
    {
      Note(SequenceTaken(sourceSequence));
      sourceSequence := sourceSequence + 1;
    }

    // Moves the phase, and says so in the history.
    method Move(ghost h: Happening, next: Phase)
      requires HistoryOk() && SubmissionsAreCalls()
      requires Proper(trace, h, mode) && PhaseOf(h) == Some(next)
      modifies this`trace, this`phase
      ensures HistoryOk() && SubmissionsAreCalls()
      ensures phase == next == PhaseAfter(trace)
      ensures trace == old(trace) + [h] && Quiet(old(trace), trace)
    {
      Note(h);
      phase := next;
    }

    method Block()
      requires HistoryOk() && SubmissionsAreCalls()
      modifies this`trace, this`phase
      ensures HistoryOk() && SubmissionsAreCalls()
      ensures phase == PHASE_BLOCKED == PhaseAfter(trace) && Quiet(old(trace), trace)
    {
      Move(Blocked, PHASE_BLOCKED);
    }

    // The report always supersedes the ledger's latest one, so appending it never fails.
    method CompareWithBroker(snapshot: Snapshot)
      requires DurableOk()
      requires forall o :: o in Objects(snapshot) ==> 0 < o.objectId
      modifies this`reconciliation, ledger
      ensures DurableOk()
      ensures old(ledger.log) <= ledger.log && View(ledger.log) == View(old(ledger.log))
      ensures reconciliation.Some? && Describes(reconciliation.value, snapshot, View(ledger.log))
      ensures reconciliation.value.content.supersedes == NextSupersedes(Reports(old(ledger.log)))
      ensures Reports(ledger.log) == Reports(old(ledger.log)) + [reconciliation.value]
    {
      var prior := reconciliation;
      if prior.None? {
        prior := ledger.LatestReconciliation();
      }
      ghost var results := Listing(View(ledger.log).results);
      ghost var content := ContentOf(snapshot, results, snapshot.availableAt, prior);
      ghost var expected := Report(hash(content), content);
      ReportKeepsLedgerOk(ledger.log, expected, hash);
      var outcome := Reconciliation.Reconcile(ledger, snapshot, snapshot.availableAt, prior, hash);
      assert outcome == Success(expected);
      reconciliation := Some(outcome.value);
    }

    method Validate(snapshot: Snapshot, ghost memory: Memory) returns (ran: bool)
      requires HistoryOk() && SubmissionsAreCalls()
      requires reconciliation.Some?
      requires Describes(reconciliation.value, snapshot, memory)
      modifies this`readiness, this`phase, this`trace
      ensures HistoryOk() && SubmissionsAreCalls()
      ensures Quiet(old(trace), trace)
      ensures ran ==> Settled(trace, readiness, phase, memory, mode)
    {
      phase := VALIDATING;
      var runtime, theses := RunnerState();
      var r := EvaluateReadiness(runtime, reconciliation.value, theses, snapshot.availableAt, continuity);
      readiness := Some(r);
      var journaled := Succeeds();
      var anomaly, known := AnyAnomaly();
      if !journaled || !known {
        return false;
      }
      ghost var refresh := Refresh(snapshot, memory, reconciliation.value, runtime, theses, continuity, r, anomaly);
      RefreshIsFaithful(refresh);
      Judge(runtime, r, anomaly, refresh);
      return true;
    }

    // Blocks unless the refresh is acceptable.
    method Judge(runtime: RuntimeState, r: ResumeReadiness, anomaly: bool, ghost refresh: Refresh)
      requires HistoryOk() && SubmissionsAreCalls() && phase == VALIDATING && reconciliation.Some?
      requires Faithful(refresh) && refresh.report == reconciliation.value
      requires refresh.runtime == runtime && refresh.readiness == r && refresh.anomaly == anomaly
      requires readiness == Some(r)
      modifies this`phase, this`trace
      ensures HistoryOk() && SubmissionsAreCalls()
      ensures trace == old(trace) + [Refreshed(refresh, Acceptable(refresh, mode))] && Quiet(old(trace), trace)
      ensures Settled(trace, readiness, phase, refresh.memory, mode)
    {
      Note(Refreshed(refresh, Acceptable(refresh, mode)));
      var recoverable := mode == SHADOW && ShadowRecoverable(r.reasons, reconciliation.value.content.status, runtime);
      if anomaly || (r.status != SAFE && !recoverable) {
        phase := PHASE_BLOCKED;
      }
    }

    // Reads the broker once, reduces what it shows, compares, and re-evaluates readiness.
    // false stands for an exception; the ledger's supersession guard is never its cause.
    method RefreshBroker() returns (ran: bool)
      requires Valid()
      modifies this, ledger
      ensures Valid() && controls == old(controls)
      ensures old(ledger.log) <= ledger.log && View(ledger.log) == View(old(ledger.log)) && Quiet(old(trace), trace)
      ensures ran ==> Settled(trace, readiness, phase, View(ledger.log), mode)
    {
      var captured := Capture();
      if captured.None? {
        return false;
      }
      var reduced := ReduceSnapshot();
      if !reduced {
        return false;
      }
      ran := CompareAndValidate(captured.value);
    }

    method CompareAndValidate(snapshot: Snapshot) returns (ran: bool)
      requires Valid()
      requires forall o :: o in Objects(snapshot) ==> 0 < o.objectId
      modifies this`phase, this`reconciliation, this`readiness, this`trace, ledger
      ensures Valid()
      ensures old(ledger.log) <= ledger.log && View(ledger.log) == View(old(ledger.log)) && Quiet(old(trace), trace)
      ensures ran ==> Settled(trace, readiness, phase, View(ledger.log), mode)
    {
      var compared := CompareAndJournal(snapshot);
      if !compared {
        return false;
      }
      ran := Validate(snapshot, View(ledger.log));
    }

    method CompareAndJournal(snapshot: Snapshot) returns (ok: bool)
      requires DurableOk()
      requires forall o :: o in Objects(snapshot) ==> 0 < o.objectId
      modifies this`phase, this`reconciliation, ledger
      ensures DurableOk()
      ensures old(ledger.log) <= ledger.log && View(ledger.log) == View(old(ledger.log))
      ensures reconciliation.Some? && Describes(reconciliation.value, snapshot, View(ledger.log))
    {
      phase := RECONCILING;
      CompareWithBroker(snapshot);
      ok := Succeeds();
    }

    // The declaration of safety after a refresh, or the block.
    method Conclude(ran: bool)
      requires HistoryOk() && SubmissionsAreCalls() && LiveMode(mode)
      requires ran ==> Settled(trace, readiness, phase, View(ledger.log), mode)
      modifies this`trace, this`phase
      ensures HistoryOk() && SubmissionsAreCalls()
      ensures Quiet(old(trace), trace)
      ensures phase == PhaseAfter(trace)
      ensures phase == if ran && old(phase) != PHASE_BLOCKED then PHASE_SAFE else PHASE_BLOCKED
      ensures !ran ==> trace == old(trace) + [RefreshFailed]
      ensures phase == PHASE_SAFE ==> DeclaredSafe(trace, readiness, View(ledger.log), mode)
    {
      if !ran {
        Move(RefreshFailed, PHASE_BLOCKED);
      } else if phase != PHASE_BLOCKED {
        Move(EnteredSafe, PHASE_SAFE);
      }
    }

    method RefreshAndSettle() returns (ran: bool)
      requires Valid() && LiveMode(mode)
      modifies this, ledger
      ensures Valid() && AtRest() && controls == old(controls)
      ensures old(ledger.log) <= ledger.log && View(ledger.log) == View(old(ledger.log)) && Quiet(old(trace), trace)
      ensures phase == PHASE_SAFE || phase == PHASE_BLOCKED
      ensures phase == PHASE_SAFE ==> ran && DeclaredSafe(trace, readiness, View(ledger.log), mode)
      ensures !ran ==> phase == PHASE_BLOCKED && trace != [] && trace[|trace| - 1] == RefreshFailed
    {
      ran := RefreshBroker();
      Conclude(ran);
    }

    method RevalidateBeforeMutation() returns (safe: bool)
      requires Valid() && LiveMode(mode)
      modifies this, ledger
      ensures Valid() && AtRest() && controls == old(controls)
      ensures old(ledger.log) <= ledger.log && View(ledger.log) == View(old(ledger.log)) && Quiet(old(trace), trace)
      ensures phase == PHASE_SAFE || phase == PHASE_BLOCKED
      ensures safe ==> phase == PHASE_SAFE && JustEnteredSafe(trace, View(ledger.log))
    {
      var ran := RefreshAndSettle();
      safe := phase == PHASE_SAFE && readiness.Some? && readiness.value.status == SAFE;
    }

    method RefreshSnapshotIfDue() returns (refreshed: bool, ghost attempted: bool)
      requires Valid() && AtRest()
      modifies this, ledger
      ensures Valid() && AtRest() && controls == old(controls)
      ensures old(ledger.log) <= ledger.log && View(ledger.log) == View(old(ledger.log)) && Quiet(old(trace), trace)
      ensures !attempted ==> !refreshed && unchanged(this) && unchanged(ledger)
      ensures attempted ==> LiveMode(mode) && (phase == PHASE_SAFE || phase == PHASE_BLOCKED)
      ensures attempted && !refreshed ==> phase == PHASE_BLOCKED && trace != [] && trace[|trace| - 1] == RefreshFailed
      ensures attempted && phase == PHASE_SAFE ==> DeclaredSafe(trace, readiness, View(ledger.log), mode)
    {
      if mode != SHADOW && mode != MODE_DEMO {
        return false, false;
      }
      var due := Succeeds();
      if !due {
        return false, false;
      }
      refreshed := RefreshAndSettle();
      attempted := true;
    }

    // Recovery from CREATED; in any other phase nothing happens.
    method Startup()
      requires Valid() && AtRest()
      modifies this, ledger
      ensures Valid() && AtRest() && controls == old(controls)
      ensures old(ledger.log) <= ledger.log && View(ledger.log) == View(old(ledger.log)) && Quiet(old(trace), trace)
      ensures old(phase) != CREATED ==> unchanged(this) && unchanged(ledger)
      ensures old(phase) == CREATED ==> phase == PHASE_SAFE || phase == PHASE_BLOCKED
      ensures old(phase) == CREATED && phase == PHASE_SAFE && LiveMode(mode) ==>
                DeclaredSafe(trace, readiness, View(ledger.log), mode)
    {
      if phase != CREATED {
        return;
      }
      phase := OPENING_STORES;
      phase := RESTORING;
      var cursor, restored, backfilled, connected := Restore();
      if cursor.Some? {
        sourceSequence := cursor.value + 1;
      }
      if backfilled.Some? {
        continuity := backfilled.value;
      }
      if !restored {
        Block();
      } else {
        Open(connected);
      }
    }

    method Open(connected: bool)
      requires Valid() && phase == RESTORING && PhaseAfter(trace) == CREATED
      modifies this, ledger
      ensures Valid() && AtRest() && controls == old(controls)
      ensures old(ledger.log) <= ledger.log && View(ledger.log) == View(old(ledger.log)) && Quiet(old(trace), trace)
      ensures phase == PHASE_SAFE || phase == PHASE_BLOCKED
      ensures phase == PHASE_SAFE && LiveMode(mode) ==> DeclaredSafe(trace, readiness, View(ledger.log), mode)
    {
      if mode == MODE_DISABLED || mode == REPLAY {
        Move(EnteredSafe, PHASE_SAFE);
      } else if !hasGateway || !connected {
        Block();
      } else {
        phase := SNAPSHOTTING;
        var ran := RefreshAndSettle();
      }
    }

    // The answer of a transport becomes a runtime event; false stands for an exception.
    method ApplyFeedback() returns (ok: bool)
      requires HistoryOk() && SubmissionsAreCalls()
      modifies this`trace, this`sourceSequence
      ensures HistoryOk() && SubmissionsAreCalls()
      ensures Quiet(old(trace), trace) && PhaseAfter(trace) == PhaseAfter(old(trace))
    {
      var converted := Succeeds();
      if !converted {
        return false;
      }
      TakeNumber();
      ok := Succeeds();
    }

    // One guarded entry call. The adapter's own exceptions arrive as Raised.
    method CallEntry(intent: Intent) returns (outcome: Execution)
      requires Valid() && AtRest() && phase == PHASE_SAFE && ValidIntent(intent) && entryAdapter != null
      requires CallGate(trace, View(ledger.log), mode) && !controls.pauseNewEntries
      modifies this`trace, ledger, entryAdapter
      ensures Valid() && AtRest()
      ensures trace == old(trace) + [EntryCalled(intent, View(old(ledger.log)))]
      ensures EventsIn(trace) == EventsIn(old(trace)) && CallsIn(trace) == CallsIn(old(trace)) + [EntryOf(intent)]
      ensures old(ledger.log) <= ledger.log
      ensures outcome.Returned? ==> Answered(ledger.log, intent, outcome.result)
    {
      Note(EntryCalled(intent, View(ledger.log)));
      assert EntryIn(trace, intent);
      outcome := Execute(intent);
    }

    method Execute(intent: Intent) returns (outcome: Execution)
      requires DurableOk() && SubmissionsAreCalls() && ValidIntent(intent) && entryAdapter != null
      requires EntryIn(trace, intent)
      modifies ledger, entryAdapter
      ensures DurableOk() && SubmissionsAreCalls()
      ensures old(ledger.log) <= ledger.log
      ensures outcome.Returned? ==> Answered(ledger.log, intent, outcome.result)
    {
      var environment := AnyEnvironment();
      ExecutionKeepsLedgerOk(entryAdapter.policy, ledger.log, intent, environment, hash);
      ReturnedIsRecorded(entryAdapter.policy, ledger.log, intent, environment);
      outcome := entryAdapter.Execute(intent, environment);
    }

    // Journals a transport's answer, feeds it back and looks at the broker again.
    method AfterAnswer() returns (ok: bool)
      requires Valid() && LiveMode(mode) && AtRest() && phase == PHASE_SAFE
      modifies this, ledger
      ensures Valid() && AtRest() && controls == old(controls) && (phase == PHASE_SAFE || phase == PHASE_BLOCKED)
      ensures old(ledger.log) <= ledger.log && View(ledger.log) == View(old(ledger.log)) && Quiet(old(trace), trace)
    {
      var journaled := Succeeds();
      if !journaled {
        return false;
      }
      ok := ApplyFeedback();
      if ok {
        var ran := RefreshAndSettle();
      }
    }

    // Revalidates and calls the entry adapter. None stands for an exception out of
    // process_event, Some(None) for an entry that gave no result.
    method AttemptEntry(intent: Intent) returns (results: Option<Option<ExecutionResult>>, ghost entered: bool)
      requires Valid() && ValidIntent(intent) && entryAdapter != null
      requires mode == MODE_DEMO && !controls.pauseNewEntries && !MutationBlocked(controls)
      modifies this, ledger, entryAdapter
      ensures Valid() && AtRest() && controls == old(controls) && (phase == PHASE_SAFE || phase == PHASE_BLOCKED)
      ensures old(ledger.log) <= ledger.log && old(trace) <= trace
      ensures EventsIn(trace) == EventsIn(old(trace))
      ensures CallsIn(trace) == CallsIn(old(trace)) + if entered then [EntryOf(intent)] else []
      ensures results.Some? && results.value.Some? ==> entered && Answered(ledger.log, intent, results.value.value)
    {
      var outcome := RevalidateAndCall(intent);
      if outcome.None? {
        return Some(None), false;
      }
      results := FinishEntry(intent, outcome.value);
      entered := true;
    }

    // None stands for a revalidation that was not safe: nothing was called.
    method RevalidateAndCall(intent: Intent) returns (outcome: Option<Execution>)
      requires Valid() && ValidIntent(intent) && entryAdapter != null
      requires mode == MODE_DEMO && !controls.pauseNewEntries && !MutationBlocked(controls)
      modifies this, ledger, entryAdapter
      ensures Valid() && AtRest() && controls == old(controls) && (phase == PHASE_SAFE || phase == PHASE_BLOCKED)
      ensures old(ledger.log) <= ledger.log && old(trace) <= trace
      ensures EventsIn(trace) == EventsIn(old(trace))
      ensures CallsIn(trace) == CallsIn(old(trace)) + if outcome.Some? then [EntryOf(intent)] else []
      ensures outcome.Some? ==> phase == PHASE_SAFE
      ensures outcome.Some? && outcome.value.Returned? ==> Answered(ledger.log, intent, outcome.value.result)
    {
      var safe := RevalidateBeforeMutation();
      if !safe {
        return None;
      }
      var called := CallEntry(intent);
      outcome := Some(called);
    }

    // What follows an answer, or an exception, of the entry adapter.
    method FinishEntry(intent: Intent, outcome: Execution) returns (results: Option<Option<ExecutionResult>>)
      requires Valid() && LiveMode(mode) && AtRest() && phase == PHASE_SAFE
      requires outcome.Returned? ==> Answered(ledger.log, intent, outcome.result)
      modifies this, ledger
      ensures Valid() && AtRest() && controls == old(controls) && (phase == PHASE_SAFE || phase == PHASE_BLOCKED)
      ensures old(ledger.log) <= ledger.log && Quiet(old(trace), trace)
      ensures results.Some? && results.value.Some? ==>
                outcome == Returned(results.value.value) && Answered(ledger.log, intent, outcome.result)
    {
      if outcome.Raised? {
        Block();
        return Some(None);
      }
      var ok := AfterAnswer();
      AnswerStays(old(ledger.log), ledger.log, intent, outcome.result);
      results := if ok then Some(Some(outcome.result)) else None;
    }

    // The entry branch of an event.
    method TryEntry(plan: Plan) returns (results: Option<Option<ExecutionResult>>, ghost entered: bool)
      requires Valid() && AtRest() && phase == PHASE_SAFE
      requires plan.entry.Some? ==> ValidIntent(plan.entry.value)
      modifies this, ledger, entryAdapter
      ensures Valid() && AtRest() && controls == old(controls) && (phase == PHASE_SAFE || phase == PHASE_BLOCKED)
      ensures old(ledger.log) <= ledger.log && old(trace) <= trace
      ensures entered ==> plan.entry.Some?
      ensures entered ==> mode == MODE_DEMO && !controls.pauseNewEntries && !MutationBlocked(controls)
      ensures EventsIn(trace) == EventsIn(old(trace))
      ensures CallsIn(trace) == CallsIn(old(trace)) + if entered then [EntryOf(plan.entry.value)] else []
      ensures results.Some? && results.value.Some? ==>
                entered && Answered(ledger.log, plan.entry.value, results.value.value)
    {
      if plan.entry.None? || mode != MODE_DEMO || controls.pauseNewEntries || MutationBlocked(controls) {
        return Some(None), false;
      }
      if entryAdapter == null {
        Block();
        return Some(None), false;
      }
      results, entered := AttemptEntry(plan.entry.value);
    }

    // One guarded call of the position-action adapter; false stands for its exception.
    method CallAction(id: Id) returns (executed: bool)
      requires HistoryOk() && SubmissionsAreCalls() && CallGate(trace, View(ledger.log), mode)
      modifies this`trace
      ensures HistoryOk() && SubmissionsAreCalls()
      ensures trace == old(trace) + [ActionCalled(id, View(ledger.log))]
      ensures PhaseAfter(trace) == PhaseAfter(old(trace))
      ensures EventsIn(trace) == EventsIn(old(trace)) && CallsIn(trace) == CallsIn(old(trace)) + [ActionOf(id)]
    {
      Note(ActionCalled(id, View(ledger.log)));
      executed := Succeeds();
    }

    // Revalidates and calls the position-action adapter once.
    method AttemptAction(id: Id) returns (attempt: Attempt)
      requires Valid() && mode == MODE_DEMO && !MutationBlocked(controls)
      modifies this, ledger
      ensures Valid() && AtRest() && controls == old(controls) && (phase == PHASE_SAFE || phase == PHASE_BLOCKED)
      ensures old(ledger.log) <= ledger.log && View(ledger.log) == View(old(ledger.log)) && old(trace) <= trace
      ensures EventsIn(trace) == EventsIn(old(trace))
      ensures CallsIn(trace) == CallsIn(old(trace)) + if attempt == NOT_SAFE then [] else [ActionOf(id)]
      ensures attempt == CALL_RAISED ==> phase == PHASE_BLOCKED
    {
      var safe := RevalidateBeforeMutation();
      if !safe {
        return NOT_SAFE;
      }
      var executed := CallAction(id);
      if !executed {
        Block();
        return CALL_RAISED;
      }
      var ok := AfterAnswer();
      attempt := if ok then ANSWERED else AFTERWARDS_RAISED;
    }

    // The position branch of an event: each action needs a fresh SAFE refresh of its own.
    method TryActions(plan: Plan) returns (results: Option<seq<Id>>, ghost acted: nat)
      requires Valid() && AtRest() && (phase == PHASE_SAFE || phase == PHASE_BLOCKED)
      modifies this, ledger
      ensures Valid() && AtRest() && controls == old(controls) && (phase == PHASE_SAFE || phase == PHASE_BLOCKED)
      ensures old(ledger.log) <= ledger.log && View(ledger.log) == View(old(ledger.log))
      ensures 0 < acted ==> mode == MODE_DEMO && !MutationBlocked(controls)
      ensures Acted(plan.actions, acted, old(trace))
      ensures results.Some? ==> results.value <= plan.actions && |results.value| <= acted <= |results.value| + 1
    {
      if plan.actions == [] || mode != MODE_DEMO || MutationBlocked(controls) {
        return Some([]), 0;
      }
      if !hasPositionAdapter {
        Block();
        return Some([]), 0;
      }
      results, acted := ActEach(plan.actions);
    }

    // Since a point in time the first so many of these actions were called, in order, and
    // nothing else was.
    ghost predicate Acted(actions: seq<Id>, acted: nat, since: Trace)
      reads this`trace
    {
      && acted <= |actions|
      && since <= trace
      && EventsIn(trace) == EventsIn(since)
      && CallsIn(trace) == CallsIn(since) + ActionCalls(actions[..acted])
    }

    method ActEach(actions: seq<Id>) returns (results: Option<seq<Id>>, ghost acted: nat)
      requires Valid() && AtRest() && (phase == PHASE_SAFE || phase == PHASE_BLOCKED)
      requires mode == MODE_DEMO && !MutationBlocked(controls)
      modifies this, ledger
      ensures Valid() && AtRest() && controls == old(controls) && (phase == PHASE_SAFE || phase == PHASE_BLOCKED)
      ensures old(ledger.log) <= ledger.log && View(ledger.log) == View(old(ledger.log))
      ensures Acted(actions, acted, old(trace))
      ensures results.Some? ==> results.value <= actions && |results.value| <= acted <= |results.value| + 1
    {
      var answered, last, called := ActWhileSafe(actions);
      acted := called;
      results := if last == AFTERWARDS_RAISED then None else Some(actions[..answered]);
    }

    // Calls one action after another until one of them is not answered; last says how the
    // last attempt went.
    method ActWhileSafe(actions: seq<Id>) returns (answered: nat, last: Attempt, ghost acted: nat)
      requires Valid() && AtRest() && (phase == PHASE_SAFE || phase == PHASE_BLOCKED)
      requires mode == MODE_DEMO && !MutationBlocked(controls)
      modifies this, ledger
      ensures Valid() && AtRest() && controls == old(controls) && (phase == PHASE_SAFE || phase == PHASE_BLOCKED)
      ensures old(ledger.log) <= ledger.log && View(ledger.log) == View(old(ledger.log))
      ensures Acted(actions, acted, old(trace)) && answered <= acted <= answered + 1
    {
      last := ANSWERED;
      for k := 0 to |actions|
        invariant Valid() && AtRest() && controls == old(controls)
        invariant phase == PHASE_SAFE || phase == PHASE_BLOCKED
        invariant old(ledger.log) <= ledger.log && View(ledger.log) == View(old(ledger.log))
        invariant Acted(actions, k, old(trace))
      {
        last := ActNext(actions, k, old(trace));
        if last != ANSWERED {
          return k, last, if last == NOT_SAFE then k else k + 1;
        }
      }
      return |actions|, last, |actions|;
    }

    method ActNext(actions: seq<Id>, k: nat, ghost since: Trace) returns (attempt: Attempt)
      requires Valid() && mode == MODE_DEMO && !MutationBlocked(controls)
      requires k < |actions| && Acted(actions, k, since)
      modifies this, ledger
      ensures Valid() && AtRest() && controls == old(controls) && (phase == PHASE_SAFE || phase == PHASE_BLOCKED)
      ensures old(ledger.log) <= ledger.log && View(ledger.log) == View(old(ledger.log))
      ensures Acted(actions, if attempt == NOT_SAFE then k else k + 1, since)
    {
      attempt := AttemptAction(actions[k]);
      OneMoreAction(CallsIn(since), actions, k);
    }

    // One outside event. None stands for an exception raised to the caller.
    method ProcessEvent(number: nat) returns (cycle: Option<Cycle>, ghost taken: bool, ghost handed: Handed)
      requires Valid() && AtRest()
      modifies this, ledger, entryAdapter
      ensures Valid() && AtRest() && controls == old(controls)
      ensures old(ledger.log) <= ledger.log && old(trace) <= trace
      ensures old(phase) != PHASE_SAFE ==> cycle.None? && !taken && unchanged(this) && unchanged(ledger)
      ensures old(phase) == PHASE_SAFE ==> phase == PHASE_SAFE || phase == PHASE_BLOCKED
      ensures EventsIn(trace) == EventsIn(old(trace)) + if taken then [number] else []
      ensures Within(handed) && CallsIn(trace) == CallsIn(old(trace)) + Asked(handed.plan, handed.entered, handed.acted)
      ensures handed.entered || 0 < handed.acted ==> taken && mode == MODE_DEMO && !MutationBlocked(controls)
      ensures handed.entered ==> !controls.pauseNewEntries
      ensures cycle.Some? ==> taken && CycleOk(cycle.value, ledger.log, handed)
    {
      handed, taken := Handed(Plan(None, []), false, 0), false;
      if phase != PHASE_SAFE {
        return None, taken, handed;
      }
      var accepted := Succeeds();
      if !accepted {
        return None, taken, handed;
      }
      TakeEvent(number);
      taken := true;
      var decided := MakePlan();
      var plan := if decided.Some? then decided.value else Plan(None, []);
      var journaled := Succeeds();
      if !journaled {
        return None, taken, handed;
      }
      cycle, handed := Mutate(plan);
    }

    // The entry branch, then the position branch.
    method Mutate(plan: Plan) returns (cycle: Option<Cycle>, ghost handed: Handed)
      requires Valid() && AtRest() && phase == PHASE_SAFE
      requires plan.entry.Some? ==> ValidIntent(plan.entry.value)
      modifies this, ledger, entryAdapter
      ensures Valid() && AtRest() && controls == old(controls) && (phase == PHASE_SAFE || phase == PHASE_BLOCKED)
      ensures old(ledger.log) <= ledger.log && old(trace) <= trace
      ensures EventsIn(trace) == EventsIn(old(trace))
      ensures Within(handed) && CallsIn(trace) == CallsIn(old(trace)) + Asked(handed.plan, handed.entered, handed.acted)
      ensures handed.entered || 0 < handed.acted ==> mode == MODE_DEMO && !MutationBlocked(controls)
      ensures handed.entered ==> !controls.pauseNewEntries
      ensures cycle.Some? ==> CycleOk(cycle.value, ledger.log, handed)
    {
      var entry, entered := TryEntry(plan);
      if entry.None? {
        return None, Handed(plan, entered, 0);
      }
      label Entered:
      cycle, handed := ActAndReport(plan, entry.value, entered);
      JoinedCalls(CallsIn(old(trace)), CallsIn(old@Entered(trace)), CallsIn(trace), handed);
    }

    // The position branch, and what the cycle reports.
    method ActAndReport(plan: Plan, entry: Option<ExecutionResult>, ghost entered: bool)
      returns (cycle: Option<Cycle>, ghost handed: Handed)
      requires Valid() && AtRest() && (phase == PHASE_SAFE || phase == PHASE_BLOCKED)
      requires entered ==> plan.entry.Some?
      requires entry.Some? ==> entered && Answered(ledger.log, plan.entry.value, entry.value)
      modifies this, ledger
      ensures Valid() && AtRest() && controls == old(controls) && (phase == PHASE_SAFE || phase == PHASE_BLOCKED)
      ensures old(ledger.log) <= ledger.log
      ensures handed.plan == plan && handed.entered == entered && Acted(plan.actions, handed.acted, old(trace))
      ensures 0 < handed.acted ==> mode == MODE_DEMO && !MutationBlocked(controls)
      ensures cycle.Some? ==> CycleOk(cycle.value, ledger.log, handed)
    {
      var actions, acted := TryActions(plan);
      handed := Handed(plan, entered, acted);
      if actions.None? {
        return None, handed;
      }
      if entry.Some? {
        AnswerStays(old(ledger.log), ledger.log, plan.entry.value, entry.value);
      }
      return Some(Cycle(plan, entry, actions.value)), handed;
    }

    method TakeEvent(number: int)
      requires HistoryOk() && SubmissionsAreCalls() && PhaseAfter(trace) == PHASE_SAFE
      modifies this`trace, this`sourceSequence
      ensures HistoryOk() && SubmissionsAreCalls() && PhaseAfter(trace) == PHASE_SAFE
      ensures trace == old(trace) + [EventProcessed(number)]
      ensures EventsIn(trace) == EventsIn(old(trace)) + [number] && CallsIn(trace) == CallsIn(old(trace))
      ensures sourceSequence == if old(sourceSequence) < number + 1 then number + 1 else old(sourceSequence)
    {
      Note(EventProcessed(number));
      sourceSequence := if sourceSequence < number + 1 then number + 1 else sourceSequence;
    }

    // A shutdown that fails on the way stays STOPPING: the phase is not settled by it.
    method Shutdown() returns (stopped: bool)
      requires Valid() && AtRest()
      modifies this
      ensures Valid() && AtRest() && controls == old(controls)
      ensures phase == if stopped then STOPPED else STOPPING
      ensures trace == old(trace) + if stopped then [StopBegun, StopFinished] else [StopBegun]
      ensures Quiet(old(trace), trace)
    {
      Move(StopBegun, STOPPING);
      stopped := Succeeds();
      if stopped {
        Move(StopFinished, STOPPED);
      }
    }

    // Feeds the events of a source one by one until a shutdown is requested. false stands
    // for an exception raised by an event.
    method RunSource(numbers: seq<nat>) returns (finished: bool, ghost fed: nat)
      requires Valid() && AtRest()
      modifies this, ledger, entryAdapter
      ensures Valid() && AtRest() && controls == old(controls)
      ensures old(ledger.log) <= ledger.log && old(trace) <= trace
      ensures fed <= |numbers| && EventsIn(trace) == EventsIn(old(trace)) + numbers[..fed]
      ensures finished ==> fed == if controls.shutdownRequested then 0 else |numbers|
    {
      fed := 0;
      for k := 0 to |numbers|
        invariant Valid() && AtRest() && controls == old(controls)
        invariant old(ledger.log) <= ledger.log && Fed(numbers, k, old(trace))
        invariant fed == k && (controls.shutdownRequested ==> k == 0)
      {
        if controls.shutdownRequested {
          break;
        }
        var processed, taken := FeedNext(numbers, k, old(trace));
        fed := if taken then k + 1 else k;
        if !processed {
          return false, fed;
        }
      }
      return true, fed;
    }

    // Since a point in time the first so many of these events were taken, and no other.
    ghost predicate Fed(numbers: seq<nat>, fed: nat, since: Trace)
      reads this`trace
    {
      fed <= |numbers| && since <= trace && EventsIn(trace) == EventsIn(since) + numbers[..fed]
    }

    method FeedNext(numbers: seq<nat>, k: nat, ghost since: Trace) returns (processed: bool, ghost taken: bool)
      requires Valid() && AtRest()
      requires k < |numbers| && Fed(numbers, k, since)
      modifies this, ledger, entryAdapter
      ensures Valid() && AtRest() && controls == old(controls)
      ensures old(ledger.log) <= ledger.log && Fed(numbers, if taken then k + 1 else k, since)
      ensures processed ==> taken
    {
      processed, taken := RefreshAndProcess(numbers[k]);
      assert numbers[..k + 1] == numbers[..k] + [numbers[k]];
    }

    method RefreshAndProcess(number: nat) returns (processed: bool, ghost taken: bool)
      requires Valid() && AtRest()
      modifies this, ledger, entryAdapter
      ensures Valid() && AtRest() && controls == old(controls)
      ensures old(ledger.log) <= ledger.log && old(trace) <= trace
      ensures EventsIn(trace) == EventsIn(old(trace)) + if taken then [number] else []
      ensures processed ==> taken
    {
      var refreshed, attempted := RefreshSnapshotIfDue();
      var cycle, t, handed := ProcessEvent(number);
      processed, taken := cycle.Some?, t;
    }

    // Any client at all: the guarantees hold after every sequence of public calls. Whenever
    // the phase then is SAFE, nothing has left it since the runtime was last declared safe.
    method AnyClient(calls: seq<PublicCall>)
      requires Valid() && AtRest()
      modifies this, ledger, entryAdapter
      ensures Valid() && AtRest()
      ensures old(ledger.log) <= ledger.log && old(trace) <= trace
      ensures phase == PHASE_SAFE <==> exists k :: SafeSince(trace, mode, k)
    {
      for k := 0 to |calls|
        invariant Valid() && AtRest()
        invariant old(ledger.log) <= ledger.log && old(trace) <= trace
      {
        Answer(calls[k]);
      }
      SafeFollowsARefresh(trace, mode);
    }

    method Answer(call: PublicCall)
      requires Valid() && AtRest()
      modifies this, ledger, entryAdapter
      ensures Valid() && AtRest()
      ensures old(ledger.log) <= ledger.log && old(trace) <= trace
    {
      match call {
        case CallStartup =>
          Startup();
        case CallSetControls(next) =>
          var accepted := SetOperatorControls(next);
        case CallResume =>
          var accepted := ResumeNewEntries();
        case CallRefreshIfDue =>
          var refreshed, attempted := RefreshSnapshotIfDue();
        case CallProcess(number) =>
          AnswerEvent(number);
        case CallRunSource(numbers) =>
          AnswerSource(numbers);
        case CallShutdown =>
          var stopped := Shutdown();
      }
    }

    method AnswerEvent(number: nat)
      requires Valid() && AtRest()
      modifies this, ledger, entryAdapter
      ensures Valid() && AtRest()
      ensures old(ledger.log) <= ledger.log && old(trace) <= trace
    {
      var cycle, taken, handed := ProcessEvent(number);
    }

    method AnswerSource(numbers: seq<nat>)
      requires Valid() && AtRest()
      modifies this, ledger, entryAdapter
      ensures Valid() && AtRest()
      ensures old(ledger.log) <= ledger.log && old(trace) <= trace
    {
      var finished, fed := RunSource(numbers);
    }
  }
}
