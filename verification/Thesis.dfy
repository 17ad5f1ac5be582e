/**
 The thesis and scenario lifecycle: every M5, M1 or tick event opens, continues, closes or
 replaces the one current thesis.
 */
module Thesis {
  import opened Numerics
  import opened AgentContracts
  import opened AgentMemory

  datatype EventType = M5_CLOSED | M1_CLOSED | TICK | OTHER_EVENT

  // The order in which events become known.
  datatype CausalKey = CausalKey(availableAt: Instant, sourceSequence: nat, eventId: Id)

  predicate Before(a: CausalKey, b: CausalKey) {
    a.availableAt < b.availableAt ||
    (a.availableAt == b.availableAt &&
     (a.sourceSequence < b.sourceSequence || (a.sourceSequence == b.sourceSequence && a.eventId < b.eventId)))
  }

  datatype Event = Event(
    key: CausalKey,
    eventType: EventType,
    eventTime: Instant,
    observedAt: Instant,
    symbol: Option<Id>
  )

  // A thesis is named by a hash of these values, and by nothing else.
  datatype ThesisKey = ThesisKey(
    symbol: Id,
    openedAt: Instant,
    agentName: Id,
    agentVersion: Id,
    hypothesisId: Id,
    hypothesis: Id,
    direction: Option<Direction>,
    featureSnapshotId: Option<Id>
  )

  type Proof = Evidence<ThesisKey>
  type Recollection = Memory<ThesisKey>
  type Question = AgentInput<ThesisKey>

  datatype Eligibility = NOT_ELIGIBLE | WATCHING | ELIGIBLE | CLOSED_INVALIDATED | CLOSED_EXPIRED

  datatype ScenarioStatus =
    | SC_WATCHING
    | SC_STRENGTHENED
    | SC_WEAKENED
    | SC_CONFIRMED
    | SC_INVALIDATED
    | SC_EXPIRED

  datatype Definition = Definition(name: Id, confirmation: seq<Id>, invalidation: seq<Id>)

  datatype Policy = Policy(ttlSeconds: nat, maxBars: nat, maxScenarios: nat)

  datatype Scenario = Scenario(
    parent: ThesisKey,
    name: Id,
    status: ScenarioStatus,
    confirmation: seq<Id>,
    invalidation: seq<Id>,
    matched: set<Id>,
    progress: real,
    confidence: real,
    lastMatched: Option<Id>,
    beganAt: Instant,
    updatedAt: Instant,
    expiresAt: Instant,
    eligibility: Eligibility,
    evidenceIds: seq<Id>
  )

  datatype ThesisState = ThesisState(
    thesisId: ThesisKey,
    supersedes: Option<ThesisKey>,
    symbol: Id,
    agentName: Id,
    agentVersion: Id,
    hypothesisId: Id,
    hypothesis: Id,
    direction: Option<Direction>,
    status: HypothesisStatus,
    relationship: Relationship,
    runtimeStateId: Id,
    featureSnapshotId: Option<Id>,
    beganAt: Instant,
    updatedAt: Instant,
    expiresAt: Instant,
    bars: nat,
    eligibility: Eligibility,
    scenarios: seq<Scenario>,
    evidenceIds: seq<Id>,
    latestAsOf: Instant,
    latestAvailableAt: Instant,
    memory: Recollection,
    last: CausalKey,
    lastEventTime: Instant,
    lastObservedAt: Instant
  )

  predicate Distinct(s: seq<Id>) {
    forall i, j :: 0 <= i < j < |s| ==> s[i] != s[j]
  }

  predicate ValidDefinition(d: Definition) {
    && 1 <= |d.confirmation| <= 8 && Distinct(d.confirmation)
    && |d.invalidation| <= 8 && Distinct(d.invalidation)
  }

  predicate ValidPolicy(p: Policy) {
    0 < p.ttlSeconds && 0 < p.maxBars && 0 < p.maxScenarios <= 3
  }

  // The validator of ScenarioState.
  predicate ValidScenario(s: Scenario) {
    && Unit(s.progress) && Unit(s.confidence)
    && s.beganAt <= s.updatedAt <= s.expiresAt
    && (forall name :: name in s.matched ==> name in s.confirmation)
    && (s.status == SC_CONFIRMED ==> s.eligibility == ELIGIBLE)
  }

  // The validator of ThesisState.
  predicate ValidThesis(t: ThesisState) {
    && t.beganAt <= t.updatedAt <= t.expiresAt
    && 1 <= t.bars
    && 1 <= |t.scenarios| <= 3
    && t.latestAvailableAt <= t.latestAsOf
    && (forall k :: 0 <= k < |t.scenarios| ==> t.scenarios[k].parent == t.thesisId)
    && (t.eligibility == ELIGIBLE ==> exists k :: 0 <= k < |t.scenarios| && t.scenarios[k].eligibility == ELIGIBLE)
  }

  // ----- Opening a thesis -----

  datatype ThesisError =
    | WRONG_EVENT_TYPE
    | OUTPUT_REFUSED
    | EVENT_FROM_THE_FUTURE
    | EVIDENCE_PREDATES_EVENT
    | OUT_OF_ORDER
    | MUST_BE_NEW
    | NO_SYMBOL
    | NO_SCENARIO
    | TOO_MANY_SCENARIOS
    | SCENARIO_NAMES_REPEAT
    | UNRELATED_REVERSAL
    | HYPOTHESIS_REPEATS
    | UNRELATED_THESIS
    | ANOTHER_HYPOTHESIS
    | DIVISION_BY_ZERO
    | MEMORY_REFUSED(error: MemoryError)

  function KeyFor(event: Event, e: Proof): ThesisKey
    requires event.symbol.Some?
  {
    ThesisKey(event.symbol.value, event.key.availableAt, e.agentName, e.agentVersion, e.hypothesisId, e.hypothesis,
              e.direction, e.featureSnapshotId)
  }

  function NewScenario(key: ThesisKey, d: Definition, e: Proof, openedAt: Instant, expiresAt: Instant): Scenario {
    Scenario(key, d.name, SC_WATCHING, d.confirmation, d.invalidation, {}, 0.0, e.confidence, None,
             openedAt, openedAt, expiresAt, WATCHING, [e.evidenceId])
  }

  function NewScenarios(
    key: ThesisKey, definitions: seq<Definition>, e: Proof, openedAt: Instant, expiresAt: Instant
  ): seq<Scenario> {
    seq(|definitions|, k requires 0 <= k < |definitions| => NewScenario(key, definitions[k], e, openedAt, expiresAt))
  }

  method BuildScenarios(
    key: ThesisKey, definitions: seq<Definition>, e: Proof, openedAt: Instant, expiresAt: Instant
  ) returns (built: seq<Scenario>)
    ensures built == NewScenarios(key, definitions, e, openedAt, expiresAt)
  {
    built := [];
    for k := 0 to |definitions|
      invariant built == NewScenarios(key, definitions, e, openedAt, expiresAt)[..k]
    {
      built := built + [NewScenario(key, definitions[k], e, openedAt, expiresAt)];
    }
  }

  predicate NamesRepeat(d: seq<Definition>) {
    exists i, j :: 0 <= i < j < |d| && d[i].name == d[j].name
  }

  function Opened(
    event: Event, e: Proof, policy: Policy, d: seq<Definition>, memory: Recollection, supersedes: Option<ThesisKey>
  ): ThesisState
    requires event.symbol.Some?
  {
    var key, openedAt := KeyFor(event, e), event.key.availableAt;
    var expiresAt := openedAt + policy.ttlSeconds * 1_000_000;
    ThesisState(
      key, supersedes, event.symbol.value, e.agentName, e.agentVersion, e.hypothesisId, e.hypothesis, e.direction,
      e.hypothesisStatus, e.relationship, e.runtimeStateId, e.featureSnapshotId, openedAt, openedAt, expiresAt,
      1, WATCHING, NewScenarios(key, d, e, openedAt, expiresAt), [e.evidenceId], e.asOf, e.availableAt, memory,
      event.key, event.eventTime, event.observedAt)
  }

  function CreateThesis(
    event: Event, e: Proof, policy: Policy, d: seq<Definition>, previous: Option<Recollection>,
    supersedes: Option<ThesisKey>
  ): Outcome<ThesisState, ThesisError> {
    if event.symbol.None? then Failure(NO_SYMBOL)
    else if d == [] then Failure(NO_SCENARIO)
    else if policy.maxScenarios < |d| then Failure(TOO_MANY_SCENARIOS)
    else if NamesRepeat(d) then Failure(SCENARIO_NAMES_REPEAT)
    else
      match TransitionMemory(previous, e)
      case Failure(error) => Failure(MEMORY_REFUSED(error))
      case Success(memory) => Success(Opened(event, e, policy, d, memory, supersedes))
  }

  // ----- Closing and continuing one -----

  function Earlier(a: Instant, b: Instant): Instant {
    if a < b then a else b
  }

  function ClosedScenario(s: Scenario, at: Instant, expired: bool): Scenario {
    s.(status := if expired then SC_EXPIRED else SC_INVALIDATED,
       updatedAt := Earlier(at, s.expiresAt),
       eligibility := if expired then CLOSED_EXPIRED else CLOSED_INVALIDATED)
  }

  function TerminalState(t: ThesisState, event: Event, expired: bool): ThesisState {
    t.(status := if expired then EXPIRED else INVALIDATED,
       relationship := if expired then REL_EXPIRED else REL_INVALIDATED,
       updatedAt := Earlier(event.key.availableAt, t.expiresAt),
       eligibility := if expired then CLOSED_EXPIRED else CLOSED_INVALIDATED,
       scenarios := seq(|t.scenarios|, k requires 0 <= k < |t.scenarios| =>
                          ClosedScenario(t.scenarios[k], event.key.availableAt, expired)),
       last := event.key,
       lastEventTime := event.eventTime,
       lastObservedAt := event.observedAt)
  }

  function Supporting(e: Proof): set<Id> {
    set k | 0 <= k < |e.supporting| && e.supporting[k].polarity == SUPPORTS :: e.supporting[k].factName
  }

  function Matched(s: Scenario, supporting: set<Id>): set<Id> {
    set name | name in s.matched + supporting && name in s.confirmation
  }

  function UpdatedScenario(s: Scenario, e: Proof, event: Event): Scenario
    requires s.confirmation != []
  {
    var supporting := Supporting(e);
    var invalidated := e.invalidated || exists name :: name in supporting && name in s.invalidation;
    var matched := Matched(s, supporting);
    var progress := |matched| as real / |s.confirmation| as real;
    var (status, eligibility) :=
      if invalidated then (SC_INVALIDATED, CLOSED_INVALIDATED)
      else if progress == 1.0 && e.hypothesisStatus == CONFIRMED then (SC_CONFIRMED, ELIGIBLE)
      else if e.relationship == STRENGTHENED then (SC_STRENGTHENED, WATCHING)
      else if e.relationship == WEAKENED then (SC_WEAKENED, WATCHING)
      else (SC_WATCHING, WATCHING);
    s.(status := status, matched := matched, progress := progress, confidence := e.confidence,
       lastMatched := if supporting != {} then Some(event.key.eventId) else None,
       updatedAt := event.key.availableAt, eligibility := eligibility,
       evidenceIds := s.evidenceIds + [e.evidenceId])
  }

  predicate AllConfirmable(s: seq<Scenario>) {
    forall k :: 0 <= k < |s| ==> s[k].confirmation != []
  }

  function UpdatedScenarios(s: seq<Scenario>, e: Proof, event: Event): seq<Scenario>
    requires AllConfirmable(s)
  {
    seq(|s|, k requires 0 <= k < |s| => UpdatedScenario(s[k], e, event))
  }

  method UpdateScenarios(s: seq<Scenario>, e: Proof, event: Event) returns (updated: seq<Scenario>)
    requires AllConfirmable(s)
    ensures updated == UpdatedScenarios(s, e, event)
  {
    updated := [];
    for k := 0 to |s|
      invariant updated == UpdatedScenarios(s, e, event)[..k]
    {
      updated := updated + [UpdatedScenario(s[k], e, event)];
    }
  }

  function Continued(t: ThesisState, event: Event, e: Proof, memory: Recollection): ThesisState
    requires AllConfirmable(t.scenarios)
  {
    var scenarios := UpdatedScenarios(t.scenarios, e, event);
    t.(hypothesis := e.hypothesis, direction := e.direction, status := e.hypothesisStatus,
       relationship := e.relationship, runtimeStateId := e.runtimeStateId, featureSnapshotId := e.featureSnapshotId,
       updatedAt := event.key.availableAt,
       bars := t.bars + if event.eventType == M5_CLOSED then 1 else 0,
       eligibility := if exists k :: 0 <= k < |scenarios| && scenarios[k].eligibility == ELIGIBLE
                      then ELIGIBLE else WATCHING,
       scenarios := scenarios, evidenceIds := t.evidenceIds + [e.evidenceId],
       latestAsOf := e.asOf, latestAvailableAt := e.availableAt, memory := memory,
       last := event.key, lastEventTime := event.eventTime, lastObservedAt := event.observedAt)
  }

  function ClosedByEvidence(t: ThesisState, event: Event, e: Proof, memory: Recollection): ThesisState {
    TerminalState(t, event, e.hypothesisStatus == EXPIRED).(
      memory := memory, evidenceIds := t.evidenceIds + [e.evidenceId], latestAsOf := e.asOf,
      latestAvailableAt := e.availableAt, runtimeStateId := e.runtimeStateId,
      featureSnapshotId := e.featureSnapshotId)
  }

  // ----- update_scenario -----

  function CausalError(event: Event, i: Question, e: Proof, previous: Option<ThesisState>): Option<ThesisError> {
    if !ValidOutput(i, e) then Some(OUTPUT_REFUSED)
    else if i.asOf < event.key.availableAt then Some(EVENT_FROM_THE_FUTURE)
    else if e.availableAt < event.key.availableAt then Some(EVIDENCE_PREDATES_EVENT)
    else if previous.Some? && Before(event.key, previous.value.last) then Some(OUT_OF_ORDER)
    else None
  }

  datatype Branch =
    | SAME_EVENT
    | REVERSE
    | REPLACE
    | REVIVE
    | IGNORE
    | EXPIRE
    | UNRELATED(error: ThesisError)
    | CLOSE
    | CONTINUE

  predicate Revives(t: ThesisState, e: Proof) {
    && t.status == EXPIRED
    && (e.status == READY || e.status == DEGRADED)
    && (e.hypothesisStatus == DEVELOPING || e.hypothesisStatus == ACTIVE ||
        e.hypothesisStatus == CONFIRMED || e.hypothesisStatus == WEAKENING)
    && (e.relationship == UNCHANGED || e.relationship == STRENGTHENED || e.relationship == WEAKENED)
    && e.hypothesisId == t.hypothesisId
    && e.previousHypothesisId == Some(t.hypothesisId)
    && (e.thesisId.None? || e.thesisId == Some(t.thesisId))
  }

  // Which of the guarded branches an event takes, in their order.
  function BranchOf(event: Event, e: Proof, t: ThesisState): Branch {
    var m5, expired := event.eventType == M5_CLOSED, t.expiresAt <= event.key.availableAt;
    if event.key.eventId == t.last.eventId then SAME_EVENT
    else if m5 && e.relationship == REVERSED then REVERSE
    else if m5 && e.relationship == NEW && (Terminal(t.status) || expired) then REPLACE
    else if m5 && Revives(t, e) then REVIVE
    else if Terminal(t.status) && !m5 then IGNORE
    else if expired then EXPIRE
    else if e.hypothesisId != t.hypothesisId || (e.thesisId.Some? && e.thesisId != Some(t.thesisId)) then
      UNRELATED(UNRELATED_THESIS)
    else if e.previousHypothesisId != Some(t.hypothesisId) then UNRELATED(ANOTHER_HYPOTHESIS)
    else if Terminal(e.hypothesisStatus) then CLOSE
    else CONTINUE
  }

  function Advance(
    event: Event, e: Proof, t: ThesisState, policy: Policy, d: seq<Definition>
  ): Outcome<ThesisState, ThesisError> {
    match BranchOf(event, e, t)
    case SAME_EVENT => Success(t)
    case REVERSE =>
      if e.previousHypothesisId != Some(t.hypothesisId) then Failure(UNRELATED_REVERSAL)
      else CreateThesis(event, e, policy, d, Some(t.memory), Some(t.thesisId))
    case REPLACE =>
      if e.hypothesisId == t.hypothesisId then Failure(HYPOTHESIS_REPEATS)
      else
        var memory := if Terminal(t.memory.status) then Some(t.memory) else None;
        CreateThesis(event, e, policy, d, memory, Some(t.thesisId))
    case REVIVE => CreateThesis(event, e, policy, d, Some(t.memory), Some(t.thesisId))
    case IGNORE => Success(t)
    case EXPIRE => Success(TerminalState(t, event, true))
    case UNRELATED(error) => Failure(error)
    case CLOSE =>
      (match TransitionMemory(Some(t.memory), e)
       case Failure(error) => Failure(MEMORY_REFUSED(error))
       case Success(memory) => Success(ClosedByEvidence(t, event, e, memory)))
    case CONTINUE =>
      match TransitionMemory(Some(t.memory), e)
      case Failure(error) => Failure(MEMORY_REFUSED(error))
      case Success(memory) =>
        if !AllConfirmable(t.scenarios) then
          Failure(DIVISION_BY_ZERO)
        else
          var updated := Continued(t, event, e, memory);
          Success(if policy.maxBars < updated.bars then TerminalState(updated, event, true) else updated)
  }

  function UpdateThesis(
    event: Event, i: Question, e: Proof, previous: Option<ThesisState>, policy: Policy, d: seq<Definition>
  ): Outcome<Option<ThesisState>, ThesisError> {
    if event.eventType == OTHER_EVENT then
      Failure(WRONG_EVENT_TYPE)
    else if previous.None? && event.eventType != M5_CLOSED then
      Success(None)
    else
      match CausalError(event, i, e, previous)
      case Some(error) => Failure(error)
      case None =>
        if previous.None? && e.relationship != NEW then
          Failure(MUST_BE_NEW)
        else
          var next := if previous.None? then CreateThesis(event, e, policy, d, None, None)
                      else Advance(event, e, previous.value, policy, d);
          match next
          case Failure(error) => Failure(error)
          case Success(t) => Success(Some(t))
  }

  // ----- What every reachable thesis satisfies -----

  // Beyond its validator: progress is the share of conditions met, and only a scenario with
  // all of them met is eligible.
  predicate ScenarioOk(s: Scenario, t: ThesisState) {
    && ValidScenario(s)
    && s.parent == t.thesisId
    && s.beganAt == t.beganAt && s.expiresAt == t.expiresAt
    && s.confirmation != [] && Distinct(s.confirmation)
    && s.progress == |s.matched| as real / |s.confirmation| as real
    && (s.eligibility == ELIGIBLE ==> s.progress == 1.0)
  }

  predicate ScenariosOk(t: ThesisState) {
    forall k :: 0 <= k < |t.scenarios| ==> ScenarioOk(t.scenarios[k], t)
  }

  predicate Live(t: ThesisState) {
    !Terminal(t.status)
  }

  // Why a closed thesis cannot come alive again.
  predicate Shut(t: ThesisState, policy: Policy) {
    Terminal(t.memory.status) || t.expiresAt <= t.last.availableAt || policy.maxBars < t.bars
  }

  predicate ThesisOk(t: ThesisState, policy: Policy) {
    && ValidThesis(t)
    && ScenariosOk(t)
    && ValidMemory(t.memory)
    && t.memory.hypothesisId == t.hypothesisId
    && t.beganAt <= t.last.availableAt
    && (Live(t) ==> t.memory.status == t.status && t.bars <= policy.maxBars && t.last.availableAt < t.expiresAt)
    && (Terminal(t.status) ==> Shut(t, policy))
    && (t.status == INVALIDATED ==> t.memory.status == INVALIDATED)
    && (t.eligibility == ELIGIBLE ==> t.status == CONFIRMED)
  }

  lemma OkIsConfirmable(t: ThesisState)
    requires ScenariosOk(t)
    ensures AllConfirmable(t.scenarios)
  {
  }

  function Names(s: seq<Id>): set<Id> {
    set k | 0 <= k < |s| :: s[k]
  }

  lemma {:induction false} DistinctNames(s: seq<Id>)
    requires Distinct(s)
    ensures |Names(s)| == |s|
  {
    if s != [] {
      var n := |s| - 1;
      DistinctNames(s[..n]);
      assert Names(s) == Names(s[..n]) + {s[n]};
    }
  }

  lemma SubsetSize(a: set<Id>, b: set<Id>)
    requires a <= b
    ensures |a| <= |b|
    ensures |a| == |b| ==> a == b
  {
    assert b == a + (b - a);
  }

  // Progress is a proper share, and it is complete exactly when every condition is met.
  lemma ProgressMeaning(matched: set<Id>, confirmation: seq<Id>)
    requires confirmation != [] && Distinct(confirmation) && matched <= Names(confirmation)
    ensures Unit(|matched| as real / |confirmation| as real)
    ensures |matched| as real / |confirmation| as real == 1.0 <==> matched == Names(confirmation)
  {
    DistinctNames(confirmation);
    SubsetSize(matched, Names(confirmation));
    Share(|matched|, |confirmation|);
  }

  lemma Share(m: nat, n: nat)
    requires m <= n && 0 < n
    ensures Unit(m as real / n as real)
    ensures m as real / n as real == 1.0 <==> m == n
  {
    var q := m as real / n as real;
    assert q * n as real == m as real;
    assert 1.0 < q ==> n as real < q * n as real;
    assert q < 0.0 ==> q * n as real < 0.0;
  }

  lemma UpdatedIsOk(s: Scenario, t: ThesisState, event: Event, e: Proof)
    requires ScenarioOk(s, t) && ValidEvidence(e)
    requires t.beganAt <= event.key.availableAt < t.expiresAt
    ensures ScenarioOk(UpdatedScenario(s, e, event), t)
    ensures s.matched <= UpdatedScenario(s, e, event).matched
    ensures UpdatedScenario(s, e, event).eligibility == ELIGIBLE ==> e.hypothesisStatus == CONFIRMED
  {
    var matched := Matched(s, Supporting(e));
    assert matched <= Names(s.confirmation);
    ProgressMeaning(matched, s.confirmation);
  }

  // A scenario becomes eligible exactly when nothing invalidates it, every condition has been
  // supported now or earlier, and the evidence is CONFIRMED.
  lemma EligibleExactlyWhen(s: Scenario, e: Proof, event: Event)
    requires s.confirmation != [] && Distinct(s.confirmation)
    ensures UpdatedScenario(s, e, event).eligibility == ELIGIBLE <==>
            && !e.invalidated
            && (forall name :: name in Supporting(e) ==> name !in s.invalidation)
            && Names(s.confirmation) <= s.matched + Supporting(e)
            && e.hypothesisStatus == CONFIRMED
  {
    var matched := Matched(s, Supporting(e));
    assert matched <= Names(s.confirmation);
    ProgressMeaning(matched, s.confirmation);
    assert forall name :: name in Names(s.confirmation) <==> name in s.confirmation;
    assert Names(s.confirmation) <= s.matched + Supporting(e) <==> Names(s.confirmation) <= matched;
  }

  // Invalidation of a scenario is not sticky: its own past status has no say in the next.
  lemma ScenarioForgetsItsStatus(s: Scenario, e: Proof, event: Event, status: ScenarioStatus, eligibility: Eligibility)
    requires s.confirmation != []
    ensures UpdatedScenario(s.(status := status, eligibility := eligibility), e, event) == UpdatedScenario(s, e, event)
  {
    var other := s.(status := status, eligibility := eligibility);
    assert Matched(other, Supporting(e)) == Matched(s, Supporting(e));
  }

  lemma OpenedIsOk(
    event: Event, e: Proof, policy: Policy, d: seq<Definition>, memory: Recollection, supersedes: Option<ThesisKey>)
    requires event.symbol.Some? && ValidPolicy(policy) && ValidEvidence(e)
    requires 1 <= |d| <= policy.maxScenarios && forall k :: 0 <= k < |d| ==> ValidDefinition(d[k])
    requires ValidMemory(memory) && memory.hypothesisId == e.hypothesisId && memory.status == e.hypothesisStatus
    ensures ThesisOk(Opened(event, e, policy, d, memory, supersedes), policy)
  {
    var t := Opened(event, e, policy, d, memory, supersedes);
    forall k | 0 <= k < |t.scenarios|
      ensures ScenarioOk(t.scenarios[k], t)
    {
    }
  }

  ghost predicate Defined(d: seq<Definition>) {
    forall k :: 0 <= k < |d| ==> ValidDefinition(d[k])
  }

  lemma CreatedIsOk(
    event: Event, e: Proof, policy: Policy, d: seq<Definition>, previous: Option<Recollection>,
    supersedes: Option<ThesisKey>)
    requires ValidPolicy(policy) && ValidEvidence(e) && Defined(d)
    requires previous.Some? ==> ValidMemory(previous.value)
    ensures var outcome := CreateThesis(event, e, policy, d, previous, supersedes);
            outcome.Success? ==>
              && ThesisOk(outcome.value, policy)
              && outcome.value.bars == 1
              && outcome.value.supersedes == supersedes
              && outcome.value.beganAt == event.key.availableAt
              && outcome.value.last == event.key
  {
    if CreateThesis(event, e, policy, d, previous, supersedes).Success? {
      MovedIsValid(previous, e);
      OpenedIsOk(event, e, policy, d, Moved(previous, e), supersedes);
    }
  }

  lemma TerminalStateIsOk(t: ThesisState, event: Event, expired: bool, policy: Policy)
    requires ValidThesis(t) && ScenariosOk(t) && ValidMemory(t.memory) && t.memory.hypothesisId == t.hypothesisId
    requires t.beganAt <= event.key.availableAt
    requires Terminal(t.memory.status) || t.expiresAt <= event.key.availableAt || policy.maxBars < t.bars
    requires expired || t.memory.status == INVALIDATED
    ensures ThesisOk(TerminalState(t, event, expired), policy)
    ensures Inherits(t, TerminalState(t, event, expired))
  {
    var c := TerminalState(t, event, expired);
    forall k | 0 <= k < |c.scenarios|
      ensures ScenarioOk(c.scenarios[k], c)
    {
    }
  }

  // The same thesis later: matched facts only grow.
  predicate Inherits(t: ThesisState, later: ThesisState) {
    && later.thesisId == t.thesisId
    && later.supersedes == t.supersedes
    && later.beganAt == t.beganAt && later.expiresAt == t.expiresAt
    && t.bars <= later.bars
    && |later.scenarios| == |t.scenarios|
    && forall k :: 0 <= k < |t.scenarios| ==>
         && later.scenarios[k].name == t.scenarios[k].name
         && later.scenarios[k].confirmation == t.scenarios[k].confirmation
         && t.scenarios[k].matched <= later.scenarios[k].matched
  }

  lemma ContinuedScenarios(t: ThesisState, event: Event, e: Proof, memory: Recollection)
    requires ScenariosOk(t) && ValidEvidence(e)
    requires t.beganAt <= event.key.availableAt < t.expiresAt
    ensures var c := Continued(t, event, e, memory);
            && ScenariosOk(c)
            && Inherits(t, c)
            && (c.eligibility == ELIGIBLE ==> c.status == CONFIRMED)
  {
    var c := Continued(t, event, e, memory);
    forall k | 0 <= k < |c.scenarios|
      ensures ScenarioOk(c.scenarios[k], c)
      ensures t.scenarios[k].matched <= c.scenarios[k].matched
      ensures c.scenarios[k].eligibility == ELIGIBLE ==> c.status == CONFIRMED
    {
      UpdatedIsOk(t.scenarios[k], t, event, e);
    }
  }

  lemma ContinuedIsOk(t: ThesisState, event: Event, e: Proof, memory: Recollection, policy: Policy)
    requires ValidThesis(t) && ScenariosOk(t) && ValidEvidence(e) && !Terminal(e.hypothesisStatus)
    requires ValidMemory(memory) && memory.hypothesisId == t.hypothesisId && memory.status == e.hypothesisStatus
    requires t.beganAt <= event.key.availableAt < t.expiresAt
    ensures var c := Continued(t, event, e, memory);
            if policy.maxBars < c.bars then
              ThesisOk(TerminalState(c, event, true), policy) && Inherits(t, TerminalState(c, event, true))
            else
              ThesisOk(c, policy) && Inherits(t, c)
  {
    var c := Continued(t, event, e, memory);
    ContinuedScenarios(t, event, e, memory);
    assert ValidThesis(c);
    if policy.maxBars < c.bars {
      TerminalStateIsOk(c, event, true, policy);
    }
  }

  // ----- One step -----

  // A thesis opened by this event in place of another.
  predicate Replaces(t: ThesisState, next: ThesisState, event: Event) {
    && next.bars == 1
    && next.supersedes == Some(t.thesisId)
    && next.beganAt == event.key.availableAt
    && next.last == event.key
  }

  predicate NotBefore(a: CausalKey, b: CausalKey) {
    !Before(a, b)
  }

  // What an accepted event may do to the thesis it meets.
  predicate Advances(t: ThesisState, next: ThesisState, event: Event, policy: Policy) {
    && ThesisOk(next, policy)
    && NotBefore(next.last, t.last)
    && (Replaces(t, next, event) || CarriesOn(t, next, event))
  }

  // The same thesis one event later.
  predicate CarriesOn(t: ThesisState, next: ThesisState, event: Event) {
    && Inherits(t, next)
    && (Terminal(t.status) ==> Terminal(next.status))
    && (Live(next) && next != t ==> next.bars == t.bars + if event.eventType == M5_CLOSED then 1 else 0)
  }

  // A memory that is not closed, or another hypothesis, is needed to continue.
  lemma ContinuingFromTerminal(t: ThesisState, event: Event, e: Proof, policy: Policy)
    requires ThesisOk(t, policy) && ValidEvidence(e) && Terminal(t.status)
    requires NotBefore(event.key, t.last)
    requires BranchOf(event, e, t) == CONTINUE && Refusal(Some(t.memory), e).None?
    ensures event.eventType == M5_CLOSED && policy.maxBars < t.bars
  {
    if Terminal(t.memory.status) {
      TerminalMemoryAbsorbs(t.memory, e);
      assert false;
    }
  }

  lemma ContinueAdvances(t: ThesisState, event: Event, e: Proof, policy: Policy)
    requires ThesisOk(t, policy) && ValidEvidence(e) && NotBefore(event.key, t.last)
    requires BranchOf(event, e, t) == CONTINUE && Refusal(Some(t.memory), e).None?
    ensures AllConfirmable(t.scenarios)
    ensures var c := Continued(t, event, e, Moved(Some(t.memory), e));
            Advances(t, if policy.maxBars < c.bars then TerminalState(c, event, true) else c, event, policy)
  {
    MovedIsValid(Some(t.memory), e);
    ContinuedIsOk(t, event, e, Moved(Some(t.memory), e), policy);
    if Terminal(t.status) {
      ContinuingFromTerminal(t, event, e, policy);
    }
  }

  lemma CloseAdvances(t: ThesisState, event: Event, e: Proof, policy: Policy)
    requires ThesisOk(t, policy) && ValidEvidence(e) && NotBefore(event.key, t.last)
    requires BranchOf(event, e, t) == CLOSE && Refusal(Some(t.memory), e).None?
    ensures Advances(t, ClosedByEvidence(t, event, e, Moved(Some(t.memory), e)), event, policy)
  {
    var memory := Moved(Some(t.memory), e);
    MovedIsValid(Some(t.memory), e);
    TerminalStateIsOk(t.(memory := memory), event, e.hypothesisStatus == EXPIRED, policy);
  }

  lemma ExpireAdvances(t: ThesisState, event: Event, e: Proof, policy: Policy)
    requires ThesisOk(t, policy) && NotBefore(event.key, t.last)
    requires BranchOf(event, e, t) == EXPIRE
    ensures Advances(t, TerminalState(t, event, true), event, policy)
  {
    TerminalStateIsOk(t, event, true, policy);
  }

  lemma CreateAdvances(
    t: ThesisState, event: Event, e: Proof, policy: Policy, d: seq<Definition>, memory: Option<Recollection>)
    requires ThesisOk(t, policy) && ValidPolicy(policy) && ValidEvidence(e) && Defined(d)
    requires NotBefore(event.key, t.last)
    requires memory.Some? ==> ValidMemory(memory.value)
    ensures var outcome := CreateThesis(event, e, policy, d, memory, Some(t.thesisId));
            outcome.Success? ==> Advances(t, outcome.value, event, policy)
  {
    CreatedIsOk(event, e, policy, d, memory, Some(t.thesisId));
  }

  lemma Reflexive(t: ThesisState, event: Event, policy: Policy)
    requires ThesisOk(t, policy)
    ensures Advances(t, t, event, policy)
  {
  }

  lemma AdvanceAdvances(t: ThesisState, event: Event, e: Proof, policy: Policy, d: seq<Definition>)
    requires ThesisOk(t, policy) && ValidPolicy(policy) && ValidEvidence(e) && Defined(d)
    requires NotBefore(event.key, t.last)
    ensures Advance(event, e, t, policy, d).Success? ==>
              Advances(t, Advance(event, e, t, policy, d).value, event, policy)
  {
    OkIsConfirmable(t);
    match BranchOf(event, e, t) {
      case SAME_EVENT => Reflexive(t, event, policy);
      case IGNORE => Reflexive(t, event, policy);
      case REVERSE => CreateAdvances(t, event, e, policy, d, Some(t.memory));
      case REPLACE =>
        CreateAdvances(t, event, e, policy, d, if Terminal(t.memory.status) then Some(t.memory) else None);
      case REVIVE => CreateAdvances(t, event, e, policy, d, Some(t.memory));
      case EXPIRE => ExpireAdvances(t, event, e, policy);
      case UNRELATED(_) =>
      case CLOSE =>
        if Refusal(Some(t.memory), e).None? {
          CloseAdvances(t, event, e, policy);
        }
      case CONTINUE =>
        if Refusal(Some(t.memory), e).None? {
          ContinueAdvances(t, event, e, policy);
        }
    }
  }

  // Closing relabels: a thesis that evidence invalidated reads EXPIRED once its time is up.
  lemma InvalidatedIsRelabelled(t: ThesisState, event: Event, e: Proof, policy: Policy, d: seq<Definition>)
    requires t.status == INVALIDATED
    requires event.eventType == M5_CLOSED && t.expiresAt <= event.key.availableAt
    requires event.key.eventId != t.last.eventId && !StartsHypothesis(e.relationship)
    ensures Advance(event, e, t, policy, d).Success? && Advance(event, e, t, policy, d).value.status == EXPIRED
  {
  }

  // Exactly when it does: an accepted event that opens no fresh thesis leaves an invalidated
  // thesis INVALIDATED, and its memory with it, unless it is a new M5 close past the deadline.
  lemma InvalidatedExpiresExactlyWhen(t: ThesisState, event: Event, e: Proof, policy: Policy, d: seq<Definition>)
    requires ThesisOk(t, policy) && ValidEvidence(e) && t.status == INVALIDATED
    requires BranchOf(event, e, t) != REVERSE && BranchOf(event, e, t) != REPLACE
    requires Advance(event, e, t, policy, d).Success?
    ensures var next := Advance(event, e, t, policy, d).value;
            && (next.status == EXPIRED <==> TimeIsUp(event, t))
            && (next.status != EXPIRED ==> next.status == INVALIDATED && next.memory.status == INVALIDATED)
  {
    if Refusal(Some(t.memory), e).None? {
      TerminalMemoryAbsorbs(t.memory, e);
    }
  }

  predicate TimeIsUp(event: Event, t: ThesisState) {
    event.eventType == M5_CLOSED && event.key.eventId != t.last.eventId && t.expiresAt <= event.key.availableAt
  }

  // Closed stays closed only while the policy stays the same: under a larger bar limit the
  // very event that would have kept an outlived thesis closed brings it back to life.
  lemma LargerLimitRevives(t: ThesisState, event: Event, e: Proof, policy: Policy, d: seq<Definition>)
    requires AllConfirmable(t.scenarios) && Terminal(t.status)
    requires BranchOf(event, e, t) == CONTINUE && Refusal(Some(t.memory), e).None?
    ensures Advance(event, e, t, policy, d).Success?
    ensures Live(Advance(event, e, t, policy, d).value) <==> t.bars + 1 <= policy.maxBars
  {
    assert event.eventType == M5_CLOSED;
    assert !Terminal(e.hypothesisStatus);
  }

  // Every accepted event keeps all the validators and the reasons why closed stays closed.
  // It never moves the causal key backwards, and it either carries the same thesis on, with
  // its matched facts only growing and a closed one staying closed, or opens a fresh thesis
  // that supersedes it.
  lemma StepIsSound(
    event: Event, i: Question, e: Proof, previous: Option<ThesisState>, policy: Policy, d: seq<Definition>)
    requires ValidPolicy(policy) && ValidEvidence(e) && Defined(d)
    requires previous.Some? ==> ThesisOk(previous.value, policy)
    ensures var outcome := UpdateThesis(event, i, e, previous, policy, d);
            outcome.Success? ==>
              if previous.None? then
                outcome.value.Some? ==> ThesisOk(outcome.value.value, policy) && outcome.value.value.bars == 1
              else
                outcome.value.Some? && Advances(previous.value, outcome.value.value, event, policy)
  {
    if previous.Some? {
      OkIsConfirmable(previous.value);
      if NotBefore(event.key, previous.value.last) {
        AdvanceAdvances(previous.value, event, e, policy, d);
      }
    } else {
      CreatedIsOk(event, e, policy, d, None, None);
    }
  }
}
