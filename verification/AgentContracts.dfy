/**
 Specialist evidence, the tool results it may cite, and the memory a specialist keeps:
 the records and the conditions their validators demand.
 */
module AgentContracts {
  import opened Numerics

  datatype Direction = BULLISH | BEARISH | NEUTRAL

  datatype AgentStatus = READY | DEGRADED | AGENT_ABSTAINED | AGENT_ERROR

  datatype HypothesisStatus =
    | NONE
    | DEVELOPING
    | ACTIVE
    | CONFIRMED
    | WEAKENING
    | INVALIDATED
    | EXPIRED
    | ABSTAINED

  datatype Relationship =
    | NEW
    | UNCHANGED
    | STRENGTHENED
    | WEAKENED
    | REVERSED
    | REL_INVALIDATED
    | REL_EXPIRED

  datatype Polarity = SUPPORTS | CONTRADICTS | CONTEXT

  datatype AbstentionReason =
    | INSUFFICIENT_DATA
    | STALE_EVIDENCE
    | TOOL_FAILURE
    | CONFLICTING_EVIDENCE
    | UNSUPPORTED_REGIME
    | LOW_EVIDENCE_QUALITY
    | NO_MEANINGFUL_HYPOTHESIS

  // ----- Tool results -----

  datatype ToolStatus = TOOL_AVAILABLE | TOOL_STALE | TOOL_UNAVAILABLE | TOOL_INSUFFICIENT | TOOL_ERROR

  datatype ToolFreshness = FRESH | STALE | NOT_AVAILABLE | UNKNOWN_FRESHNESS

  datatype Scalar = Flag(flag: bool) | Number(number: real) | Text(text: Id)

  // Python compares a flag with a number by value: True == 1.
  function AsNumber(v: Scalar): Scalar {
    if v.Flag? then Number(if v.flag then 1.0 else 0.0) else v
  }

  predicate SameScalar(a: Scalar, b: Scalar) {
    AsNumber(a) == AsNumber(b)
  }

  datatype Fact = Fact(name: Id, value: Scalar)

  datatype ToolResult = ToolResult(
    resultId: Id,
    toolName: Id,
    category: Id,
    runtimeStateId: Id,
    inputSnapshotId: Id,
    availableAt: Instant,
    freshness: ToolFreshness,
    status: ToolStatus,
    valid: bool,
    facts: seq<Fact>
  )

  predicate ValidToolResult(r: ToolResult) {
    r.status == TOOL_AVAILABLE ==> r.valid
  }

  datatype ToolReference = ToolReference(
    toolName: Id,
    resultId: Id,
    status: ToolStatus,
    freshness: ToolFreshness,
    valid: bool,
    availableAt: Instant
  )

  function ReferenceTo(r: ToolResult): ToolReference {
    ToolReference(r.toolName, r.resultId, r.status, r.freshness, r.valid, r.availableAt)
  }

  // ----- Evidence -----

  datatype EvidenceReference = EvidenceReference(
    toolName: Id,
    resultId: Id,
    factName: Id,
    factValue: Scalar,
    polarity: Polarity,
    strength: real,
    freshness: ToolFreshness,
    valid: bool
  )

  datatype Evidence<ThesisId> = Evidence(
    evidenceId: Id,
    agentName: Id,
    agentVersion: Id,
    runtimeStateId: Id,
    featureSnapshotId: Option<Id>,
    asOf: Instant,
    availableAt: Instant,
    hypothesisId: Id,
    hypothesis: Id,
    hypothesisStatus: HypothesisStatus,
    relationship: Relationship,
    previousHypothesisId: Option<Id>,
    direction: Option<Direction>,
    confidence: real,
    uncertainty: real,
    quality: real,
    supporting: seq<EvidenceReference>,
    opposing: seq<EvidenceReference>,
    invalidated: bool,
    freshness: ToolFreshness,
    status: AgentStatus,
    toolInputs: seq<ToolReference>,
    abstention: Option<AbstentionReason>,
    thesisId: Option<ThesisId>
  )

  predicate Unit(x: real) {
    0.0 <= x <= 1.0
  }

  // The validator of AgentEvidence.
  predicate ValidEvidence<T>(e: Evidence<T>) {
    && Unit(e.confidence) && Unit(e.uncertainty) && Unit(e.quality)
    && e.availableAt <= e.asOf
    && e.confidence <= e.quality
    && (e.status == DEGRADED ==> e.confidence <= 0.5)
    && (e.status == AGENT_ABSTAINED || e.status == AGENT_ERROR ==> e.confidence == 0.0)
    && (e.relationship == NEW <==> e.previousHypothesisId.None?)
    && (e.relationship == REVERSED ==> Some(e.hypothesisId) != e.previousHypothesisId)
    && (e.relationship != NEW && e.relationship != REVERSED ==> Some(e.hypothesisId) == e.previousHypothesisId)
    && (if e.status == AGENT_ABSTAINED then
          e.abstention.Some? && e.direction.None? && e.hypothesisStatus == ABSTAINED
        else
          e.abstention.None?)
    && (e.hypothesisStatus == INVALIDATED <==> e.invalidated)
    && (e.relationship == REL_INVALIDATED ==> e.hypothesisStatus == INVALIDATED)
    && (e.relationship == REL_EXPIRED ==> e.hypothesisStatus == EXPIRED)
    && (e.status == READY ==> forall k :: 0 <= k < |e.toolInputs| ==> e.toolInputs[k].status == TOOL_AVAILABLE)
    && (forall k :: 0 <= k < |e.supporting| ==> Unit(e.supporting[k].strength))
    && (forall k :: 0 <= k < |e.opposing| ==> Unit(e.opposing[k].strength))
  }

  // ----- Memory -----

  datatype Memory<ThesisId> = Memory(
    agentName: Id,
    agentVersion: Id,
    hypothesisId: Id,
    hypothesis: Id,
    previousHypothesis: Option<Id>,
    confidence: real,
    previousConfidence: Option<real>,
    uncertainty: real,
    status: HypothesisStatus,
    relationship: Relationship,
    beganAt: Instant,
    updatedAt: Instant,
    history: seq<Id>,
    invalidated: bool,
    previousEvidenceId: Option<Id>,
    latestEvidenceId: Id,
    confirmations: nat,
    thesisId: Option<ThesisId>
  )

  // The validator of AgentMemory.
  predicate ValidMemory<T>(m: Memory<T>) {
    && Unit(m.confidence) && Unit(m.uncertainty)
    && (m.previousConfidence.Some? ==> Unit(m.previousConfidence.value))
    && m.beganAt <= m.updatedAt
    && (m.status == INVALIDATED ==> m.invalidated)
  }

  // ----- What an agent is given, and what its output may cite -----

  datatype AgentInput<ThesisId> = AgentInput(
    runtimeStateId: Id,
    featureSnapshotId: Option<Id>,
    asOf: Instant,
    toolResults: seq<ToolResult>,
    previousMemory: Option<Memory<ThesisId>>,
    thesisId: Option<ThesisId>
  )

  predicate ValidInput<T>(i: AgentInput<T>) {
    && (forall k :: 0 <= k < |i.toolResults| ==>
          && ValidToolResult(i.toolResults[k])
          && i.toolResults[k].runtimeStateId == i.runtimeStateId
          && (i.toolResults[k].inputSnapshotId == i.runtimeStateId ||
              Some(i.toolResults[k].inputSnapshotId) == i.featureSnapshotId)
          && i.toolResults[k].availableAt <= i.asOf)
    && (forall j, k :: 0 <= j < k < |i.toolResults| ==> i.toolResults[j].resultId != i.toolResults[k].resultId)
    && (i.previousMemory.Some? ==> ValidMemory(i.previousMemory.value))
  }

  // The dictionary of results by identity keeps the last result of an identity.
  function ResultNamed(results: seq<ToolResult>, id: Id): Option<ToolResult> {
    if results == [] then
      None
    else
      var n := |results| - 1;
      if results[n].resultId == id then Some(results[n]) else ResultNamed(results[..n], id)
  }

  // The first fact of that name.
  function FactNamed(facts: seq<Fact>, name: Id): Option<Fact> {
    if facts == [] then
      None
    else if facts[0].name == name then
      Some(facts[0])
    else
      FactNamed(facts[1..], name)
  }

  predicate CitesExactly(results: seq<ToolResult>, r: EvidenceReference) {
    var found := ResultNamed(results, r.resultId);
    && found.Some?
    && found.value.toolName == r.toolName
    && var fact := FactNamed(found.value.facts, r.factName);
       && fact.Some?
       && SameScalar(fact.value.value, r.factValue)
       && found.value.freshness == r.freshness
       && found.value.valid == r.valid
  }

  predicate AllExact(results: seq<ToolResult>, cited: seq<EvidenceReference>) {
    forall k :: 0 <= k < |cited| ==> CitesExactly(results, cited[k])
  }

  // validate_agent_output
  predicate ValidOutput<T>(i: AgentInput<T>, e: Evidence<T>) {
    && e.runtimeStateId == i.runtimeStateId
    && e.featureSnapshotId == i.featureSnapshotId
    && e.availableAt <= i.asOf
    && (forall k :: 0 <= k < |e.toolInputs| ==>
          var found := ResultNamed(i.toolResults, e.toolInputs[k].resultId);
          found.Some? && ReferenceTo(found.value) == e.toolInputs[k])
    && AllExact(i.toolResults, e.supporting)
    && AllExact(i.toolResults, e.opposing)
  }

  lemma {:induction false} ResultNamedIsUnique(results: seq<ToolResult>, k: nat)
    requires k < |results|
    requires forall i, j :: 0 <= i < j < |results| ==> results[i].resultId != results[j].resultId
    ensures ResultNamed(results, results[k].resultId) == Some(results[k])
  {
    var n := |results| - 1;
    if k < n {
      ResultNamedIsUnique(results[..n], k);
      assert results[..n][k] == results[k];
    }
  }
}
