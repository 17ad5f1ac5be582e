/**
 The deterministic specialist template: tool results in, contract-bound evidence and the
 next memory out. The interpretation of the facts is the only part a specialist supplies.
 */
module Specialist {
  import opened Numerics
  import opened AgentContracts
  import opened AgentMemory

  datatype ObservedFact = ObservedFact(result: ToolResult, name: Id, value: Scalar)

  datatype Interpretation = Interpretation(
    hypothesis: Id,
    direction: Option<Direction>,
    confidence: real,
    supports: set<Id>,
    contradicts: set<Id>,
    status: AgentStatus,
    abstention: Option<AbstentionReason>
  )

  // identity stands for the hash of the agent's name and version, the hypothesis and the
  // direction; hash for the one that names a piece of evidence; interpret for the
  // specialist's reading of the facts.
  datatype Agent<!T> = Agent(
    name: Id,
    version: Id,
    categories: set<Id>,
    unavailable: Id,
    identity: (Id, Option<Direction>) -> Id,
    hash: Evidence<T> -> Id,
    interpret: seq<ObservedFact> -> Interpretation
  )

  const INVALIDATED_FACT: Id := 1
  const EXPIRED_FACT: Id := 2

  datatype ObserveError =
    | DISALLOWED_CATEGORY
    | NO_OBSERVATIONS
    | EVIDENCE_REFUSED
    | OUTPUT_REFUSED
    | MEMORY_REFUSED(error: MemoryError)

  datatype Answer<T> = Answer(evidence: Evidence<T>, memory: Memory<T>)

  // ----- Facts and their quality -----

  predicate IsUsable(r: ToolResult) {
    (r.status == TOOL_AVAILABLE || r.status == TOOL_STALE) && r.valid
  }

  function Usable(results: seq<ToolResult>): (r: seq<ToolResult>)
    ensures forall x :: x in r <==> x in results && IsUsable(x)
  {
    if results == [] then
      []
    else
      (if IsUsable(results[0]) then [results[0]] else []) + Usable(results[1..])
  }

  function FactsOf(r: ToolResult): (o: seq<ObservedFact>)
    ensures |o| == |r.facts|
    ensures forall k :: 0 <= k < |o| ==> o[k] == ObservedFact(r, r.facts[k].name, r.facts[k].value)
  {
    seq(|r.facts|, k requires 0 <= k < |r.facts| => ObservedFact(r, r.facts[k].name, r.facts[k].value))
  }

  ghost predicate ObservedIn(o: ObservedFact, results: seq<ToolResult>) {
    o.result in results && Fact(o.name, o.value) in o.result.facts
  }

  function Observations(results: seq<ToolResult>): (o: seq<ObservedFact>)
    ensures forall x :: x in o ==> ObservedIn(x, results)
  {
    if results == [] then
      []
    else
      var mine, rest := FactsOf(results[0]), Observations(results[1..]);
      assert forall k :: 0 <= k < |mine| ==> Fact(mine[k].name, mine[k].value) == results[0].facts[k];
      mine + rest
  }

  predicate IsTerminal(o: ObservedFact) {
    (o.name == INVALIDATED_FACT || o.name == EXPIRED_FACT) && o.value == Flag(true)
  }

  function FirstTerminal(o: seq<ObservedFact>): (f: Option<ObservedFact>)
    ensures f.Some? ==> f.value in o && IsTerminal(f.value)
  {
    if o == [] then None else if IsTerminal(o[0]) then Some(o[0]) else FirstTerminal(o[1..])
  }

  function Weight(r: ToolResult): real {
    if r.status == TOOL_AVAILABLE && r.valid then 1.0
    else if r.status == TOOL_STALE && r.valid then 0.65
    else 0.35
  }

  function TotalWeight(results: seq<ToolResult>): (t: real)
    ensures 0.35 * |results| as real <= t <= |results| as real
  {
    if results == [] then 0.0 else Weight(results[0]) + TotalWeight(results[1..])
  }

  function Quality(results: seq<ToolResult>): real {
    if results == [] then 0.0 else TotalWeight(results) / |results| as real
  }

  lemma QualityIsAShare(results: seq<ToolResult>)
    requires results != []
    ensures 0.35 <= Quality(results) <= 1.0
  {
    var t, n := TotalWeight(results), |results| as real;
    assert 0.35 * n <= t <= n;
    assert t / n * n == t;
  }

  function LatestFact(o: seq<ObservedFact>): (t: Instant)
    requires o != []
    ensures exists x :: x in o && x.result.availableAt == t
  {
    if |o| == 1 then
      assert o[0] in o;
      o[0].result.availableAt
    else
      var rest := LatestFact(o[1..]);
      assert o[0] in o;
      if rest < o[0].result.availableAt then o[0].result.availableAt else rest
  }

  function LatestResult(results: seq<ToolResult>, default: Instant): (t: Instant)
    ensures t == default || exists r :: r in results && r.availableAt == t
  {
    if results == [] then
      default
    else
      assert results[0] in results;
      var rest := LatestResult(results[1..], results[0].availableAt);
      if rest < results[0].availableAt then results[0].availableAt else rest
  }

  // ----- The evidence of each branch -----

  function Inputs(results: seq<ToolResult>): (r: seq<ToolReference>)
    ensures |r| == |results| && forall k :: 0 <= k < |r| ==> r[k] == ReferenceTo(results[k])
  {
    seq(|results|, k requires 0 <= k < |results| => ReferenceTo(results[k]))
  }

  predicate AllAvailable(results: seq<ToolResult>) {
    forall k :: 0 <= k < |results| ==> results[k].status == TOOL_AVAILABLE
  }

  function Cite(o: ObservedFact, polarity: Polarity, strength: real): EvidenceReference {
    EvidenceReference(o.result.toolName, o.result.resultId, o.name, o.value, polarity, strength,
                      o.result.freshness, o.result.valid)
  }

  function Cited(o: seq<ObservedFact>, names: set<Id>, polarity: Polarity, strength: real): (r: seq<EvidenceReference>)
    ensures forall k :: 0 <= k < |r| ==> r[k].strength == strength
  {
    if o == [] then
      []
    else
      var rest := Cited(o[1..], names, polarity, strength);
      if o[0].name in names then [Cite(o[0], polarity, strength)] + rest else rest
  }

  function UnavailableReason(results: seq<ToolResult>): AbstentionReason {
    if exists k :: 0 <= k < |results| && results[k].status == TOOL_ERROR then TOOL_FAILURE
    else if exists k :: 0 <= k < |results| && results[k].status == TOOL_STALE then STALE_EVIDENCE
    else INSUFFICIENT_DATA
  }

  function AbstainEvidence<T>(a: Agent<T>, i: AgentInput<T>, hypothesis: Id, reason: AbstentionReason): Evidence<T> {
    var m := i.previousMemory;
    Evidence(
      0, a.name, a.version, i.runtimeStateId, i.featureSnapshotId, i.asOf, LatestResult(i.toolResults, i.asOf),
      if m.Some? then m.value.hypothesisId else a.identity(hypothesis, None),
      if m.Some? then m.value.hypothesis else hypothesis,
      ABSTAINED, if m.Some? then WEAKENED else NEW,
      if m.Some? then Some(m.value.hypothesisId) else None,
      None, 0.0, 1.0, 0.0, [], [], false, if reason == STALE_EVIDENCE then STALE else NOT_AVAILABLE,
      AGENT_ABSTAINED, Inputs(i.toolResults), Some(reason), i.thesisId)
  }

  function TerminalEvidence<T>(a: Agent<T>, i: AgentInput<T>, m: Memory<T>, f: ObservedFact): Evidence<T> {
    var invalidated := f.name == INVALIDATED_FACT;
    Evidence(
      0, a.name, a.version, i.runtimeStateId, i.featureSnapshotId, i.asOf, f.result.availableAt,
      m.hypothesisId, m.hypothesis,
      if invalidated then INVALIDATED else EXPIRED, if invalidated then REL_INVALIDATED else REL_EXPIRED,
      Some(m.hypothesisId), None, 0.0, 1.0, Quality(i.toolResults), [], [Cite(f, CONTRADICTS, 1.0)],
      invalidated, f.result.freshness, if AllAvailable(i.toolResults) then READY else DEGRADED,
      Inputs(i.toolResults), None, i.thesisId)
  }

  datatype Standing = Standing(relationship: Relationship, previous: Option<Id>, status: HypothesisStatus)

  // How a hypothesis stands to the remembered one.
  function Relate<T>(m: Option<Memory<T>>, hypothesisId: Id, confidence: real): Standing {
    if m.None? then
      Standing(NEW, None, DEVELOPING)
    else if hypothesisId != m.value.hypothesisId then
      Standing(REVERSED, Some(m.value.hypothesisId), DEVELOPING)
    else
      var delta := confidence - m.value.confidence;
      var r := if 0.1 <= delta then STRENGTHENED
               else if delta <= -0.1 || (m.value.status == CONFIRMED && confidence < 0.7) then WEAKENED
               else UNCHANGED;
      Standing(r, Some(m.value.hypothesisId),
               if r == WEAKENED then WEAKENING else if 0.7 <= confidence then CONFIRMED else ACTIVE)
  }

  function StatusOf<T>(i: AgentInput<T>, read: Interpretation): AgentStatus {
    if read.status == DEGRADED || !AllAvailable(i.toolResults) then DEGRADED else READY
  }

  function ConfidenceOf<T>(i: AgentInput<T>, read: Interpretation): real {
    var quality := Quality(i.toolResults);
    var confidence := Min(read.confidence * quality, quality);
    if StatusOf(i, read) == DEGRADED then Min(confidence, 0.5) else confidence
  }

  function ReadEvidence<T>(
    a: Agent<T>, i: AgentInput<T>, read: Interpretation, observed: seq<ObservedFact>
  ): Evidence<T>
    requires observed != []
  {
    var hypothesisId := a.identity(read.hypothesis, read.direction);
    var confidence := ConfidenceOf(i, read);
    var standing := Relate(i.previousMemory, hypothesisId, confidence);
    var stale := exists k :: 0 <= k < |observed| && observed[k].result.freshness == STALE;
    Evidence(
      0, a.name, a.version, i.runtimeStateId, i.featureSnapshotId, i.asOf, LatestFact(observed),
      hypothesisId, read.hypothesis, standing.status, standing.relationship, standing.previous,
      read.direction, confidence, 1.0 - confidence, Quality(i.toolResults),
      Cited(observed, read.supports, SUPPORTS, 0.7), Cited(observed, read.contradicts, CONTRADICTS, 0.6),
      false, if stale then STALE else FRESH, StatusOf(i, read), Inputs(i.toolResults), None, i.thesisId)
  }

  // ----- observe -----

  // The evidence contract, then the output check, then the memory transition.
  function Deliver<T(==)>(
    a: Agent<T>, i: AgentInput<T>, e: Evidence<T>, kept: Option<Memory<T>>
  ): Outcome<Answer<T>, ObserveError> {
    var named := e.(evidenceId := a.hash(e));
    if !ValidEvidence(e) then
      Failure(EVIDENCE_REFUSED)
    else if !ValidOutput(i, e) then
      Failure(OUTPUT_REFUSED)
    else if kept.Some? then
      Success(Answer(named, kept.value))
    else
      match TransitionMemory(i.previousMemory, named)
      case Success(m) => Success(Answer(named, m))
      case Failure(error) => Failure(MEMORY_REFUSED(error))
  }

  function Observe<T(==)>(a: Agent<T>, i: AgentInput<T>): Outcome<Answer<T>, ObserveError> {
    if exists k :: 0 <= k < |i.toolResults| && i.toolResults[k].category !in a.categories then
      Failure(DISALLOWED_CATEGORY)
    else
      var usable := Usable(i.toolResults);
      if usable == [] then
        Deliver(a, i, AbstainEvidence(a, i, a.unavailable, UnavailableReason(i.toolResults)), i.previousMemory)
      else
        var observed := Observations(usable);
        var terminal := FirstTerminal(observed);
        if terminal.Some? && i.previousMemory.Some? then
          Deliver(a, i, TerminalEvidence(a, i, i.previousMemory.value, terminal.value), None)
        else
          var read := a.interpret(observed);
          if read.status == AGENT_ABSTAINED then
            var reason := if read.abstention.Some? then read.abstention.value else NO_MEANINGFUL_HYPOTHESIS;
            Deliver(a, i, AbstainEvidence(a, i, read.hypothesis, reason), i.previousMemory)
          else if observed == [] then
            Failure(NO_OBSERVATIONS)
          else
            Deliver(a, i, ReadEvidence(a, i, read, observed), None)
  }

  // ----- When a specialist's answer is accepted -----

  // A cited fact agrees with the first fact of its name in the same tool result.
  predicate AgreesWithFirst(o: ObservedFact) {
    var fact := FactNamed(o.result.facts, o.name);
    fact.Some? && SameScalar(fact.value.value, o.value)
  }

  ghost predicate AllAgree(observed: seq<ObservedFact>, names: set<Id>) {
    forall x :: x in observed && x.name in names ==> AgreesWithFirst(x)
  }

  ghost predicate CitationsAgree(observed: seq<ObservedFact>, read: Interpretation) {
    AllAgree(observed, read.supports) && AllAgree(observed, read.contradicts)
  }

  // What every memory an agent leaves behind satisfies.
  predicate Tracked<T>(a: Agent<T>, m: Memory<T>) {
    && ValidMemory(m)
    && m.agentName == a.name
    && m.status != NONE
    && (m.status == CONFIRMED ==> 0.7 <= m.confidence)
  }

  predicate Progressing(s: HypothesisStatus) {
    s == DEVELOPING || s == ACTIVE || s == CONFIRMED || s == WEAKENING
  }

  predicate InTime<T>(i: AgentInput<T>) {
    i.previousMemory.Some? ==> i.previousMemory.value.updatedAt <= i.asOf
  }

  ghost predicate Permitted<T>(a: Agent<T>, i: AgentInput<T>) {
    forall k :: 0 <= k < |i.toolResults| ==> i.toolResults[k].category in a.categories
  }

  // A reading may continue the remembered hypothesis only while that is still open.
  predicate Continuable<T>(a: Agent<T>, i: AgentInput<T>, read: Interpretation) {
    i.previousMemory.Some? && a.identity(read.hypothesis, read.direction) == i.previousMemory.value.hypothesisId ==>
      Progressing(i.previousMemory.value.status)
  }

  // A terminal fact closes an open hypothesis, or repeats how it was closed.
  predicate Closable<T>(m: Memory<T>, f: ObservedFact) {
    Progressing(m.status) || m.status == if f.name == INVALIDATED_FACT then INVALIDATED else EXPIRED
  }

  lemma ResultsAreFound<T>(i: AgentInput<T>, r: ToolResult)
    requires ValidInput(i) && r in i.toolResults
    ensures ResultNamed(i.toolResults, r.resultId) == Some(r)
    ensures r.availableAt <= i.asOf
  {
    var k :| 0 <= k < |i.toolResults| && i.toolResults[k] == r;
    ResultNamedIsUnique(i.toolResults, k);
  }

  lemma InputsAreFound<T>(i: AgentInput<T>)
    requires ValidInput(i)
    ensures forall k :: 0 <= k < |i.toolResults| ==>
              var found := ResultNamed(i.toolResults, Inputs(i.toolResults)[k].resultId);
              found.Some? && ReferenceTo(found.value) == Inputs(i.toolResults)[k]
  {
    forall k | 0 <= k < |i.toolResults|
      ensures ResultNamed(i.toolResults, i.toolResults[k].resultId) == Some(i.toolResults[k])
    {
      ResultNamedIsUnique(i.toolResults, k);
    }
  }

  lemma ObservedComeFromInput<T>(i: AgentInput<T>, o: ObservedFact)
    requires ValidInput(i) && o in Observations(Usable(i.toolResults))
    ensures o.result in i.toolResults && o.result.availableAt <= i.asOf
    ensures ResultNamed(i.toolResults, o.result.resultId) == Some(o.result)
  {
    assert ObservedIn(o, Usable(i.toolResults));
    ResultsAreFound(i, o.result);
  }

  lemma CitationIsExact<T>(i: AgentInput<T>, o: ObservedFact, polarity: Polarity, strength: real)
    requires ValidInput(i) && o in Observations(Usable(i.toolResults))
    ensures CitesExactly(i.toolResults, Cite(o, polarity, strength)) <==> AgreesWithFirst(o)
  {
    ObservedComeFromInput(i, o);
  }

  lemma AbstentionIsAccepted<T>(a: Agent<T>, i: AgentInput<T>, hypothesis: Id, reason: AbstentionReason)
    requires ValidInput(i)
    requires i.previousMemory.Some? ==> Tracked(a, i.previousMemory.value)
    ensures var e := AbstainEvidence(a, i, hypothesis, reason);
            var outcome := Deliver(a, i, e, i.previousMemory);
            && outcome.Success?
            && outcome.value.evidence == e.(evidenceId := a.hash(e))
            && Tracked(a, outcome.value.memory)
            && (i.previousMemory.Some? ==> outcome.value.memory == i.previousMemory.value)
            && (i.previousMemory.None? ==> outcome.value.memory.status == ABSTAINED)
  {
    var e := AbstainEvidence(a, i, hypothesis, reason);
    InputsAreFound(i);
    assert e.availableAt <= i.asOf by {
      if e.availableAt != i.asOf {
        var r :| r in i.toolResults && r.availableAt == e.availableAt;
        ResultsAreFound(i, r);
      }
    }
    assert ValidEvidence(e);
    assert ValidOutput(i, e);
  }

  lemma TerminalIsEvidence<T>(a: Agent<T>, i: AgentInput<T>, m: Memory<T>, f: ObservedFact)
    requires i.toolResults != [] && f.result.availableAt <= i.asOf
    ensures ValidEvidence(TerminalEvidence(a, i, m, f))
  {
    QualityIsAShare(i.toolResults);
  }

  lemma TerminalIsOutput<T>(a: Agent<T>, i: AgentInput<T>, m: Memory<T>, f: ObservedFact)
    requires ValidInput(i) && f in Observations(Usable(i.toolResults))
    ensures ValidOutput(i, TerminalEvidence(a, i, m, f)) <==> AgreesWithFirst(f)
  {
    InputsAreFound(i);
    ObservedComeFromInput(i, f);
    CitationIsExact(i, f, CONTRADICTS, 1.0);
    AllExactSplits(i.toolResults, Cite(f, CONTRADICTS, 1.0), []);
  }

  lemma TerminalMovesMemory<T>(a: Agent<T>, i: AgentInput<T>, f: ObservedFact)
    requires i.previousMemory.Some? && Tracked(a, i.previousMemory.value) && IsTerminal(f)
    ensures var e := TerminalEvidence(a, i, i.previousMemory.value, f);
            && (Refusal(i.previousMemory, e).None? <==> InTime(i) && Closable(i.previousMemory.value, f))
            && Terminal(e.hypothesisStatus)
  {
  }

  lemma TerminalFactIsAccepted<T>(a: Agent<T>, i: AgentInput<T>, f: ObservedFact)
    requires ValidInput(i) && i.previousMemory.Some? && Tracked(a, i.previousMemory.value)
    requires f in Observations(Usable(i.toolResults)) && IsTerminal(f)
    ensures var m := i.previousMemory.value;
            var outcome := Deliver(a, i, TerminalEvidence(a, i, m, f), None);
            && (outcome.Success? <==> AgreesWithFirst(f) && InTime(i) && Closable(m, f))
            && (outcome.Success? ==> Tracked(a, outcome.value.memory) && Terminal(outcome.value.memory.status))
  {
    var e := TerminalEvidence(a, i, i.previousMemory.value, f);
    ObservedComeFromInput(i, f);
    TerminalIsEvidence(a, i, i.previousMemory.value, f);
    TerminalIsOutput(a, i, i.previousMemory.value, f);
    TerminalMovesMemory(a, i, f);
    DeliveryMoves(a, i, e);
  }

  // The name of a piece of evidence plays no part in whether it is accepted.
  lemma DeliveryMoves<T>(a: Agent<T>, i: AgentInput<T>, e: Evidence<T>)
    requires ValidEvidence(e) && ValidInput(i)
    requires e.agentName == a.name && e.hypothesisStatus != NONE
    requires e.hypothesisStatus == CONFIRMED ==> 0.7 <= e.confidence
    ensures var outcome := Deliver(a, i, e, None);
            && (outcome.Success? <==> ValidOutput(i, e) && Refusal(i.previousMemory, e).None?)
            && (outcome.Success? ==> Tracked(a, outcome.value.memory)
                                     && outcome.value.memory.status == e.hypothesisStatus)
  {
    var named := e.(evidenceId := a.hash(e));
    assert ValidEvidence(named);
    assert Refusal(i.previousMemory, named) == Refusal(i.previousMemory, e);
    if Refusal(i.previousMemory, e).None? {
      MovedIsValid(i.previousMemory, named);
    }
  }

  lemma {:induction false} CitedAreExact(
    results: seq<ToolResult>, observed: seq<ObservedFact>, names: set<Id>, polarity: Polarity, strength: real)
    requires forall x :: x in observed ==>
               (CitesExactly(results, Cite(x, polarity, strength)) <==> AgreesWithFirst(x))
    ensures AllExact(results, Cited(observed, names, polarity, strength)) <==> AllAgree(observed, names)
  {
    if observed != [] {
      var rest := Cited(observed[1..], names, polarity, strength);
      CitedAreExact(results, observed[1..], names, polarity, strength);
      AllAgreeSplits(observed, names);
      if observed[0].name in names {
        AllExactSplits(results, Cite(observed[0], polarity, strength), rest);
      }
    }
  }

  lemma AllAgreeSplits(observed: seq<ObservedFact>, names: set<Id>)
    requires observed != []
    ensures AllAgree(observed, names) <==>
            (observed[0].name in names ==> AgreesWithFirst(observed[0])) && AllAgree(observed[1..], names)
  {
    assert observed == [observed[0]] + observed[1..];
  }

  lemma AllExactSplits(results: seq<ToolResult>, first: EvidenceReference, rest: seq<EvidenceReference>)
    ensures AllExact(results, [first] + rest) <==> CitesExactly(results, first) && AllExact(results, rest)
  {
    var all := [first] + rest;
    assert all[0] == first;
    assert forall k :: 0 <= k < |rest| ==> all[k + 1] == rest[k];
  }

  lemma CitationsAreExact<T>(
    i: AgentInput<T>, observed: seq<ObservedFact>, names: set<Id>, polarity: Polarity, strength: real)
    requires ValidInput(i) && observed == Observations(Usable(i.toolResults))
    ensures AllExact(i.toolResults, Cited(observed, names, polarity, strength)) <==> AllAgree(observed, names)
  {
    forall x | x in observed
      ensures CitesExactly(i.toolResults, Cite(x, polarity, strength)) <==> AgreesWithFirst(x)
    {
      CitationIsExact(i, x, polarity, strength);
    }
    CitedAreExact(i.toolResults, observed, names, polarity, strength);
  }

  lemma ConfidenceIsAShare<T>(i: AgentInput<T>, read: Interpretation)
    requires i.toolResults != [] && 0.0 <= read.confidence
    ensures 0.0 <= ConfidenceOf(i, read) <= Quality(i.toolResults) <= 1.0
    ensures StatusOf(i, read) == DEGRADED ==> ConfidenceOf(i, read) <= 0.5
  {
    QualityIsAShare(i.toolResults);
    ProductIsNotNegative(read.confidence, Quality(i.toolResults));
  }

  lemma ReadingIsTimely<T>(i: AgentInput<T>, observed: seq<ObservedFact>)
    requires ValidInput(i) && observed == Observations(Usable(i.toolResults)) && observed != []
    ensures LatestFact(observed) <= i.asOf
    ensures i.toolResults != []
  {
    var latest := LatestFact(observed);
    assert exists x :: x in observed && x.result.availableAt == latest;
    var x :| x in observed && x.result.availableAt == latest;
    ObservedComeFromInput(i, x);
  }

  lemma ReadingIsEvidence<T>(a: Agent<T>, i: AgentInput<T>, read: Interpretation, observed: seq<ObservedFact>)
    requires i.toolResults != [] && observed != []
    requires LatestFact(observed) <= i.asOf
    requires 0.0 <= read.confidence
    ensures ValidEvidence(ReadEvidence(a, i, read, observed))
  {
    ConfidenceIsAShare(i, read);
  }

  lemma ReadingIsOutput<T>(a: Agent<T>, i: AgentInput<T>, read: Interpretation, observed: seq<ObservedFact>)
    requires ValidInput(i) && observed == Observations(Usable(i.toolResults)) && observed != []
    ensures ValidOutput(i, ReadEvidence(a, i, read, observed)) <==> CitationsAgree(observed, read)
  {
    ReadingIsTimely(i, observed);
    InputsAreFound(i);
    CitationsAreExact(i, observed, read.supports, SUPPORTS, 0.7);
    CitationsAreExact(i, observed, read.contradicts, CONTRADICTS, 0.6);
  }

  // The transition table accepts what the relationship rules produce, exactly while the
  // remembered hypothesis is open or another one is taken up.
  lemma ReadingMovesMemory<T>(a: Agent<T>, i: AgentInput<T>, read: Interpretation, observed: seq<ObservedFact>)
    requires observed != []
    requires i.previousMemory.Some? ==> Tracked(a, i.previousMemory.value)
    ensures var e := ReadEvidence(a, i, read, observed);
            && (Refusal(i.previousMemory, e).None? <==> InTime(i) && Continuable(a, i, read))
            && Progressing(e.hypothesisStatus)
            && (e.hypothesisStatus == CONFIRMED ==> 0.7 <= e.confidence)
  {
  }

  lemma ReadingIsAccepted<T>(a: Agent<T>, i: AgentInput<T>, read: Interpretation, observed: seq<ObservedFact>)
    requires ValidInput(i) && observed == Observations(Usable(i.toolResults)) && observed != []
    requires 0.0 <= read.confidence
    requires i.previousMemory.Some? ==> Tracked(a, i.previousMemory.value)
    ensures var outcome := Deliver(a, i, ReadEvidence(a, i, read, observed), None);
            && (outcome.Success? <==> CitationsAgree(observed, read) && InTime(i) && Continuable(a, i, read))
            && (outcome.Success? ==> Tracked(a, outcome.value.memory) && Progressing(outcome.value.memory.status))
  {
    ReadingIsTimely(i, observed);
    ReadingIsEvidence(a, i, read, observed);
    ReadingIsOutput(a, i, read, observed);
    ReadingMovesMemory(a, i, read, observed);
    DeliveryMoves(a, i, ReadEvidence(a, i, read, observed));
  }

  // What is asked of the facts and of the remembered hypothesis on the branch taken.
  ghost predicate Acceptable<T>(a: Agent<T>, i: AgentInput<T>) {
    var usable := Usable(i.toolResults);
    var observed := Observations(usable);
    var terminal := FirstTerminal(observed);
    && Permitted(a, i)
    && (usable != [] ==>
          if terminal.Some? && i.previousMemory.Some? then
            && AgreesWithFirst(terminal.value)
            && InTime(i)
            && Closable(i.previousMemory.value, terminal.value)
          else
            var read := a.interpret(observed);
            read.status != AGENT_ABSTAINED ==>
              && observed != []
              && CitationsAgree(observed, read)
              && InTime(i)
              && Continuable(a, i, read))
  }

  // Every specialist reads facts into a confidence that is not negative.
  ghost predicate ReadsSoundly<T>(a: Agent<T>) {
    forall o :: 0.0 <= a.interpret(o).confidence
  }

  ghost predicate GoodAnswer<T>(a: Agent<T>, i: AgentInput<T>, answer: Answer<T>) {
    && ValidEvidence(answer.evidence)
    && ValidOutput(i, answer.evidence)
    && answer.evidence.evidenceId == a.hash(answer.evidence.(evidenceId := 0))
    && Tracked(a, answer.memory)
  }

  lemma DeliveredIsGood<T>(a: Agent<T>, i: AgentInput<T>, e: Evidence<T>, kept: Option<Memory<T>>)
    requires e.evidenceId == 0
    requires Deliver(a, i, e, kept).Success? ==> Tracked(a, Deliver(a, i, e, kept).value.memory)
    ensures Deliver(a, i, e, kept).Success? ==> GoodAnswer(a, i, Deliver(a, i, e, kept).value)
  {
    var named := e.(evidenceId := a.hash(e));
    assert named.(evidenceId := 0) == e;
    assert ValidEvidence(named) <==> ValidEvidence(e);
    assert ValidOutput(i, named) <==> ValidOutput(i, e);
  }

  // An answer is given exactly when the facts and the memory allow one, and then evidence
  // contract, output check and memory contract all hold, and a confirmed memory is
  // confident.
  lemma ObserveSucceedsExactlyWhen<T>(a: Agent<T>, i: AgentInput<T>)
    requires ValidInput(i) && ReadsSoundly(a)
    requires i.previousMemory.Some? ==> Tracked(a, i.previousMemory.value)
    ensures Observe(a, i).Success? <==> Acceptable(a, i)
    ensures Observe(a, i).Success? ==> GoodAnswer(a, i, Observe(a, i).value)
  {
    if Permitted(a, i) {
      var usable := Usable(i.toolResults);
      var observed := Observations(usable);
      var terminal := FirstTerminal(observed);
      if usable == [] {
        Abstains(a, i, a.unavailable, UnavailableReason(i.toolResults));
      } else if terminal.Some? && i.previousMemory.Some? {
        TerminalFactIsAccepted(a, i, terminal.value);
        DeliveredIsGood(a, i, TerminalEvidence(a, i, i.previousMemory.value, terminal.value), None);
      } else {
        var read := a.interpret(observed);
        if read.status == AGENT_ABSTAINED {
          Abstains(a, i, read.hypothesis,
                   if read.abstention.Some? then read.abstention.value else NO_MEANINGFUL_HYPOTHESIS);
        } else if observed != [] {
          ReadingIsAccepted(a, i, read, observed);
          DeliveredIsGood(a, i, ReadEvidence(a, i, read, observed), None);
        }
      }
    }
  }

  lemma Abstains<T>(a: Agent<T>, i: AgentInput<T>, hypothesis: Id, reason: AbstentionReason)
    requires ValidInput(i)
    requires i.previousMemory.Some? ==> Tracked(a, i.previousMemory.value)
    ensures var outcome := Deliver(a, i, AbstainEvidence(a, i, hypothesis, reason), i.previousMemory);
            outcome.Success? && GoodAnswer(a, i, outcome.value)
  {
    AbstentionIsAccepted(a, i, hypothesis, reason);
    DeliveredIsGood(a, i, AbstainEvidence(a, i, hypothesis, reason), i.previousMemory);
  }

  // ----- Progress over whole runs -----

  ghost predicate FactsAreNamedOnce(r: ToolResult) {
    && r.facts != []
    && forall j, k :: 0 <= j < k < |r.facts| ==> r.facts[j].name != r.facts[k].name
  }

  lemma {:induction false} FirstOfItsName(facts: seq<Fact>, k: nat)
    requires k < |facts|
    requires forall i, j :: 0 <= i < j < |facts| ==> facts[i].name != facts[j].name
    ensures FactNamed(facts, facts[k].name) == Some(facts[k])
  {
    if 0 < k {
      assert facts[0].name != facts[k].name;
      FirstOfItsName(facts[1..], k - 1);
    }
  }

  lemma NamedOnceAgrees(o: ObservedFact)
    requires FactsAreNamedOnce(o.result) && Fact(o.name, o.value) in o.result.facts
    ensures AgreesWithFirst(o)
  {
    var k :| 0 <= k < |o.result.facts| && o.result.facts[k] == Fact(o.name, o.value);
    FirstOfItsName(o.result.facts, k);
  }

  lemma SomethingIsObserved(usable: seq<ToolResult>)
    requires usable != [] && usable[0].facts != []
    ensures Observations(usable) != []
  {
  }

  // An open hypothesis never stalls its specialist: whatever the tools report next, as long
  // as time does not run backwards and no usable result is empty or names a fact twice.
  lemma OpenHypothesisNeverStalls<T>(a: Agent<T>, i: AgentInput<T>)
    requires ValidInput(i) && ReadsSoundly(a) && Permitted(a, i) && InTime(i)
    requires i.previousMemory.Some? && Tracked(a, i.previousMemory.value)
    requires Progressing(i.previousMemory.value.status)
    requires forall r :: r in Usable(i.toolResults) ==> FactsAreNamedOnce(r)
    ensures Observe(a, i).Success? && GoodAnswer(a, i, Observe(a, i).value)
  {
    ObserveSucceedsExactlyWhen(a, i);
    var usable := Usable(i.toolResults);
    if usable != [] {
      var observed := Observations(usable);
      assert usable[0] in usable;
      SomethingIsObserved(usable);
      forall x | x in observed
        ensures AgreesWithFirst(x)
      {
        assert ObservedIn(x, usable);
        NamedOnceAgrees(x);
      }
    }
  }

  // A run feeds every memory back in; an exception leaves the memory as it was.
  function MemoryAfter<T(==)>(a: Agent<T>, run: seq<AgentInput<T>>): Option<Memory<T>> {
    if run == [] then
      None
    else
      var n := |run| - 1;
      var before := MemoryAfter(a, run[..n]);
      match Observe(a, run[n].(previousMemory := before))
      case Success(answer) => Some(answer.memory)
      case Failure(_) => before
  }

  // In every run from no memory at all, every memory is a tracked one: CONFIRMED always
  // comes with a confidence of at least 0.7, so the lemma above applies to all of them.
  lemma {:induction false} EveryMemoryIsTracked<T>(a: Agent<T>, run: seq<AgentInput<T>>)
    requires ReadsSoundly(a)
    requires forall k :: 0 <= k < |run| ==> ValidInput(run[k].(previousMemory := None))
    ensures MemoryAfter(a, run).Some? ==> Tracked(a, MemoryAfter(a, run).value)
  {
    if run != [] {
      var n := |run| - 1;
      var before := MemoryAfter(a, run[..n]);
      EveryMemoryIsTracked(a, run[..n]);
      var i := run[n].(previousMemory := before);
      assert ValidInput(run[n].(previousMemory := None));
      assert ValidInput(i);
      ObserveSucceedsExactlyWhen(a, i);
    }
  }

  // A closed hypothesis does stall its specialist: reading it again is refused, every time.
  lemma ClosedHypothesisStalls<T>(a: Agent<T>, i: AgentInput<T>)
    requires ValidInput(i) && ReadsSoundly(a)
    requires i.previousMemory.Some? && Tracked(a, i.previousMemory.value)
    requires Closed(i.previousMemory.value.status)
    requires Usable(i.toolResults) != []
    requires var observed := Observations(Usable(i.toolResults));
             var read := a.interpret(observed);
             && FirstTerminal(observed).None?
             && read.status != AGENT_ABSTAINED
             && a.identity(read.hypothesis, read.direction) == i.previousMemory.value.hypothesisId
    ensures Observe(a, i).Failure?
  {
    ObserveSucceedsExactlyWhen(a, i);
  }

  // Without the confidence of a confirmed memory the rules disagree: a gain that stays
  // below 0.7 asks for ACTIVE, which the table does not allow after CONFIRMED.
  lemma ConfirmedWithoutConfidenceStalls<T>(m: Memory<T>, confidence: real)
    requires m.status == CONFIRMED && m.confidence + 0.1 <= confidence < 0.7
    ensures Relate(Some(m), m.hypothesisId, confidence).status !in AllowedNext(m.status)
  {
  }
}
