/**
 Specialist memory: one accepted piece of evidence moves the hypothesis along its
 lifecycle.
 */
module AgentMemory {
  import opened Numerics
  import opened AgentContracts

  datatype MemoryError =
    | FIRST_MUST_BE_NEW
    | OTHER_AGENT
    | GOES_BACKWARDS
    | NEW_NEEDS_TERMINAL
    | NEW_NEEDS_DISTINCT
    | UNRELATED_HYPOTHESIS
    | FORBIDDEN_TRANSITION

  function AllowedNext(s: HypothesisStatus): set<HypothesisStatus> {
    match s
    case NONE => {NONE, DEVELOPING, ABSTAINED}
    case DEVELOPING => {DEVELOPING, ACTIVE, CONFIRMED, WEAKENING, INVALIDATED, EXPIRED, ABSTAINED}
    case ACTIVE => {ACTIVE, CONFIRMED, WEAKENING, INVALIDATED, EXPIRED}
    case CONFIRMED => {CONFIRMED, WEAKENING, INVALIDATED, EXPIRED}
    case WEAKENING => {WEAKENING, ACTIVE, CONFIRMED, INVALIDATED, EXPIRED}
    case INVALIDATED => {INVALIDATED}
    case EXPIRED => {EXPIRED}
    case ABSTAINED => {ABSTAINED, DEVELOPING}
  }

  predicate Terminal(s: HypothesisStatus) {
    s == INVALIDATED || s == EXPIRED
  }

  predicate Closed(s: HypothesisStatus) {
    Terminal(s) || s == ABSTAINED
  }

  // A status after which confirmations are counted afresh.
  predicate Resets(s: HypothesisStatus) {
    s != CONFIRMED && s != ACTIVE && s != WEAKENING
  }

  predicate StartsHypothesis(r: Relationship) {
    r == NEW || r == REVERSED
  }

  // The first error raised, if any.
  function Refusal<T(==)>(previous: Option<Memory<T>>, e: Evidence<T>): Option<MemoryError> {
    if previous.None? then
      if e.relationship != NEW then Some(FIRST_MUST_BE_NEW) else None
    else
      var m := previous.value;
      if m.agentName != e.agentName then
        Some(OTHER_AGENT)
      else if e.asOf < m.updatedAt then
        Some(GOES_BACKWARDS)
      else if e.relationship == NEW then
        if !Closed(m.status) then Some(NEW_NEEDS_TERMINAL)
        else if e.hypothesisId == m.hypothesisId then Some(NEW_NEEDS_DISTINCT)
        else None
      else if e.previousHypothesisId != Some(m.hypothesisId) then
        Some(UNRELATED_HYPOTHESIS)
      else if e.relationship != REVERSED && e.hypothesisStatus !in AllowedNext(m.status) then
        Some(FORBIDDEN_TRANSITION)
      else
        None
  }

  function Moved<T>(previous: Option<Memory<T>>, e: Evidence<T>): Memory<T> {
    var before := if previous.Some? then previous.value.confirmations else 0;
    Memory(
      e.agentName, e.agentVersion, e.hypothesisId, e.hypothesis,
      if previous.Some? then Some(previous.value.hypothesis) else None,
      e.confidence,
      if previous.Some? then Some(previous.value.confidence) else None,
      e.uncertainty, e.hypothesisStatus, e.relationship,
      if previous.Some? && !StartsHypothesis(e.relationship) then previous.value.beganAt else e.asOf,
      e.asOf,
      (if previous.Some? then previous.value.history else []) + [e.evidenceId],
      e.invalidated,
      if previous.Some? then Some(previous.value.latestEvidenceId) else None,
      e.evidenceId,
      if e.hypothesisStatus == CONFIRMED then before + 1 else if Resets(e.hypothesisStatus) then 0 else before,
      e.thesisId)
  }

  // transition_memory
  function TransitionMemory<T(==)>(previous: Option<Memory<T>>, e: Evidence<T>): Outcome<Memory<T>, MemoryError> {
    match Refusal(previous, e)
    case Some(error) => Failure(error)
    case None => Success(Moved(previous, e))
  }

  // The memory validator never refuses what a transition built.
  lemma MovedIsValid<T>(previous: Option<Memory<T>>, e: Evidence<T>)
    requires ValidEvidence(e)
    requires previous.Some? ==> ValidMemory(previous.value)
    requires Refusal(previous, e).None?
    ensures ValidMemory(Moved(previous, e))
  {
  }

  // A closed hypothesis is only ever left for another one: a terminal status stays what it
  // is until the hypothesis changes.
  lemma TerminalMemoryAbsorbs<T>(m: Memory<T>, e: Evidence<T>)
    requires ValidEvidence(e) && Terminal(m.status) && Refusal(Some(m), e).None?
    ensures e.hypothesisId == m.hypothesisId ==> Moved(Some(m), e).status == m.status
    ensures e.hypothesisId != m.hypothesisId <==> StartsHypothesis(e.relationship)
  {
  }

  // ----- Whole runs -----

  // What a specialist remembers after a run; None if some piece of evidence was refused.
  function Remembered<T(==)>(run: seq<Evidence<T>>): Option<Memory<T>> {
    if run == [] then
      None
    else
      var n := |run| - 1;
      var before := Remembered(run[..n]);
      if n == 0 || before.Some? then
        match TransitionMemory(before, run[n])
        case Success(m) => Some(m)
        case Failure(_) => None
      else
        None
  }

  function StatusesOf<T>(run: seq<Evidence<T>>): seq<HypothesisStatus> {
    seq(|run|, k requires 0 <= k < |run| => run[k].hypothesisStatus)
  }

  function ConfirmedCount(s: seq<HypothesisStatus>): nat {
    if s == [] then 0 else ConfirmedCount(s[..|s| - 1]) + if s[|s| - 1] == CONFIRMED then 1 else 0
  }

  // Where the statuses after the last reset begin.
  predicate SinceReset(s: seq<HypothesisStatus>, from: nat) {
    && from <= |s|
    && (0 < from ==> Resets(s[from - 1]))
    && forall k :: from <= k < |s| ==> !Resets(s[k])
  }

  lemma LastStepCounts<T>(run: seq<Evidence<T>>)
    requires run != [] && Remembered(run).Some?
    ensures |run| > 1 ==> Remembered(run[..|run| - 1]).Some?
    ensures var n := |run| - 1;
            var before := if n == 0 then 0 else Remembered(run[..n]).value.confirmations;
            var last := run[n].hypothesisStatus;
            Remembered(run).value.confirmations ==
              if last == CONFIRMED then before + 1 else if Resets(last) then 0 else before
  {
  }

  lemma LastCounts(s: seq<HypothesisStatus>, from: nat)
    requires from < |s|
    ensures ConfirmedCount(s[from..]) ==
            ConfirmedCount(s[from..|s| - 1]) + if s[|s| - 1] == CONFIRMED then 1 else 0
  {
    assert s[from..][..|s| - 1 - from] == s[from..|s| - 1];
  }

  // One step at a time: a confirmation counts, a reset clears, anything else keeps.
  function RunningCount(s: seq<HypothesisStatus>): nat {
    if s == [] then
      0
    else
      var last, before := s[|s| - 1], RunningCount(s[..|s| - 1]);
      if last == CONFIRMED then before + 1 else if Resets(last) then 0 else before
  }

  lemma {:induction false} RunningCountSinceReset(s: seq<HypothesisStatus>, from: nat)
    requires SinceReset(s, from)
    ensures RunningCount(s) == ConfirmedCount(s[from..])
  {
    var n := |s| - 1;
    if from < |s| {
      LastCounts(s, from);
      assert s[..n][from..] == s[from..n];
      RunningCountSinceReset(s[..n], from);
    }
  }

  lemma {:induction false} MemoryCountsRunning<T>(run: seq<Evidence<T>>)
    requires run == [] || Remembered(run).Some?
    ensures run != [] ==> Remembered(run).value.confirmations == RunningCount(StatusesOf(run))
  {
    if run != [] {
      var n := |run| - 1;
      LastStepCounts(run);
      MemoryCountsRunning(run[..n]);
      assert StatusesOf(run)[..n] == StatusesOf(run[..n]);
    }
  }

  // The confirmation count is the number of CONFIRMED steps since the last resetting one.
  lemma ConfirmationsCountSinceReset<T>(run: seq<Evidence<T>>, from: nat)
    requires Remembered(run).Some?
    requires SinceReset(StatusesOf(run), from)
    ensures Remembered(run).value.confirmations == ConfirmedCount(StatusesOf(run)[from..])
  {
    MemoryCountsRunning(run);
    RunningCountSinceReset(StatusesOf(run), from);
  }

  predicate Trail<T>(run: seq<Evidence<T>>, m: Memory<T>) {
    && |m.history| == |run|
    && (forall k :: 0 <= k < |run| ==> m.history[k] == run[k].evidenceId)
    && (forall k :: 0 <= k < |run| ==> run[k].asOf <= m.updatedAt)
    && (exists k :: 0 <= k < |run| && StartsAt(run, k) && m.beganAt == run[k].asOf)
  }

  // The hypothesis held at the end began at this step.
  predicate StartsAt<T>(run: seq<Evidence<T>>, k: nat) {
    && k < |run|
    && StartsHypothesis(run[k].relationship)
    && forall j :: k < j < |run| ==> !StartsHypothesis(run[j].relationship)
  }

  // The history names every piece of evidence in order, time never runs backwards, and the
  // start is that of the last step that opened a hypothesis.
  lemma {:induction false} MemoryKeepsItsTrail<T>(run: seq<Evidence<T>>)
    requires Remembered(run).Some?
    ensures Trail(run, Remembered(run).value)
  {
    var n := |run| - 1;
    var front, last := run[..n], run[n];
    assert run == front + [last];
    if n == 0 || StartsHypothesis(last.relationship) {
      assert StartsAt(run, n);
    }
    if n > 0 {
      MemoryKeepsItsTrail(front);
      if !StartsHypothesis(last.relationship) {
        var k :| 0 <= k < n && StartsAt(front, k) && Remembered(front).value.beganAt == front[k].asOf;
        assert StartsAt(run, k);
      }
    }
  }
}
