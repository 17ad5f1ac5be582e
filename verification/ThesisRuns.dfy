/**
 Whole runs of the thesis lifecycle under one policy. A refused event leaves the thesis as
 it was.
 */
module ThesisRuns {
  import opened Numerics
  import opened AgentContracts
  import opened AgentMemory
  import opened Thesis

  datatype Step = Step(event: Event, question: Question, evidence: Proof, definitions: seq<Definition>)

  // Evidence and definitions meet their own contracts; nothing else is asked of a run.
  ghost predicate WellTyped(run: seq<Step>) {
    forall k :: 0 <= k < |run| ==> ValidEvidence(run[k].evidence) && Defined(run[k].definitions)
  }

  function Apply(t: Option<ThesisState>, step: Step, policy: Policy): Option<ThesisState> {
    match UpdateThesis(step.event, step.question, step.evidence, t, policy, step.definitions)
    case Success(next) => next
    case Failure(_) => t
  }

  // The thesis before the first step, between the steps and after the last one.
  function History(run: seq<Step>, policy: Policy): (states: seq<Option<ThesisState>>)
    ensures |states| == |run| + 1
  {
    if run == [] then
      [None]
    else
      var n := |run| - 1;
      var before := History(run[..n], policy);
      before + [Apply(before[n], run[n], policy)]
  }

  ghost predicate IsHistory(run: seq<Step>, states: seq<Option<ThesisState>>, policy: Policy) {
    && |states| == |run| + 1
    && states[0] == None
    && forall k {:trigger Apply(states[k], run[k], policy)} ::
         0 <= k < |run| ==> states[k + 1] == Apply(states[k], run[k], policy)
  }

  lemma {:induction false} HistoryIsOne(run: seq<Step>, policy: Policy)
    ensures IsHistory(run, History(run, policy), policy)
  {
    if run != [] {
      var n := |run| - 1;
      var states, before := History(run, policy), History(run[..n], policy);
      HistoryIsOne(run[..n], policy);
      forall k | 0 <= k < |run|
        ensures states[k + 1] == Apply(states[k], run[k], policy)
      {
        if k < n {
          assert run[..n][k] == run[k] && before[k] == states[k] && before[k + 1] == states[k + 1];
          assert before[k + 1] == Apply(before[k], run[..n][k], policy);
        }
      }
    }
  }

  // Every reachable thesis passes its validators and satisfies the whole invariant.
  lemma {:induction false} EveryThesisIsOk(
    run: seq<Step>, states: seq<Option<ThesisState>>, policy: Policy, k: nat)
    requires ValidPolicy(policy) && WellTyped(run) && IsHistory(run, states, policy) && k <= |run|
    ensures states[k].Some? ==> ThesisOk(states[k].value, policy)
  {
    if 0 < k {
      EveryThesisIsOk(run, states, policy, k - 1);
      ApplyIsSound(states[k - 1], run[k - 1], policy);
    }
  }

  lemma ApplyIsSound(t: Option<ThesisState>, step: Step, policy: Policy)
    requires ValidPolicy(policy) && ValidEvidence(step.evidence) && Defined(step.definitions)
    requires t.Some? ==> ThesisOk(t.value, policy)
    ensures var next := Apply(t, step, policy);
            && (next.Some? ==> ThesisOk(next.value, policy))
            && (t.Some? ==> next.Some? && Linked(t.value, next.value, step.event))
  {
    StepIsSound(step.event, step.question, step.evidence, t, policy, step.definitions);
  }

  // A thesis may be traded on only when every condition of one of its scenarios was matched,
  // the specialist's memory is CONFIRMED, and its time and its bars are not used up.
  lemma EligibleIsEarned(run: seq<Step>, states: seq<Option<ThesisState>>, policy: Policy, k: nat)
    requires ValidPolicy(policy) && WellTyped(run) && IsHistory(run, states, policy) && k <= |run|
    requires states[k].Some? && states[k].value.eligibility == ELIGIBLE
    ensures var t := states[k].value;
            && t.memory.status == CONFIRMED
            && t.last.availableAt < t.expiresAt
            && t.bars <= policy.maxBars
            && exists i :: 0 <= i < |t.scenarios| && t.scenarios[i].matched == Names(t.scenarios[i].confirmation)
  {
    EveryThesisIsOk(run, states, policy, k);
    var t := states[k].value;
    var i :| 0 <= i < |t.scenarios| && t.scenarios[i].eligibility == ELIGIBLE;
    var s := t.scenarios[i];
    assert ScenarioOk(s, t);
    assert forall name :: name in s.matched ==> name in Names(s.confirmation);
    ProgressMeaning(s.matched, s.confirmation);
  }

  // ----- From step to step -----

  // The thesis before and after one step.
  ghost predicate Linked(t: ThesisState, next: ThesisState, event: Event) {
    && NotBefore(next.last, t.last)
    && (Replaces(t, next, event) || CarriesOn(t, next, event))
  }

  ghost predicate LinkedAt(run: seq<Step>, states: seq<Option<ThesisState>>, k: nat)
    requires |states| == |run| + 1 && k < |run|
  {
    states[k].Some? ==> states[k + 1].Some? && Linked(states[k].value, states[k + 1].value, run[k].event)
  }

  ghost predicate Chained(run: seq<Step>, states: seq<Option<ThesisState>>) {
    && |states| == |run| + 1
    && forall k {:trigger LinkedAt(run, states, k)} :: 0 <= k < |run| ==> LinkedAt(run, states, k)
  }

  lemma HistoryIsChained(run: seq<Step>, states: seq<Option<ThesisState>>, policy: Policy)
    requires ValidPolicy(policy) && WellTyped(run) && IsHistory(run, states, policy)
    ensures Chained(run, states)
  {
    forall k | 0 <= k < |run|
      ensures LinkedAt(run, states, k)
    {
      EveryThesisIsOk(run, states, policy, k);
      ApplyIsSound(states[k], run[k], policy);
    }
  }

  lemma LaterChains(a: CausalKey, b: CausalKey, c: CausalKey)
    requires NotBefore(b, a) && NotBefore(c, b)
    ensures NotBefore(c, a)
  {
  }

  // The causal key of the current thesis never decreases.
  lemma KeysNeverDecrease(run: seq<Step>, states: seq<Option<ThesisState>>, policy: Policy, j: nat, k: nat)
    requires ValidPolicy(policy) && WellTyped(run) && IsHistory(run, states, policy) && j <= k <= |run|
    requires states[j].Some?
    ensures states[k].Some? && NotBefore(states[k].value.last, states[j].value.last)
  {
    HistoryIsChained(run, states, policy);
    ChainedKeys(run, states, j, k);
  }

  lemma {:induction false} ChainedKeys(run: seq<Step>, states: seq<Option<ThesisState>>, j: nat, k: nat)
    requires Chained(run, states) && j <= k <= |run| && states[j].Some?
    ensures states[k].Some? && NotBefore(states[k].value.last, states[j].value.last)
    decreases k - j
  {
    if j < k {
      ChainedKeys(run, states, j, k - 1);
      assert LinkedAt(run, states, k - 1);
      LaterChains(states[j].value.last, states[k - 1].value.last, states[k].value.last);
    }
  }

  // Step m put a fresh thesis in the place of the one before.
  ghost predicate ReplacedAt(run: seq<Step>, states: seq<Option<ThesisState>>, m: nat)
    requires |states| == |run| + 1 && m < |run|
  {
    states[m].Some? && states[m + 1].Some? && Replaces(states[m].value, states[m + 1].value, run[m].event)
  }

  // No step from j up to k opens a fresh thesis.
  ghost predicate SameThesis(run: seq<Step>, states: seq<Option<ThesisState>>, j: nat, k: nat)
    requires |states| == |run| + 1 && k <= |run|
  {
    forall m :: j <= m < k ==> !ReplacedAt(run, states, m)
  }

  // The same thesis later, and closed if it was closed.
  predicate Endures(a: ThesisState, b: ThesisState) {
    Inherits(a, b) && (Terminal(a.status) ==> Terminal(b.status))
  }

  lemma EnduresChains(a: ThesisState, b: ThesisState, c: ThesisState)
    requires Endures(a, b) && Endures(b, c)
    ensures Endures(a, c)
  {
  }

  lemma OneStepEndures(run: seq<Step>, states: seq<Option<ThesisState>>, k: nat)
    requires Chained(run, states) && k < |run| && states[k].Some? && !ReplacedAt(run, states, k)
    ensures states[k + 1].Some? && Endures(states[k].value, states[k + 1].value)
  {
    assert LinkedAt(run, states, k);
  }

  // Within one thesis its identity and its deadline stay, matched facts only grow, and
  // closed is for good.
  lemma OneThesisOnlyGrows(run: seq<Step>, states: seq<Option<ThesisState>>, policy: Policy, j: nat, k: nat)
    requires ValidPolicy(policy) && WellTyped(run) && IsHistory(run, states, policy) && j <= k <= |run|
    requires states[j].Some? && SameThesis(run, states, j, k)
    ensures states[k].Some? && Endures(states[j].value, states[k].value)
  {
    HistoryIsChained(run, states, policy);
    ChainedEndures(run, states, j, k);
  }

  lemma {:induction false} ChainedEndures(run: seq<Step>, states: seq<Option<ThesisState>>, j: nat, k: nat)
    requires Chained(run, states) && j <= k <= |run| && states[j].Some?
    requires SameThesis(run, states, j, k)
    ensures states[k].Some? && Endures(states[j].value, states[k].value)
    decreases k - j
  {
    if j < k {
      ChainedEndures(run, states, j, k - 1);
      OneStepEndures(run, states, k - 1);
      EnduresChains(states[j].value, states[k - 1].value, states[k].value);
    }
  }

  // Terminal absorption: a closed thesis is closed at every later time, unless a fresh one
  // that supersedes its predecessor took its place in between.
  lemma ClosedUntilReplaced(run: seq<Step>, states: seq<Option<ThesisState>>, policy: Policy, j: nat, k: nat)
    requires ValidPolicy(policy) && WellTyped(run) && IsHistory(run, states, policy) && j <= k <= |run|
    requires states[j].Some? && Terminal(states[j].value.status)
    ensures || (exists m :: j <= m < k && ReplacedAt(run, states, m))
            || (&& states[k].Some?
                && Terminal(states[k].value.status)
                && states[k].value.thesisId == states[j].value.thesisId)
  {
    HistoryIsChained(run, states, policy);
    if SameThesis(run, states, j, k) {
      ChainedEndures(run, states, j, k);
    }
  }

  // An invalidated thesis that no fresh one replaces stays INVALIDATED, unless the step is a
  // causally admissible new M5 close past its deadline that does not start a hypothesis: then
  // it reads EXPIRED.
  lemma InvalidatedUntilTimeIsUp(run: seq<Step>, states: seq<Option<ThesisState>>, policy: Policy, k: nat)
    requires ValidPolicy(policy) && WellTyped(run) && IsHistory(run, states, policy) && k < |run|
    requires states[k].Some? && states[k].value.status == INVALIDATED && !ReplacedAt(run, states, k)
    ensures states[k + 1].Some?
    ensures var step, t, next := run[k], states[k].value, states[k + 1].value;
            && (next.status == EXPIRED <==>
                  && CausalError(step.event, step.question, step.evidence, states[k]).None?
                  && TimeIsUp(step.event, t)
                  && !StartsHypothesis(step.evidence.relationship))
            && (next.status != EXPIRED ==> next.status == INVALIDATED && next.memory.status == INVALIDATED)
  {
    var step, t := run[k], states[k].value;
    EveryThesisIsOk(run, states, policy, k);
    assert states[k + 1] == Apply(states[k], step, policy);
    StepIsSound(step.event, step.question, step.evidence, states[k], policy, step.definitions);
    var outcome := UpdateThesis(step.event, step.question, step.evidence, states[k], policy, step.definitions);
    if outcome.Success? {
      FreshThesisReplaces(step, t, policy);
      InvalidatedExpiresExactlyWhen(t, step.event, step.evidence, policy, step.definitions);
    }
  }

  lemma FreshThesisReplaces(step: Step, t: ThesisState, policy: Policy)
    requires ValidPolicy(policy) && ValidEvidence(step.evidence) && Defined(step.definitions)
    requires ThesisOk(t, policy)
    ensures var branch := BranchOf(step.event, step.evidence, t);
            var outcome := Advance(step.event, step.evidence, t, policy, step.definitions);
            (branch == REVERSE || branch == REPLACE) && outcome.Success? ==> Replaces(t, outcome.value, step.event)
  {
    CreatedIsOk(step.event, step.evidence, policy, step.definitions, Some(t.memory), Some(t.thesisId));
    CreatedIsOk(step.event, step.evidence, policy, step.definitions, None, Some(t.thesisId));
  }

  // Step m is an M5 close that moved the thesis.
  ghost predicate CloseAt(run: seq<Step>, states: seq<Option<ThesisState>>, m: nat)
    requires |states| == |run| + 1 && m < |run|
  {
    run[m].event.eventType == M5_CLOSED && states[m + 1] != states[m]
  }

  ghost function M5Closes(run: seq<Step>, states: seq<Option<ThesisState>>, j: nat, k: nat): nat
    requires |states| == |run| + 1 && j <= k <= |run|
    decreases k - j
  {
    if j == k then 0 else M5Closes(run, states, j, k - 1) + if CloseAt(run, states, k - 1) then 1 else 0
  }

  lemma OneBar(run: seq<Step>, states: seq<Option<ThesisState>>, k: nat)
    requires Chained(run, states) && k < |run| && states[k].Some? && !ReplacedAt(run, states, k)
    requires states[k + 1].Some? && Live(states[k + 1].value)
    ensures Live(states[k].value)
    ensures states[k + 1].value.bars == states[k].value.bars + if CloseAt(run, states, k) then 1 else 0
  {
    assert LinkedAt(run, states, k);
  }

  lemma {:induction false} BarsAreM5Closes(run: seq<Step>, states: seq<Option<ThesisState>>, j: nat, k: nat)
    requires Chained(run, states) && j <= k <= |run| && states[j].Some?
    requires SameThesis(run, states, j, k)
    requires states[k].Some? && Live(states[k].value)
    ensures states[k].value.bars == states[j].value.bars + M5Closes(run, states, j, k)
    decreases k - j
  {
    if j < k {
      ChainedEndures(run, states, j, k - 1);
      OneBar(run, states, k - 1);
      BarsAreM5Closes(run, states, j, k - 1);
    }
  }

  // No thesis stays live past its deadline or past the allowed number of M5 closes: opening
  // it was the first.
  lemma LiveWithinLimits(run: seq<Step>, states: seq<Option<ThesisState>>, policy: Policy, j: nat, k: nat)
    requires ValidPolicy(policy) && WellTyped(run) && IsHistory(run, states, policy) && j <= k <= |run|
    requires states[j].Some? && SameThesis(run, states, j, k)
    requires states[k].Some? && Live(states[k].value)
    ensures 1 + M5Closes(run, states, j, k) <= policy.maxBars
    ensures states[k].value.last.availableAt < states[j].value.expiresAt
  {
    HistoryIsChained(run, states, policy);
    BarsAreM5Closes(run, states, j, k);
    ChainedEndures(run, states, j, k);
    EveryThesisIsOk(run, states, policy, j);
    EveryThesisIsOk(run, states, policy, k);
  }
}
