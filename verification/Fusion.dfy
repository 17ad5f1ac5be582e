/**
 Deterministic fusion of one bundle of specialist evidence into a proposal: sums of
 weighted strengths, read over the reals.
 */
module Fusion {
  import opened Numerics
  import opened AgentContracts

  type Proof = Evidence<Id>

  // The canonical specialists: chart, quant, historical, regime, news.
  const AGENT_ORDER: seq<Id> := [1, 2, 3, 4, 5]

  datatype Disposition =
    | CONTRIBUTED
    | DEGRADED_CONTRIBUTION
    | CONTEXT_ONLY
    | DID_ABSTAIN
    | IN_ERROR
    | TERMINAL_HYPOTHESIS
    | ZERO_CONFIDENCE

  datatype Decision = BUY | SELL | HOLD

  datatype Reason =
    | ACTIONABLE_BUY
    | ACTIONABLE_SELL
    | NO_READY_DIRECTIONAL_EVIDENCE
    | BELOW_SCORE_THRESHOLD
    | LOW_CONFIDENCE
    | HIGH_UNCERTAINTY
    | HIGH_CONTRADICTION
    | HIGH_DISAGREEMENT

  datatype Policy = Policy(
    weights: seq<real>,           // in canonical order
    degradedMultiplier: real,
    minimumScore: real,
    minimumConfidence: real,
    maximumUncertainty: real,
    maximumContradiction: real,
    maximumDisagreement: real,
    minimumReady: nat
  )

  datatype Contribution = Contribution(
    agent: Id,
    evidenceId: Id,
    direction: Option<Direction>,
    disposition: Disposition,
    configured: real,
    applied: real,
    strength: real,
    signed: real,
    uncertainty: real,
    contradiction: real
  )

  datatype Metrics = Metrics(
    bullish: real,
    bearish: real,
    net: real,
    disagreement: real,
    contradiction: real,
    uncertainty: real,
    confidence: real,
    ready: nat
  )

  datatype Proposal = Proposal(
    decision: Decision,
    metrics: Metrics,
    contributors: seq<Id>,
    contributions: seq<Contribution>,
    reasons: seq<Reason>
  )

  predicate ValidPolicy(p: Policy) {
    && |p.weights| == |AGENT_ORDER|
    && (forall k :: 0 <= k < |p.weights| ==> 0.0 < p.weights[k] <= 10.0)
    && Unit(p.degradedMultiplier) && Unit(p.minimumScore) && Unit(p.minimumConfidence)
    && Unit(p.maximumUncertainty) && Unit(p.maximumContradiction) && Unit(p.maximumDisagreement)
    && 1 <= p.minimumReady <= |AGENT_ORDER|
  }

  predicate ValidBundle(b: seq<Proof>) {
    && |b| == |AGENT_ORDER|
    && (forall k :: 0 <= k < |b| ==> b[k].agentName == AGENT_ORDER[k] && ValidEvidence(b[k]))
    && forall i, j :: 0 <= i < j < |b| ==> b[i].evidenceId != b[j].evidenceId
  }

  // ----- Contributions -----

  function Ratio(part: real, whole: real): real {
    if whole == 0.0 then 0.0 else part / whole
  }

  function Strengths(r: seq<EvidenceReference>): real {
    if r == [] then 0.0 else Strengths(r[..|r| - 1]) + r[|r| - 1].strength
  }

  function InternalContradiction(e: Proof): real {
    Ratio(Strengths(e.opposing), Strengths(e.supporting) + Strengths(e.opposing))
  }

  function DispositionOf(e: Proof): Disposition {
    if e.status == AGENT_ERROR then IN_ERROR
    else if e.status == AGENT_ABSTAINED then DID_ABSTAIN
    else if e.hypothesisStatus == INVALIDATED || e.hypothesisStatus == EXPIRED || e.invalidated then TERMINAL_HYPOTHESIS
    else if e.direction.None? || e.direction.value == NEUTRAL then CONTEXT_ONLY
    else if e.confidence == 0.0 then ZERO_CONFIDENCE
    else if e.status == DEGRADED then DEGRADED_CONTRIBUTION
    else CONTRIBUTED
  }

  function Multiplier(d: Disposition, degraded: real): real {
    match d
    case CONTRIBUTED => 1.0
    case DEGRADED_CONTRIBUTION => degraded
    case _ => 0.0
  }

  function Sign(d: Option<Direction>): real {
    if d == Some(BULLISH) then 1.0 else if d == Some(BEARISH) then -1.0 else 0.0
  }

  function Contribute(e: Proof, configured: real, degraded: real): Contribution {
    var disposition := DispositionOf(e);
    var applied := Times(configured, Multiplier(disposition, degraded));
    var strength := Times(Times(applied, e.confidence), 1.0 - e.uncertainty);
    Contribution(e.agentName, e.evidenceId, e.direction, disposition, configured, applied, strength,
                 Times(Sign(e.direction), strength), e.uncertainty, InternalContradiction(e))
  }

  function Contributions(b: seq<Proof>, p: Policy): (c: seq<Contribution>)
    requires |p.weights| == |b|
    ensures |c| == |b|
  {
    seq(|b|, k requires 0 <= k < |b| => Contribute(b[k], p.weights[k], p.degradedMultiplier))
  }

  predicate IsDirectional(c: Contribution) {
    0.0 < c.applied
  }

  // The sum of one amount over the contributions that carry weight.
  function SumOf(c: seq<Contribution>, amount: Contribution -> real): real {
    if c == [] then
      0.0
    else
      var n := |c| - 1;
      SumOf(c[..n], amount) + if IsDirectional(c[n]) then amount(c[n]) else 0.0
  }

  function Weight(c: Contribution): real {
    c.applied
  }

  function Bullishness(c: Contribution): real {
    Max(0.0, c.signed)
  }

  function Bearishness(c: Contribution): real {
    Max(0.0, -c.signed)
  }

  function Contradicted(c: Contribution): real {
    Times(c.strength, c.contradiction)
  }

  function Uncertain(c: Contribution): real {
    Times(c.applied, c.uncertainty)
  }

  function ReadyCount(c: seq<Contribution>): nat {
    if c == [] then 0 else ReadyCount(c[..|c| - 1]) + if c[|c| - 1].disposition == CONTRIBUTED then 1 else 0
  }

  // ----- Metrics, before any clamping -----

  datatype Sums = Sums(weight: real, bullish: real, bearish: real, contradicted: real, uncertain: real, ready: nat)

  function SumsOf(c: seq<Contribution>): Sums {
    Sums(SumOf(c, Weight), SumOf(c, Bullishness), SumOf(c, Bearishness), SumOf(c, Contradicted), SumOf(c, Uncertain),
         ReadyCount(c))
  }

  function MetricsOf(s: Sums): Metrics {
    var bullish, bearish := Ratio(s.bullish, s.weight), Ratio(s.bearish, s.weight);
    var strength := s.bullish + s.bearish;
    var disagreement := Ratio(2.0 * Min(s.bullish, s.bearish), strength);
    var contradiction := Ratio(s.contradicted, strength);
    Metrics(bullish, bearish, bullish - bearish, disagreement, contradiction,
            if s.weight == 0.0 then 1.0 else Ratio(s.uncertain, s.weight),
            Times(Times(Max(bullish, bearish), 1.0 - disagreement), 1.0 - contradiction), s.ready)
  }

  function Clamp(x: real, lo: real, hi: real): real {
    Max(lo, Min(hi, x))
  }

  function Clamped(m: Metrics): Metrics {
    Metrics(Clamp(m.bullish, 0.0, 1.0), Clamp(m.bearish, 0.0, 1.0), Clamp(m.net, -1.0, 1.0),
            Clamp(m.disagreement, 0.0, 1.0), Clamp(m.contradiction, 0.0, 1.0), Clamp(m.uncertainty, 0.0, 1.0),
            Clamp(m.confidence, 0.0, 1.0), m.ready)
  }

  // Appends a reason if its check failed.
  function With(r: seq<Reason>, failed: bool, x: Reason): seq<Reason> {
    if failed then r + [x] else r
  }

  function EvidenceReasons(m: Metrics, p: Policy): seq<Reason> {
    With(With(With([], m.ready < p.minimumReady, NO_READY_DIRECTIONAL_EVIDENCE),
              Abs(m.net) < p.minimumScore, BELOW_SCORE_THRESHOLD),
         m.confidence < p.minimumConfidence, LOW_CONFIDENCE)
  }

  function Failing(m: Metrics, p: Policy): seq<Reason> {
    With(With(With(EvidenceReasons(m, p), p.maximumUncertainty < m.uncertainty, HIGH_UNCERTAINTY),
              p.maximumContradiction < m.contradiction, HIGH_CONTRADICTION),
         p.maximumDisagreement < m.disagreement, HIGH_DISAGREEMENT)
  }

  function Contributors(c: seq<Contribution>): seq<Id> {
    if c == [] then
      []
    else
      var n := |c| - 1;
      Contributors(c[..n]) + if IsDirectional(c[n]) then [c[n].evidenceId] else []
  }

  function DecisionOf(m: Metrics, p: Policy): Decision {
    if Failing(m, p) != [] then HOLD else if 0.0 < m.net then BUY else SELL
  }

  // fuse_evidence
  function Fuse(b: seq<Proof>, p: Policy): Proposal
    requires |p.weights| == |b|
  {
    var c := Contributions(b, p);
    var m := MetricsOf(SumsOf(c));
    var decision := DecisionOf(m, p);
    Proposal(decision, Clamped(m), Contributors(c), c,
             match decision
             case HOLD => Failing(m, p)
             case BUY => [ACTIONABLE_BUY]
             case SELL => [ACTIONABLE_SELL])
  }

  // The metrics as computed, before they are clamped into their fields.
  function RawMetrics(b: seq<Proof>, p: Policy): Metrics
    requires |p.weights| == |b|
  {
    MetricsOf(SumsOf(Contributions(b, p)))
  }

  // ----- Contributions are in range -----

  lemma TimesOrder(c: real, a: real, b: real)
    requires 0.0 <= c && a <= b
    ensures Times(c, a) <= Times(c, b)
  {
  }

  lemma TimesUnit(c: real, u: real)
    requires 0.0 <= c && Unit(u)
    ensures 0.0 <= Times(c, u) <= c
  {
    var rest := 1.0 - u;
    ProductIsNotNegative(c, rest);
    ProductIsNotNegative(c, u);
    assert c * rest == c - c * u;
  }

  lemma RatioUnit(part: real, whole: real)
    requires 0.0 <= part <= whole
    ensures Unit(Ratio(part, whole))
  {
    if whole != 0.0 {
      var q := part / whole;
      assert q * whole == part;
      assert q < 0.0 ==> q * whole < 0.0;
      assert 1.0 < q ==> whole < q * whole;
    }
  }

  lemma {:induction false} StrengthsAreNotNegative(r: seq<EvidenceReference>)
    requires forall k :: 0 <= k < |r| ==> Unit(r[k].strength)
    ensures 0.0 <= Strengths(r)
  {
    if r != [] {
      StrengthsAreNotNegative(r[..|r| - 1]);
    }
  }

  // What the contribution contract demands, and a little more: a strength never exceeds the
  // weight it comes from, and only directional evidence carries weight.
  predicate ContributionOk(c: Contribution) {
    && 0.0 < c.configured <= 10.0
    && 0.0 <= c.applied <= c.configured
    && 0.0 <= c.strength <= c.applied
    && c.signed == Times(Sign(c.direction), c.strength)
    && Unit(c.uncertainty) && Unit(c.contradiction)
    && (IsDirectional(c) ==>
          && (c.direction == Some(BULLISH) || c.direction == Some(BEARISH))
          && (c.disposition == CONTRIBUTED || c.disposition == DEGRADED_CONTRIBUTION))
  }

  lemma ContributeIsOk(e: Proof, configured: real, degraded: real)
    requires ValidEvidence(e) && 0.0 < configured <= 10.0 && Unit(degraded)
    ensures ContributionOk(Contribute(e, configured, degraded))
  {
    var m := Multiplier(DispositionOf(e), degraded);
    var applied := Times(configured, m);
    TimesUnit(configured, m);
    TimesUnit(applied, e.confidence);
    TimesUnit(Times(applied, e.confidence), 1.0 - e.uncertainty);
    StrengthsAreNotNegative(e.supporting);
    StrengthsAreNotNegative(e.opposing);
    RatioUnit(Strengths(e.opposing), Strengths(e.supporting) + Strengths(e.opposing));
  }

  ghost predicate AllOk(c: seq<Contribution>) {
    forall k :: 0 <= k < |c| ==> ContributionOk(c[k])
  }

  lemma ContributionsAreOk(b: seq<Proof>, p: Policy)
    requires ValidBundle(b) && ValidPolicy(p)
    ensures AllOk(Contributions(b, p))
  {
    forall k | 0 <= k < |b|
      ensures ContributionOk(Contributions(b, p)[k])
    {
      ContributeIsOk(b[k], p.weights[k], p.degradedMultiplier);
    }
  }

  // ----- The sums -----

  predicate SumsOk(s: Sums) {
    && 0.0 <= s.bullish && 0.0 <= s.bearish
    && s.bullish + s.bearish <= s.weight
    && 0.0 <= s.contradicted <= s.bullish + s.bearish
    && 0.0 <= s.uncertain <= s.weight
  }

  lemma OneSide(c: Contribution)
    requires ContributionOk(c) && IsDirectional(c)
    ensures 0.0 <= Bullishness(c) && 0.0 <= Bearishness(c)
    ensures Bullishness(c) + Bearishness(c) == c.strength
  {
    assert Times(1.0, c.strength) == c.strength;
    assert Times(-1.0, c.strength) == -c.strength;
  }

  lemma {:induction false} SumsAreOk(c: seq<Contribution>)
    requires AllOk(c)
    ensures SumsOk(SumsOf(c))
  {
    if c != [] {
      var n := |c| - 1;
      SumsAreOk(c[..n]);
      if IsDirectional(c[n]) {
        OneSide(c[n]);
        TimesUnit(c[n].strength, c[n].contradiction);
        TimesUnit(c[n].applied, c[n].uncertainty);
      }
    }
  }

  // ----- Identities -----

  predicate InRange(m: Metrics) {
    && Unit(m.bullish) && Unit(m.bearish) && m.bullish + m.bearish <= 1.0
    && -1.0 <= m.net <= 1.0
    && Unit(m.disagreement) && Unit(m.contradiction) && Unit(m.uncertainty) && Unit(m.confidence)
  }

  lemma MetricsAreInRange(s: Sums)
    requires SumsOk(s)
    ensures InRange(MetricsOf(s))
  {
    var m := MetricsOf(s);
    RatioUnit(s.bullish, s.weight);
    RatioUnit(s.bearish, s.weight);
    RatioAdds(s.bullish, s.bearish, s.weight);
    RatioUnit(s.bullish + s.bearish, s.weight);
    RatioUnit(2.0 * Min(s.bullish, s.bearish), s.bullish + s.bearish);
    RatioUnit(s.contradicted, s.bullish + s.bearish);
    RatioUnit(s.uncertain, s.weight);
    TimesUnit(Max(m.bullish, m.bearish), 1.0 - m.disagreement);
    TimesUnit(Times(Max(m.bullish, m.bearish), 1.0 - m.disagreement), 1.0 - m.contradiction);
  }

  lemma RatioAdds(a: real, b: real, whole: real)
    ensures Ratio(a, whole) + Ratio(b, whole) == Ratio(a + b, whole)
  {
  }

  // Every metric lies in its range as computed, so clamping it changes nothing.
  lemma ClampingChangesNothing(b: seq<Proof>, p: Policy)
    requires ValidBundle(b) && ValidPolicy(p)
    ensures InRange(RawMetrics(b, p))
    ensures Fuse(b, p).metrics == RawMetrics(b, p)
  {
    ContributionsAreOk(b, p);
    SumsAreOk(Contributions(b, p));
    MetricsAreInRange(SumsOf(Contributions(b, p)));
  }

  lemma Cancel(x: real, y: real, w: real)
    requires w != 0.0 && x * w == y * w
    ensures x == y
  {
  }

  lemma AbsOfRatio(x: real, w: real)
    requires 0.0 < w
    ensures Abs(x / w) * w == Abs(x)
  {
    var q := x / w;
    assert q * w == x;
    assert q < 0.0 ==> q * w < 0.0;
    assert 0.0 <= q ==> 0.0 <= q * w;
    assert (-q) * w == -x;
  }

  // What is left of the strength once the weaker side has cancelled its match.
  lemma NetOfSums(s: Sums)
    requires SumsOk(s)
    ensures var m := MetricsOf(s); Abs(m.net) == Times(m.bullish + m.bearish, 1.0 - m.disagreement)
  {
    var m := MetricsOf(s);
    var t := s.bullish + s.bearish;
    RatioAdds(s.bullish, s.bearish, s.weight);
    RatioAdds(s.bullish, -s.bearish, s.weight);
    RatioNegates(s.bearish, s.weight);
    if t != 0.0 {
      NetArithmetic(t, 2.0 * Min(s.bullish, s.bearish), s.weight);
      assert Abs(s.bullish - s.bearish) == t - 2.0 * Min(s.bullish, s.bearish);
      RatioAbs(s.bullish - s.bearish, s.weight);
    }
  }

  lemma RatioNegates(a: real, whole: real)
    ensures Ratio(-a, whole) == -Ratio(a, whole)
  {
  }

  lemma RatioAbs(x: real, whole: real)
    requires 0.0 < whole
    ensures Abs(Ratio(x, whole)) == Ratio(Abs(x), whole)
  {
    AbsOfRatio(x, whole);
    var a := Abs(x) / whole;
    assert a * whole == Abs(x);
    Cancel(Abs(x / whole), a, whole);
  }

  // (t / w) * (1 - u / t) == (t - u) / w
  lemma NetArithmetic(t: real, u: real, w: real)
    requires t != 0.0 && 0.0 < w
    ensures Times(Ratio(t, w), 1.0 - Ratio(u, t)) == Ratio(t - u, w)
  {
    var x, q := t / w, u / t;
    assert x * w == t && q * t == u;
    var y := x * (1.0 - q);
    assert y * w == (x * w) * (1.0 - q);
    assert t * (1.0 - q) == t - q * t;
    var z := (t - u) / w;
    assert z * w == t - u;
    Cancel(y, z, w);
  }

  lemma ConfidenceOfSums(s: Sums)
    requires SumsOk(s)
    ensures var m := MetricsOf(s); m.confidence <= Abs(m.net)
  {
    var m := MetricsOf(s);
    MetricsAreInRange(s);
    NetOfSums(s);
    var strongest, agreed := Max(m.bullish, m.bearish), 1.0 - m.disagreement;
    TimesUnit(strongest, agreed);
    TimesUnit(Times(strongest, agreed), 1.0 - m.contradiction);
    TimesCommutes(strongest, agreed);
    TimesCommutes(m.bullish + m.bearish, agreed);
    TimesOrder(agreed, strongest, m.bullish + m.bearish);
  }

  lemma TimesCommutes(x: real, y: real)
    ensures Times(x, y) == Times(y, x)
  {
  }

  // The net score is the directional strength less its disagreement, and bounds the
  // confidence.
  predicate NetIsAgreedStrength(m: Metrics) {
    && Abs(m.net) == (m.bullish + m.bearish) * (1.0 - m.disagreement)
    && m.confidence <= Abs(m.net)
  }

  lemma NetAndConfidence(b: seq<Proof>, p: Policy)
    requires ValidBundle(b) && ValidPolicy(p)
    ensures NetIsAgreedStrength(RawMetrics(b, p))
  {
    BundleSumsAreOk(b, p);
    NetAndConfidenceOfSums(SumsOf(Contributions(b, p)));
  }

  lemma BundleSumsAreOk(b: seq<Proof>, p: Policy)
    requires ValidBundle(b) && ValidPolicy(p)
    ensures SumsOk(SumsOf(Contributions(b, p)))
  {
    ContributionsAreOk(b, p);
    SumsAreOk(Contributions(b, p));
  }

  lemma NetAndConfidenceOfSums(s: Sums)
    requires SumsOk(s)
    ensures NetIsAgreedStrength(MetricsOf(s))
  {
    NetOfSums(s);
    ConfidenceOfSums(s);
  }

  // So the score gate adds nothing when its threshold is no larger than the confidence one:
  // whatever passes the confidence gate passes it.
  lemma ScoreGateFollows(b: seq<Proof>, p: Policy)
    requires ValidBundle(b) && ValidPolicy(p) && p.minimumScore <= p.minimumConfidence
    ensures LOW_CONFIDENCE !in Failing(RawMetrics(b, p), p) ==> BELOW_SCORE_THRESHOLD !in Failing(RawMetrics(b, p), p)
  {
    NetAndConfidence(b, p);
    var m := RawMetrics(b, p);
    if m.confidence < p.minimumConfidence {
      assert LOW_CONFIDENCE in Failing(m, p);
    }
  }

  // ----- Flipping every direction -----

  function Opposite(d: Option<Direction>): Option<Direction> {
    if d == Some(BULLISH) then Some(BEARISH) else if d == Some(BEARISH) then Some(BULLISH) else d
  }

  function Flipped(b: seq<Proof>): (f: seq<Proof>)
    ensures |f| == |b|
  {
    seq(|b|, k requires 0 <= k < |b| => b[k].(direction := Opposite(b[k].direction)))
  }

  predicate Mirrors(c: Contribution, d: Contribution) {
    d == c.(direction := Opposite(c.direction), signed := -c.signed)
  }

  lemma FlippedContribution(e: Proof, configured: real, degraded: real)
    ensures Mirrors(Contribute(e, configured, degraded),
                    Contribute(e.(direction := Opposite(e.direction)), configured, degraded))
  {
    var strength := Contribute(e, configured, degraded).strength;
    assert Times(1.0, strength) == strength && Times(-1.0, strength) == -strength && Times(0.0, strength) == 0.0;
  }

  ghost predicate AllMirror(c: seq<Contribution>, d: seq<Contribution>) {
    |c| == |d| && forall k :: 0 <= k < |c| ==> Mirrors(c[k], d[k])
  }

  lemma {:induction false} FlippedSums(c: seq<Contribution>, d: seq<Contribution>)
    requires AllMirror(c, d)
    ensures var s, t := SumsOf(c), SumsOf(d);
            t == s.(bullish := s.bearish, bearish := s.bullish)
  {
    if c != [] {
      var n := |c| - 1;
      FlippedSums(c[..n], d[..n]);
      assert Mirrors(c[n], d[n]);
    }
  }

  lemma FlippedMetrics(s: Sums)
    ensures var m := MetricsOf(s);
            MetricsOf(s.(bullish := s.bearish, bearish := s.bullish)) ==
            m.(bullish := m.bearish, bearish := m.bullish, net := -m.net)
  {
  }

  function OppositeDecision(d: Decision): Decision {
    match d
    case BUY => SELL
    case SELL => BUY
    case HOLD => HOLD
  }

  // Flipping every direction swaps the two scores, turns the net score round and leaves every
  // other metric alone. The decision turns round exactly unless it was made at a net score
  // of zero, which takes both a minimum score and a minimum confidence of zero.
  lemma FlippingFlips(b: seq<Proof>, p: Policy)
    requires ValidBundle(b) && ValidPolicy(p)
    ensures var m := RawMetrics(b, p);
            && RawMetrics(Flipped(b), p) == m.(bullish := m.bearish, bearish := m.bullish, net := -m.net)
            && (Fuse(Flipped(b), p).decision == OppositeDecision(Fuse(b, p).decision) <==>
                !(m.net == 0.0 && Fuse(b, p).decision != HOLD))
            && (m.net == 0.0 && Fuse(b, p).decision != HOLD ==> p.minimumScore == 0.0 && p.minimumConfidence == 0.0)
  {
    var c, d := Contributions(b, p), Contributions(Flipped(b), p);
    forall k | 0 <= k < |b|
      ensures Mirrors(c[k], d[k])
    {
      FlippedContribution(b[k], p.weights[k], p.degradedMultiplier);
    }
    FlippedSums(c, d);
    FlippedMetrics(SumsOf(c));
    var m := RawMetrics(b, p);
    assert Failing(RawMetrics(Flipped(b), p), p) == Failing(m, p);
    if m.net == 0.0 && Fuse(b, p).decision != HOLD {
      NetAndConfidence(b, p);
      NoReasonFails(m, p);
    }
  }

  lemma NoReasonFails(m: Metrics, p: Policy)
    requires Failing(m, p) == []
    ensures p.minimumReady <= m.ready && p.minimumScore <= Abs(m.net) && p.minimumConfidence <= m.confidence
    ensures m.uncertainty <= p.maximumUncertainty && m.contradiction <= p.maximumContradiction
    ensures m.disagreement <= p.maximumDisagreement
  {
  }

  // ----- The proposal contract -----

  function Audited(c: seq<Contribution>): seq<Id> {
    if c == [] then
      []
    else
      var n := |c| - 1;
      Audited(c[..n]) +
        if c[n].disposition == CONTRIBUTED || c[n].disposition == DEGRADED_CONTRIBUTION then [c[n].evidenceId] else []
  }

  predicate DistinctReasons(r: seq<Reason>) {
    forall i, j :: 0 <= i < j < |r| ==> r[i] != r[j]
  }

  // The validator of MasterProposal.
  predicate ValidProposal(q: Proposal) {
    && InRange(q.metrics)
    && |q.contributions| == |AGENT_ORDER|
    && (forall k :: 0 <= k < |q.contributions| ==> q.contributions[k].agent == AGENT_ORDER[k])
    && q.contributors == Audited(q.contributions)
    && q.reasons != [] && DistinctReasons(q.reasons)
    && (q.decision == BUY ==> q.reasons == [ACTIONABLE_BUY])
    && (q.decision == SELL ==> q.reasons == [ACTIONABLE_SELL])
    && (q.decision == HOLD ==> ACTIONABLE_BUY !in q.reasons && ACTIONABLE_SELL !in q.reasons)
  }

  predicate Degrades(e: Proof) {
    DispositionOf(e) == DEGRADED_CONTRIBUTION
  }

  lemma DegradedCarriesWeight(e: Proof, configured: real, degraded: real)
    requires 0.0 < configured && 0.0 <= degraded
    ensures var c := Contribute(e, configured, degraded);
            IsDirectional(c) <==> c.disposition == CONTRIBUTED || (Degrades(e) && 0.0 < degraded)
  {
    assert Times(configured, 1.0) == configured && Times(configured, 0.0) == 0.0;
    assert 0.0 < degraded ==> 0.0 < configured * degraded;
  }

  predicate Contributing(c: Contribution) {
    c.disposition == CONTRIBUTED || c.disposition == DEGRADED_CONTRIBUTION
  }

  ghost predicate FullyWeighted(c: seq<Contribution>) {
    forall k :: 0 <= k < |c| && Contributing(c[k]) ==> IsDirectional(c[k])
  }

  // The two lists agree exactly when everything that contributed carries weight.
  lemma {:induction false} ContributorsAreAudited(c: seq<Contribution>)
    requires forall k :: 0 <= k < |c| && IsDirectional(c[k]) ==> Contributing(c[k])
    ensures |Contributors(c)| <= |Audited(c)|
    ensures FullyWeighted(c) ==> Contributors(c) == Audited(c)
    ensures !FullyWeighted(c) ==> |Contributors(c)| < |Audited(c)|
  {
    if c != [] {
      var n := |c| - 1;
      ContributorsAreAudited(c[..n]);
      assert c == c[..n] + [c[n]];
    }
  }

  function Rank(r: Reason): nat {
    match r
    case ACTIONABLE_BUY => 0
    case ACTIONABLE_SELL => 1
    case NO_READY_DIRECTIONAL_EVIDENCE => 2
    case BELOW_SCORE_THRESHOLD => 3
    case LOW_CONFIDENCE => 4
    case HIGH_UNCERTAINTY => 5
    case HIGH_CONTRADICTION => 6
    case HIGH_DISAGREEMENT => 7
  }

  // Reasons in ascending order, none of them an action, all below a rank.
  predicate Ascending(r: seq<Reason>, below: nat) {
    && (forall i :: 0 <= i < |r| ==> 2 <= Rank(r[i]) < below)
    && forall i, j :: 0 <= i < j < |r| ==> Rank(r[i]) < Rank(r[j])
  }

  lemma AppendReason(r: seq<Reason>, failed: bool, x: Reason)
    requires 2 <= Rank(x) && Ascending(r, Rank(x))
    ensures Ascending(With(r, failed, x), Rank(x) + 1)
  {
  }

  lemma EvidenceReasonsAscend(m: Metrics, p: Policy)
    ensures Ascending(EvidenceReasons(m, p), 5)
  {
    var none: seq<Reason> := [];
    var a := With(none, m.ready < p.minimumReady, NO_READY_DIRECTIONAL_EVIDENCE);
    var b := With(a, Abs(m.net) < p.minimumScore, BELOW_SCORE_THRESHOLD);
    AppendReason(none, m.ready < p.minimumReady, NO_READY_DIRECTIONAL_EVIDENCE);
    AppendReason(a, Abs(m.net) < p.minimumScore, BELOW_SCORE_THRESHOLD);
    AppendReason(b, m.confidence < p.minimumConfidence, LOW_CONFIDENCE);
  }

  lemma FailingIsProper(m: Metrics, p: Policy)
    ensures DistinctReasons(Failing(m, p))
    ensures ACTIONABLE_BUY !in Failing(m, p) && ACTIONABLE_SELL !in Failing(m, p)
  {
    var c := EvidenceReasons(m, p);
    var d := With(c, p.maximumUncertainty < m.uncertainty, HIGH_UNCERTAINTY);
    var e := With(d, p.maximumContradiction < m.contradiction, HIGH_CONTRADICTION);
    EvidenceReasonsAscend(m, p);
    AppendReason(c, p.maximumUncertainty < m.uncertainty, HIGH_UNCERTAINTY);
    AppendReason(d, p.maximumContradiction < m.contradiction, HIGH_CONTRADICTION);
    AppendReason(e, p.maximumDisagreement < m.disagreement, HIGH_DISAGREEMENT);
    AscendingIsProper(Failing(m, p));
  }

  lemma AscendingIsProper(r: seq<Reason>)
    requires Ascending(r, 8)
    ensures DistinctReasons(r) && ACTIONABLE_BUY !in r && ACTIONABLE_SELL !in r
  {
  }

  // The gate a reason stands for.
  predicate GateFails(x: Reason, m: Metrics, p: Policy) {
    match x
    case NO_READY_DIRECTIONAL_EVIDENCE => m.ready < p.minimumReady
    case BELOW_SCORE_THRESHOLD => Abs(m.net) < p.minimumScore
    case LOW_CONFIDENCE => m.confidence < p.minimumConfidence
    case HIGH_UNCERTAINTY => p.maximumUncertainty < m.uncertainty
    case HIGH_CONTRADICTION => p.maximumContradiction < m.contradiction
    case HIGH_DISAGREEMENT => p.maximumDisagreement < m.disagreement
    case _ => false
  }

  lemma WithMeaning(r: seq<Reason>, failed: bool, y: Reason, x: Reason)
    ensures x in With(r, failed, y) <==> x in r || (failed && x == y)
  {
  }

  lemma EvidenceReasonMeaning(m: Metrics, p: Policy, x: Reason)
    ensures x in EvidenceReasons(m, p) <==>
            (x == NO_READY_DIRECTIONAL_EVIDENCE || x == BELOW_SCORE_THRESHOLD || x == LOW_CONFIDENCE)
            && GateFails(x, m, p)
  {
    var none: seq<Reason> := [];
    var a := With(none, m.ready < p.minimumReady, NO_READY_DIRECTIONAL_EVIDENCE);
    var b := With(a, Abs(m.net) < p.minimumScore, BELOW_SCORE_THRESHOLD);
    WithMeaning(none, m.ready < p.minimumReady, NO_READY_DIRECTIONAL_EVIDENCE, x);
    WithMeaning(a, Abs(m.net) < p.minimumScore, BELOW_SCORE_THRESHOLD, x);
    WithMeaning(b, m.confidence < p.minimumConfidence, LOW_CONFIDENCE, x);
  }

  // A reason is given exactly when its gate fails.
  lemma ReasonIsExact(m: Metrics, p: Policy, x: Reason)
    ensures x in Failing(m, p) <==> GateFails(x, m, p)
  {
    var c := EvidenceReasons(m, p);
    var d := With(c, p.maximumUncertainty < m.uncertainty, HIGH_UNCERTAINTY);
    var e := With(d, p.maximumContradiction < m.contradiction, HIGH_CONTRADICTION);
    EvidenceReasonMeaning(m, p, x);
    WithMeaning(c, p.maximumUncertainty < m.uncertainty, HIGH_UNCERTAINTY, x);
    WithMeaning(d, p.maximumContradiction < m.contradiction, HIGH_CONTRADICTION, x);
    WithMeaning(e, p.maximumDisagreement < m.disagreement, HIGH_DISAGREEMENT, x);
  }

  // Every gate has its own reason, and no reason is given exactly when all six gates pass.
  lemma ReasonsAreExact(m: Metrics, p: Policy)
    ensures forall x :: x in Failing(m, p) <==> GateFails(x, m, p)
    ensures Failing(m, p) == [] <==>
            && p.minimumReady <= m.ready
            && p.minimumScore <= Abs(m.net)
            && p.minimumConfidence <= m.confidence
            && m.uncertainty <= p.maximumUncertainty
            && m.contradiction <= p.maximumContradiction
            && m.disagreement <= p.maximumDisagreement
  {
    forall x
      ensures x in Failing(m, p) <==> GateFails(x, m, p)
    {
      ReasonIsExact(m, p, x);
    }
    if Failing(m, p) != [] {
      assert GateFails(Failing(m, p)[0], m, p);
    } else {
      assert forall x :: !GateFails(x, m, p);
      assert !GateFails(NO_READY_DIRECTIONAL_EVIDENCE, m, p) && !GateFails(BELOW_SCORE_THRESHOLD, m, p);
      assert !GateFails(LOW_CONFIDENCE, m, p) && !GateFails(HIGH_UNCERTAINTY, m, p);
      assert !GateFails(HIGH_CONTRADICTION, m, p) && !GateFails(HIGH_DISAGREEMENT, m, p);
    }
  }

  // A fused proposal meets its contract exactly when no degraded contribution was weighted
  // by zero: with a positive degraded multiplier it always does.
  lemma ProposalIsValidExactlyWhen(b: seq<Proof>, p: Policy)
    requires ValidBundle(b) && ValidPolicy(p)
    ensures ValidProposal(Fuse(b, p)) <==>
            0.0 < p.degradedMultiplier || forall k :: 0 <= k < |b| ==> !Degrades(b[k])
  {
    var c := Contributions(b, p);
    ClampingChangesNothing(b, p);
    ContributionsAreOk(b, p);
    FailingIsProper(RawMetrics(b, p), p);
    forall k | 0 <= k < |b|
      ensures IsDirectional(c[k]) <==> c[k].disposition == CONTRIBUTED || (Degrades(b[k]) && 0.0 < p.degradedMultiplier)
    {
      DegradedCarriesWeight(b[k], p.weights[k], p.degradedMultiplier);
    }
    ContributorsAreAudited(c);
  }
}
