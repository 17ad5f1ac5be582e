/**
 One bounded round of evidence-bound interaction: the Master challenges up to three
 specialists, and each may only restate its own evidence. Records name each other by a
 hash of their content, so a name is the record itself here.
 */
module Interaction {
  import opened Numerics
  import opened AgentContracts
  import opened Fusion

  datatype Assessment = Assessment(
    initial: seq<Id>,
    bullish: seq<Id>,
    bearish: seq<Id>,
    disagreement: real,
    threshold: real,
    required: bool,
    selected: seq<Id>
  )

  datatype Round = Round(assessment: Assessment, participants: seq<Id>)

  datatype TurnType = MASTER_CHALLENGE | SPECIALIST_REBUTTAL

  const MASTER: Id := 0

  datatype Turn = Turn(
    round: Round,
    index: nat,
    speaker: Id,
    recipient: Id,
    turnType: TurnType,
    original: Id,
    conflicting: seq<Id>,
    stance: Option<Direction>,
    confidence: Option<real>,
    rationale: Id,
    cited: seq<Id>,
    predecessor: Option<Turn>
  )

  datatype Status = COMPLETED | UNAVAILABLE | MALFORMED | TIMED_OUT

  datatype Resolution = Resolution(round: Round, turns: seq<Turn>, status: Status, failed: bool)

  datatype Session = Session(
    assessment: Assessment,
    round: Option<Round>,
    turns: seq<Turn>,
    resolution: Option<Resolution>
  )

  // What a responder may come back with: an answer of its own, or an exception.
  datatype Reply =
    | Rebuttal(stance: Direction, confidence: real, rationale: Id, rationaleLength: nat, cited: seq<Id>)
    | NotARebuttal
    | TimedOut
    | Failed

  type Responder = (Proof, Turn) -> Reply

  // ----- The contracts -----

  predicate InOrder(names: seq<Id>) {
    && (forall k :: 0 <= k < |names| ==> names[k] in AGENT_ORDER)
    && forall i, j :: 0 <= i < j < |names| ==> names[i] <= names[j]
  }

  predicate ValidAssessment(a: Assessment) {
    && Unit(a.disagreement) && Unit(a.threshold)
    && (forall i, j :: 0 <= i < j < |a.initial| ==> a.initial[i] != a.initial[j])
    && |a.selected| <= 3 && InOrder(a.selected)
    && (a.required <==> a.bullish != [] && a.bearish != [] && a.threshold < a.disagreement)
    && (a.required <==> a.selected != [])
  }

  predicate ValidRound(r: Round) {
    2 <= |r.participants| <= 3 && InOrder(r.participants)
  }

  predicate ValidTurn(t: Turn) {
    && t.index <= 5
    && t.cited != []
    && (t.confidence.Some? ==> Unit(t.confidence.value))
    && match t.turnType
       case MASTER_CHALLENGE =>
         && t.speaker == MASTER && t.recipient in AGENT_ORDER
         && t.stance.None? && t.confidence.None? && t.predecessor.None?
       case SPECIALIST_REBUTTAL =>
         && t.speaker in AGENT_ORDER && t.recipient == MASTER
         && (t.stance == Some(BULLISH) || t.stance == Some(BEARISH))
         && t.confidence.Some? && t.predecessor.Some?
         && t.cited == [t.original]
  }

  predicate ValidResolution(r: Resolution) {
    r.failed <==> r.status != COMPLETED
  }

  predicate SameRole(a: Turn, b: Turn) {
    && a.turnType == b.turnType
    && (if a.turnType == MASTER_CHALLENGE then a.recipient == b.recipient else a.speaker == b.speaker)
  }

  function Partner(t: Turn): Id {
    if t.turnType == MASTER_CHALLENGE then t.recipient else t.speaker
  }

  predicate ValidSession(s: Session) {
    && ValidAssessment(s.assessment)
    && (forall k :: 0 <= k < |s.turns| ==> ValidTurn(s.turns[k]))
    && if s.round.None? then
         s.turns == [] && s.resolution.None? && !s.assessment.required
       else
         && ValidRound(s.round.value)
         && s.assessment.required
         && s.round.value.assessment == s.assessment
         && (forall i, j :: 0 <= i < j < |s.turns| ==> !SameRole(s.turns[i], s.turns[j]))
         && (forall k :: 0 <= k < |s.turns| ==> Partner(s.turns[k]) in s.round.value.participants)
         && (forall k :: 0 <= k < |s.turns| ==> s.turns[k].index == k)
         && s.resolution.Some?
         && ValidResolution(s.resolution.value)
         && s.resolution.value.round == s.round.value
         && s.resolution.value.turns == s.turns
  }

  // ----- Who is asked -----

  predicate Eligible(c: Contribution) {
    Contributing(c) && IsDirectional(c)
  }

  predicate Sided(c: Contribution, side: Direction) {
    Eligible(c) && c.direction == Some(side)
  }

  function SideIds(c: seq<Contribution>, side: Direction): seq<Id> {
    if c == [] then
      []
    else
      var n := |c| - 1;
      SideIds(c[..n], side) + if Sided(c[n], side) then [c[n].evidenceId] else []
  }

  // The strongest of those that qualify, the earliest specialist among equals: the head of
  // the list sorted by falling strength and canonical order.
  function Strongest(c: seq<Contribution>, ok: Contribution -> bool): Option<Contribution> {
    if c == [] then
      None
    else
      var n := |c| - 1;
      var best := Strongest(c[..n], ok);
      if ok(c[n]) && (best.None? || best.value.strength < c[n].strength) then Some(c[n]) else best
  }

  predicate IsStrongest(c: seq<Contribution>, ok: Contribution -> bool, k: nat) {
    && k < |c| && ok(c[k])
    && (forall j :: 0 <= j < |c| && ok(c[j]) ==> c[j].strength <= c[k].strength)
    && forall j :: 0 <= j < k && ok(c[j]) ==> c[j].strength < c[k].strength
  }

  lemma {:induction false} StrongestMeaning(c: seq<Contribution>, ok: Contribution -> bool) returns (k: nat)
    ensures Strongest(c, ok).None? <==> forall j :: 0 <= j < |c| ==> !ok(c[j])
    ensures Strongest(c, ok).Some? ==> IsStrongest(c, ok, k) && Strongest(c, ok) == Some(c[k])
  {
    k := 0;
    if c != [] {
      var n := |c| - 1;
      var front := c[..n];
      var i := StrongestMeaning(front, ok);
      var best := Strongest(front, ok);
      assert forall j :: 0 <= j < n ==> front[j] == c[j];
      k := if ok(c[n]) && (best.None? || best.value.strength < c[n].strength) then n else i;
      if best.None? {
        assert forall j :: 0 <= j < n ==> !ok(c[j]);
      } else {
        BestSoFar(c, ok, i, k);
      }
    }
  }

  lemma BestSoFar(c: seq<Contribution>, ok: Contribution -> bool, i: nat, k: nat)
    requires c != []
    requires var front := c[..|c| - 1];
             && IsStrongest(front, ok, i)
             && k == if ok(c[|c| - 1]) && front[i].strength < c[|c| - 1].strength then |c| - 1 else i
    ensures IsStrongest(c, ok, k)
  {
    var front := c[..|c| - 1];
    forall j | 0 <= j < |c| && ok(c[j])
      ensures c[j].strength <= c[k].strength
      ensures j < k ==> c[j].strength < c[k].strength
    {
      if j < |front| {
        assert front[j] == c[j] && ok(front[j]);
      }
    }
  }

  function OnSide(side: Direction): Contribution -> bool {
    (c: Contribution) => Sided(c, side)
  }

  function Remaining(first: Contribution, second: Contribution): Contribution -> bool {
    (c: Contribution) => Eligible(c) && c.evidenceId != first.evidenceId && c.evidenceId != second.evidenceId
  }

  // The strongest of each side, and the strongest of whoever is left.
  function Chosen(c: seq<Contribution>): set<Id> {
    var bull, bear := Strongest(c, OnSide(BULLISH)), Strongest(c, OnSide(BEARISH));
    if bull.None? || bear.None? then
      {}
    else
      var third := Strongest(c, Remaining(bull.value, bear.value));
      {bull.value.agent, bear.value.agent} + if third.Some? then {third.value.agent} else {}
  }

  function Ordered(names: seq<Id>, chosen: set<Id>): (r: seq<Id>)
    ensures |r| <= |names|
    ensures forall x :: x in r <==> x in names && x in chosen
  {
    if names == [] then [] else (if names[0] in chosen then [names[0]] else []) + Ordered(names[1..], chosen)
  }

  function Participants(c: seq<Contribution>): seq<Id> {
    Ordered(AGENT_ORDER, Chosen(c))
  }

  // ----- The session -----

  function Ids(b: seq<Proof>): (r: seq<Id>)
    ensures |r| == |b|
  {
    seq(|b|, k requires 0 <= k < |b| => b[k].evidenceId)
  }

  function Assess(b: seq<Proof>, q: Proposal, p: Policy): Assessment {
    var bullish, bearish := SideIds(q.contributions, BULLISH), SideIds(q.contributions, BEARISH);
    var required := bullish != [] && bearish != [] && HIGH_DISAGREEMENT in q.reasons;
    Assessment(Ids(b), bullish, bearish, q.metrics.disagreement, p.maximumDisagreement, required,
               if required then Participants(q.contributions) else [])
  }

  const CHALLENGE: Id := 1

  function Conflicts(a: Assessment, e: Proof): seq<Id> {
    if e.direction == Some(BULLISH) then a.bearish else a.bullish
  }

  function Challenge(r: Round, index: nat, participant: Id, e: Proof): Turn {
    var conflicts := Conflicts(r.assessment, e);
    Turn(r, index, MASTER, participant, MASTER_CHALLENGE, e.evidenceId, conflicts, None, None, CHALLENGE,
         [e.evidenceId] + conflicts, None)
  }

  function Answered(c: Turn, participant: Id, reply: Reply): Turn
    requires reply.Rebuttal?
  {
    Turn(c.round, c.index + 1, participant, MASTER, SPECIALIST_REBUTTAL, c.original, c.conflicting,
         Some(reply.stance), Some(reply.confidence), reply.rationale, reply.cited, Some(c))
  }

  // A reply that restates its evidence: well formed, same direction, same confidence, and
  // citing that evidence alone.
  predicate Preserves(e: Proof, reply: Reply) {
    && reply.Rebuttal?
    && 1 <= reply.rationaleLength <= 420
    && Some(reply.stance) == e.direction
    && reply.confidence == e.confidence
    && reply.cited == [e.evidenceId]
  }

  predicate Canonical(names: seq<Id>) {
    forall k :: 0 <= k < |names| ==> names[k] in AGENT_ORDER
  }

  function ByAgent(b: seq<Proof>, agent: Id): Proof
    requires |b| == |AGENT_ORDER| && agent in AGENT_ORDER
  {
    b[agent - 1]
  }

  function ReplyTo(b: seq<Proof>, r: Round, participants: seq<Id>, k: nat, respond: Responder): Reply
    requires |b| == |AGENT_ORDER| && Canonical(participants) && k < |participants|
  {
    var e := ByAgent(b, participants[k]);
    respond(e, Challenge(r, 2 * k, participants[k], e))
  }

  // The turns of the first k exchanges, each of them answered.
  function TurnsUpTo(b: seq<Proof>, r: Round, participants: seq<Id>, k: nat, respond: Responder): (turns: seq<Turn>)
    requires |b| == |AGENT_ORDER| && Canonical(participants) && k <= |participants|
    requires forall j :: 0 <= j < k ==> ReplyTo(b, r, participants, j, respond).Rebuttal?
    ensures |turns| == 2 * k
  {
    if k == 0 then
      []
    else
      var e := ByAgent(b, participants[k - 1]);
      var challenge := Challenge(r, 2 * (k - 1), participants[k - 1], e);
      TurnsUpTo(b, r, participants, k - 1, respond) +
        [challenge, Answered(challenge, participants[k - 1], ReplyTo(b, r, participants, k - 1, respond))]
  }

  predicate AllPreserved(b: seq<Proof>, r: Round, participants: seq<Id>, k: nat, respond: Responder)
    requires |b| == |AGENT_ORDER| && Canonical(participants) && k <= |participants|
  {
    forall j :: 0 <= j < k ==>
      Preserves(ByAgent(b, participants[j]), ReplyTo(b, r, participants, j, respond))
  }

  // Challenges one participant after another until one of them fails to restate its
  // evidence.
  method Converse(b: seq<Proof>, r: Round, participants: seq<Id>, respond: Responder)
    returns (turns: seq<Turn>, status: Status, ghost restated: nat)
    requires |b| == |AGENT_ORDER| && Canonical(participants)
    ensures restated <= |participants| && AllPreserved(b, r, participants, restated, respond)
    ensures status == COMPLETED <==> restated == |participants|
    ensures status == COMPLETED ==> turns == TurnsUpTo(b, r, participants, restated, respond)
    ensures status != COMPLETED ==>
              && !Preserves(ByAgent(b, participants[restated]), ReplyTo(b, r, participants, restated, respond))
              && turns == TurnsUpTo(b, r, participants, restated, respond) +
                          [Challenge(r, 2 * restated, participants[restated], ByAgent(b, participants[restated]))]
              && status == if ReplyTo(b, r, participants, restated, respond) == TimedOut then TIMED_OUT
                           else MALFORMED
  {
    turns, status, restated := [], COMPLETED, 0;
    for k := 0 to |participants|
      invariant status == COMPLETED && restated == k
      invariant AllPreserved(b, r, participants, k, respond)
      invariant turns == TurnsUpTo(b, r, participants, k, respond)
    {
      var e := ByAgent(b, participants[k]);
      var challenge := Challenge(r, |turns|, participants[k], e);
      turns := turns + [challenge];
      var reply := respond(e, challenge);
      assert reply == ReplyTo(b, r, participants, k, respond);
      if !Preserves(e, reply) {
        status := if reply == TimedOut then TIMED_OUT else MALFORMED;
        return;
      }
      turns := turns + [Answered(challenge, participants[k], reply)];
      restated := k + 1;
    }
  }

  // ----- Disagreement means there is somebody on each side -----

  lemma {:induction false} PositiveSum(c: seq<Contribution>, amount: Contribution -> real)
    requires 0.0 < SumOf(c, amount)
    ensures exists k :: 0 <= k < |c| && IsDirectional(c[k]) && 0.0 < amount(c[k])
  {
    if c != [] {
      var n := |c| - 1;
      if !(IsDirectional(c[n]) && 0.0 < amount(c[n])) {
        PositiveSum(c[..n], amount);
        var k :| 0 <= k < n && IsDirectional(c[..n][k]) && 0.0 < amount(c[..n][k]);
        assert c[k] == c[..n][k];
      }
    }
  }

  lemma {:induction false} SideIsPresent(c: seq<Contribution>, side: Direction, k: nat)
    requires k < |c| && Sided(c[k], side)
    ensures SideIds(c, side) != []
  {
    var n := |c| - 1;
    if k < n {
      SideIsPresent(c[..n], side, k);
    }
  }

  lemma SomebodyOnSide(c: seq<Contribution>, side: Direction, amount: Contribution -> real)
    requires AllOk(c) && 0.0 < SumOf(c, amount)
    requires forall k :: 0 <= k < |c| && IsDirectional(c[k]) && 0.0 < amount(c[k]) ==> Sided(c[k], side)
    ensures SideIds(c, side) != [] && Strongest(c, OnSide(side)).Some?
  {
    PositiveSum(c, amount);
    var k :| 0 <= k < |c| && IsDirectional(c[k]) && 0.0 < amount(c[k]);
    SideIsPresent(c, side, k);
    var best := StrongestMeaning(c, OnSide(side));
    assert OnSide(side)(c[k]);
  }

  lemma SignsSide(c: Contribution)
    requires ContributionOk(c) && IsDirectional(c)
    ensures 0.0 < Bullishness(c) ==> Sided(c, BULLISH)
    ensures 0.0 < Bearishness(c) ==> Sided(c, BEARISH)
  {
    assert Times(1.0, c.strength) == c.strength && Times(-1.0, c.strength) == -c.strength;
  }

  lemma DisagreementNeedsBoth(s: Sums)
    requires SumsOk(s) && 0.0 < MetricsOf(s).disagreement
    ensures 0.0 < s.bullish && 0.0 < s.bearish
  {
  }

  lemma BothSides(b: seq<Proof>, p: Policy)
    requires ValidBundle(b) && ValidPolicy(p) && 0.0 < RawMetrics(b, p).disagreement
    ensures var c := Contributions(b, p);
            && SideIds(c, BULLISH) != [] && SideIds(c, BEARISH) != []
            && Strongest(c, OnSide(BULLISH)).Some? && Strongest(c, OnSide(BEARISH)).Some?
  {
    var c := Contributions(b, p);
    ContributionsAreOk(b, p);
    SumsAreOk(c);
    DisagreementNeedsBoth(SumsOf(c));
    forall k | 0 <= k < |c| && IsDirectional(c[k])
      ensures 0.0 < Bullishness(c[k]) ==> Sided(c[k], BULLISH)
      ensures 0.0 < Bearishness(c[k]) ==> Sided(c[k], BEARISH)
    {
      SignsSide(c[k]);
    }
    SomebodyOnSide(c, BULLISH, Bullishness);
    SomebodyOnSide(c, BEARISH, Bearishness);
  }

  // An interaction is required exactly when the disagreement exceeds its threshold.
  lemma RequiredExactlyWhen(b: seq<Proof>, p: Policy)
    requires ValidBundle(b) && ValidPolicy(p)
    ensures var q := Fuse(b, p);
            Assess(b, q, p).required <==> p.maximumDisagreement < q.metrics.disagreement
  {
    ClampingChangesNothing(b, p);
    ReasonIsExact(RawMetrics(b, p), p, HIGH_DISAGREEMENT);
    if p.maximumDisagreement < RawMetrics(b, p).disagreement {
      BothSides(b, p);
    }
  }

  // ----- The participants -----

  predicate Rising(names: seq<Id>) {
    forall i, j :: 0 <= i < j < |names| ==> names[i] < names[j]
  }

  lemma {:induction false} OrderedRises(names: seq<Id>, chosen: set<Id>)
    requires Rising(names)
    ensures Rising(Ordered(names, chosen))
  {
    if names != [] {
      OrderedRises(names[1..], chosen);
      var rest := Ordered(names[1..], chosen);
      forall k | 0 <= k < |rest|
        ensures names[0] < rest[k]
      {
        assert rest[k] in rest;
        var j :| 0 <= j < |names[1..]| && names[1..][j] == rest[k];
        assert names[0] < names[j + 1];
      }
    }
  }

  lemma {:induction false} RisingSize(names: seq<Id>, chosen: set<Id>)
    requires Rising(names) && (forall x :: x in chosen <==> x in names)
    ensures |names| == |chosen|
    decreases |names|
  {
    if names == [] {
      assert chosen == {};
    } else {
      var rest := chosen - {names[0]};
      assert names[0] in chosen;
      assert forall x :: x in rest <==> x in names[1..] by {
        assert names == [names[0]] + names[1..];
      }
      RisingSize(names[1..], rest);
    }
  }

  ghost predicate Bundled(c: seq<Contribution>) {
    && |c| == |AGENT_ORDER|
    && (forall k :: 0 <= k < |c| ==> c[k].agent == AGENT_ORDER[k])
    && forall i, j :: 0 <= i < j < |c| ==> c[i].evidenceId != c[j].evidenceId
  }

  lemma StrongestIsAmong(c: seq<Contribution>, ok: Contribution -> bool)
    requires Bundled(c) && Strongest(c, ok).Some?
    ensures ok(Strongest(c, ok).value) && Strongest(c, ok).value.agent in AGENT_ORDER
  {
    var k := StrongestMeaning(c, ok);
    assert c[k].agent == AGENT_ORDER[k];
  }

  lemma SidesDiffer(c: seq<Contribution>, x: Contribution, y: Contribution)
    requires Bundled(c) && x in c && y in c && x.direction != y.direction
    ensures x.agent != y.agent
  {
    var i :| 0 <= i < |c| && c[i] == x;
    var j :| 0 <= j < |c| && c[j] == y;
    assert c[i].agent == AGENT_ORDER[i] && c[j].agent == AGENT_ORDER[j];
    assert i != j;
  }

  lemma SizeOfUnion(s: set<Id>, x: Id)
    ensures |s| <= |s + {x}| <= |s| + 1
  {
    if x in s {
      assert s + {x} == s;
    }
  }

  lemma ChosenAreBounded(c: seq<Contribution>)
    requires Bundled(c)
    requires Strongest(c, OnSide(BULLISH)).Some? && Strongest(c, OnSide(BEARISH)).Some?
    ensures 2 <= |Chosen(c)| <= 3
    ensures Strongest(c, OnSide(BULLISH)).value.agent in Chosen(c)
    ensures Strongest(c, OnSide(BEARISH)).value.agent in Chosen(c)
    ensures forall x :: x in Chosen(c) ==> x in AGENT_ORDER
  {
    var bull, bear := Strongest(c, OnSide(BULLISH)).value, Strongest(c, OnSide(BEARISH)).value;
    var third := Strongest(c, Remaining(bull, bear));
    StrongestIsAmong(c, OnSide(BULLISH));
    StrongestIsAmong(c, OnSide(BEARISH));
    if third.Some? {
      StrongestIsAmong(c, Remaining(bull, bear));
    }
    StrongestIn(c, OnSide(BULLISH));
    StrongestIn(c, OnSide(BEARISH));
    SidesDiffer(c, bull, bear);
    var pair := {bull.agent, bear.agent};
    assert |pair| == 2;
    if third.Some? {
      assert Chosen(c) == pair + {third.value.agent};
      SizeOfUnion(pair, third.value.agent);
    } else {
      assert Chosen(c) == pair;
    }
  }

  lemma ListingIsCanonical(chosen: set<Id>)
    requires forall x :: x in chosen ==> x in AGENT_ORDER
    ensures var who := Ordered(AGENT_ORDER, chosen);
            && |who| == |chosen|
            && Rising(who) && Canonical(who)
            && forall x :: x in who <==> x in chosen
  {
    assert Rising(AGENT_ORDER);
    OrderedRises(AGENT_ORDER, chosen);
    RisingSize(Ordered(AGENT_ORDER, chosen), chosen);
  }

  // At most three take part, in canonical order: the strongest of each side among them.
  lemma ParticipantsAreBounded(c: seq<Contribution>)
    requires Bundled(c)
    requires Strongest(c, OnSide(BULLISH)).Some? && Strongest(c, OnSide(BEARISH)).Some?
    ensures var who := Participants(c);
            && 2 <= |who| <= 3
            && Rising(who) && Canonical(who)
            && Strongest(c, OnSide(BULLISH)).value.agent in who
            && Strongest(c, OnSide(BEARISH)).value.agent in who
            && forall x :: x in who <==> x in Chosen(c)
  {
    ChosenAreBounded(c);
    ListingIsCanonical(Chosen(c));
  }

  lemma StrongestIn(c: seq<Contribution>, ok: Contribution -> bool)
    requires Strongest(c, ok).Some?
    ensures Strongest(c, ok).value in c
  {
    var k := StrongestMeaning(c, ok);
  }

  // Every participant has directional evidence.
  lemma ParticipantsTakeSides(c: seq<Contribution>, agent: Id)
    requires Bundled(c) && AllOk(c) && agent in Participants(c)
    ensures agent in AGENT_ORDER
    ensures c[agent - 1].direction == Some(BULLISH) || c[agent - 1].direction == Some(BEARISH)
  {
    var bull, bear := Strongest(c, OnSide(BULLISH)), Strongest(c, OnSide(BEARISH));
    var third := Strongest(c, Remaining(bull.value, bear.value));
    if agent == bull.value.agent {
      TakesSide(c, OnSide(BULLISH));
    } else if agent == bear.value.agent {
      TakesSide(c, OnSide(BEARISH));
    } else {
      TakesSide(c, Remaining(bull.value, bear.value));
    }
  }

  lemma TakesSide(c: seq<Contribution>, ok: Contribution -> bool)
    requires Bundled(c) && AllOk(c) && Strongest(c, ok).Some?
    requires forall x :: x in c && ok(x) ==> Eligible(x)
    ensures var agent := Strongest(c, ok).value.agent;
            && agent in AGENT_ORDER
            && (c[agent - 1].direction == Some(BULLISH) || c[agent - 1].direction == Some(BEARISH))
  {
    var k := StrongestMeaning(c, ok);
    assert c[k] in c && ContributionOk(c[k]);
    assert c[k].agent == AGENT_ORDER[k] == k + 1;
  }

  lemma ContributionsAreBundled(b: seq<Proof>, p: Policy)
    requires ValidBundle(b) && ValidPolicy(p)
    ensures Bundled(Contributions(b, p))
  {
  }

  lemma IdsAreDistinct(b: seq<Proof>)
    requires ValidBundle(b)
    ensures forall i, j :: 0 <= i < j < |b| ==> Ids(b)[i] != Ids(b)[j]
  {
  }

  lemma RisingIsOrdered(who: seq<Id>)
    requires Rising(who) && Canonical(who)
    ensures InOrder(who)
  {
  }

  lemma SidesAreTheBundles(b: seq<Proof>, p: Policy, agent: Id)
    requires ValidBundle(b) && ValidPolicy(p) && agent in Participants(Contributions(b, p))
    ensures agent in AGENT_ORDER && TakesASide(b, agent)
  {
    ContributionsAreBundled(b, p);
    ContributionsAreOk(b, p);
    ParticipantsTakeSides(Contributions(b, p), agent);
  }

  lemma ParticipantsAreOk(b: seq<Proof>, p: Policy)
    requires ValidBundle(b) && ValidPolicy(p) && 0.0 < RawMetrics(b, p).disagreement
    ensures var who := Participants(Contributions(b, p)); ParticipantsOk(b, who) && InOrder(who)
  {
    var c := Contributions(b, p);
    var who := Participants(c);
    assert 2 <= |who| <= 3 && Rising(who) && Canonical(who) by {
      BothSides(b, p);
      ContributionsAreBundled(b, p);
      ParticipantsAreBounded(c);
    }
    RisingIsOrdered(who);
    forall k | 0 <= k < |who|
      ensures TakesASide(b, who[k])
    {
      SidesAreTheBundles(b, p, who[k]);
    }
  }

  lemma AssessmentIsValid(b: seq<Proof>, p: Policy)
    requires ValidBundle(b) && ValidPolicy(p)
    ensures var q := Fuse(b, p);
            var a := Assess(b, q, p);
            && ValidAssessment(a)
            && (a.required <==> p.maximumDisagreement < q.metrics.disagreement)
            && (a.required ==> ParticipantsOk(b, Participants(q.contributions)))
  {
    RequiredExactlyWhen(b, p);
    ClampingChangesNothing(b, p);
    IdsAreDistinct(b);
    if p.maximumDisagreement < RawMetrics(b, p).disagreement {
      ParticipantsAreOk(b, p);
      BothSides(b, p);
    }
  }

  predicate TakesASide(b: seq<Proof>, agent: Id)
    requires |b| == |AGENT_ORDER| && agent in AGENT_ORDER
  {
    ByAgent(b, agent).direction == Some(BULLISH) || ByAgent(b, agent).direction == Some(BEARISH)
  }

  predicate ParticipantsOk(b: seq<Proof>, who: seq<Id>)
    requires |b| == |AGENT_ORDER|
  {
    && 2 <= |who| <= 3 && Rising(who) && Canonical(who)
    && forall k :: 0 <= k < |who| ==> TakesASide(b, who[k])
  }

  // ----- The turns -----

  // Turn k belongs to exchange k / 2: a challenge, then the rebuttal of the same specialist.
  ghost predicate TurnOk(r: Round, who: seq<Id>, t: Turn, k: nat) {
    && ValidTurn(t) && t.index == k && k / 2 < |who| && Partner(t) == who[k / 2]
    && (t.turnType == MASTER_CHALLENGE <==> k % 2 == 0)
    && t.round == r
  }

  ghost predicate TurnsOk(r: Round, who: seq<Id>, turns: seq<Turn>) {
    forall k :: 0 <= k < |turns| ==> TurnOk(r, who, turns[k], k)
  }

  lemma ChallengeIsOk(b: seq<Proof>, r: Round, who: seq<Id>, k: nat)
    requires ValidBundle(b) && ParticipantsOk(b, who) && k < |who|
    ensures TurnOk(r, who, Challenge(r, 2 * k, who[k], ByAgent(b, who[k])), 2 * k)
  {
    assert who[k] in AGENT_ORDER;
  }

  lemma RebuttalIsOk(b: seq<Proof>, r: Round, who: seq<Id>, k: nat, reply: Reply)
    requires ValidBundle(b) && ParticipantsOk(b, who) && k < |who|
    requires Preserves(ByAgent(b, who[k]), reply)
    ensures TurnOk(r, who, Answered(Challenge(r, 2 * k, who[k], ByAgent(b, who[k])), who[k], reply), 2 * k + 1)
  {
    var e := ByAgent(b, who[k]);
    assert TakesASide(b, who[k]);
    assert e == b[who[k] - 1] && ValidEvidence(e);
  }

  lemma TurnsExtend(r: Round, who: seq<Id>, turns: seq<Turn>, challenge: Turn, rebuttal: Turn)
    requires TurnsOk(r, who, turns)
    requires TurnOk(r, who, challenge, |turns|) && TurnOk(r, who, rebuttal, |turns| + 1)
    ensures TurnsOk(r, who, turns + [challenge, rebuttal])
  {
  }

  lemma {:induction false} TurnsUpToAreOk(b: seq<Proof>, r: Round, who: seq<Id>, k: nat, respond: Responder)
    requires ValidBundle(b) && ParticipantsOk(b, who) && k <= |who|
    requires AllPreserved(b, r, who, k, respond)
    ensures TurnsOk(r, who, TurnsUpTo(b, r, who, k, respond))
  {
    if 0 < k {
      assert AllPreserved(b, r, who, k - 1, respond);
      TurnsUpToAreOk(b, r, who, k - 1, respond);
      ExchangeIsOk(b, r, who, k - 1, ReplyTo(b, r, who, k - 1, respond), TurnsUpTo(b, r, who, k - 1, respond));
      OneMoreExchange(b, r, who, k - 1, respond);
    }
  }

  lemma OneMoreExchange(b: seq<Proof>, r: Round, who: seq<Id>, k: nat, respond: Responder)
    requires |b| == |AGENT_ORDER| && Canonical(who) && k < |who|
    requires AllPreserved(b, r, who, k + 1, respond)
    ensures var challenge := Challenge(r, 2 * k, who[k], ByAgent(b, who[k]));
            TurnsUpTo(b, r, who, k + 1, respond) ==
            TurnsUpTo(b, r, who, k, respond) + [challenge, Answered(challenge, who[k], ReplyTo(b, r, who, k, respond))]
  {
  }

  lemma ExchangeIsOk(b: seq<Proof>, r: Round, who: seq<Id>, k: nat, reply: Reply, turns: seq<Turn>)
    requires ValidBundle(b) && ParticipantsOk(b, who) && k < |who|
    requires TurnsOk(r, who, turns) && |turns| == 2 * k
    requires Preserves(ByAgent(b, who[k]), reply)
    ensures var challenge := Challenge(r, 2 * k, who[k], ByAgent(b, who[k]));
            TurnsOk(r, who, turns + [challenge, Answered(challenge, who[k], reply)])
  {
    var challenge := Challenge(r, 2 * k, who[k], ByAgent(b, who[k]));
    ChallengeIsOk(b, r, who, k);
    RebuttalIsOk(b, r, who, k, reply);
    TurnsExtend(r, who, turns, challenge, Answered(challenge, who[k], reply));
  }

  lemma TurnsAreDistinct(r: Round, who: seq<Id>, turns: seq<Turn>)
    requires TurnsOk(r, who, turns) && Rising(who)
    ensures |turns| <= 2 * |who|
    ensures forall i, j :: 0 <= i < j < |turns| ==> !SameRole(turns[i], turns[j])
    ensures forall k :: 0 <= k < |turns| ==> Partner(turns[k]) in who && turns[k].index == k && ValidTurn(turns[k])
  {
    if turns != [] {
      assert TurnOk(r, who, turns[|turns| - 1], |turns| - 1);
    }
    forall i, j | 0 <= i < j < |turns|
      ensures !SameRole(turns[i], turns[j])
    {
      assert TurnOk(r, who, turns[i], i) && TurnOk(r, who, turns[j], j);
      assert Partner(turns[i]) == who[i / 2] && Partner(turns[j]) == who[j / 2];
      assert turns[i].turnType == turns[j].turnType ==> i / 2 < j / 2;
    }
  }

  lemma TurnsAreValid(b: seq<Proof>, r: Round, who: seq<Id>, turns: seq<Turn>, restated: nat, respond: Responder)
    requires ValidBundle(b) && ParticipantsOk(b, who) && restated <= |who|
    requires AllPreserved(b, r, who, restated, respond)
    requires turns == TurnsUpTo(b, r, who, restated, respond) +
                      if restated == |who| then []
                      else [Challenge(r, 2 * restated, who[restated], ByAgent(b, who[restated]))]
    ensures TurnsOk(r, who, turns)
  {
    TurnsUpToAreOk(b, r, who, restated, respond);
    if restated < |who| {
      ChallengeIsOk(b, r, who, restated);
    }
  }

  // One round: its turns are well formed, and it is COMPLETED exactly when everybody restated
  // its evidence.
  method HoldRound(b: seq<Proof>, r: Round, who: seq<Id>, respond: Responder) returns (turns: seq<Turn>, status: Status)
    requires ValidBundle(b) && ParticipantsOk(b, who)
    ensures TurnsOk(r, who, turns) && |turns| <= 2 * |who|
    ensures forall i, j :: 0 <= i < j < |turns| ==> !SameRole(turns[i], turns[j])
    ensures forall k :: 0 <= k < |turns| ==> Partner(turns[k]) in who && turns[k].index == k && ValidTurn(turns[k])
    ensures status == COMPLETED <==> AllPreserved(b, r, who, |who|, respond)
    ensures status == COMPLETED ==> |turns| == 2 * |who|
  {
    ghost var restated;
    turns, status, restated := Converse(b, r, who, respond);
    TurnsAreValid(b, r, who, turns, restated, respond);
    TurnsAreDistinct(r, who, turns);
  }

  // Whatever the responder does, the session meets every contract. A round takes place
  // exactly when the disagreement exceeds its threshold; it has at most six turns, and it is
  // COMPLETED exactly when every participant restated its own evidence.
  method BuildInteraction(b: seq<Proof>, q: Proposal, p: Policy, respond: Responder) returns (s: Session)
    requires ValidBundle(b) && ValidPolicy(p) && q == Fuse(b, p)
    ensures s.assessment == Assess(b, q, p)
    ensures ValidSession(s)
    ensures s.round.Some? <==> p.maximumDisagreement < q.metrics.disagreement
    ensures s.round.Some? ==> |s.turns| <= 6 && s.round.value.participants == Participants(q.contributions)
    ensures s.round.Some? ==>
              && s.resolution.Some? && Canonical(s.round.value.participants)
              && (s.resolution.value.status == COMPLETED <==>
                  AllPreserved(b, s.round.value, s.round.value.participants, |s.round.value.participants|, respond))
  {
    var assessment := Assess(b, q, p);
    AssessmentIsValid(b, p);
    if !assessment.required {
      return Session(assessment, None, [], None);
    }
    var participants := Participants(q.contributions);
    var r := Round(assessment, participants);
    var turns, status := HoldRound(b, r, participants, respond);
    s := Session(assessment, Some(r), turns, Some(Resolution(r, turns, status, status != COMPLETED)));
  }
}
