/**
 Comparing what the ledger believes with what the broker shows. Matching is by exact
 linkage only; every live result and every broker object is accounted for.
 */
module Reconciliation {
  import opened Numerics
  import opened Ordering
  import opened ExecutionContracts
  import opened RecoveryContracts
  import opened ExecutionLedger

  datatype PositionSide = BUY_SIDE | SELL_SIDE

  datatype OrderType = BUY_LIMIT | SELL_LIMIT | BUY_STOP | SELL_STOP | BUY_STOP_LIMIT | SELL_STOP_LIMIT

  datatype BrokerObject =
    | Position(objectId: Id, ticket: Option<nat>, volume: real, side: PositionSide)
    | Order(objectId: Id, ticket: Option<nat>, volume: real, orderType: OrderType)

  datatype Link = Link(intentId: Id, objectId: Id, ticket: Option<nat>)

  datatype Snapshot = Snapshot(
    snapshotId: Id,
    availableAt: Instant,
    positions: seq<BrokerObject>,
    orders: seq<BrokerObject>,
    links: seq<Link>
  )

  function Objects(s: Snapshot): seq<BrokerObject> {
    s.positions + s.orders
  }

  // Object identifiers hash the object's content, and a link names an object of the snapshot.
  ghost predicate ValidSnapshot(s: Snapshot) {
    && (forall a, b :: a in Objects(s) && b in Objects(s) && a.objectId == b.objectId ==> a == b)
    && (forall a :: a in Objects(s) ==> 0 < a.objectId)
    && (forall l :: l in s.links ==> exists a :: a in Objects(s) && a.objectId == l.objectId)
  }

  function ObjectIds(objects: seq<BrokerObject>): set<Id> {
    set o | o in objects :: o.objectId
  }

  // dict lookups: the last entry of a key wins
  function ObjectNamed(objects: seq<BrokerObject>, id: Id): Option<BrokerObject> {
    if objects == [] then
      None
    else
      var n := |objects| - 1;
      if objects[n].objectId == id then Some(objects[n]) else ObjectNamed(objects[..n], id)
  }

  function LinkOf(links: seq<Link>, intentId: Id): Option<Link> {
    if links == [] then
      None
    else
      var n := |links| - 1;
      if links[n].intentId == intentId then Some(links[n]) else LinkOf(links[..n], intentId)
  }

  // The first object, in dictionary order, that carries a ticket.
  function FirstWithTicket(objects: seq<BrokerObject>, ticket: nat): Option<BrokerObject> {
    if objects == [] then
      None
    else if objects[0].ticket == Some(ticket) then
      Some(objects[0])
    else
      FirstWithTicket(objects[1..], ticket)
  }

  predicate IsLive(r: ExecutionResult) {
    && r.status != NO_ACTION
    && r.status != REJECTED
    && r.status != CANCELLED
    && r.status != EXPIRED
    && r.status != FAILED
  }

  function Candidate(s: Snapshot, r: ExecutionResult): Option<BrokerObject> {
    var link := LinkOf(s.links, r.intentId);
    var linked := if link.Some? then ObjectNamed(Objects(s), link.value.objectId) else None;
    if linked.None? && r.ticket.Some? then FirstWithTicket(Objects(s), r.ticket.value) else linked
  }

  function LinkedTicket(s: Snapshot, r: ExecutionResult): Option<nat> {
    var link := LinkOf(s.links, r.intentId);
    if link.Some? then link.value.ticket else None
  }

  function DirectionOf(o: BrokerObject): Signal {
    match o
    case Position(_, _, _, side) => if side == BUY_SIDE then BUY else SELL
    case Order(_, _, _, kind) => if kind == BUY_LIMIT || kind == BUY_STOP || kind == BUY_STOP_LIMIT then BUY else SELL
  }

  function ExpectedVolume(r: ExecutionResult): real {
    if r.filledVolume.Some? && r.filledVolume.value != 0.0 then r.filledVolume.value else r.requestedVolume
  }

  const MATCH_TOLERANCE := 0.000_000_01

  predicate TicketsAgree(r: ExecutionResult, o: BrokerObject, linkedTicket: Option<nat>) {
    && (r.ticket.Some? ==> o.ticket == r.ticket)
    && (linkedTicket.Some? ==> o.ticket == linkedTicket)
  }

  predicate VolumesAgree(r: ExecutionResult, o: BrokerObject) {
    IsClose(o.volume, ExpectedVolume(r), DEFAULT_RELATIVE_TOLERANCE, MATCH_TOLERANCE)
  }

  function ConflictReason(r: ExecutionResult, o: BrokerObject, linkedTicket: Option<nat>): Option<FindingReason> {
    if r.ticket.Some? && o.ticket != r.ticket then
      Some(TICKET_MISMATCH)
    else if linkedTicket.Some? && o.ticket != linkedTicket then
      Some(TICKET_MISMATCH)
    else if DirectionOf(o) != r.provenance.direction then
      Some(DIRECTION_MISMATCH)
    else if !VolumesAgree(r, o) then
      Some(VOLUME_MISMATCH)
    else
      None
  }

  function NewFinding(kind: FindingKind, r: ExecutionResult, o: Option<BrokerObject>, reason: FindingReason): Finding {
    Finding(
      kind,
      if kind == MATCHED then RESOLVED else RECONCILIATION_REQUIRED,
      Some(r.intentId),
      if o.Some? then Some(o.value.objectId) else None,
      if o.Some? then o.value.ticket else r.ticket,
      reason)
  }

  function FindingFor(s: Snapshot, r: ExecutionResult): Finding {
    match Candidate(s, r)
    case None =>
      NewFinding(if r.status == UNKNOWN || r.status == SUBMITTED then UNKNOWN_LINK else LOCAL_ONLY,
                 r, None, NO_EXACT_BROKER_EVIDENCE)
    case Some(o) =>
      match ConflictReason(r, o, LinkedTicket(s, r))
      case Some(reason) => NewFinding(CONFLICT, r, Some(o), reason)
      case None => NewFinding(MATCHED, r, Some(o), EXACT_LINK_MATCH)
  }

  function StrayFinding(o: BrokerObject): Finding {
    Finding(BROKER_ONLY, RECONCILIATION_REQUIRED, None, Some(o.objectId), o.ticket, UNCLASSIFIED_BROKER_OBJECT)
  }

  // ----- What the whole comparison comes to -----

  function LiveResults(results: seq<ExecutionResult>): seq<ExecutionResult> {
    if results == [] then
      []
    else
      var n := |results| - 1;
      LiveResults(results[..n]) + if IsLive(results[n]) then [results[n]] else []
  }

  function Claims(s: Snapshot, r: ExecutionResult): set<Id> {
    var o := Candidate(s, r);
    if o.Some? then {o.value.objectId} else {}
  }

  function Consumed(s: Snapshot, live: seq<ExecutionResult>): set<Id> {
    set r, id | r in live && id in Claims(s, r) :: id
  }

  function LinkedFindings(s: Snapshot, live: seq<ExecutionResult>): seq<Finding> {
    seq(|live|, k requires 0 <= k < |live| => FindingFor(s, live[k]))
  }

  ghost function Strays(s: Snapshot, live: seq<ExecutionResult>): seq<Id> {
    Sorted(ObjectIds(Objects(s)) - Consumed(s, live))
  }

  function NamedStray(s: Snapshot, id: Id): Finding {
    match ObjectNamed(Objects(s), id)
    case Some(o) => StrayFinding(o)
    case None => Finding(BROKER_ONLY, RECONCILIATION_REQUIRED, None, Some(id), None, UNCLASSIFIED_BROKER_OBJECT)
  }

  function NamedStrays(s: Snapshot, ids: seq<Id>): seq<Finding> {
    seq(|ids|, k requires 0 <= k < |ids| => NamedStray(s, ids[k]))
  }

  ghost function StrayFindings(s: Snapshot, live: seq<ExecutionResult>): seq<Finding> {
    NamedStrays(s, Strays(s, live))
  }

  ghost function Findings(s: Snapshot, results: seq<ExecutionResult>): seq<Finding> {
    StrayFindings(s, LiveResults(results)) + LinkedFindings(s, LiveResults(results))
  }

  // ----- Lookups -----

  lemma {:induction false} ObjectNamedMeaning(objects: seq<BrokerObject>, id: Id)
    ensures var o := ObjectNamed(objects, id);
            && (o.Some? ==> o.value in objects && o.value.objectId == id)
            && (o.None? <==> id !in ObjectIds(objects))
  {
    if objects != [] {
      var n := |objects| - 1;
      ObjectNamedMeaning(objects[..n], id);
      assert objects == objects[..n] + [objects[n]];
    }
  }

  lemma {:induction false} LinkOfMeaning(links: seq<Link>, intentId: Id)
    ensures var l := LinkOf(links, intentId);
            && (l.Some? ==> l.value in links && l.value.intentId == intentId)
            && (l.None? ==> forall k :: k in links ==> k.intentId != intentId)
  {
    if links != [] {
      var n := |links| - 1;
      LinkOfMeaning(links[..n], intentId);
      assert links == links[..n] + [links[n]];
    }
  }

  lemma {:induction false} FirstWithTicketMeaning(objects: seq<BrokerObject>, ticket: nat)
    ensures var o := FirstWithTicket(objects, ticket);
            && (o.Some? ==> o.value in objects && o.value.ticket == Some(ticket))
            && (o.None? ==> forall p :: p in objects ==> p.ticket != Some(ticket))
  {
    if objects != [] {
      FirstWithTicketMeaning(objects[1..], ticket);
      assert objects == [objects[0]] + objects[1..];
    }
  }

  lemma CandidateIsPresent(s: Snapshot, r: ExecutionResult)
    ensures Candidate(s, r).Some? ==> Candidate(s, r).value in Objects(s)
    ensures Claims(s, r) <= ObjectIds(Objects(s))
  {
    var link := LinkOf(s.links, r.intentId);
    if link.Some? {
      ObjectNamedMeaning(Objects(s), link.value.objectId);
    }
    if r.ticket.Some? {
      FirstWithTicketMeaning(Objects(s), r.ticket.value);
    }
  }

  lemma {:induction false} LiveMeaning(results: seq<ExecutionResult>, r: ExecutionResult)
    ensures r in LiveResults(results) <==> r in results && IsLive(r)
  {
    if results != [] {
      var n := |results| - 1;
      LiveMeaning(results[..n], r);
      assert results == results[..n] + [results[n]];
    }
  }

  // Results come in strictly increasing intent order, and so do the live ones.
  predicate Ordered(results: seq<ExecutionResult>) {
    && (forall k :: 0 <= k < |results| ==> 0 < results[k].intentId)
    && (forall j, k :: 0 <= j < k < |results| ==> results[j].intentId < results[k].intentId)
  }

  lemma {:induction false} LiveStaysOrdered(results: seq<ExecutionResult>)
    requires Ordered(results)
    ensures Ordered(LiveResults(results))
    ensures forall r :: r in LiveResults(results) ==> r in results
  {
    if results != [] {
      var n := |results| - 1;
      LiveStaysOrdered(results[..n]);
      var live := LiveResults(results[..n]);
      forall k | 0 <= k < |live|
        ensures live[k].intentId < results[n].intentId
      {
        assert live[k] in results[..n];
      }
    }
  }

  lemma ConsumedArePresent(s: Snapshot, live: seq<ExecutionResult>)
    ensures Consumed(s, live) <= ObjectIds(Objects(s))
  {
    forall r | r in live
      ensures Claims(s, r) <= ObjectIds(Objects(s))
    {
      CandidateIsPresent(s, r);
    }
  }

  // ----- Accounting -----

  // One finding per live result and one per broker object nobody claimed: nothing else.
  lemma FindingsAddUp(s: Snapshot, results: seq<ExecutionResult>)
    ensures |Findings(s, results)|
         == |LiveResults(results)| + |ObjectIds(Objects(s))| - |Consumed(s, LiveResults(results))|
  {
    var live := LiveResults(results);
    ConsumedArePresent(s, live);
    var ids, consumed := ObjectIds(Objects(s)), Consumed(s, live);
    assert ids == (ids - consumed) + consumed;
  }

  // What tells the two parts apart: strays carry no intent, linked findings carry their own.
  lemma StraysAndLinks(s: Snapshot, results: seq<ExecutionResult>)
    ensures var live := LiveResults(results);
            var strays, links := StrayFindings(s, live), LinkedFindings(s, live);
            && Findings(s, results) == strays + links
            && (forall k :: 0 <= k < |strays| ==>
                  strays[k].intentId == None && strays[k].objectId == Some(Strays(s, live)[k]))
            && (forall k :: 0 <= k < |links| ==> links[k].intentId == Some(live[k].intentId))
  {
    StraysCarryTheirObject(s, Strays(s, LiveResults(results)));
    LinksCarryTheirIntent(s, LiveResults(results));
  }

  lemma StraysCarryTheirObject(s: Snapshot, ids: seq<Id>)
    ensures forall k :: 0 <= k < |ids| ==>
              NamedStrays(s, ids)[k].intentId == None && NamedStrays(s, ids)[k].objectId == Some(ids[k])
  {
    forall k | 0 <= k < |ids|
      ensures NamedStray(s, ids[k]).intentId == None && NamedStray(s, ids[k]).objectId == Some(ids[k])
    {
      ObjectNamedMeaning(Objects(s), ids[k]);
    }
  }

  lemma LinksCarryTheirIntent(s: Snapshot, live: seq<ExecutionResult>)
    ensures forall k :: 0 <= k < |live| ==> LinkedFindings(s, live)[k].intentId == Some(live[k].intentId)
  {
  }

  // Of two findings that speak of the same intent, or that both report the same stray
  // object, one is the other.
  predicate NoTwoAlike(findings: seq<Finding>) {
    forall i, j :: 0 <= i < j < |findings| ==>
      findings[i].intentId != findings[j].intentId
      || (findings[i].intentId == None && findings[i].objectId != findings[j].objectId)
  }

  lemma NothingIsReportedTwice(s: Snapshot, results: seq<ExecutionResult>)
    requires Ordered(results)
    ensures NoTwoAlike(Findings(s, results))
  {
    StraysAndLinks(s, results);
    LiveStaysOrdered(results);
    var live := LiveResults(results);
    var strays, links := StrayFindings(s, live), LinkedFindings(s, live);
    var ids := Strays(s, live);
    PartsAreNotAlike(strays, links, ids, live);
  }

  lemma PartsAreNotAlike(
    strays: seq<Finding>, links: seq<Finding>, ids: seq<Id>, live: seq<ExecutionResult>)
    requires |strays| == |ids| && |links| == |live| && Increasing(ids) && Ordered(live)
    requires forall k :: 0 <= k < |strays| ==> strays[k].intentId == None && strays[k].objectId == Some(ids[k])
    requires forall k :: 0 <= k < |links| ==> links[k].intentId == Some(live[k].intentId)
    ensures NoTwoAlike(strays + links)
  {
    var all := strays + links;
    forall i, j | 0 <= i < j < |all|
      ensures all[i].intentId != all[j].intentId
           || (all[i].intentId == None && all[i].objectId != all[j].objectId)
    {
      if j < |strays| {
        assert ids[i] < ids[j];
      } else if |strays| <= i {
        assert live[i - |strays|].intentId < live[j - |strays|].intentId;
      }
    }
  }

  // Every live result has a finding, the one its own evidence calls for.
  lemma EachLiveResultHasItsFinding(s: Snapshot, results: seq<ExecutionResult>, r: ExecutionResult)
    requires r in results && IsLive(r)
    ensures FindingFor(s, r) in Findings(s, results)
  {
    LiveMeaning(results, r);
    StraysAndLinks(s, results);
    var live := LiveResults(results);
    var i :| 0 <= i < |live| && live[i] == r;
    assert LinkedFindings(s, live)[i] == FindingFor(s, r);
    assert FindingFor(s, r) in LinkedFindings(s, live);
  }

  // Every broker object is either claimed by a live result or reported as broker-only.
  lemma EachObjectIsClaimedOrReported(s: Snapshot, results: seq<ExecutionResult>, o: BrokerObject)
    requires ValidSnapshot(s) && o in Objects(s)
    ensures o.objectId in Consumed(s, LiveResults(results)) <==> StrayFinding(o) !in Findings(s, results)
  {
    var live := LiveResults(results);
    StraysAndLinks(s, results);
    UnclaimedAreStrays(s, live, o);
    var links := LinkedFindings(s, live);
    assert StrayFinding(o) !in links by {
      assert forall f :: f in links ==> f.intentId.Some?;
    }
    assert StrayFinding(o) in Findings(s, results) <==>
           StrayFinding(o) in StrayFindings(s, live) || StrayFinding(o) in links;
  }

  lemma UnclaimedAreStrays(s: Snapshot, live: seq<ExecutionResult>, o: BrokerObject)
    requires ValidSnapshot(s) && o in Objects(s)
    ensures o.objectId in Consumed(s, live) <==> StrayFinding(o) !in StrayFindings(s, live)
  {
    var ids, strays := Strays(s, live), StrayFindings(s, live);
    ObjectNamedMeaning(Objects(s), o.objectId);
    assert o.objectId in ObjectIds(Objects(s));
    if o.objectId in ids {
      var k :| 0 <= k < |ids| && ids[k] == o.objectId;
      assert strays[k] == StrayFinding(o);
    }
    if StrayFinding(o) in strays {
      var k :| 0 <= k < |strays| && strays[k] == StrayFinding(o);
      assert strays[k] == NamedStray(s, ids[k]);
      assert ids[k] == o.objectId by {
        ObjectNamedMeaning(Objects(s), ids[k]);
      }
    }
  }

  // ----- Resolution -----

  predicate Agrees(s: Snapshot, r: ExecutionResult) {
    && Candidate(s, r).Some?
    && var o := Candidate(s, r).value;
       && TicketsAgree(r, o, LinkedTicket(s, r))
       && DirectionOf(o) == r.provenance.direction
       && VolumesAgree(r, o)
  }

  lemma FindingResolved(s: Snapshot, r: ExecutionResult)
    ensures FindingFor(s, r).status == RESOLVED <==> Agrees(s, r)
    ensures ValidFinding(FindingFor(s, r))
  {
  }

  ghost predicate Accounted(s: Snapshot, live: seq<ExecutionResult>) {
    && (forall k :: 0 <= k < |live| ==> Agrees(s, live[k]))
    && ObjectIds(Objects(s)) <= Consumed(s, live)
  }

  // A comparison is resolved exactly when every live result has a broker object that agrees
  // with it on every known ticket, the direction and the volume, and every broker object is
  // claimed by some live result.
  lemma ResolvedMeansAccounted(s: Snapshot, results: seq<ExecutionResult>)
    ensures AllResolved(Findings(s, results)) <==> Accounted(s, LiveResults(results))
  {
    var live := LiveResults(results);
    var strays, links := StrayFindings(s, live), LinkedFindings(s, live);
    AllResolvedSplits(strays, links);
    LinksResolved(s, live);
    NoStraysResolved(s, live);
  }

  lemma AllResolvedSplits(a: seq<Finding>, b: seq<Finding>)
    ensures AllResolved(a + b) <==> AllResolved(a) && AllResolved(b)
  {
    if AllResolved(a + b) {
      forall k | 0 <= k < |a|
        ensures a[k].status == RESOLVED
      {
        assert (a + b)[k] == a[k];
      }
      forall k | 0 <= k < |b|
        ensures b[k].status == RESOLVED
      {
        assert (a + b)[|a| + k] == b[k];
      }
    }
  }

  lemma LinksResolved(s: Snapshot, live: seq<ExecutionResult>)
    ensures AllResolved(LinkedFindings(s, live)) <==> forall k :: 0 <= k < |live| ==> Agrees(s, live[k])
  {
    var links := LinkedFindings(s, live);
    forall k | 0 <= k < |live|
      ensures links[k].status == RESOLVED <==> Agrees(s, live[k])
    {
      FindingResolved(s, live[k]);
    }
  }

  lemma NoStraysResolved(s: Snapshot, live: seq<ExecutionResult>)
    ensures AllResolved(StrayFindings(s, live)) <==> ObjectIds(Objects(s)) <= Consumed(s, live)
  {
    var ids, strays := Strays(s, live), StrayFindings(s, live);
    var unclaimed := ObjectIds(Objects(s)) - Consumed(s, live);
    if strays != [] {
      assert strays[0].status == RECONCILIATION_REQUIRED;
    }
    if AllResolved(strays) {
      assert |unclaimed| == 0;
      forall id | id in ObjectIds(Objects(s))
        ensures id in Consumed(s, live)
      {
        assert id !in unclaimed;
      }
    }
    if ObjectIds(Objects(s)) <= Consumed(s, live) {
      assert unclaimed == {};
      assert strays == [];
    }
  }

  predicate ClaimsAreDistinct(s: Snapshot, live: seq<ExecutionResult>) {
    forall j, k :: 0 <= j < k < |live| ==> Claims(s, live[j]) !! Claims(s, live[k])
  }

  // Resolved is not yet one-to-one: two live results may be matched to the same object. It
  // is one-to-one exactly when there are as many live results as broker objects.
  lemma ResolvedIsOneToOneExactlyWhenCountsAgree(s: Snapshot, results: seq<ExecutionResult>)
    requires AllResolved(Findings(s, results))
    ensures var live := LiveResults(results);
            ClaimsAreDistinct(s, live) <==> |live| == |ObjectIds(Objects(s))|
  {
    var live := LiveResults(results);
    ResolvedMeansAccounted(s, results);
    ConsumedArePresent(s, live);
    assert Consumed(s, live) == ObjectIds(Objects(s));
    ClaimCount(s, live);
  }

  function Shared(r: ExecutionResult, snapshotId: Id, at: Instant, objectId: Id): Snapshot {
    var side := if r.provenance.direction == BUY then BUY_SIDE else SELL_SIDE;
    Snapshot(snapshotId, at, [Position(objectId, r.ticket, ExpectedVolume(r), side)], [], [])
  }

  // It does happen: any live result with a ticket and a direction has a twin of another intent
  // that one broker position resolves together with it.
  lemma OneObjectResolvesTwoResults(r: ExecutionResult, twin: Id, snapshotId: Id, at: Instant, objectId: Id)
    requires IsLive(r) && r.ticket.Some? && r.provenance.direction != HOLD && twin != r.intentId && 0 < objectId
    ensures var s, results := Shared(r, snapshotId, at, objectId), [r, r.(intentId := twin)];
            && ValidSnapshot(s) && LiveResults(results) == results
            && AllResolved(Findings(s, results))
            && !ClaimsAreDistinct(s, results)
  {
    var other := r.(intentId := twin);
    BothLive(r, other);
    SharedAgrees(r, snapshotId, at, objectId);
    SharedAgrees(other, snapshotId, at, objectId);
    SharedIsAccounted(Shared(r, snapshotId, at, objectId), r, other, objectId);
    ResolvedMeansAccounted(Shared(r, snapshotId, at, objectId), [r, other]);
  }

  lemma BothLive(a: ExecutionResult, b: ExecutionResult)
    requires IsLive(a) && IsLive(b)
    ensures LiveResults([a, b]) == [a, b]
  {
    assert [a, b][..1] == [a] && [a][..0] == [];
    assert LiveResults([a]) == [a];
  }

  lemma SharedAgrees(r: ExecutionResult, snapshotId: Id, at: Instant, objectId: Id)
    requires r.ticket.Some? && r.provenance.direction != HOLD
    ensures var s := Shared(r, snapshotId, at, objectId); Agrees(s, r) && Claims(s, r) == {objectId}
  {
    var s := Shared(r, snapshotId, at, objectId);
    assert Objects(s) == s.positions;
  }

  lemma SharedIsAccounted(s: Snapshot, a: ExecutionResult, b: ExecutionResult, objectId: Id)
    requires |s.positions| == 1 && s.orders == [] && s.positions[0].objectId == objectId
    requires Agrees(s, a) && Agrees(s, b) && Claims(s, a) == {objectId} == Claims(s, b)
    ensures Accounted(s, [a, b]) && !ClaimsAreDistinct(s, [a, b])
  {
    var results := [a, b];
    assert objectId in Consumed(s, results) by {
      assert results[0] in results && objectId in Claims(s, results[0]);
    }
    assert Objects(s) == s.positions;
    assert objectId in Claims(s, results[0]) * Claims(s, results[1]);
  }

  lemma {:induction false} ClaimCount(s: Snapshot, live: seq<ExecutionResult>)
    requires forall k :: 0 <= k < |live| ==> |Claims(s, live[k])| == 1
    ensures |Consumed(s, live)| <= |live|
    ensures |Consumed(s, live)| == |live| <==> ClaimsAreDistinct(s, live)
  {
    if live == [] {
      assert Consumed(s, live) == {};
    } else {
      var n := |live| - 1;
      var front, last := live[..n], live[n];
      assert live == front + [last];
      assert forall k :: 0 <= k < n ==> front[k] == live[k];
      ClaimCount(s, front);
      DistinctExtends(s, front, last);
      ClaimCountStep(s, front, last);
    }
  }

  lemma ClaimCountStep(s: Snapshot, front: seq<ExecutionResult>, last: ExecutionResult)
    requires |Claims(s, last)| == 1
    ensures (forall j :: 0 <= j < |front| ==> Claims(s, front[j]) !! Claims(s, last)) ==>
              |Consumed(s, front + [last])| == |Consumed(s, front)| + 1
    ensures !(forall j :: 0 <= j < |front| ==> Claims(s, front[j]) !! Claims(s, last)) ==>
              |Consumed(s, front + [last])| == |Consumed(s, front)|
  {
    var id :| id in Claims(s, last);
    assert Claims(s, last) == {id} by {
      assert |Claims(s, last) - {id}| == 0;
    }
    LastClaim(s, front, last, id);
    ConsumedExtends(s, front, last);
    if id in Consumed(s, front) {
      assert Consumed(s, front) + {id} == Consumed(s, front);
    }
  }

  lemma ConsumedExtends(s: Snapshot, front: seq<ExecutionResult>, last: ExecutionResult)
    ensures Consumed(s, front + [last]) == Consumed(s, front) + Claims(s, last)
  {
    var live := front + [last];
    assert forall r :: r in live <==> r in front || r == last;
  }

  lemma LastClaim(s: Snapshot, front: seq<ExecutionResult>, last: ExecutionResult, id: Id)
    requires Claims(s, last) == {id}
    ensures id in Consumed(s, front) <==> exists j :: 0 <= j < |front| && !(Claims(s, front[j]) !! Claims(s, last))
  {
    if id in Consumed(s, front) {
      var r :| r in front && id in Claims(s, r);
      var j :| 0 <= j < |front| && front[j] == r;
      assert !(Claims(s, front[j]) !! Claims(s, last));
    }
    if j :| 0 <= j < |front| && !(Claims(s, front[j]) !! Claims(s, last)) {
      assert id in Claims(s, front[j]);
      assert front[j] in front;
    }
  }

  lemma DistinctExtends(s: Snapshot, front: seq<ExecutionResult>, last: ExecutionResult)
    ensures ClaimsAreDistinct(s, front + [last]) <==>
            && ClaimsAreDistinct(s, front)
            && forall j :: 0 <= j < |front| ==> Claims(s, front[j]) !! Claims(s, last)
  {
    var live := front + [last];
    assert forall j :: 0 <= j < |front| ==> live[j] == front[j];
    if ClaimsAreDistinct(s, live) {
      assert forall j :: 0 <= j < |front| ==> Claims(s, live[j]) !! Claims(s, live[|front|]);
    }
  }

  // ----- Sorting the findings -----

  function Rank(kind: FindingKind): nat {
    match kind
    case BROKER_ONLY => 0
    case CONFLICT => 1
    case LOCAL_ONLY => 2
    case MATCHED => 3
    case UNKNOWN_LINK => 4
  }

  function OrEmpty(id: Option<Id>): Id {
    if id.Some? then id.value else 0
  }

  // findings are sorted by intent, then object, then kind; a missing identifier sorts as "".
  predicate Before(a: Finding, b: Finding) {
    || OrEmpty(a.intentId) < OrEmpty(b.intentId)
    || (OrEmpty(a.intentId) == OrEmpty(b.intentId)
        && (|| OrEmpty(a.objectId) < OrEmpty(b.objectId)
            || (OrEmpty(a.objectId) == OrEmpty(b.objectId) && Rank(a.kind) < Rank(b.kind))))
  }

  predicate SortedFindings(f: seq<Finding>) {
    forall i, j :: 0 <= i < j < |f| ==> !Before(f[j], f[i])
  }

  predicate StrictlySorted(f: seq<Finding>) {
    forall i, j :: 0 <= i < j < |f| ==> Before(f[i], f[j])
  }

  method SortFindings(f: seq<Finding>) returns (sorted: seq<Finding>)
    ensures SortedFindings(sorted)
    ensures multiset(sorted) == multiset(f)
  {
    sorted := [];
    for n := 0 to |f|
      invariant SortedFindings(sorted)
      invariant multiset(sorted) == multiset(f[..n])
    {
      assert f[..n + 1] == f[..n] + [f[n]];
      sorted := InsertFinding(sorted, f[n]);
    }
    assert f[..|f|] == f;
  }

  method InsertFinding(f: seq<Finding>, x: Finding) returns (r: seq<Finding>)
    requires SortedFindings(f)
    ensures SortedFindings(r)
    ensures multiset(r) == multiset(f) + multiset{x}
  {
    var k := |f|;
    while 0 < k && Before(x, f[k - 1])
      invariant 0 <= k <= |f|
      invariant forall j :: k <= j < |f| ==> Before(x, f[j])
    {
      k := k - 1;
    }
    r := f[..k] + [x] + f[k..];
    assert f == f[..k] + f[k..];
    InsertionIsSorted(f, x, k);
  }

  lemma InsertionIsSorted(f: seq<Finding>, x: Finding, k: nat)
    requires SortedFindings(f) && k <= |f|
    requires forall j :: k <= j < |f| ==> Before(x, f[j])
    requires 0 < k ==> !Before(x, f[k - 1])
    ensures SortedFindings(f[..k] + [x] + f[k..])
  {
    var r := f[..k] + [x] + f[k..];
    forall i | 0 <= i < k
      ensures !Before(x, f[i])
    {
      if i < k - 1 {
        assert !Before(f[k - 1], f[i]);
      }
    }
    forall i, j | 0 <= i < j < |r|
      ensures !Before(r[j], r[i])
    {
      assert i < k ==> r[i] == f[i];
      assert j > k ==> r[j] == f[j - 1];
    }
  }

  // A strictly sorted sequence is the only sorted arrangement of its elements.
  lemma {:induction false} SortingIsCanonical(a: seq<Finding>, b: seq<Finding>)
    requires StrictlySorted(a) && SortedFindings(b) && multiset(a) == multiset(b)
    ensures a == b
    decreases |a|
  {
    assert |multiset(a)| == |a| && |multiset(b)| == |b|;
    if a != [] {
      SameFirst(a, b);
      SameRest(a, b);
      SortingIsCanonical(a[1..], b[1..]);
      assert a == [a[0]] + a[1..];
      assert b == [b[0]] + b[1..];
    }
  }

  lemma SameFirst(a: seq<Finding>, b: seq<Finding>)
    requires StrictlySorted(a) && SortedFindings(b) && multiset(a) == multiset(b)
    requires a != [] && b != []
    ensures a[0] == b[0]
  {
    assert a[0] in multiset(a) && b[0] in multiset(b);
    var i :| 0 <= i < |b| && b[i] == a[0];
    var j :| 0 <= j < |a| && a[j] == b[0];
    assert 0 < j ==> Before(a[0], a[j]);
    assert 0 < i ==> !Before(b[i], b[0]);
  }

  lemma SameRest<T>(a: seq<T>, b: seq<T>)
    requires a != [] && b != [] && a[0] == b[0] && multiset(a) == multiset(b)
    ensures multiset(a[1..]) == multiset(b[1..])
  {
    assert a == [a[0]] + a[1..];
    assert b == [b[0]] + b[1..];
    assert multiset(a[1..]) == multiset(a) - multiset{a[0]};
    assert multiset(b[1..]) == multiset(b) - multiset{b[0]};
  }

  // ----- The comparison itself -----

  datatype ReconcileError = NOT_YET_AVAILABLE | LEDGER_ERROR(error: LedgerError)

  function StatusOf(findings: seq<Finding>): ResolutionStatus {
    if AllResolved(findings) then RESOLVED else RECONCILIATION_REQUIRED
  }

  ghost function ContentOf(
    s: Snapshot, results: seq<ExecutionResult>, asOf: Instant, prior: Option<Report>
  ): ReportContent {
    var findings := Findings(s, results);
    ReportContent(s.snapshotId, asOf, s.availableAt, StatusOf(findings), findings,
                  if prior.Some? then Some(prior.value.reportId) else None)
  }

  lemma FindingsAreStrictlySorted(s: Snapshot, results: seq<ExecutionResult>)
    requires Ordered(results)
    requires forall o :: o in Objects(s) ==> 0 < o.objectId
    ensures StrictlySorted(Findings(s, results))
  {
    var live := LiveResults(results);
    var strays, links, ids := StrayFindings(s, live), LinkedFindings(s, live), Strays(s, live);
    StraysAndLinks(s, results);
    LiveStaysOrdered(results);
    ConcatenationIsSorted(strays, links, ids, live);
  }

  lemma ConcatenationIsSorted(
    strays: seq<Finding>, links: seq<Finding>, ids: seq<Id>, live: seq<ExecutionResult>)
    requires |strays| == |ids| && |links| == |live| && Increasing(ids) && Ordered(live)
    requires forall k :: 0 <= k < |strays| ==> strays[k].intentId == None && strays[k].objectId == Some(ids[k])
    requires forall k :: 0 <= k < |links| ==> links[k].intentId == Some(live[k].intentId)
    ensures StrictlySorted(strays + links)
  {
    var all := strays + links;
    forall i, j | 0 <= i < j < |all|
      ensures Before(all[i], all[j])
    {
      if j < |strays| {
        assert ids[i] < ids[j];
      } else if |strays| <= i {
        assert live[i - |strays|].intentId < live[j - |strays|].intentId;
      } else {
        assert 0 < live[j - |strays|].intentId;
      }
    }
  }

  method Reconcile(
    ledger: SQLiteExecutionLedger, s: Snapshot, asOf: Instant, prior: Option<Report>, hash: ContentHash
  ) returns (outcome: Outcome<Report, ReconcileError>)
    requires forall o :: o in Objects(s) ==> 0 < o.objectId
    requires forall id :: id in View(ledger.log).results ==> 0 < id
    modifies ledger
    ensures var content := ContentOf(s, Listing(View(old(ledger.log)).results), asOf, prior);
            var report := Report(hash(content), content);
            if asOf < s.availableAt then
              outcome == Failure(NOT_YET_AVAILABLE) && ledger.log == old(ledger.log)
            else
              match AfterReconciliation(old(ledger.log), report)
              case (Success(_), log') => outcome == Success(report) && ledger.log == log'
              case (Failure(e), log') => outcome == Failure(LEDGER_ERROR(e)) && ledger.log == log'
  {
    var results := ledger.LatestResults();
    ResultsOfLog(ledger.log);
    ListingIsOrdered(View(ledger.log).results);
    var findings := CompareAll(s, results);
    if asOf < s.availableAt {
      return Failure(NOT_YET_AVAILABLE);
    }
    var content := ReportContent(s.snapshotId, asOf, s.availableAt, StatusOf(findings), findings,
                                 if prior.Some? then Some(prior.value.reportId) else None);
    var report := Report(hash(content), content);
    var appended := ledger.AppendReconciliation(report);
    outcome := match appended {
      case Success(_) => Success(report)
      case Failure(error) => Failure(LEDGER_ERROR(error))
    };
  }

  method CompareAll(s: Snapshot, results: seq<ExecutionResult>) returns (findings: seq<Finding>)
    requires forall o :: o in Objects(s) ==> 0 < o.objectId
    requires Ordered(results)
    ensures findings == Findings(s, results)
  {
    var links, consumed := CompareLive(s, results);
    var ids := SortIds(ObjectIds(Objects(s)) - consumed);
    var strays := ReportStrays(s, ids);
    findings := SortFindings(links + strays);
    assert multiset(links + strays) == multiset(strays + links);
    FindingsAreStrictlySorted(s, results);
    SortingIsCanonical(Findings(s, results), findings);
  }

  method CompareLive(s: Snapshot, results: seq<ExecutionResult>)
    returns (findings: seq<Finding>, consumed: set<Id>)
    ensures findings == LinkedFindings(s, LiveResults(results))
    ensures consumed == Consumed(s, LiveResults(results))
  {
    findings, consumed := [], {};
    ghost var live: seq<ExecutionResult> := [];
    for n := 0 to |results|
      invariant live == LiveResults(results[..n])
      invariant findings == LinkedFindings(s, live)
      invariant consumed == Consumed(s, live)
    {
      assert results[..n + 1][..n] == results[..n];
      if IsLive(results[n]) {
        ConsumedExtends(s, live, results[n]);
        var candidate := Candidate(s, results[n]);
        if candidate.Some? {
          consumed := consumed + {candidate.value.objectId};
        }
        findings := findings + [FindingFor(s, results[n])];
        live := live + [results[n]];
      }
    }
    assert results[..|results|] == results;
  }

  method ReportStrays(s: Snapshot, ids: seq<Id>) returns (findings: seq<Finding>)
    ensures findings == NamedStrays(s, ids)
  {
    findings := [];
    for n := 0 to |ids|
      invariant |findings| == n
      invariant forall k :: 0 <= k < n ==> findings[k] == NamedStray(s, ids[k])
    {
      findings := findings + [NamedStray(s, ids[n])];
    }
  }

  lemma ResultsOfLog(log: Log)
    ensures forall id :: id in View(log).results ==> View(log).results[id].intentId == id
  {
    forall id | id in View(log).results
      ensures View(log).results[id].intentId == id
    {
      ViewMeaning(log, id);
    }
  }

  lemma ListingIsOrdered(results: map<Id, ExecutionResult>)
    requires forall id :: id in results ==> 0 < id && results[id].intentId == id
    ensures Ordered(Listing(results))
  {
    var keys, listing := Sorted(results.Keys), Listing(results);
    forall k | 0 <= k < |keys|
      ensures keys[k] in results && listing[k] == results[keys[k]] && listing[k].intentId == keys[k]
    {
      assert keys[k] in keys;
    }
  }

  // The report always passes its validator.
  lemma ReportIsValid(
    s: Snapshot, results: seq<ExecutionResult>, asOf: Instant, prior: Option<Report>, hash: ContentHash)
    requires s.availableAt <= asOf
    ensures var content := ContentOf(s, results, asOf, prior);
            ValidReconciliation(Report(hash(content), content), hash)
  {
    FindingsAreValid(s, results);
  }

  predicate AllValid(findings: seq<Finding>) {
    forall k :: 0 <= k < |findings| ==> ValidFinding(findings[k])
  }

  lemma FindingsAreValid(s: Snapshot, results: seq<ExecutionResult>)
    ensures AllValid(Findings(s, results))
  {
    var live := LiveResults(results);
    StraysAreValid(s, Strays(s, live));
    LinksAreValid(s, live);
    BothAreValid(StrayFindings(s, live), LinkedFindings(s, live));
  }

  lemma StraysAreValid(s: Snapshot, ids: seq<Id>)
    ensures AllValid(NamedStrays(s, ids))
  {
  }

  lemma LinksAreValid(s: Snapshot, live: seq<ExecutionResult>)
    ensures AllValid(LinkedFindings(s, live))
  {
    forall k | 0 <= k < |live|
      ensures ValidFinding(LinkedFindings(s, live)[k])
    {
      FindingResolved(s, live[k]);
    }
  }

  lemma BothAreValid(a: seq<Finding>, b: seq<Finding>)
    requires AllValid(a) && AllValid(b)
    ensures AllValid(a + b)
  {
  }

  // ----- Order does not matter -----

  // The same broker state, listed in another order.
  predicate SameBrokerState(s: Snapshot, t: Snapshot) {
    && multiset(s.positions) == multiset(t.positions)
    && multiset(s.orders) == multiset(t.orders)
    && multiset(s.links) == multiset(t.links)
  }

  ghost predicate DistinctTickets(s: Snapshot) {
    forall a, b :: a in Objects(s) && b in Objects(s) && a.ticket.Some? && a.ticket == b.ticket ==> a == b
  }

  ghost predicate OneLinkPerIntent(s: Snapshot) {
    forall a, b :: a in s.links && b in s.links && a.intentId == b.intentId ==> a == b
  }

  lemma SameMembers<T>(a: seq<T>, b: seq<T>)
    requires multiset(a) == multiset(b)
    ensures forall x :: x in a <==> x in b
  {
    forall x
      ensures x in a <==> x in b
    {
      assert x in a <==> x in multiset(a);
      assert x in b <==> x in multiset(b);
    }
  }

  lemma SameCandidate(s: Snapshot, t: Snapshot, r: ExecutionResult)
    requires ValidSnapshot(s) && DistinctTickets(s) && OneLinkPerIntent(s)
    requires forall o :: o in Objects(s) <==> o in Objects(t)
    requires forall l :: l in s.links <==> l in t.links
    ensures LinkOf(s.links, r.intentId) == LinkOf(t.links, r.intentId)
    ensures Candidate(s, r) == Candidate(t, r)
  {
    LinkOfMeaning(s.links, r.intentId);
    LinkOfMeaning(t.links, r.intentId);
    var link := LinkOf(s.links, r.intentId);
    if link.Some? {
      SameObject(s, t, link.value.objectId);
    }
    if r.ticket.Some? {
      FirstWithTicketMeaning(Objects(s), r.ticket.value);
      FirstWithTicketMeaning(Objects(t), r.ticket.value);
    }
  }

  lemma SameObject(s: Snapshot, t: Snapshot, id: Id)
    requires ValidSnapshot(s)
    requires forall o :: o in Objects(s) <==> o in Objects(t)
    ensures ObjectNamed(Objects(s), id) == ObjectNamed(Objects(t), id)
  {
    ObjectNamedMeaning(Objects(s), id);
    ObjectNamedMeaning(Objects(t), id);
    assert ObjectIds(Objects(s)) == ObjectIds(Objects(t));
  }

  // With distinct tickets and one link per intent, listing the positions, the orders or the
  // links in another order changes nothing in the comparison.
  lemma FindingsIgnoreOrder(s: Snapshot, t: Snapshot, results: seq<ExecutionResult>)
    requires ValidSnapshot(s) && DistinctTickets(s) && OneLinkPerIntent(s)
    requires SameBrokerState(s, t)
    ensures Findings(s, results) == Findings(t, results)
  {
    SameMembers(s.positions, t.positions);
    SameMembers(s.orders, t.orders);
    SameMembers(s.links, t.links);
    assert forall o :: o in Objects(s) <==> o in Objects(t);
    var live := LiveResults(results);
    forall r
      ensures FindingFor(s, r) == FindingFor(t, r) && Claims(s, r) == Claims(t, r)
    {
      SameCandidate(s, t, r);
    }
    assert LinkedFindings(s, live) == LinkedFindings(t, live);
    SameStrays(s, t, live);
  }

  lemma SameStrays(s: Snapshot, t: Snapshot, live: seq<ExecutionResult>)
    requires ValidSnapshot(s)
    requires forall o :: o in Objects(s) <==> o in Objects(t)
    requires forall r :: Claims(s, r) == Claims(t, r)
    ensures StrayFindings(s, live) == StrayFindings(t, live)
  {
    assert Consumed(s, live) == Consumed(t, live);
    assert ObjectIds(Objects(s)) == ObjectIds(Objects(t));
    forall id
      ensures NamedStray(s, id) == NamedStray(t, id)
    {
      SameObject(s, t, id);
    }
  }
}
