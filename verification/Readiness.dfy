/**
 The fail-closed readiness gate: one reason for everything that is not known to be safe.
 */
module Readiness {
  import opened Numerics
  import opened RecoveryContracts

  datatype FreshnessStatus = FRESHNESS_UNKNOWN | UNAVAILABLE | STALE | AVAILABLE

  datatype Freshness = Freshness(status: FreshnessStatus, availableAt: Option<Instant>, staleAfterMs: Option<nat>)

  // The part of the shared runtime state that readiness and recovery look at.
  datatype RuntimeState = RuntimeState(
    stateId: Id,
    market: Freshness,
    account: Freshness,
    positions: Freshness,
    orders: Freshness,
    exposure: Freshness,
    constraints: Freshness,
    openPositions: nat,
    openOrders: nat,
    grossLots: Option<real>,
    netLots: Option<real>
  )

  datatype Continuity = COMPLETE | CONTINUITY_UNKNOWN | MISSING_INTRABAR_DATA

  datatype ThesisView = ThesisView(continuity: Continuity, expiresAt: Instant)

  datatype BlockReason =
    | MARKET_NOT_FRESH
    | ACCOUNT_NOT_FRESH
    | POSITIONS_NOT_FRESH
    | ORDERS_NOT_FRESH
    | EXPOSURE_NOT_FRESH
    | BROKER_CONSTRAINTS_NOT_FRESH
    | UNRESOLVED_EXECUTION_ANOMALY
    | MISSING_INTRABAR_CONTINUITY
    | THESIS_EXPIRED

  datatype ResumeStatus = SAFE | BLOCKED

  datatype ResumeReadiness = ResumeReadiness(
    stateId: Id,
    reportId: Id,
    asOf: Instant,
    status: ResumeStatus,
    reasons: seq<BlockReason>
  )

  predicate IsFresh(f: Freshness, asOf: Instant) {
    && f.status == AVAILABLE
    && f.availableAt.Some?
    && f.staleAfterMs.Some?
    && 0 <= asOf - f.availableAt.value <= f.staleAfterMs.value * 1000
  }

  datatype Check = Check(passed: bool, reason: BlockReason)

  // The reasons of the checks that failed, in order.
  function Failed(checks: seq<Check>): seq<BlockReason> {
    if checks == [] then
      []
    else
      var n := |checks| - 1;
      Failed(checks[..n]) + if checks[n].passed then [] else [checks[n].reason]
  }

  predicate Continuous(theses: seq<ThesisView>, continuity: Continuity) {
    continuity == COMPLETE && forall k :: 0 <= k < |theses| ==> theses[k].continuity == COMPLETE
  }

  predicate Unexpired(theses: seq<ThesisView>, asOf: Instant) {
    forall k :: 0 <= k < |theses| ==> asOf < theses[k].expiresAt
  }

  function Checks(
    s: RuntimeState, report: Report, theses: seq<ThesisView>, asOf: Instant, continuity: Continuity
  ): seq<Check> {
    [ Check(IsFresh(s.market, asOf), MARKET_NOT_FRESH),
      Check(IsFresh(s.account, asOf), ACCOUNT_NOT_FRESH),
      Check(IsFresh(s.positions, asOf), POSITIONS_NOT_FRESH),
      Check(IsFresh(s.orders, asOf), ORDERS_NOT_FRESH),
      Check(IsFresh(s.exposure, asOf), EXPOSURE_NOT_FRESH),
      Check(IsFresh(s.constraints, asOf), BROKER_CONSTRAINTS_NOT_FRESH),
      Check(report.content.status == RESOLVED, UNRESOLVED_EXECUTION_ANOMALY),
      Check(Continuous(theses, continuity), MISSING_INTRABAR_CONTINUITY),
      Check(Unexpired(theses, asOf), THESIS_EXPIRED) ]
  }

  function BlockReasons(
    s: RuntimeState, report: Report, theses: seq<ThesisView>, asOf: Instant, continuity: Continuity
  ): seq<BlockReason> {
    Failed(Checks(s, report, theses, asOf, continuity))
  }

  function EvaluateReadiness(
    s: RuntimeState, report: Report, theses: seq<ThesisView>, asOf: Instant, continuity: Continuity
  ): ResumeReadiness {
    var reasons := BlockReasons(s, report, theses, asOf, continuity);
    ResumeReadiness(s.stateId, report.reportId, asOf, if reasons == [] then SAFE else BLOCKED, reasons)
  }

  predicate AllFresh(s: RuntimeState, asOf: Instant) {
    && IsFresh(s.market, asOf)
    && IsFresh(s.account, asOf)
    && IsFresh(s.positions, asOf)
    && IsFresh(s.orders, asOf)
    && IsFresh(s.exposure, asOf)
    && IsFresh(s.constraints, asOf)
  }

  lemma {:induction false} FailedMeaning(checks: seq<Check>, reason: BlockReason)
    ensures reason in Failed(checks) <==> Check(false, reason) in checks
  {
    if checks != [] {
      var n := |checks| - 1;
      FailedMeaning(checks[..n], reason);
      assert checks == checks[..n] + [checks[n]];
    }
  }

  lemma {:induction false} NothingFailed(checks: seq<Check>)
    ensures Failed(checks) == [] <==> forall k :: 0 <= k < |checks| ==> checks[k].passed
  {
    if checks != [] {
      var n := |checks| - 1;
      NothingFailed(checks[..n]);
      assert forall k :: 0 <= k < n ==> checks[..n][k] == checks[k];
    }
  }

  lemma AllNine(checks: seq<Check>)
    requires |checks| == 9
    ensures (forall k :: 0 <= k < |checks| ==> checks[k].passed) <==>
            && checks[0].passed && checks[1].passed && checks[2].passed
            && checks[3].passed && checks[4].passed && checks[5].passed
            && checks[6].passed && checks[7].passed && checks[8].passed
  {
  }

  // SAFE means every single check passed.
  lemma SafeMeansEveryCheckPassed(
    s: RuntimeState, report: Report, theses: seq<ThesisView>, asOf: Instant, continuity: Continuity)
    ensures EvaluateReadiness(s, report, theses, asOf, continuity).status == SAFE <==>
            && AllFresh(s, asOf)
            && report.content.status == RESOLVED
            && Continuous(theses, continuity)
            && Unexpired(theses, asOf)
  {
    var checks := Checks(s, report, theses, asOf, continuity);
    NothingFailed(checks);
    AllNine(checks);
  }
}
