/**
 The immutable records of the execution boundary and the conditions their
 validators demand of every instance.
 */
module ExecutionContracts {
  import opened Numerics

  datatype Signal = BUY | SELL | HOLD

  datatype ExecutionMode = DISABLED | DRY_RUN | DEMO_ENABLED

  datatype AccountMode = ACCOUNT_UNKNOWN | DEMO | LIVE

  datatype ResultStatus =
    | NO_ACTION
    | SUBMITTED
    | ACCEPTED
    | PARTIALLY_FILLED
    | FILLED
    | REJECTED
    | CANCELLED
    | EXPIRED
    | FAILED
    | UNKNOWN

  datatype ExecutionReason =
    | EXECUTION_DISABLED
    | DRY_RUN_ONLY
    | LIVE_ACCOUNT_BLOCKED
    | UNKNOWN_ACCOUNT_MODE
    | INTENT_EXPIRED
    | OBSERVATION_STALE
    | SYMBOL_MISMATCH
    | SPREAD_LIMIT
    | SLIPPAGE_LIMIT
    | PRICE_DEVIATION_LIMIT
    | BROKER_REJECTED
    | BROKER_CANCELLED
    | BROKER_EXPIRED
    | TRANSPORT_FAILED
    | UNKNOWN_SUBMISSION
    | INVALID_BROKER_REPORT

  datatype Policy = Policy(
    policyId: Id,
    version: Id,
    mode: ExecutionMode,
    maxLatencySeconds: real,
    maxSpreadPoints: real,
    maxSlippagePoints: real,
    maxDeviationPoints: real
  )

  // The identities an intent hands on, unchanged, to its result.
  datatype Provenance = Provenance(
    evidenceBundleId: Id,
    masterProposalId: Id,
    disciplineOutcomeId: Id,
    riskOutcomeId: Id,
    setupId: Id,
    thesisId: Id,
    scenarioId: Option<Id>,
    symbol: Id,
    direction: Signal
  )

  datatype Intent = Intent(
    intentId: Id,
    provenance: Provenance,
    brokerSymbol: Id,
    pointSize: real,
    approvedVolume: real,
    requestedPrice: real,
    stopLoss: real,
    asOf: Instant,
    availableAt: Instant,
    expiresAt: Instant,
    policyId: Id,
    policyVersion: Id,
    mode: ExecutionMode
  )

  datatype Observation = Observation(
    observedAt: Instant,
    availableAt: Instant,
    accountMode: AccountMode,
    brokerSymbol: Id,
    marketPrice: real,
    spreadPoints: real,
    slippagePoints: real
  )

  datatype BrokerReport = BrokerReport(
    status: ResultStatus,
    eventTime: Instant,
    observedAt: Instant,
    availableAt: Instant,
    ticket: Option<nat>,
    filledVolume: real,
    fillPrice: Option<real>,
    message: Option<string>
  )

  datatype ExecutionResult = ExecutionResult(
    intentId: Id,
    provenance: Provenance,
    status: ResultStatus,
    reasonCode: Option<ExecutionReason>,
    reason: Option<string>,
    requestedVolume: real,
    filledVolume: Option<real>,
    remainingVolume: Option<real>,
    requestedPrice: real,
    fillPrice: Option<real>,
    spreadPoints: Option<real>,
    slippagePoints: Option<real>,
    ticket: Option<nat>,
    eventTime: Instant,
    observedAt: Instant,
    availableAt: Instant
  )

  predicate ValidPolicy(p: Policy) {
    && 0.0 < p.maxLatencySeconds
    && 0.0 <= p.maxSpreadPoints
    && 0.0 <= p.maxSlippagePoints
    && 0.0 <= p.maxDeviationPoints
  }

  predicate ValidIntent(i: Intent) {
    && 0 < i.intentId
    && 0.0 < i.pointSize
    && 0.0 < i.approvedVolume
    && 0.0 < i.requestedPrice
    && 0.0 < i.stopLoss
    && i.availableAt <= i.asOf
    && i.availableAt < i.expiresAt
    && match i.provenance.direction {
         case BUY => i.stopLoss < i.requestedPrice
         case SELL => i.requestedPrice < i.stopLoss
         case HOLD => false
       }
  }

  predicate ValidObservation(o: Observation) {
    && o.observedAt <= o.availableAt
    && 0.0 < o.marketPrice
    && 0.0 <= o.spreadPoints
    && 0.0 <= o.slippagePoints
  }

  predicate ValidReport(r: BrokerReport) {
    && r.status != NO_ACTION
    && r.status != UNKNOWN
    && r.eventTime <= r.observedAt <= r.availableAt
    && 0.0 <= r.filledVolume
    && (0.0 < r.filledVolume ==> r.fillPrice.Some?)
    && (r.fillPrice.Some? ==> 0.0 < r.fillPrice.value)
  }

  const VOLUME_TOLERANCE := 0.000_000_000_1

  predicate VolumeClose(a: real, b: real) {
    IsClose(a, b, DEFAULT_RELATIVE_TOLERANCE, VOLUME_TOLERANCE)
  }

  predicate NeedsReason(s: ResultStatus) {
    s == NO_ACTION || s == REJECTED || s == FAILED || s == UNKNOWN
  }

  // Known results conserve volume: what was filled and what remains add up to the request.
  predicate ValidVolumes(r: ExecutionResult) {
    if r.status == UNKNOWN then
      r.filledVolume.None? && r.remainingVolume.None?
    else
      && r.filledVolume.Some?
      && r.remainingVolume.Some?
      && 0.0 <= r.filledVolume.value
      && 0.0 <= r.remainingVolume.value
      && VolumeClose(r.filledVolume.value + r.remainingVolume.value, r.requestedVolume)
      && (r.status == PARTIALLY_FILLED ==> 0.0 < r.filledVolume.value < r.requestedVolume)
      && (r.status == FILLED ==> VolumeClose(r.filledVolume.value, r.requestedVolume))
      && (0.0 < r.filledVolume.value ==> r.fillPrice.Some?)
  }

  predicate ValidResult(r: ExecutionResult) {
    && 0 < r.intentId
    && r.provenance.direction != HOLD
    && r.eventTime <= r.observedAt <= r.availableAt
    && 0.0 < r.requestedVolume
    && 0.0 < r.requestedPrice
    && (r.fillPrice.Some? ==> 0.0 < r.fillPrice.value)
    && (r.spreadPoints.Some? ==> 0.0 <= r.spreadPoints.value)
    && ValidVolumes(r)
    && (NeedsReason(r.status) ==> r.reasonCode.Some?)
  }
}
