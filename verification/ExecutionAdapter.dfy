/**
 The guarded demo adapter: it looks up, reserves, checks, submits and records one intent.
 What the observation provider, the preflight validator and the transport answer is the
 environment's choice and arrives as arguments.
 */
module ExecutionAdapter {
  import opened Numerics
  import opened ExecutionContracts
  import opened RecoveryContracts
  import opened ExecutionLedger

  // A call that raises anything but the two transport exceptions is Broken.
  datatype Observing = Observed(observation: Observation) | Unobserved(message: string) | ObservingBroken

  datatype Validating = Passed | Refused(message: string) | ValidatingBroken

  datatype Replying =
    | Reported(report: BrokerReport)
    | Unacknowledged(message: string)
    | NotSubmitted(message: string)
    | ReplyingBroken

  datatype AdapterError = POLICY_MISMATCH | LEDGER_REFUSED(error: LedgerError) | BROKEN

  // ----- Preflight -----

  function Seconds(from: Instant, to: Instant): real {
    (to - from) as real / 1_000_000.0
  }

  function DeviationPoints(intent: Intent, o: Observation): real
    requires 0.0 < intent.pointSize
  {
    Abs(o.marketPrice - intent.requestedPrice) / intent.pointSize
  }

  function Preflight(policy: Policy, intent: Intent, o: Observation): Option<(ResultStatus, ExecutionReason)>
    requires 0.0 < intent.pointSize
  {
    if o.accountMode == LIVE then
      Some((REJECTED, LIVE_ACCOUNT_BLOCKED))
    else if o.accountMode == ACCOUNT_UNKNOWN then
      Some((REJECTED, UNKNOWN_ACCOUNT_MODE))
    else if o.brokerSymbol != intent.brokerSymbol then
      Some((REJECTED, SYMBOL_MISMATCH))
    else if o.availableAt > intent.expiresAt then
      Some((EXPIRED, INTENT_EXPIRED))
    else if Seconds(o.observedAt, o.availableAt) > policy.maxLatencySeconds then
      Some((REJECTED, OBSERVATION_STALE))
    else if o.spreadPoints > policy.maxSpreadPoints then
      Some((REJECTED, SPREAD_LIMIT))
    else if o.slippagePoints > policy.maxSlippagePoints then
      Some((REJECTED, SLIPPAGE_LIMIT))
    else if DeviationPoints(intent, o) > policy.maxDeviationPoints then
      Some((REJECTED, PRICE_DEVIATION_LIMIT))
    else
      None
  }

  // Every bound the policy and the intent put on a submission-time observation.
  predicate WithinBounds(policy: Policy, intent: Intent, o: Observation)
    requires 0.0 < intent.pointSize
  {
    && o.accountMode == DEMO
    && o.brokerSymbol == intent.brokerSymbol
    && o.availableAt <= intent.expiresAt
    && Seconds(o.observedAt, o.availableAt) <= policy.maxLatencySeconds
    && o.spreadPoints <= policy.maxSpreadPoints
    && o.slippagePoints <= policy.maxSlippagePoints
    && DeviationPoints(intent, o) <= policy.maxDeviationPoints
  }

  // ----- Results -----

  // The text of the reasons the adapter gives for itself.
  function ReasonText(reason: ExecutionReason): string {
    match reason
    case EXECUTION_DISABLED => "EXECUTION_DISABLED"
    case DRY_RUN_ONLY => "DRY_RUN"
    case LIVE_ACCOUNT_BLOCKED => "LIVE_ACCOUNT_BLOCKED"
    case UNKNOWN_ACCOUNT_MODE => "UNKNOWN_ACCOUNT_MODE"
    case INTENT_EXPIRED => "INTENT_EXPIRED"
    case OBSERVATION_STALE => "OBSERVATION_STALE"
    case SYMBOL_MISMATCH => "SYMBOL_MISMATCH"
    case SPREAD_LIMIT => "SPREAD_LIMIT"
    case SLIPPAGE_LIMIT => "SLIPPAGE_LIMIT"
    case PRICE_DEVIATION_LIMIT => "PRICE_DEVIATION_LIMIT"
    case _ => ""
  }

  function KnownResult(
    intent: Intent, status: ResultStatus, code: ExecutionReason, reason: string, at: Instant, o: Option<Observation>
  ): ExecutionResult {
    ExecutionResult(
      intent.intentId, intent.provenance, status, Some(code), Some(reason),
      intent.approvedVolume, Some(0.0), Some(intent.approvedVolume),
      intent.requestedPrice, None, if o.Some? then Some(o.value.spreadPoints) else None, None, None,
      at, at, at)
  }

  function UnknownResult(intent: Intent, reason: string, o: Option<Observation>): ExecutionResult {
    var at := if o.Some? then o.value.availableAt else intent.availableAt;
    ExecutionResult(
      intent.intentId, intent.provenance, UNKNOWN, Some(UNKNOWN_SUBMISSION), Some(reason),
      intent.approvedVolume, None, None,
      intent.requestedPrice, None, if o.Some? then Some(o.value.spreadPoints) else None, None, None,
      at, at, at)
  }

  function FailedResult(intent: Intent, reason: string, at: Instant, o: Option<Observation>): ExecutionResult {
    KnownResult(intent, FAILED, TRANSPORT_FAILED, reason, at, o)
  }

  function ReportReason(status: ResultStatus): Option<ExecutionReason> {
    match status
    case REJECTED => Some(BROKER_REJECTED)
    case CANCELLED => Some(BROKER_CANCELLED)
    case EXPIRED => Some(BROKER_EXPIRED)
    case FAILED => Some(TRANSPORT_FAILED)
    case _ => None
  }

  function ReportSlippage(intent: Intent, report: BrokerReport): Option<real>
    requires 0.0 < intent.pointSize
  {
    if report.fillPrice.None? then
      None
    else
      var delta := report.fillPrice.value - intent.requestedPrice;
      Some(Round10((if intent.provenance.direction == SELL then -delta else delta) / intent.pointSize))
  }

  function ResultFromReport(intent: Intent, o: Observation, report: BrokerReport): ExecutionResult
    requires 0.0 < intent.pointSize
  {
    var filled := report.filledVolume;
    if filled > intent.approvedVolume then
      KnownResult(intent, FAILED, INVALID_BROKER_REPORT, "broker report exceeds approved volume",
                  report.availableAt, Some(o))
    else if (report.status == PARTIALLY_FILLED && !(0.0 < filled < intent.approvedVolume))
         || (report.status == FILLED && !VolumeClose(filled, intent.approvedVolume)) then
      KnownResult(intent, FAILED, INVALID_BROKER_REPORT, "broker report status and fill volume are inconsistent",
                  report.availableAt, Some(o))
    else
      var code := ReportReason(report.status);
      ExecutionResult(
        intent.intentId, intent.provenance, report.status, code, if code.Some? then report.message else None,
        intent.approvedVolume, Some(filled), Some(Round10(Max(0.0, intent.approvedVolume - filled))),
        intent.requestedPrice, report.fillPrice, Some(o.spreadPoints), ReportSlippage(intent, report), report.ticket,
        report.eventTime, report.observedAt, report.availableAt)
  }

  // Whatever a well-formed broker report says, the result meets the result contract:
  // rounding the remainder to ten digits never breaks volume conservation.
  lemma ReportResultIsValid(intent: Intent, o: Observation, report: BrokerReport)
    requires ValidIntent(intent) && ValidObservation(o) && ValidReport(report)
    ensures ValidResult(ResultFromReport(intent, o, report))
    ensures var r := ResultFromReport(intent, o, report);
            r.filledVolume.Some? && r.remainingVolume.Some? &&
            Abs(r.filledVolume.value + r.remainingVolume.value - intent.approvedVolume) <= 0.000_000_000_05
  {
    var filled := report.filledVolume;
    if filled <= intent.approvedVolume {
      Round10Error(intent.approvedVolume - filled);
    }
  }

  // ----- The steps of one execution between its effects -----

  datatype Decision = Decide(result: ExecutionResult) | Proceed(observation: Observation) | Abort

  // From a won reservation to the moment before submission.
  function BeforeSubmit(policy: Policy, intent: Intent, observing: Observing, validating: Validating): Decision
    requires 0.0 < intent.pointSize
  {
    if policy.mode == DISABLED then
      Decide(KnownResult(
        intent, NO_ACTION, EXECUTION_DISABLED, ReasonText(EXECUTION_DISABLED), intent.availableAt, None))
    else
      match observing
      case ObservingBroken => Abort
      case Unobserved(message) => Decide(FailedResult(intent, message, intent.availableAt, None))
      case Observed(o) =>
        match Preflight(policy, intent, o)
        case Some(refusal) =>
          Decide(KnownResult(intent, refusal.0, refusal.1, ReasonText(refusal.1), o.availableAt, Some(o)))
        case None =>
          match validating
          case ValidatingBroken => Abort
          case Refused(message) => Decide(FailedResult(intent, message, o.availableAt, Some(o)))
          case Passed =>
            if policy.mode == DRY_RUN then
              Decide(KnownResult(intent, NO_ACTION, DRY_RUN_ONLY, ReasonText(DRY_RUN_ONLY), o.availableAt, Some(o)))
            else
              Proceed(o)
  }

  function AfterSubmit(intent: Intent, o: Observation, replying: Replying): Option<ExecutionResult>
    requires 0.0 < intent.pointSize
  {
    match replying
    case Reported(report) => Some(ResultFromReport(intent, o, report))
    case Unacknowledged(message) => Some(UnknownResult(intent, message, Some(o)))
    case NotSubmitted(message) => Some(FailedResult(intent, message, o.availableAt, Some(o)))
    case ReplyingBroken => None
  }

  // Submission needs the demo mode and an observation inside every bound.
  lemma ProceedMeansGuarded(policy: Policy, intent: Intent, observing: Observing, validating: Validating)
    requires 0.0 < intent.pointSize
    ensures BeforeSubmit(policy, intent, observing, validating).Proceed? <==>
            && policy.mode == DEMO_ENABLED
            && observing.Observed?
            && WithinBounds(policy, intent, observing.observation)
            && validating == Passed
  {
  }

  lemma DecisionsAreValid(policy: Policy, intent: Intent, observing: Observing, validating: Validating)
    requires ValidIntent(intent)
    requires observing.Observed? ==> ValidObservation(observing.observation)
    ensures var d := BeforeSubmit(policy, intent, observing, validating);
            d.Decide? ==> ValidResult(d.result) && d.result.intentId == intent.intentId
  {
  }

  predicate Binds(policy: Policy, intent: Intent) {
    && intent.policyId == policy.policyId
    && intent.policyVersion == policy.version
    && intent.mode == policy.mode
  }

  datatype Submission = Submission(intent: Intent, policy: Policy, observation: Observation)

  datatype Execution = Returned(result: ExecutionResult) | Raised(error: AdapterError)

  const DUPLICATE_REASON := "reserved intent requires reconciliation"

  // ----- One whole execution -----

  // The answer, the ledger afterwards, and the observation submitted on, if any was.
  datatype Effect = Effect(outcome: Execution, log: Log, sent: Option<Observation>)

  // What the environment would answer, were it asked.
  datatype Environment = Environment(observing: Observing, validating: Validating, replying: Replying)

  function Saved(log: Log, result: ExecutionResult): (Execution, Log) {
    match AfterRecord(log, result)
    case (Success(_), log') => (Returned(result), log')
    case (Failure(error), log') => (Raised(LEDGER_REFUSED(error)), log')
  }

  function Executed(policy: Policy, log: Log, intent: Intent, e: Environment): Effect
    requires 0.0 < intent.pointSize
  {
    if !Binds(policy, intent) then
      Effect(Raised(POLICY_MISMATCH), log, None)
    else
      match Recorded(log, intent.intentId)
      case Some(prior) => Effect(Returned(prior), log, None)
      case None =>
        if IsReserved(log, intent.intentId) then
          var (outcome, log') := Saved(log, UnknownResult(intent, DUPLICATE_REASON, None));
          Effect(outcome, log', None)
        else
          var reserved := log + [Reserved(intent)];
          match BeforeSubmit(policy, intent, e.observing, e.validating)
          case Abort => Effect(Raised(BROKEN), reserved, None)
          case Decide(result) =>
            var (outcome, log') := Saved(reserved, result);
            Effect(outcome, log', None)
          case Proceed(o) =>
            match AfterSubmit(intent, o, e.replying)
            case None => Effect(Raised(BROKEN), reserved, Some(o))
            case Some(result) =>
              var (outcome, log') := Saved(reserved, result);
              Effect(outcome, log', Some(o))
  }

  class DemoExecutionAdapter {
    const policy: Policy
    const ledger: SQLiteExecutionLedger
    ghost var submissions: seq<Submission>   // every call made to transport.submit

    constructor (policy: Policy, ledger: SQLiteExecutionLedger)
      ensures this.policy == policy && this.ledger == ledger && submissions == []
    {
      this.policy, this.ledger, this.submissions := policy, ledger, [];
    }

    method Execute(intent: Intent, e: Environment) returns (outcome: Execution)
      requires ValidIntent(intent)
      modifies this`submissions, ledger
      ensures var effect := Executed(policy, old(ledger.log), intent, e);
              && outcome == effect.outcome
              && ledger.log == effect.log
              && submissions == old(submissions) +
                   (if effect.sent.Some? then [Submission(intent, policy, effect.sent.value)] else [])
      ensures old(ledger.log) <= ledger.log
      ensures outcome.Returned? ==> Recorded(ledger.log, intent.intentId) == Some(outcome.result)
      ensures submissions != old(submissions) ==>
                policy.mode == DEMO_ENABLED && !IsReserved(old(ledger.log), intent.intentId)
    {
      ReturnedIsRecorded(policy, ledger.log, intent, e);
      SubmitsExactlyWhenGuarded(policy, ledger.log, intent, e);
      if !Binds(policy, intent) {
        return Raised(POLICY_MISMATCH);
      }
      var prior := ledger.Get(intent.intentId);
      if prior.Some? {
        return Returned(prior.value);
      }
      var won := ledger.Reserve(intent);
      if !won {
        outcome := RecordResult(UnknownResult(intent, DUPLICATE_REASON, None));
        return;
      }
      match BeforeSubmit(policy, intent, e.observing, e.validating) {
        case Abort =>
          outcome := Raised(BROKEN);
        case Decide(result) =>
          outcome := RecordResult(result);
        case Proceed(o) =>
          submissions := submissions + [Submission(intent, policy, o)];
          match AfterSubmit(intent, o, e.replying) {
            case None =>
              outcome := Raised(BROKEN);
            case Some(result) =>
              outcome := RecordResult(result);
          }
      }
    }

    method RecordResult(result: ExecutionResult) returns (outcome: Execution)
      modifies ledger
      ensures (outcome, ledger.log) == Saved(old(ledger.log), result)
    {
      var recorded := ledger.Record(result);
      outcome := match recorded {
        case Success(_) => Returned(result)
        case Failure(error) => Raised(LEDGER_REFUSED(error))
      };
    }
  }

  // ----- What one execution guarantees -----

  // A submission is made only for an intent nobody has reserved, only in demo mode and
  // only on an observation inside every bound; and then it is always made.
  lemma SubmitsExactlyWhenGuarded(policy: Policy, log: Log, intent: Intent, e: Environment)
    requires ValidIntent(intent)
    ensures Executed(policy, log, intent, e).sent.Some? <==>
            && Binds(policy, intent)
            && !IsReserved(log, intent.intentId)
            && Recorded(log, intent.intentId).None?
            && policy.mode == DEMO_ENABLED
            && e.observing.Observed?
            && WithinBounds(policy, intent, e.observing.observation)
            && e.validating == Passed
    ensures Executed(policy, log, intent, e).sent.Some? ==>
              Executed(policy, log, intent, e).sent.value == e.observing.observation
  {
    ProceedMeansGuarded(policy, intent, e.observing, e.validating);
  }

  lemma RecordedAfter(log: Log, intent: Intent, result: ExecutionResult)
    requires result.intentId == intent.intentId
    requires Recorded(log, intent.intentId).None?
    ensures IsReserved(log, intent.intentId) ==>
              && Saved(log, result) == (Returned(result), log + [ResultRecorded(result)])
              && Recorded(log + [ResultRecorded(result)], intent.intentId) == Some(result)
    ensures var reserved := log + [Reserved(intent)];
            && IsReserved(reserved, intent.intentId)
            && Recorded(reserved, intent.intentId).None?
            && Saved(reserved, result) == (Returned(result), reserved + [ResultRecorded(result)])
            && Recorded(reserved + [ResultRecorded(result)], intent.intentId) == Some(result)
  {
    var reserved := log + [Reserved(intent)];
    AppendReads(log, Reserved(intent));
    AppendReads(log, ResultRecorded(result));
    AppendReads(reserved, ResultRecorded(result));
  }

  lemma AnswersCarryTheIntent(policy: Policy, intent: Intent, e: Environment)
    requires 0.0 < intent.pointSize
    ensures var d := BeforeSubmit(policy, intent, e.observing, e.validating);
            && (d.Decide? ==> d.result.intentId == intent.intentId)
            && (d.Proceed? ==> var r := AfterSubmit(intent, d.observation, e.replying);
                               r.Some? ==> r.value.intentId == intent.intentId)
  {
  }

  // What a call returns is what the ledger holds afterwards; rows are only ever added.
  lemma ReturnedIsRecorded(policy: Policy, log: Log, intent: Intent, e: Environment)
    requires ValidIntent(intent)
    ensures var effect := Executed(policy, log, intent, e);
            && log <= effect.log
            && (effect.outcome.Returned? ==>
                  && effect.outcome.result.intentId == intent.intentId
                  && Recorded(effect.log, intent.intentId) == Some(effect.outcome.result))
  {
    AnswersCarryTheIntent(policy, intent, e);
    if Binds(policy, intent) && Recorded(log, intent.intentId).None? {
      RecordedAfter(log, intent, UnknownResult(intent, DUPLICATE_REASON, None));
      var d := BeforeSubmit(policy, intent, e.observing, e.validating);
      if d.Decide? {
        RecordedAfter(log, intent, d.result);
      } else if d.Proceed? && AfterSubmit(intent, d.observation, e.replying).Some? {
        RecordedAfter(log, intent, AfterSubmit(intent, d.observation, e.replying).value);
      }
    }
  }

  // What a call returns is what the ledger holds afterwards, and it meets the result
  // contract whenever the environment's answers and the stored results do.
  lemma AnswerIsRecordedAndValid(policy: Policy, log: Log, intent: Intent, e: Environment)
    requires ValidIntent(intent)
    requires e.observing.Observed? ==> ValidObservation(e.observing.observation)
    requires e.replying.Reported? ==> ValidReport(e.replying.report)
    requires Recorded(log, intent.intentId).Some? ==> ValidResult(Recorded(log, intent.intentId).value)
    ensures var effect := Executed(policy, log, intent, e);
            && log <= effect.log
            && (effect.outcome.Returned? ==>
                  && Recorded(effect.log, intent.intentId) == Some(effect.outcome.result)
                  && ValidResult(effect.outcome.result))
  {
    ReturnedIsRecorded(policy, log, intent, e);
    DecisionsAreValid(policy, intent, e.observing, e.validating);
    var d := BeforeSubmit(policy, intent, e.observing, e.validating);
    if d.Proceed? && e.replying.Reported? {
      ReportResultIsValid(intent, d.observation, e.replying.report);
    }
  }

  // Calling again, in whatever environment, never submits again; and once a call has
  // returned, every later call returns the same result and writes nothing.
  lemma RetriesNeverResend(policy: Policy, log: Log, intent: Intent, first: Environment, second: Environment)
    requires ValidIntent(intent) && WellFormed(log)
    ensures var once := Executed(policy, log, intent, first);
            var twice := Executed(policy, once.log, intent, second);
            && twice.sent.None?
            && (once.outcome.Returned? ==> twice == Effect(once.outcome, once.log, None))
  {
    if Binds(policy, intent) {
      RecordedMeansReserved(log, intent.intentId);
      AnswersCarryTheIntent(policy, intent, first);
      AppendReads(log, Reserved(intent));
      if Recorded(log, intent.intentId).None? {
        RecordedAfter(log, intent, UnknownResult(intent, DUPLICATE_REASON, None));
        var d := BeforeSubmit(policy, intent, first.observing, first.validating);
        if d.Decide? {
          RecordedAfter(log, intent, d.result);
        } else if d.Proceed? && AfterSubmit(intent, d.observation, first.replying).Some? {
          RecordedAfter(log, intent, AfterSubmit(intent, d.observation, first.replying).value);
        }
      }
    }
  }
}
