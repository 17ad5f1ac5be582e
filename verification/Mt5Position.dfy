/**
 The MetaTrader 5 position-action adapter: it moves a protective stop or closes a position,
 at most once per intent, on facts read twice.
 */
module Mt5Position {
  import opened Numerics
  import opened ExecutionContracts
  import opened Mt5Entry

  datatype ActionType = MODIFY_PROTECTIVE_STOP | CLOSE_POSITION

  datatype ActionIntent = ActionIntent(
    intentId: Id,
    actionType: ActionType,
    ticket: Option<nat>,
    side: Signal,
    symbol: Id,
    currentVolume: real,
    closeVolume: Option<real>,
    existingStop: Option<real>,
    newStop: Option<real>
  )

  predicate ValidActionIntent(i: ActionIntent) {
    && (i.side == BUY || i.side == SELL)
    && 0.0 < i.currentVolume
    && (i.closeVolume.Some? ==> 0.0 < i.closeVolume.value)
    && (i.existingStop.Some? ==> 0.0 < i.existingStop.value)
    && (i.newStop.Some? ==> 0.0 < i.newStop.value)
    && match i.actionType
       case MODIFY_PROTECTIVE_STOP => i.newStop.Some? && i.closeVolume.None?
       case CLOSE_POSITION => i.newStop.None? && i.closeVolume.Some?
  }

  datatype ActionResult = ActionResult(
    intentId: Id,
    actionType: ActionType,
    status: ResultStatus,
    reasonCode: Option<ExecutionReason>,
    requestedVolume: Option<real>,
    executedVolume: Option<real>,
    requestedStop: Option<real>,
    fillPrice: Option<real>
  )

  // The validator of PositionActionTransportResult.
  predicate ValidActionResult(r: ActionResult) {
    && (r.executedVolume.Some? ==> 0.0 <= r.executedVolume.value)
    && (r.fillPrice.Some? ==> 0.0 < r.fillPrice.value)
    && (r.status == UNKNOWN ==> r.executedVolume.None?)
    && (r.status == NO_ACTION || r.status == REJECTED || r.status == FAILED ==> r.reasonCode.Some?)
    && match r.actionType
       case CLOSE_POSITION =>
         var executed := if r.executedVolume.Some? then r.executedVolume.value else 0.0;
         && r.requestedVolume.Some?
         && (r.status == FILLED ==> Near(executed, r.requestedVolume.value, 0.000_000_000_1))
         && (r.status == PARTIALLY_FILLED ==> 0.0 < executed < r.requestedVolume.value)
       case MODIFY_PROTECTIVE_STOP => r.requestedVolume.None? && r.executedVolume.None?
  }

  // ----- The two readings -----

  datatype PositionFacts = PositionFacts(symbol: Id, side: Signal, volume: real, stop: Option<real>)

  datatype ActionFacts = ActionFacts(
    killSwitch: bool,
    mappedSymbol: Id,
    connected: bool,
    tradeAllowed: bool,
    account: Option<AccountMode>,
    accountTradeAllowed: bool,
    accountExpert: bool,
    selected: bool,
    matches: seq<PositionFacts>,   // the positions with exactly this ticket
    symbol: Option<SymbolFacts>,
    tick: Option<TickFacts>,
    now: Instant,
    checkAccepted: bool            // order_check returned a zero code for the request
  )

  predicate SameStop(a: Option<real>, b: Option<real>) {
    if a.None? || b.None? then a == b else Near(a.value, b.value, 0.000_000_000_1)
  }

  predicate PositionMatches(i: ActionIntent, p: PositionFacts, symbol: Id) {
    && p.symbol == symbol
    && p.side == i.side
    && Near(p.volume, i.currentVolume, 0.000_000_000_1)
    && SameStop(p.stop, i.existingStop)
  }

  // The stop may come into being or move towards the price, nothing else.
  predicate RiskReducing(side: Signal, current: Option<real>, next: real) {
    current.None? || (if side == BUY then current.value <= next else next <= current.value)
  }

  predicate StopMoveIsSafe(i: ActionIntent, p: PositionFacts, s: SymbolFacts, t: TickFacts) {
    && i.newStop.Some?
    && RiskReducing(i.side, p.stop, i.newStop.value)
    && Positive(if i.side == BUY then t.bid else t.ask)
    && StopFits(i.newStop.value, i.side == BUY, (if i.side == BUY then t.bid else t.ask).value,
                if s.stopsLevel < s.freezeLevel then s.freezeLevel else s.stopsLevel, s)
  }

  predicate CloseIsSafe(i: ActionIntent, s: SymbolFacts, t: TickFacts) {
    && i.closeVolume.Some? && Near(i.closeVolume.value, i.currentVolume, 0.000_000_000_1)
    && VolumeFits(i.closeVolume.value, s)
    && Positive(if i.side == SELL then t.ask else t.bid)
  }

  predicate ActionIsSafe(i: ActionIntent, f: ActionFacts, config: TransportConfig) {
    && !f.killSwitch
    && f.connected && f.tradeAllowed
    && f.account == Some(DEMO) && f.accountTradeAllowed && f.accountExpert
    && i.ticket.Some? && f.selected
    && |f.matches| == 1
    && f.symbol.Some? && f.tick.Some?
    && f.symbol.value.name == f.mappedSymbol && f.symbol.value.tradeEnabled
    && Aged(f.tick.value, f.now, config)
    && PositionMatches(i, f.matches[0], f.mappedSymbol)
    && (if i.actionType == MODIFY_PROTECTIVE_STOP then StopMoveIsSafe(i, f.matches[0], f.symbol.value, f.tick.value)
        else CloseIsSafe(i, f.symbol.value, f.tick.value))
  }

  function ActionRequest(i: ActionIntent, f: ActionFacts, config: TransportConfig): Request
    requires ActionIsSafe(i, f, config)
  {
    var t := f.tick.value;
    if i.actionType == MODIFY_PROTECTIVE_STOP then
      Request(SLTP, f.mappedSymbol, i.ticket, i.side, 0.0, 0.0, i.newStop.value, 0, config.magic, i.intentId)
    else
      Request(DEAL, f.mappedSymbol, i.ticket, if i.side == SELL then BUY else SELL, i.closeVolume.value,
              (if i.side == SELL then t.ask else t.bid).value, 0.0, config.deviationPoints, config.magic, i.intentId)
  }

  function CheckedAction(
    i: ActionIntent, reading: Reading<ActionFacts>, config: TransportConfig
  ): Outcome<Request, Refusal> {
    match reading
    case ReadBroken => Failure(BROKEN_CHECK)
    case ReadFailed => Failure(TRANSPORT_FAILURE)
    case Facts(f) =>
      if ActionIsSafe(i, f, config) && f.checkAccepted then Success(ActionRequest(i, f, config))
      else Failure(TRANSPORT_FAILURE)
  }

  // ----- One execution -----

  datatype ActionSend =
    | RaisedUnknown
    | RaisedTransportFailure
    | RaisedOther
    | NoActionResponse
    | ActionResponded(retcode: Option<Retcode>, volume: Option<real>, priceReadable: bool, price: Option<real>)

  datatype ActionEnvironment = ActionEnvironment(
    first: Reading<ActionFacts>,
    second: Reading<ActionFacts>,
    send: ActionSend
  )

  datatype ActionOutcome = ActionReturned(result: ActionResult) | ActionRaised

  datatype ActionMemory = ActionMemory(reserved: set<Id>, results: map<Id, ActionResult>)

  datatype ActionEffect = ActionEffect(outcome: ActionOutcome, memory: ActionMemory, calls: seq<GatewayCall>)

  function Plain(i: ActionIntent, status: ResultStatus, code: ExecutionReason): ActionResult {
    ActionResult(i.intentId, i.actionType, status, Some(code), i.closeVolume, None, i.newStop, None)
  }

  function UnknownAction(i: ActionIntent): ActionResult {
    Plain(i, UNKNOWN, UNKNOWN_SUBMISSION)
  }

  function BrokerAction(i: ActionIntent, send: ActionSend): ActionResult
    requires send.ActionResponded?
  {
    if send.retcode.None? then
      UnknownAction(i)
    else
      var status := StatusOfRetcode(send.retcode.value);
      var closing := i.actionType == CLOSE_POSITION;
      if closing && (send.volume.None? || !send.priceReadable) then
        UnknownAction(i)
      else
        var result := ActionResult(
          i.intentId, i.actionType, status, if status == REJECTED then Some(BROKER_REJECTED) else None,
          i.closeVolume, if closing then send.volume else None, i.newStop,
          if closing && Positive(send.price) then send.price else None);
        if ValidActionResult(result) then result else UnknownAction(i)
  }

  function SentAction(i: ActionIntent, send: ActionSend): ActionResult {
    match send
    case RaisedTransportFailure => Plain(i, FAILED, TRANSPORT_FAILED)
    case ActionResponded(_, _, _, _) => BrokerAction(i, send)
    case _ => UnknownAction(i)
  }

  // What a won reservation leads to: the result and the calls to the terminal, or None where
  // an exception escapes.
  function Decided(
    mode: ExecutionMode, config: TransportConfig, i: ActionIntent, e: ActionEnvironment
  ): (Option<ActionResult>, seq<GatewayCall>) {
    if i.ticket.None? then
      (None, [])
    else if mode == DISABLED then
      (Some(Plain(i, NO_ACTION, EXECUTION_DISABLED)), [])
    else
      match CheckedAction(i, e.first, config)
      case Failure(BROKEN_CHECK) => (None, [])
      case Failure(TRANSPORT_FAILURE) => (Some(Plain(i, FAILED, TRANSPORT_FAILED)), [])
      case Success(first) =>
        if mode == DRY_RUN then
          (Some(Plain(i, NO_ACTION, DRY_RUN_ONLY)), [OrderCheck(first, true)])
        else
          match CheckedAction(i, e.second, config)
          case Failure(TRANSPORT_FAILURE) => (Some(Plain(i, FAILED, TRANSPORT_FAILED)), [OrderCheck(first, true)])
          case Failure(BROKEN_CHECK) => (Some(UnknownAction(i)), [OrderCheck(first, true)])
          case Success(request) =>
            (Some(SentAction(i, e.send)), [OrderCheck(first, true), OrderCheck(request, true), OrderSend(request)])
  }

  function Acted(
    mode: ExecutionMode, config: TransportConfig, memory: ActionMemory, i: ActionIntent, e: ActionEnvironment
  ): ActionEffect {
    if i.intentId in memory.results then
      ActionEffect(ActionReturned(memory.results[i.intentId]), memory, [])
    else
      var reserved := memory.(reserved := memory.reserved + {i.intentId});
      var (result, calls) :=
        if i.intentId in memory.reserved then (if i.ticket.None? then None else Some(UnknownAction(i)), [])
        else Decided(mode, config, i, e);
      match result
      case None => ActionEffect(ActionRaised, reserved, calls)
      case Some(r) => ActionEffect(ActionReturned(r), reserved.(results := memory.results[i.intentId := r]), calls)
  }

  class MT5PositionActionAdapter {
    const mode: ExecutionMode
    const config: TransportConfig
    var reserved: set<Id>                     // the transport ledger
    var results: map<Id, ActionResult>
    ghost var calls: seq<GatewayCall>         // every order_check that passed and every order_send

    constructor (mode: ExecutionMode, config: TransportConfig)
      ensures this.mode == mode && this.config == config
      ensures Memory() == ActionMemory({}, map[]) && calls == []
    {
      this.mode, this.config, reserved, results, calls := mode, config, {}, map[], [];
    }

    function Memory(): ActionMemory
      reads this
    {
      ActionMemory(reserved, results)
    }

    method Execute(i: ActionIntent, e: ActionEnvironment) returns (outcome: ActionOutcome)
      modifies this
      ensures var effect := Acted(mode, config, old(Memory()), i, e);
              outcome == effect.outcome && Memory() == effect.memory && calls == old(calls) + effect.calls
      ensures i.intentId in reserved || outcome == ActionReturned(old(results)[i.intentId])
      ensures i.intentId in old(reserved) ==> calls == old(calls)
      ensures forall id :: id in old(results) ==> id in results && results[id] == old(results)[id]
      ensures forall k :: |old(calls)| <= k < |calls| && calls[k].OrderSend? ==>
                |old(calls)| < k == |calls| - 1 && calls[k - 1] == OrderCheck(calls[k].request, true)
    {
      if i.intentId in results {
        return ActionReturned(results[i.intentId]);
      }
      if i.intentId in reserved {
        assert reserved + {i.intentId} == reserved;
        outcome := Record(i, UnknownAction(i));
        return;
      }
      reserved := reserved + {i.intentId};
      if mode == DISABLED {
        outcome := Record(i, Plain(i, NO_ACTION, EXECUTION_DISABLED));
        return;
      }
      if i.ticket.None? {
        return ActionRaised;
      }
      var first := CheckedAction(i, e.first, config);
      if first.Failure? {
        if first.error == BROKEN_CHECK {
          return ActionRaised;
        }
        outcome := Record(i, Plain(i, FAILED, TRANSPORT_FAILED));
        return;
      }
      calls := calls + [OrderCheck(first.value, true)];
      if mode == DRY_RUN {
        outcome := Record(i, Plain(i, NO_ACTION, DRY_RUN_ONLY));
        return;
      }
      var second := CheckedAction(i, e.second, config);
      if second.Failure? {
        outcome := Record(i, if second.error == TRANSPORT_FAILURE then Plain(i, FAILED, TRANSPORT_FAILED)
                             else UnknownAction(i));
        return;
      }
      calls := calls + [OrderCheck(second.value, true), OrderSend(second.value)];
      outcome := Record(i, SentAction(i, e.send));
    }

    // Building a result without a ticket raises before anything is recorded.
    method Record(i: ActionIntent, result: ActionResult) returns (outcome: ActionOutcome)
      requires i.intentId in reserved && i.intentId !in results
      modifies this`results
      ensures results == if i.ticket.None? then old(results) else old(results)[i.intentId := result]
      ensures outcome == if i.ticket.None? then ActionRaised else ActionReturned(result)
    {
      if i.ticket.None? {
        return ActionRaised;
      }
      results := results[i.intentId := result];
      return ActionReturned(result);
    }
  }

  // ----- Outcome honesty -----

  predicate ActionSent(calls: seq<GatewayCall>) {
    exists k :: 0 <= k < |calls| && calls[k].OrderSend?
  }

  predicate IsResultOf(r: ActionResult, i: ActionIntent) {
    ValidActionResult(r) && r.intentId == i.intentId
  }

  lemma PlainIsValid(i: ActionIntent, status: ResultStatus, code: ExecutionReason)
    requires ValidActionIntent(i) && status != FILLED && status != PARTIALLY_FILLED
    ensures IsResultOf(Plain(i, status, code), i)
  {
  }

  lemma SentIsValid(i: ActionIntent, send: ActionSend)
    requires ValidActionIntent(i)
    ensures IsResultOf(SentAction(i, send), i)
  {
  }

  lemma ResultsOfActionsAreValid(mode: ExecutionMode, config: TransportConfig, i: ActionIntent, e: ActionEnvironment)
    requires ValidActionIntent(i)
    ensures var (result, calls) := Decided(mode, config, i, e);
            result.Some? ==> IsResultOf(result.value, i)
  {
    PlainIsValid(i, NO_ACTION, EXECUTION_DISABLED);
    PlainIsValid(i, NO_ACTION, DRY_RUN_ONLY);
    PlainIsValid(i, FAILED, TRANSPORT_FAILED);
    PlainIsValid(i, UNKNOWN, UNKNOWN_SUBMISSION);
    SentIsValid(i, e.send);
  }

  // After order_send was called the result reads FAILED exactly when the gateway's own call
  // raised a transport failure; any other failure after it reads UNKNOWN.
  lemma FailedAfterSendExactlyWhen(mode: ExecutionMode, config: TransportConfig, i: ActionIntent, e: ActionEnvironment)
    ensures var (result, calls) := Decided(mode, config, i, e);
            ActionSent(calls) ==>
              && result.Some?
              && (result.value.status == FAILED <==> e.send == RaisedTransportFailure)
              && (result.value.status == UNKNOWN || AnsweredStatus(result.value.status)
                  || e.send == RaisedTransportFailure)
  {
  }

  // Every request that is sent was accepted by order_check in the call just before, on a
  // demo account, and the position it is for was read as the intent describes it.
  lemma ActionsRepeatTheCheck(
    mode: ExecutionMode, config: TransportConfig, i: ActionIntent, e: ActionEnvironment, k: nat)
    requires k < |Decided(mode, config, i, e).1| && Decided(mode, config, i, e).1[k].OrderSend?
    ensures var calls := Decided(mode, config, i, e).1;
            && k == |calls| - 1 && 0 < k
            && calls[k - 1] == OrderCheck(calls[k].request, true)
            && mode == DEMO_ENABLED
            && e.second.Facts? && e.second.facts.account == Some(DEMO)
            && ActionIsSafe(i, e.second.facts, config)
            && calls[k].request == ActionRequest(i, e.second.facts, config)
  {
  }

  // An intent is sent at most once: after any call for it, no later call sends.
  lemma ActionsAreSentOnce(
    mode: ExecutionMode, config: TransportConfig, memory: ActionMemory, i: ActionIntent, first: ActionEnvironment,
    second: ActionEnvironment)
    ensures var once := Acted(mode, config, memory, i, first);
            var twice := Acted(mode, config, once.memory, i, second);
            && twice.calls == []
            && (once.outcome.ActionReturned? ==> twice.outcome == once.outcome)
  {
  }

  // ----- The stop ratchet -----

  // One action on a position, and whether the broker applied what was sent, whatever it
  // answered.
  datatype StopStep = StopStep(intent: ActionIntent, environment: ActionEnvironment, applied: bool)

  function StopAfter(mode: ExecutionMode, config: TransportConfig, stop: Option<real>, s: StopStep): Option<real> {
    var calls := Decided(mode, config, s.intent, s.environment).1;
    if s.applied && |calls| == 3 && calls[2].request.action == SLTP then Some(calls[2].request.stop) else stop
  }

  // Nobody else moves the stop, so the reading before the send shows it as it is.
  predicate ReadsTheStop(s: StopStep, side: Signal, stop: Option<real>) {
    s.environment.second.Facts? && |s.environment.second.facts.matches| == 1 ==>
      && s.environment.second.facts.matches[0].stop == stop
      && s.environment.second.facts.matches[0].side == side
  }

  // No less protective than before: there still is a stop if there was one, and it has not
  // moved away from the price.
  predicate NoRiskAdded(side: Signal, before: Option<real>, after: Option<real>) {
    before.Some? ==> after.Some? && (if side == BUY then before.value <= after.value else after.value <= before.value)
  }

  lemma OneStepRatchets(mode: ExecutionMode, config: TransportConfig, side: Signal, stop: Option<real>, s: StopStep)
    requires ReadsTheStop(s, side, stop)
    ensures NoRiskAdded(side, stop, StopAfter(mode, config, stop, s))
    ensures StopAfter(mode, config, stop, s) != stop ==>
              && s.environment.second.Facts? && s.environment.second.facts.tick.Some?
              && var t := s.environment.second.facts.tick.value;
                 if side == BUY then Positive(t.bid) && StopAfter(mode, config, stop, s).value < t.bid.value
                 else Positive(t.ask) && t.ask.value < StopAfter(mode, config, stop, s).value
  {
  }

  function StopAfterRun(
    mode: ExecutionMode, config: TransportConfig, stop: Option<real>, run: seq<StopStep>
  ): Option<real> {
    if run == [] then stop
    else StopAfter(mode, config, StopAfterRun(mode, config, stop, run[..|run| - 1]), run[|run| - 1])
  }

  predicate ReadsAt(
    mode: ExecutionMode, config: TransportConfig, side: Signal, stop: Option<real>, run: seq<StopStep>, k: nat
  )
    requires k < |run|
  {
    ReadsTheStop(run[k], side, StopAfterRun(mode, config, stop, run[..k]))
  }

  ghost predicate OnlyThisAdapter(
    mode: ExecutionMode, config: TransportConfig, side: Signal, stop: Option<real>, run: seq<StopStep>
  ) {
    forall k {:trigger ReadsAt(mode, config, side, stop, run, k)} ::
      0 <= k < |run| ==> ReadsAt(mode, config, side, stop, run, k)
  }

  // Over any run in which only this adapter moves the stop, the stop never moves against
  // the position and never disappears, whatever the broker answers or applies.
  lemma {:induction false} StopOnlyRatchets(
    mode: ExecutionMode, config: TransportConfig, side: Signal, stop: Option<real>, run: seq<StopStep>, j: nat, k: nat)
    requires OnlyThisAdapter(mode, config, side, stop, run) && j <= k <= |run|
    ensures NoRiskAdded(side, StopAfterRun(mode, config, stop, run[..j]), StopAfterRun(mode, config, stop, run[..k]))
    decreases k - j
  {
    if j < k {
      StopOnlyRatchets(mode, config, side, stop, run, j, k - 1);
      StepOfRunRatchets(mode, config, side, stop, run, k - 1);
      RiskChains(side, StopAfterRun(mode, config, stop, run[..j]), StopAfterRun(mode, config, stop, run[..k - 1]),
                 StopAfterRun(mode, config, stop, run[..k]));
    }
  }

  lemma StepOfRunRatchets(
    mode: ExecutionMode, config: TransportConfig, side: Signal, stop: Option<real>, run: seq<StopStep>, k: nat)
    requires OnlyThisAdapter(mode, config, side, stop, run) && k < |run|
    ensures NoRiskAdded(
              side, StopAfterRun(mode, config, stop, run[..k]), StopAfterRun(mode, config, stop, run[..k + 1]))
  {
    assert run[..k + 1][..k] == run[..k];
    assert ReadsAt(mode, config, side, stop, run, k);
    OneStepRatchets(mode, config, side, StopAfterRun(mode, config, stop, run[..k]), run[k]);
  }

  lemma RiskChains(side: Signal, a: Option<real>, b: Option<real>, c: Option<real>)
    requires NoRiskAdded(side, a, b) && NoRiskAdded(side, b, c)
    ensures NoRiskAdded(side, a, c)
  {
  }
}
