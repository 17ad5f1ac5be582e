/**
 The MetaTrader 5 entry transport: facts are read again, the exact request is checked, and
 only a request accepted a moment before is sent. What the terminal answers is the
 environment's choice.
 */
module Mt5Entry {
  import opened Numerics
  import opened ExecutionContracts
  import opened ExecutionAdapter

  // ----- What is read from the terminal -----

  // None stands for a value that is missing, not finite or not positive.
  datatype SymbolFacts = SymbolFacts(
    name: Id,
    tradeEnabled: bool,
    point: Option<real>,
    tickSize: Option<real>,
    volumeMin: Option<real>,
    volumeMax: Option<real>,
    volumeStep: Option<real>,
    stopsLevel: int,
    freezeLevel: int
  )

  datatype TickFacts = TickFacts(at: Option<Instant>, bid: Option<real>, ask: Option<real>)

  datatype EntryFacts = EntryFacts(
    killSwitch: bool,
    mappedSymbol: Id,
    connected: bool,
    tradeAllowed: bool,
    account: Option<AccountMode>,
    accountTradeAllowed: bool,
    accountExpert: bool,
    selected: bool,
    symbol: Option<SymbolFacts>,
    tick: Option<TickFacts>,
    now: Instant
  )

  // The terminal may also fail while it is read, or break with an exception of its own.
  datatype Reading<T> = Facts(facts: T) | ReadFailed | ReadBroken

  datatype TransportConfig = TransportConfig(deviationPoints: nat, magic: nat, maxTickAgeSeconds: real)

  datatype Action = DEAL | SLTP

  datatype Request = Request(
    action: Action,
    symbol: Id,
    ticket: Option<nat>,
    side: Signal,
    volume: real,
    price: real,
    stop: real,
    deviation: nat,
    magic: nat,
    comment: Id
  )

  datatype Refusal = TRANSPORT_FAILURE | BROKEN_CHECK

  predicate Positive(x: Option<real>) {
    x.Some? && 0.0 < x.value
  }

  // abs(a - b) <= tolerance
  predicate Near(a: real, b: real, tolerance: real) {
    Abs(a - b) <= tolerance
  }

  predicate OnGrid(x: real, step: real, tolerance: real)
    requires 0.0 < step
  {
    Near(x / step, RoundHalfEven(x / step) as real, tolerance)
  }

  predicate Aged(t: TickFacts, now: Instant, config: TransportConfig) {
    t.at.Some? && 0.0 <= Seconds(t.at.value, now) <= config.maxTickAgeSeconds
  }

  predicate VolumeFits(volume: real, s: SymbolFacts) {
    && Positive(s.volumeMin) && Positive(s.volumeMax) && Positive(s.volumeStep)
    && s.volumeMin.value - 0.000_000_000_001 <= volume <= s.volumeMax.value + 0.000_000_000_001
    && OnGrid(volume - s.volumeMin.value, s.volumeStep.value, 0.000_000_01)
  }

  // The stop lies on the losing side of the price, on the tick grid, far enough away.
  predicate StopFits(stop: real, buying: bool, price: real, level: int, s: SymbolFacts) {
    && Positive(s.point) && Positive(s.tickSize)
    && (if buying then stop < price else price < stop)
    && OnGrid(stop, s.tickSize.value, 0.000_000_1)
    && level as real * s.point.value <= Abs(price - stop) + 0.000_000_000_001
  }

  function EntryPrice(intent: Intent, t: TickFacts): real
    requires Positive(t.bid) && Positive(t.ask)
  {
    if intent.provenance.direction == BUY then t.ask.value else t.bid.value
  }

  predicate EntryIsSafe(intent: Intent, f: EntryFacts, config: TransportConfig) {
    && !f.killSwitch
    && f.mappedSymbol == intent.brokerSymbol
    && f.connected && f.tradeAllowed
    && f.account == Some(DEMO) && f.accountTradeAllowed && f.accountExpert
    && f.selected
    && f.symbol.Some? && f.tick.Some?
    && f.symbol.value.tradeEnabled && f.symbol.value.name == f.mappedSymbol
    && Aged(f.tick.value, f.now, config)
    && Positive(f.symbol.value.point) && Near(f.symbol.value.point.value, intent.pointSize, 0.000_000_000_001)
    && VolumeFits(intent.approvedVolume, f.symbol.value)
    && Positive(f.tick.value.bid) && Positive(f.tick.value.ask)
    && StopFits(intent.stopLoss, intent.provenance.direction == BUY, EntryPrice(intent, f.tick.value),
                f.symbol.value.stopsLevel, f.symbol.value)
  }

  function EntryRequest(intent: Intent, f: EntryFacts, config: TransportConfig): Request
    requires EntryIsSafe(intent, f, config)
  {
    Request(DEAL, f.mappedSymbol, None, intent.provenance.direction, intent.approvedVolume,
            EntryPrice(intent, f.tick.value), intent.stopLoss, config.deviationPoints, config.magic, intent.intentId)
  }

  function CheckedEntry(
    intent: Intent, reading: Reading<EntryFacts>, config: TransportConfig
  ): Outcome<Request, Refusal> {
    match reading
    case ReadBroken => Failure(BROKEN_CHECK)
    case ReadFailed => Failure(TRANSPORT_FAILURE)
    case Facts(f) =>
      if EntryIsSafe(intent, f, config) then Success(EntryRequest(intent, f, config)) else Failure(TRANSPORT_FAILURE)
  }

  // ----- Checking and sending -----

  datatype CheckAnswer = CheckRaised | NoCheck | CheckUnreadable | Checked(retcode: int)

  datatype Retcode = PLACED | DONE | DONE_PARTIAL | OTHER_RETCODE

  // None for a field that cannot be read as a number; a missing one reads as its default.
  datatype Response = Response(
    retcode: Option<Retcode>, volume: Option<real>, priceReadable: bool, price: Option<real>,
    ticket: Option<nat>, clock: Option<Instant>, comment: string)

  datatype SendAnswer = SendRaised | NoResponse | Responded(response: Response)

  function StatusOfRetcode(r: Retcode): ResultStatus {
    match r
    case PLACED => ACCEPTED
    case DONE => FILLED
    case DONE_PARTIAL => PARTIALLY_FILLED
    case OTHER_RETCODE => REJECTED
  }

  // The report the acknowledgement makes, or None where reading it raises; the report's own
  // contract is one of the things that can raise.
  function ReportOf(intent: Intent, r: Response): Option<BrokerReport> {
    if r.retcode.None? || r.volume.None? || !r.priceReadable || r.clock.None? then
      None
    else
      var status, volume, at := StatusOfRetcode(r.retcode.value), r.volume.value, r.clock.value;
      if status == FILLED && (!Near(volume, intent.approvedVolume, 0.000_000_000_1) || r.price.None?) then
        None
      else if status == PARTIALLY_FILLED && !(0.0 < volume < intent.approvedVolume && r.price.Some?) then
        None
      else
        var report := BrokerReport(status, at, at, at, r.ticket, volume, r.price, Some(r.comment));
        if ValidReport(report) then Some(report) else None
  }

  datatype GatewayCall = OrderCheck(request: Request, accepted: bool) | OrderSend(request: Request)

  datatype Submitting = Submitting(reply: Replying, calls: seq<GatewayCall>)

  function AfterSend(intent: Intent, send: SendAnswer): Replying {
    match send
    case SendRaised => Unacknowledged("MT5 order_send outcome is unknown")
    case NoResponse => Unacknowledged("MT5 order_send returned no acknowledgement; reconciliation required")
    case Responded(r) =>
      match ReportOf(intent, r)
      case None => Unacknowledged("MT5 acknowledgement could not be interpreted")
      case Some(report) => Reported(report)
  }

  function Submitted(
    intent: Intent, config: TransportConfig, reading: Reading<EntryFacts>, check: CheckAnswer, send: SendAnswer
  ): Submitting {
    match CheckedEntry(intent, reading, config)
    case Failure(TRANSPORT_FAILURE) => Submitting(NotSubmitted("preflight"), [])
    case Failure(BROKEN_CHECK) => Submitting(ReplyingBroken, [])
    case Success(request) =>
      var asked := [OrderCheck(request, check == Checked(0))];
      match check
      case CheckUnreadable => Submitting(ReplyingBroken, asked)
      case Checked(0) => Submitting(AfterSend(intent, send), asked + [OrderSend(request)])
      case _ => Submitting(NotSubmitted("order_check"), asked)
  }

  class MT5ExecutionTransport {
    const config: TransportConfig
    ghost var calls: seq<GatewayCall>   // every order_check and order_send, in order

    constructor (config: TransportConfig)
      ensures this.config == config && calls == []
    {
      this.config, this.calls := config, [];
    }

    method Submit(intent: Intent, reading: Reading<EntryFacts>, check: CheckAnswer, send: SendAnswer)
      returns (reply: Replying)
      modifies this
      ensures var s := Submitted(intent, config, reading, check, send);
              reply == s.reply && calls == old(calls) + s.calls
      ensures reply.Reported? || reply.Unacknowledged? <==>
              |old(calls)| < |calls| && calls[|calls| - 1].OrderSend?
      ensures forall k :: |old(calls)| <= k < |calls| && calls[k].OrderSend? ==>
                |old(calls)| < k == |calls| - 1 && calls[k - 1] == OrderCheck(calls[k].request, true)
    {
      var request := CheckedEntry(intent, reading, config);
      if request.Failure? {
        return if request.error == TRANSPORT_FAILURE then NotSubmitted("preflight") else ReplyingBroken;
      }
      calls := calls + [OrderCheck(request.value, check == Checked(0))];
      if check == CheckUnreadable {
        return ReplyingBroken;
      }
      if check != Checked(0) {
        return NotSubmitted("order_check");
      }
      calls := calls + [OrderSend(request.value)];
      match send {
        case SendRaised =>
          return Unacknowledged("MT5 order_send outcome is unknown");
        case NoResponse =>
          return Unacknowledged("MT5 order_send returned no acknowledgement; reconciliation required");
        case Responded(r) =>
          var report := ReportOf(intent, r);
          return if report.Some? then Reported(report.value)
                 else Unacknowledged("MT5 acknowledgement could not be interpreted");
      }
    }
  }

  // ----- Outcome honesty -----

  predicate Sent(s: Submitting) {
    exists k :: 0 <= k < |s.calls| && s.calls[k].OrderSend?
  }

  predicate AnsweredStatus(s: ResultStatus) {
    s == ACCEPTED || s == FILLED || s == PARTIALLY_FILLED || s == REJECTED
  }

  // Once order_send was called the answer is a well-formed broker report or an unknown
  // submission, never a transport failure; and only then.
  lemma SentExactlyWhenAnswered(
    intent: Intent, config: TransportConfig, reading: Reading<EntryFacts>, check: CheckAnswer, send: SendAnswer)
    ensures var s := Submitted(intent, config, reading, check, send);
            && (Sent(s) <==> s.reply.Reported? || s.reply.Unacknowledged?)
            && (s.reply.Reported? ==> ValidReport(s.reply.report) && AnsweredStatus(s.reply.report.status))
  {
    var s := Submitted(intent, config, reading, check, send);
    if CheckedEntry(intent, reading, config).Success? && check == Checked(0) {
      assert s.calls[1].OrderSend?;
    }
  }

  // Every request that is sent was accepted by order_check in the call just before, and was
  // built on a demo account from facts that keep the stop on the losing side, the volume on
  // the broker's grid and the tick fresh.
  lemma SendsRepeatTheCheck(
    intent: Intent, config: TransportConfig, reading: Reading<EntryFacts>, check: CheckAnswer, send: SendAnswer, k: nat)
    requires var s := Submitted(intent, config, reading, check, send);
             k < |s.calls| && s.calls[k].OrderSend?
    ensures var s := Submitted(intent, config, reading, check, send);
            && k == |s.calls| - 1
            && 0 < k && s.calls[k - 1] == OrderCheck(s.calls[k].request, true)
            && reading.Facts? && reading.facts.account == Some(DEMO)
            && EntryIsSafe(intent, reading.facts, config)
            && s.calls[k].request == EntryRequest(intent, reading.facts, config)
  {
  }

  // Through the guarded adapter: an intent whose order was sent is never recorded as a
  // transport failure, and one that reads TRANSPORT_FAILED was never sent.
  lemma NoTransportFailureAfterSend(
    intent: Intent, o: Observation, config: TransportConfig, reading: Reading<EntryFacts>, check: CheckAnswer,
    send: SendAnswer)
    requires ValidIntent(intent)
    ensures var s := Submitted(intent, config, reading, check, send);
            var result := AfterSubmit(intent, o, s.reply);
            && (Sent(s) ==> result.Some? && result.value.reasonCode != Some(TRANSPORT_FAILED))
            && (result.Some? && !Sent(s) ==> result.value.status == FAILED
                                             && result.value.reasonCode == Some(TRANSPORT_FAILED))
  {
    SentExactlyWhenAnswered(intent, config, reading, check, send);
  }
}
