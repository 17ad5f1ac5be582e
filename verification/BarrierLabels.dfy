/**
 Triple-barrier labels: the first bar to touch a barrier decides, and a bar that touches
 both is resolved by the collision policy.
 */
module BarrierLabels {
  import opened Numerics

  datatype Bar = Bar(
    high: real,
    low: real,
    close: real,
    atr: Option<real>,            // None for a value that is not finite
    timestamp: Instant,
    candleOpen: Option<Instant>   // None when the column is absent
  )

  datatype LowerBar = LowerBar(timestamp: Instant, high: real, low: real)

  datatype BarrierMode = PERCENTAGE | ATR | ABSOLUTE

  datatype CollisionPolicy = PESSIMISTIC | OPTIMISTIC | ON_COLLISION_AMBIGUOUS | LOWER_TIMEFRAME

  datatype Side = LONG | SHORT

  datatype Definition = Definition(
    horizon: nat,
    mode: BarrierMode,
    upper: real,
    lower: real,
    side: Side,
    policy: CollisionPolicy
  )

  datatype Outcome = TIMEOUT | AMBIGUOUS | UPPER_FIRST | LOWER_FIRST

  datatype TradeOutcome = TRADE_TIMEOUT | TRADE_AMBIGUOUS | TP_FIRST | SL_FIRST

  datatype Label = Label(
    outcome: Outcome,
    trade: TradeOutcome,
    barsToHit: nat,
    hitTimestamp: Instant,
    hitPrice: real,
    mfe: real,
    mae: real
  )

  predicate ValidDefinition(d: Definition) {
    0 < d.horizon && 0.0 < d.upper && 0.0 < d.lower
  }

  // ----- Barriers -----

  datatype Barriers = Barriers(upperDistance: real, lowerDistance: real)

  function Distances(b: Bar, d: Definition): Option<Barriers> {
    match d.mode
    case PERCENTAGE => Some(Barriers(b.close * d.upper, b.close * d.lower))
    case ABSOLUTE => Some(Barriers(d.upper, d.lower))
    case ATR =>
      if b.atr.None? || b.atr.value <= 0.0 then None
      else Some(Barriers(b.atr.value * d.upper, b.atr.value * d.lower))
  }

  function UpperPrice(frame: seq<Bar>, r: nat, d: Definition): real
    requires r < |frame| && Distances(frame[r], d).Some?
  {
    frame[r].close + Distances(frame[r], d).value.upperDistance
  }

  function LowerPrice(frame: seq<Bar>, r: nat, d: Definition): real
    requires r < |frame| && Distances(frame[r], d).Some?
  {
    frame[r].close - Distances(frame[r], d).value.lowerDistance
  }

  predicate TouchesUpper(b: Bar, price: real) {
    price <= b.high
  }

  predicate TouchesLower(b: Bar, price: real) {
    b.low <= price
  }

  predicate Touches(b: Bar, up: real, down: real) {
    TouchesUpper(b, up) || TouchesLower(b, down)
  }

  // The first of the bars that touches either barrier.
  function FirstTouch(bars: seq<Bar>, up: real, down: real): (first: Option<nat>)
    ensures first.Some? ==> first.value < |bars|
  {
    if bars == [] then
      None
    else if Touches(bars[0], up, down) then
      Some(0)
    else
      var rest := FirstTouch(bars[1..], up, down);
      if rest.Some? then Some(rest.value + 1) else None
  }

  // It is the position of a touch, and nothing before it touches.
  lemma {:induction false} FirstTouchMeaning(bars: seq<Bar>, up: real, down: real, touch: Option<nat>)
    ensures FirstTouch(bars, up, down) == touch <==> IsFirstTouch(bars, up, down, touch)
  {
    if bars != [] && !Touches(bars[0], up, down) {
      var rest := bars[1..];
      var inner := if touch.Some? && 0 < touch.value then Some(touch.value - 1) else None;
      FirstTouchMeaning(rest, up, down, inner);
      assert forall k :: 0 <= k < |rest| ==> bars[k + 1] == rest[k];
      if touch != Some(0) {
        assert IsFirstTouch(bars, up, down, touch) <==> IsFirstTouch(rest, up, down, inner) by {
          if IsFirstTouch(rest, up, down, inner) {
            forall k | 0 <= k < if touch.Some? then touch.value else |bars|
              ensures !Touches(bars[k], up, down)
            {
              assert 0 < k ==> bars[k] == rest[k - 1];
            }
          }
          if IsFirstTouch(bars, up, down, touch) {
            forall k | 0 <= k < if inner.Some? then inner.value else |rest|
              ensures !Touches(rest[k], up, down)
            {
              assert rest[k] == bars[k + 1];
            }
          }
        }
      }
    }
  }

  predicate IsFirstTouch(bars: seq<Bar>, up: real, down: real, touch: Option<nat>) {
    && (touch.Some? ==> touch.value < |bars| && Touches(bars[touch.value], up, down))
    && forall k :: 0 <= k < (if touch.Some? then touch.value else |bars|) && k < |bars| ==> !Touches(bars[k], up, down)
  }

  // ----- A bar that touches both barriers -----

  datatype Window = Window(start: Instant, end: Instant)

  function OpenOf(b: Bar): Instant {
    if b.candleOpen.Some? then b.candleOpen.value else b.timestamp
  }

  // The stretch of lower-timeframe bars consulted for one bar; next is the bar after it.
  function ResolutionWindow(b: Bar, next: Option<Bar>): Window {
    var after := if next.Some? then next.value.timestamp else b.timestamp;
    var end := if b.timestamp <= OpenOf(b) then after else b.timestamp;
    if end <= OpenOf(b) then Window(b.timestamp, after) else Window(OpenOf(b), end)
  }

  function Resolve(lower: seq<LowerBar>, w: Window, up: real, down: real): Outcome {
    if lower == [] then
      AMBIGUOUS
    else
      var b := lower[0];
      if !(w.start <= b.timestamp < w.end) then Resolve(lower[1..], w, up, down)
      else if up <= b.high && b.low <= down then AMBIGUOUS
      else if up <= b.high then UPPER_FIRST
      else if b.low <= down then LOWER_FIRST
      else Resolve(lower[1..], w, up, down)
  }

  method ResolveLowerTimeframe(lower: seq<LowerBar>, w: Window, up: real, down: real) returns (outcome: Outcome)
    ensures outcome == Resolve(lower, w, up, down)
  {
    for k := 0 to |lower|
      invariant Resolve(lower, w, up, down) == Resolve(lower[k..], w, up, down)
    {
      assert lower[k..][0] == lower[k] && lower[k..][1..] == lower[k + 1..];
      if w.start <= lower[k].timestamp < w.end {
        var upperHit, lowerHit := up <= lower[k].high, lower[k].low <= down;
        if upperHit && lowerHit {
          return AMBIGUOUS;
        }
        if upperHit {
          return UPPER_FIRST;
        }
        if lowerHit {
          return LOWER_FIRST;
        }
      }
    }
    return AMBIGUOUS;
  }

  function Collision(d: Definition, lower: Option<seq<LowerBar>>, w: Window, up: real, down: real): Outcome {
    match d.policy
    case ON_COLLISION_AMBIGUOUS => AMBIGUOUS
    case OPTIMISTIC => if d.side == LONG then UPPER_FIRST else LOWER_FIRST
    case PESSIMISTIC => if d.side == LONG then LOWER_FIRST else UPPER_FIRST
    case LOWER_TIMEFRAME => if lower.None? then AMBIGUOUS else Resolve(lower.value, w, up, down)
  }

  // ----- Excursions -----

  function HighestHigh(bars: seq<Bar>): real
    requires bars != []
  {
    if |bars| == 1 then bars[0].high else Max(bars[0].high, HighestHigh(bars[1..]))
  }

  function LowestLow(bars: seq<Bar>): real
    requires bars != []
  {
    if |bars| == 1 then bars[0].low else Min(bars[0].low, LowestLow(bars[1..]))
  }

  // The extremes bound every bar, and some bar attains each.
  lemma {:induction false} ExtremesMeaning(bars: seq<Bar>)
    requires bars != []
    ensures forall k :: 0 <= k < |bars| ==> bars[k].high <= HighestHigh(bars) && LowestLow(bars) <= bars[k].low
    ensures exists k :: 0 <= k < |bars| && bars[k].high == HighestHigh(bars)
    ensures exists k :: 0 <= k < |bars| && bars[k].low == LowestLow(bars)
    decreases |bars|
  {
    if |bars| > 1 {
      var rest := bars[1..];
      ExtremesMeaning(rest);
      forall k | 0 <= k < |bars|
        ensures bars[k].high <= HighestHigh(bars) && LowestLow(bars) <= bars[k].low
      {
        assert 0 < k ==> bars[k] == rest[k - 1];
      }
      var h :| 0 <= h < |rest| && rest[h].high == HighestHigh(rest);
      var l :| 0 <= l < |rest| && rest[l].low == LowestLow(rest);
      assert bars[0].high == HighestHigh(bars) || bars[h + 1].high == HighestHigh(bars);
      assert bars[0].low == LowestLow(bars) || bars[l + 1].low == LowestLow(bars);
    } else {
      assert bars[0].high == HighestHigh(bars) && bars[0].low == LowestLow(bars);
    }
  }

  datatype Excursions = Excursions(favorable: real, adverse: real)

  function PathExcursions(path: seq<Bar>, entry: real, side: Side): Excursions
    requires path != []
  {
    var up, down := HighestHigh(path) - entry, entry - LowestLow(path);
    if side == LONG then Excursions(up, down) else Excursions(down, up)
  }

  // ----- One label -----

  function TradeOf(outcome: Outcome, side: Side): TradeOutcome {
    match outcome
    case TIMEOUT => TRADE_TIMEOUT
    case AMBIGUOUS => TRADE_AMBIGUOUS
    case UPPER_FIRST => if side == LONG then TP_FIRST else SL_FIRST
    case LOWER_FIRST => if side == LONG then SL_FIRST else TP_FIRST
  }

  function OutcomeAt(
    b: Bar, next: Option<Bar>, d: Definition, lower: Option<seq<LowerBar>>, up: real, down: real
  ): Outcome {
    if TouchesUpper(b, up) && TouchesLower(b, down) then Collision(d, lower, ResolutionWindow(b, next), up, down)
    else if TouchesUpper(b, up) then UPPER_FIRST
    else LOWER_FIRST
  }

  function PriceOf(outcome: Outcome, b: Bar, up: real, down: real): real {
    if outcome == UPPER_FIRST then up else if outcome == LOWER_FIRST then down else b.close
  }

  function NextBar(frame: seq<Bar>, k: nat): Option<Bar> {
    if k + 1 < |frame| then Some(frame[k + 1]) else None
  }

  // The label of row r once the first touching bar, if any, is known.
  function Built(
    frame: seq<Bar>, r: nat, d: Definition, lower: Option<seq<LowerBar>>, up: real, down: real, touch: Option<nat>
  ): Label
    requires r + d.horizon < |frame| && 0 < d.horizon
    requires touch.Some? ==> touch.value < d.horizon
  {
    var bars := if touch.Some? then touch.value + 1 else d.horizon;
    var hit := frame[r + bars];
    var outcome := if touch.Some? then OutcomeAt(hit, NextBar(frame, r + bars), d, lower, up, down) else TIMEOUT;
    var path := PathExcursions(frame[r + 1..r + bars + 1], frame[r].close, d.side);
    Label(outcome, TradeOf(outcome, d.side), bars, hit.timestamp, PriceOf(outcome, hit, up, down),
          path.favorable, path.adverse)
  }

  // The label of row r, or None where the horizon or the barriers are missing.
  function LabelAt(frame: seq<Bar>, r: nat, d: Definition, lower: Option<seq<LowerBar>>): Option<Label>
    requires 0 < d.horizon
  {
    if |frame| <= r + d.horizon || Distances(frame[r], d).None? then
      None
    else
      var up, down := UpperPrice(frame, r, d), LowerPrice(frame, r, d);
      var touch := FirstTouch(frame[r + 1..r + d.horizon + 1], up, down);
      Some(Built(frame, r, d, lower, up, down, touch))
  }

  method TripleBarrierLabels(frame: seq<Bar>, d: Definition, lower: Option<seq<LowerBar>>)
    returns (labels: seq<Option<Label>>)
    requires 0 < d.horizon
    ensures |labels| == |frame|
    ensures forall r :: 0 <= r < |frame| ==> labels[r] == LabelAt(frame, r, d, lower)
  {
    labels := [];
    for r := 0 to |frame|
      invariant |labels| == r
      invariant forall k :: 0 <= k < r ==> labels[k] == LabelAt(frame, k, d, lower)
    {
      var row := LabelRow(frame, r, d, lower);
      labels := labels + [row];
    }
  }

  // Scans the bars after row r until one touches a barrier.
  method LabelRow(frame: seq<Bar>, r: nat, d: Definition, lower: Option<seq<LowerBar>>) returns (row: Option<Label>)
    requires 0 < d.horizon && r < |frame|
    ensures row == LabelAt(frame, r, d, lower)
  {
    if |frame| <= r + d.horizon {
      return None;
    }
    var distances := Distances(frame[r], d);
    if distances.None? {
      return None;
    }
    var up, down := UpperPrice(frame, r, d), LowerPrice(frame, r, d);
    var touch := ScanHorizon(frame, r, d.horizon, up, down);
    var hit := r + if touch.Some? then touch.value + 1 else d.horizon;
    var outcome := TIMEOUT;
    if touch.Some? {
      outcome := ResolveTouch(d, lower, frame[hit], NextBar(frame, hit), up, down);
    }
    var path := PathExcursions(frame[r + 1..hit + 1], frame[r].close, d.side);
    row := Some(Label(outcome, TradeOf(outcome, d.side), hit - r, frame[hit].timestamp,
                      PriceOf(outcome, frame[hit], up, down), path.favorable, path.adverse));
  }

  method ScanHorizon(frame: seq<Bar>, r: nat, horizon: nat, up: real, down: real) returns (touch: Option<nat>)
    requires r + horizon < |frame|
    ensures touch == FirstTouch(frame[r + 1..r + horizon + 1], up, down)
  {
    ghost var future := frame[r + 1..r + horizon + 1];
    for offset := 1 to horizon + 1
      invariant forall k :: 0 <= k < offset - 1 ==> !Touches(future[k], up, down)
    {
      assert future[offset - 1] == frame[r + offset];
      var upperHit, lowerHit := up <= frame[r + offset].high, frame[r + offset].low <= down;
      if upperHit || lowerHit {
        FirstTouchMeaning(future, up, down, Some(offset - 1));
        return Some(offset - 1);
      }
    }
    FirstTouchMeaning(future, up, down, None);
    return None;
  }

  method ResolveTouch(
    d: Definition, lower: Option<seq<LowerBar>>, b: Bar, next: Option<Bar>, up: real, down: real
  ) returns (outcome: Outcome)
    ensures outcome == OutcomeAt(b, next, d, lower, up, down)
  {
    if up <= b.high && b.low <= down {
      outcome := ResolveCollision(d, lower, b, next, up, down);
    } else {
      outcome := if up <= b.high then UPPER_FIRST else LOWER_FIRST;
    }
  }

  method ResolveCollision(
    d: Definition, lower: Option<seq<LowerBar>>, b: Bar, next: Option<Bar>, up: real, down: real
  ) returns (outcome: Outcome)
    ensures outcome == Collision(d, lower, ResolutionWindow(b, next), up, down)
  {
    if d.policy == LOWER_TIMEFRAME && lower.Some? {
      outcome := ResolveLowerTimeframe(lower.value, ResolutionWindow(b, next), up, down);
    } else {
      outcome := Collision(d, lower, ResolutionWindow(b, next), up, down);
    }
  }

  // ----- First touch, and agreement with the excursions -----

  predicate TouchesAt(frame: seq<Bar>, r: nat, d: Definition, k: nat)
    requires r < |frame| && Distances(frame[r], d).Some? && k < |frame|
  {
    Touches(frame[k], UpperPrice(frame, r, d), LowerPrice(frame, r, d))
  }

  // A label exists exactly where the horizon and the barriers do; it times out exactly when
  // no bar of the horizon touches; otherwise it reports the first bar that does.
  lemma FirstTouchDecides(frame: seq<Bar>, r: nat, d: Definition, lower: Option<seq<LowerBar>>)
    requires 0 < d.horizon && r + d.horizon < |frame| && Distances(frame[r], d).Some?
    ensures LabelAt(frame, r, d, lower).Some?
    ensures var l := LabelAt(frame, r, d, lower).value;
            && 1 <= l.barsToHit <= d.horizon
            && (forall k :: r < k < r + l.barsToHit ==> !TouchesAt(frame, r, d, k))
            && (l.outcome == TIMEOUT <==> forall k :: r < k <= r + d.horizon ==> !TouchesAt(frame, r, d, k))
            && (l.outcome == TIMEOUT ==> l.barsToHit == d.horizon)
            && (l.outcome != TIMEOUT ==> TouchesAt(frame, r, d, r + l.barsToHit))
  {
    var up, down := UpperPrice(frame, r, d), LowerPrice(frame, r, d);
    var future := frame[r + 1..r + d.horizon + 1];
    assert forall k :: 0 <= k < d.horizon ==> future[k] == frame[r + 1 + k];
    forall k | r < k <= r + d.horizon
      ensures Touches(future[k - r - 1], up, down) == TouchesAt(frame, r, d, k)
    {
    }
    var touch := FirstTouch(future, up, down);
    FirstTouchMeaning(future, up, down, touch);
    NeverTimesOut(frame[r + if touch.Some? then touch.value + 1 else 1],
                  NextBar(frame, r + if touch.Some? then touch.value + 1 else 1), d, lower, up, down);
    if touch.Some? {
      assert TouchesAt(frame, r, d, r + 1 + touch.value);
    }
  }

  lemma {:induction false} ResolveNeverTimesOut(lower: seq<LowerBar>, w: Window, up: real, down: real)
    ensures Resolve(lower, w, up, down) != TIMEOUT
  {
    if lower != [] {
      ResolveNeverTimesOut(lower[1..], w, up, down);
    }
  }

  lemma NeverTimesOut(b: Bar, next: Option<Bar>, d: Definition, lower: Option<seq<LowerBar>>, up: real, down: real)
    ensures OutcomeAt(b, next, d, lower, up, down) != TIMEOUT
  {
    if lower.Some? {
      ResolveNeverTimesOut(lower.value, ResolutionWindow(b, next), up, down);
    }
  }

  predicate Consulted(b: LowerBar, w: Window) {
    w.start <= b.timestamp < w.end
  }

  predicate LowerTouches(b: LowerBar, up: real, down: real) {
    up <= b.high || b.low <= down
  }

  // The first consulted lower-timeframe bar to touch either barrier.
  predicate FirstConsulted(lower: seq<LowerBar>, w: Window, up: real, down: real, k: nat) {
    && k < |lower|
    && Consulted(lower[k], w) && LowerTouches(lower[k], up, down)
    && forall j :: 0 <= j < k && Consulted(lower[j], w) ==> !LowerTouches(lower[j], up, down)
  }

  lemma {:induction false} ResolutionMeaning(lower: seq<LowerBar>, w: Window, up: real, down: real, k: nat)
    requires FirstConsulted(lower, w, up, down, k)
    ensures Resolve(lower, w, up, down) ==
            if lower[k].high < up then LOWER_FIRST else if down < lower[k].low then UPPER_FIRST else AMBIGUOUS
    decreases k
  {
    if 0 < k {
      assert Consulted(lower[0], w) ==> !LowerTouches(lower[0], up, down);
      assert forall j :: 0 <= j < k ==> lower[1..][j] == lower[j + 1];
      ResolutionMeaning(lower[1..], w, up, down, k - 1);
    }
  }

  // What the deciding bar says: a single touch decides by itself; a double touch counts for
  // the trader, against the trader, for neither, or is looked up in the finer bars.
  lemma DecidingBar(frame: seq<Bar>, r: nat, d: Definition, lower: Option<seq<LowerBar>>)
    requires 0 < d.horizon && LabelAt(frame, r, d, lower).Some?
    requires LabelAt(frame, r, d, lower).value.outcome != TIMEOUT
    ensures r < |frame| && Distances(frame[r], d).Some?
    ensures var l := LabelAt(frame, r, d, lower).value;
            var hit := r + l.barsToHit;
            var up, down := UpperPrice(frame, r, d), LowerPrice(frame, r, d);
            && hit < |frame|
            && var b := frame[hit];
               && (!TouchesLower(b, down) ==> l.outcome == UPPER_FIRST && l.hitPrice == up)
               && (!TouchesUpper(b, up) ==> l.outcome == LOWER_FIRST && l.hitPrice == down)
               && (TouchesUpper(b, up) && TouchesLower(b, down) ==>
                     match d.policy
                     case OPTIMISTIC => l.trade == TP_FIRST
                     case PESSIMISTIC => l.trade == SL_FIRST
                     case ON_COLLISION_AMBIGUOUS => l.trade == TRADE_AMBIGUOUS && l.hitPrice == b.close
                     case LOWER_TIMEFRAME =>
                       l.outcome == if lower.None? then AMBIGUOUS
                                    else Resolve(lower.value, ResolutionWindow(b, NextBar(frame, hit)), up, down))
  {
    FirstTouchDecides(frame, r, d, lower);
  }

  // The distance to the profit target and to the stop.
  function TargetDistance(b: Barriers, side: Side): real {
    if side == LONG then b.upperDistance else b.lowerDistance
  }

  function StopDistance(b: Barriers, side: Side): real {
    if side == LONG then b.lowerDistance else b.upperDistance
  }

  // The outcome agrees with how far the path really went: a target that was hit was
  // reached, a stop that was hit was reached, and a timeout stayed strictly inside both.
  lemma OutcomeAgreesWithExcursions(frame: seq<Bar>, r: nat, d: Definition, lower: Option<seq<LowerBar>>)
    requires 0 < d.horizon && LabelAt(frame, r, d, lower).Some?
    ensures r < |frame| && Distances(frame[r], d).Some?
    ensures var l := LabelAt(frame, r, d, lower).value;
            var b := Distances(frame[r], d).value;
            && (l.trade == TP_FIRST ==> TargetDistance(b, d.side) <= l.mfe)
            && (l.trade == SL_FIRST ==> StopDistance(b, d.side) <= l.mae)
            && (l.trade == TRADE_AMBIGUOUS ==> TargetDistance(b, d.side) <= l.mfe && StopDistance(b, d.side) <= l.mae)
            && (l.trade == TRADE_TIMEOUT ==> l.mfe < TargetDistance(b, d.side) && l.mae < StopDistance(b, d.side))
  {
    FirstTouchDecides(frame, r, d, lower);
    var l := LabelAt(frame, r, d, lower).value;
    var up, down := UpperPrice(frame, r, d), LowerPrice(frame, r, d);
    var hit := r + l.barsToHit;
    var path := frame[r + 1..hit + 1];
    assert path[l.barsToHit - 1] == frame[hit];
    ExtremesMeaning(path);
    if l.outcome == TIMEOUT {
      forall k | 0 <= k < |path|
        ensures path[k].high < up && down < path[k].low
      {
        assert path[k] == frame[r + 1 + k];
        assert !TouchesAt(frame, r, d, r + 1 + k);
      }
    } else {
      HitReaches(frame[hit], NextBar(frame, hit), d, lower, up, down);
      var touch := FirstTouch(frame[r + 1..r + d.horizon + 1], up, down);
      assert l.outcome == OutcomeAt(frame[hit], NextBar(frame, hit), d, lower, up, down);
    }
  }

  lemma HitReaches(b: Bar, next: Option<Bar>, d: Definition, lower: Option<seq<LowerBar>>, up: real, down: real)
    requires Touches(b, up, down)
    ensures var outcome := OutcomeAt(b, next, d, lower, up, down);
            && (outcome == UPPER_FIRST || outcome == AMBIGUOUS ==> up <= b.high)
            && (outcome == LOWER_FIRST || outcome == AMBIGUOUS ==> b.low <= down)
  {
  }

  // ----- Reflection -----

  function Mirrored(b: Bar, about: real): Bar {
    b.(high := about - b.low, low := about - b.high, close := about - b.close)
  }

  function Reflected(frame: seq<Bar>, about: real): (r: seq<Bar>)
    ensures |r| == |frame|
  {
    seq(|frame|, k requires 0 <= k < |frame| => Mirrored(frame[k], about))
  }

  function Flipped(d: Definition): Definition {
    d.(side := if d.side == LONG then SHORT else LONG, upper := d.lower, lower := d.upper)
  }

  lemma {:induction false} ReflectedTouch(bars: seq<Bar>, about: real, up: real, down: real)
    ensures FirstTouch(Reflected(bars, about), about - down, about - up) == FirstTouch(bars, up, down)
  {
    if bars != [] {
      ReflectedTouch(bars[1..], about, up, down);
      assert Reflected(bars, about)[1..] == Reflected(bars[1..], about);
    }
  }

  lemma {:induction false} ReflectedExtremes(bars: seq<Bar>, about: real)
    requires bars != []
    ensures HighestHigh(Reflected(bars, about)) == about - LowestLow(bars)
    ensures LowestLow(Reflected(bars, about)) == about - HighestHigh(bars)
    decreases |bars|
  {
    if |bars| > 1 {
      ReflectedExtremes(bars[1..], about);
      assert Reflected(bars, about)[1..] == Reflected(bars[1..], about);
    }
  }

  lemma ReflectedOutcome(b: Bar, next: Option<Bar>, other: Option<Bar>, d: Definition, lower: Option<seq<LowerBar>>,
                         about: real, up: real, down: real)
    requires d.policy != LOWER_TIMEFRAME && Touches(b, up, down)
    ensures TradeOf(OutcomeAt(Mirrored(b, about), other, Flipped(d), lower, about - down, about - up),
                    Flipped(d).side) ==
            TradeOf(OutcomeAt(b, next, d, lower, up, down), d.side)
  {
  }

  // Long and short are mirror images: reflecting every price and swapping side and barriers
  // keeps the trade outcome, the bars to the hit and both excursions.
  lemma ReflectionKeepsTheLabel(frame: seq<Bar>, r: nat, d: Definition, lower: Option<seq<LowerBar>>, about: real)
    requires 0 < d.horizon && d.mode != PERCENTAGE && d.policy != LOWER_TIMEFRAME
    ensures var l, m := LabelAt(frame, r, d, lower), LabelAt(Reflected(frame, about), r, Flipped(d), lower);
            && (l.Some? <==> m.Some?)
            && (l.Some? ==> SameTrade(l.value, m.value))
  {
    if r + d.horizon < |frame| {
      ReflectedBarriers(frame[r], d, about);
      if Distances(frame[r], d).Some? {
        LabelReflects(frame, Reflected(frame, about), r, d, lower, about);
      }
    }
  }

  lemma ReflectedBarriers(b: Bar, d: Definition, about: real)
    requires d.mode != PERCENTAGE
    ensures var x, y := Distances(b, d), Distances(Mirrored(b, about), Flipped(d));
            && (x.Some? <==> y.Some?)
            && (x.Some? ==> y.value == Barriers(x.value.lowerDistance, x.value.upperDistance))
  {
  }

  // Reflection turns the horizon upside down and leaves its first touch where it was.
  lemma ReflectedHorizon(frame: seq<Bar>, r: nat, d: Definition, about: real)
    requires d.mode != PERCENTAGE && r + d.horizon < |frame| && Distances(frame[r], d).Some?
    ensures var mirror := Reflected(frame, about);
            var up, down := UpperPrice(frame, r, d), LowerPrice(frame, r, d);
            && Distances(mirror[r], Flipped(d)).Some?
            && UpperPrice(mirror, r, Flipped(d)) == about - down
            && LowerPrice(mirror, r, Flipped(d)) == about - up
            && FirstTouch(mirror[r + 1..r + d.horizon + 1], about - down, about - up) ==
               FirstTouch(frame[r + 1..r + d.horizon + 1], up, down)
  {
    var up, down := UpperPrice(frame, r, d), LowerPrice(frame, r, d);
    var future := frame[r + 1..r + d.horizon + 1];
    ReflectedBarriers(frame[r], d, about);
    assert Reflected(frame, about)[r + 1..r + d.horizon + 1] == Reflected(future, about);
    ReflectedTouch(future, about, up, down);
  }

  lemma LabelIsBuilt(
    frame: seq<Bar>, r: nat, d: Definition, lower: Option<seq<LowerBar>>, up: real, down: real, touch: Option<nat>)
    requires 0 < d.horizon && r + d.horizon < |frame| && Distances(frame[r], d).Some?
    requires up == UpperPrice(frame, r, d) && down == LowerPrice(frame, r, d)
    requires touch == FirstTouch(frame[r + 1..r + d.horizon + 1], up, down)
    ensures LabelAt(frame, r, d, lower) == Some(Built(frame, r, d, lower, up, down, touch))
  {
  }

  lemma LabelReflects(
    frame: seq<Bar>, mirror: seq<Bar>, r: nat, d: Definition, lower: Option<seq<LowerBar>>, about: real)
    requires 0 < d.horizon && d.mode != PERCENTAGE && d.policy != LOWER_TIMEFRAME
    requires r + d.horizon < |frame| && Distances(frame[r], d).Some?
    requires mirror == Reflected(frame, about)
    ensures LabelAt(frame, r, d, lower).Some? && LabelAt(mirror, r, Flipped(d), lower).Some?
    ensures SameTrade(LabelAt(frame, r, d, lower).value, LabelAt(mirror, r, Flipped(d), lower).value)
  {
    var up, down := UpperPrice(frame, r, d), LowerPrice(frame, r, d);
    var touch := FirstTouch(frame[r + 1..r + d.horizon + 1], up, down);
    ReflectedHorizon(frame, r, d, about);
    TouchIsReal(frame, r, d.horizon, up, down);
    BuiltReflects(frame, mirror, r, d, lower, about, up, down, touch);
    LabelIsBuilt(frame, r, d, lower, up, down, touch);
    LabelIsBuilt(mirror, r, Flipped(d), lower, about - down, about - up, touch);
  }

  lemma TouchIsReal(frame: seq<Bar>, r: nat, horizon: nat, up: real, down: real)
    requires r + horizon < |frame|
    ensures var touch := FirstTouch(frame[r + 1..r + horizon + 1], up, down);
            touch.Some? ==> touch.value < horizon && Touches(frame[r + touch.value + 1], up, down)
  {
    var future := frame[r + 1..r + horizon + 1];
    FirstTouchMeaning(future, up, down, FirstTouch(future, up, down));
    assert forall k :: 0 <= k < horizon ==> future[k] == frame[r + 1 + k];
  }

  lemma BuiltReflects(
    frame: seq<Bar>, mirror: seq<Bar>, r: nat, d: Definition, lower: Option<seq<LowerBar>>, about: real,
    up: real, down: real, touch: Option<nat>)
    requires r + d.horizon < |frame| && 0 < d.horizon && d.policy != LOWER_TIMEFRAME
    requires mirror == Reflected(frame, about)
    requires touch.Some? ==> touch.value < d.horizon && Touches(frame[r + touch.value + 1], up, down)
    ensures SameTrade(Built(frame, r, d, lower, up, down, touch),
                      Built(mirror, r, Flipped(d), lower, about - down, about - up, touch))
  {
    var bars := if touch.Some? then touch.value + 1 else d.horizon;
    var path := frame[r + 1..r + bars + 1];
    assert mirror[r + 1..r + bars + 1] == Reflected(path, about);
    ReflectedExtremes(path, about);
    if touch.Some? {
      ReflectedOutcome(frame[r + bars], NextBar(frame, r + bars), NextBar(mirror, r + bars), d, lower, about, up, down);
    }
  }

  predicate SameTrade(l: Label, m: Label) {
    && m.trade == l.trade
    && m.barsToHit == l.barsToHit
    && m.hitTimestamp == l.hitTimestamp
    && m.mfe == l.mfe
    && m.mae == l.mae
  }
}
