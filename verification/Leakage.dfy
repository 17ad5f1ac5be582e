/**
 No leakage, end to end: labels look forward by a bounded horizon, and the splits keep that
 look-ahead away from everything later, whatever rows were dropped in between.
 */
module Leakage {
  import opened Numerics
  import BarrierLabels
  import Indicators
  import Splits

  type Bar = BarrierLabels.Bar
  type LowerBar = BarrierLabels.LowerBar
  type Definition = BarrierLabels.Definition

  // The candle of every bar opened before its decision time.
  ghost predicate OpensFirst(frame: seq<Bar>) {
    forall k :: 0 <= k < |frame| ==> BarrierLabels.OpenOf(frame[k]) < frame[k].timestamp
  }

  predicate NotAfter(frame: seq<Bar>, j: nat, k: nat)
    requires j < |frame| && k < |frame|
  {
    frame[j].timestamp <= frame[k].timestamp
  }

  ghost predicate Chronological(frame: seq<Bar>) {
    forall j, k {:trigger NotAfter(frame, j, k)} :: 0 <= j < k < |frame| ==> NotAfter(frame, j, k)
  }

  // The finer bars known before a time.
  function Past(lower: seq<LowerBar>, now: Instant): seq<LowerBar> {
    if lower == [] then
      []
    else
      (if lower[0].timestamp < now then [lower[0]] else []) + Past(lower[1..], now)
  }

  ghost predicate SamePast(a: Option<seq<LowerBar>>, b: Option<seq<LowerBar>>, now: Instant) {
    (a.None? && b.None?) || (a.Some? && b.Some? && Past(a.value, now) == Past(b.value, now))
  }

  lemma {:induction false} ResolvesOnThePast(
    lower: seq<LowerBar>, w: BarrierLabels.Window, up: real, down: real, now: Instant)
    requires w.end <= now
    ensures BarrierLabels.Resolve(Past(lower, now), w, up, down) == BarrierLabels.Resolve(lower, w, up, down)
  {
    if lower != [] {
      ResolvesOnThePast(lower[1..], w, up, down, now);
      if lower[0].timestamp < now {
        assert Past(lower, now)[1..] == Past(lower[1..], now);
      } else {
        assert Past(lower, now) == Past(lower[1..], now);
      }
    }
  }

  // The label of row r can look one row past its horizon: the very last row of the horizon is
  // the first to touch, touches both barriers, its candle does not open before its time, and
  // the finer bars are to say which barrier came first.
  predicate Peeks(f: seq<Bar>, r: nat, d: Definition)
    requires 0 < d.horizon && r + d.horizon < |f|
  {
    && d.policy == BarrierLabels.LOWER_TIMEFRAME
    && BarrierLabels.Distances(f[r], d).Some?
    && var up, down := BarrierLabels.UpperPrice(f, r, d), BarrierLabels.LowerPrice(f, r, d);
       var last := f[r + d.horizon];
       && BarrierLabels.FirstTouch(f[r + 1..r + d.horizon + 1], up, down) == Some(d.horizon - 1)
       && BarrierLabels.TouchesUpper(last, up) && BarrierLabels.TouchesLower(last, down)
       && last.timestamp <= BarrierLabels.OpenOf(last)
  }

  // The finer bars a label may consult are the same, or at least those known by a time.
  ghost predicate SameFiner(f: seq<Bar>, n: nat, lower: Option<seq<LowerBar>>, later: Option<seq<LowerBar>>)
    requires 0 < n <= |f|
  {
    lower == later || (Chronological(f[..n]) && SamePast(lower, later, f[n - 1].timestamp))
  }

  lemma OutcomeIsKnown(
    b: Bar, next: Option<Bar>, other: Option<Bar>, d: Definition, lower: Option<seq<LowerBar>>,
    later: Option<seq<LowerBar>>, up: real, down: real, now: Instant)
    requires lower.Some? ==> BarrierLabels.ResolutionWindow(b, next) == BarrierLabels.ResolutionWindow(b, other)
    requires lower == later || (SamePast(lower, later, now) && BarrierLabels.ResolutionWindow(b, next).end <= now)
    ensures BarrierLabels.OutcomeAt(b, next, d, lower, up, down) ==
            BarrierLabels.OutcomeAt(b, other, d, later, up, down)
  {
    if lower != later && lower.Some? {
      var w := BarrierLabels.ResolutionWindow(b, next);
      ResolvesOnThePast(lower.value, w, up, down, now);
      ResolvesOnThePast(later.value, w, up, down, now);
    }
  }

  // A label is settled r + horizon bars on, unless it peeks: rows after that, and finer bars
  // from that time on, may be changed, dropped or added without changing it. Order and finer
  // bars only matter to the one policy that consults them.
  lemma LabelLooksAheadByTheHorizon(
    f: seq<Bar>, g: seq<Bar>, r: nat, d: Definition, lower: Option<seq<LowerBar>>, later: Option<seq<LowerBar>>)
    requires 0 < d.horizon && r + d.horizon < |f| && r + d.horizon < |g|
    requires f[..r + d.horizon + 1] == g[..r + d.horizon + 1]
    requires lower.Some? ==> !Peeks(f, r, d)
    requires d.policy == BarrierLabels.LOWER_TIMEFRAME ==> SameFiner(f, r + d.horizon + 1, lower, later)
    ensures BarrierLabels.LabelAt(f, r, d, lower) == BarrierLabels.LabelAt(g, r, d, later)
  {
    var n := r + d.horizon + 1;
    SharedSlice(f, g, n, r, n);
    SharedSlice(f, g, n, r + 1, n);
    if BarrierLabels.Distances(f[r], d).Some? {
      var up, down := BarrierLabels.UpperPrice(f, r, d), BarrierLabels.LowerPrice(f, r, d);
      var touch := BarrierLabels.FirstTouch(f[r + 1..n], up, down);
      BuiltAlike(f, g, r, d, lower, later, up, down, touch);
      BarrierLabels.LabelIsBuilt(f, r, d, lower, up, down, touch);
      BarrierLabels.LabelIsBuilt(g, r, d, later, up, down, touch);
    }
  }

  // Sequences that agree on a prefix agree on every slice of it.
  lemma SharedSlice<T>(f: seq<T>, g: seq<T>, n: nat, i: nat, j: nat)
    requires n <= |f| && n <= |g| && f[..n] == g[..n] && i <= j <= n
    ensures f[i..j] == g[i..j]
    ensures forall k :: i <= k < j ==> f[k] == g[k]
  {
    forall k | 0 <= k < n
      ensures f[k] == g[k]
    {
      assert f[k] == f[..n][k] && g[k] == g[..n][k];
    }
  }

  lemma BuiltAlike(
    f: seq<Bar>, g: seq<Bar>, r: nat, d: Definition, lower: Option<seq<LowerBar>>, later: Option<seq<LowerBar>>,
    up: real, down: real, touch: Option<nat>)
    requires 0 < d.horizon && r + d.horizon < |f| && r + d.horizon < |g|
    requires f[..r + d.horizon + 1] == g[..r + d.horizon + 1]
    requires BarrierLabels.Distances(f[r], d).Some?
    requires up == BarrierLabels.UpperPrice(f, r, d) && down == BarrierLabels.LowerPrice(f, r, d)
    requires touch == BarrierLabels.FirstTouch(f[r + 1..r + d.horizon + 1], up, down)
    requires lower.Some? ==> !Peeks(f, r, d)
    requires d.policy == BarrierLabels.LOWER_TIMEFRAME ==> SameFiner(f, r + d.horizon + 1, lower, later)
    ensures BarrierLabels.Built(f, r, d, lower, up, down, touch) == BarrierLabels.Built(g, r, d, later, up, down, touch)
  {
    var n := r + d.horizon + 1;
    var bars := if touch.Some? then touch.value + 1 else d.horizon;
    SharedSlice(f, g, n, r, n);
    SharedSlice(f, g, n, r + 1, r + bars + 1);
    if touch.Some? {
      DecidedAlike(f, g, r, r + bars, d, lower, later, up, down);
    }
  }

  // The bar that decides looks neither past the horizon nor at finer bars still to come.
  lemma DecidedAlike(
    f: seq<Bar>, g: seq<Bar>, r: nat, hit: nat, d: Definition, lower: Option<seq<LowerBar>>,
    later: Option<seq<LowerBar>>, up: real, down: real)
    requires 0 < d.horizon && r < hit <= r + d.horizon && r + d.horizon < |f| && r + d.horizon < |g|
    requires f[..r + d.horizon + 1] == g[..r + d.horizon + 1]
    requires BarrierLabels.Distances(f[r], d).Some?
    requires up == BarrierLabels.UpperPrice(f, r, d) && down == BarrierLabels.LowerPrice(f, r, d)
    requires BarrierLabels.FirstTouch(f[r + 1..r + d.horizon + 1], up, down) == Some(hit - r - 1)
    requires lower.Some? ==> !Peeks(f, r, d)
    requires d.policy == BarrierLabels.LOWER_TIMEFRAME ==> SameFiner(f, r + d.horizon + 1, lower, later)
    ensures BarrierLabels.OutcomeAt(f[hit], BarrierLabels.NextBar(f, hit), d, lower, up, down) ==
            BarrierLabels.OutcomeAt(f[hit], BarrierLabels.NextBar(g, hit), d, later, up, down)
  {
    var n := r + d.horizon + 1;
    var next, other := BarrierLabels.NextBar(f, hit), BarrierLabels.NextBar(g, hit);
    var both := BarrierLabels.TouchesUpper(f[hit], up) && BarrierLabels.TouchesLower(f[hit], down);
    if d.policy == BarrierLabels.LOWER_TIMEFRAME && both {
      SharedSlice(f, g, n, hit, n);
      if lower != later {
        assert hit < n - 1 ==> NotAfter(f[..n], hit, n - 1);
        assert hit + 1 < n - 1 ==> NotAfter(f[..n], hit + 1, n - 1);
      }
      if lower.Some? || lower == later {
        OutcomeIsKnown(f[hit], next, other, d, lower, later, up, down, f[n - 1].timestamp);
      }
    }
  }

  // With candle opens before decision times no label peeks.
  lemma OpensFirstNeverPeeks(frame: seq<Bar>, r: nat, d: Definition)
    requires OpensFirst(frame) && 0 < d.horizon && r + d.horizon < |frame|
    ensures !Peeks(frame, r, d)
  {
  }

  lemma PrefixInOrder(frame: seq<Bar>, n: nat)
    requires Chronological(frame) && n <= |frame|
    ensures Chronological(frame[..n])
  {
    forall j, k | 0 <= j < k < n
      ensures NotAfter(frame[..n], j, k)
    {
      assert NotAfter(frame, j, k);
    }
  }

  lemma OrderedLabelStays(
    f: seq<Bar>, g: seq<Bar>, r: nat, d: Definition, lower: Option<seq<LowerBar>>, later: Option<seq<LowerBar>>)
    requires 0 < d.horizon && r + d.horizon < |f| && r + d.horizon < |g|
    requires f[..r + d.horizon + 1] == g[..r + d.horizon + 1]
    requires OpensFirst(f) && Chronological(f)
    requires SamePast(lower, later, f[r + d.horizon].timestamp)
    ensures BarrierLabels.LabelAt(f, r, d, lower) == BarrierLabels.LabelAt(g, r, d, later)
  {
    OpensFirstNeverPeeks(f, r, d);
    PrefixInOrder(f, r + d.horizon + 1);
    LabelLooksAheadByTheHorizon(f, g, r, d, lower, later);
  }

  // ----- Exactly when a label is settled by its horizon -----

  // The same history up to row n, and nothing earlier after it.
  ghost predicate Continues(f: seq<Bar>, g: seq<Bar>, n: nat)
    requires 0 < n <= |f|
  {
    n <= |g| && g[..n] == f[..n] && forall k :: n <= k < |g| ==> f[n - 1].timestamp <= g[k].timestamp
  }

  ghost predicate SameLabel(f: seq<Bar>, g: seq<Bar>, r: nat, d: Definition, lower: Option<seq<LowerBar>>)
    requires 0 < d.horizon
  {
    BarrierLabels.LabelAt(g, r, d, lower) == BarrierLabels.LabelAt(f, r, d, lower)
  }

  ghost predicate Settled(f: seq<Bar>, r: nat, d: Definition)
    requires 0 < d.horizon && r + d.horizon < |f|
  {
    forall g: seq<Bar>, lower: Option<seq<LowerBar>> {:trigger SameLabel(f, g, r, d, lower)} ::
      Continues(f, g, r + d.horizon + 1) ==> SameLabel(f, g, r, d, lower)
  }

  // Whatever comes after the horizon, and whatever the finer bars are, the label stays: this
  // holds exactly for the labels that do not peek.
  lemma SettledExactlyWhen(f: seq<Bar>, r: nat, d: Definition)
    requires 0 < d.horizon && r + d.horizon < |f|
    ensures Settled(f, r, d) <==> !Peeks(f, r, d)
  {
    if Peeks(f, r, d) {
      PeekingTells(f, r, d);
    } else {
      forall g: seq<Bar>, lower: Option<seq<LowerBar>> | Continues(f, g, r + d.horizon + 1)
        ensures SameLabel(f, g, r, d, lower)
      {
        LabelLooksAheadByTheHorizon(f, g, r, d, lower, lower);
      }
    }
  }

  function Telling(last: Bar, up: real, down: real): LowerBar {
    BarrierLabels.LowerBar(BarrierLabels.OpenOf(last), Max(up, down + 1.0), down + 1.0)
  }

  // The next row's time decides whether a finer bar is consulted.
  lemma NextRowTells(last: Bar, up: real, down: real)
    requires last.timestamp <= BarrierLabels.OpenOf(last)
    ensures var wide := BarrierLabels.ResolutionWindow(last, Some(last.(timestamp := BarrierLabels.OpenOf(last) + 1)));
            BarrierLabels.Resolve([Telling(last, up, down)], wide, up, down) == BarrierLabels.UPPER_FIRST
    ensures var narrow := BarrierLabels.ResolutionWindow(last, Some(last));
            BarrierLabels.Resolve([Telling(last, up, down)], narrow, up, down) == BarrierLabels.AMBIGUOUS
  {
    assert [Telling(last, up, down)][1..] == [];
  }

  lemma OneMore(f: seq<Bar>, n: nat, at: Instant) returns (g: seq<Bar>)
    requires 0 < n <= |f| && f[n - 1].timestamp <= at
    ensures |g| == n + 1 && g[..n] == f[..n] && g[n] == f[n - 1].(timestamp := at)
    ensures Continues(f, g, n)
  {
    g := f[..n] + [f[n - 1].(timestamp := at)];
  }

  function OutcomeOf(f: seq<Bar>, r: nat, d: Definition, lower: seq<LowerBar>): Option<BarrierLabels.Outcome>
    requires 0 < d.horizon
  {
    var row := BarrierLabels.LabelAt(f, r, d, Some(lower));
    if row.Some? then Some(row.value.outcome) else None
  }

  lemma OtherOutcomeOtherLabel(f: seq<Bar>, g: seq<Bar>, r: nat, d: Definition, lower: seq<LowerBar>)
    requires 0 < d.horizon && OutcomeOf(f, r, d, lower) != OutcomeOf(g, r, d, lower)
    ensures !SameLabel(f, g, r, d, Some(lower))
  {
  }

  // The next row comes late enough for the finer bar to be consulted, or too early.
  lemma WideContinuation(f: seq<Bar>, r: nat, d: Definition, lower: seq<LowerBar>) returns (g: seq<Bar>)
    requires 0 < d.horizon && r + d.horizon < |f| && Peeks(f, r, d)
    requires lower == [Telling(f[r + d.horizon], BarrierLabels.UpperPrice(f, r, d), BarrierLabels.LowerPrice(f, r, d))]
    ensures Continues(f, g, r + d.horizon + 1) && OutcomeOf(g, r, d, lower) == Some(BarrierLabels.UPPER_FIRST)
  {
    var last := f[r + d.horizon];
    g := OneMore(f, r + d.horizon + 1, BarrierLabels.OpenOf(last) + 1);
    NextRowTells(last, BarrierLabels.UpperPrice(f, r, d), BarrierLabels.LowerPrice(f, r, d));
    PeekedLabel(f, g, r, d, lower);
  }

  lemma NarrowContinuation(f: seq<Bar>, r: nat, d: Definition, lower: seq<LowerBar>) returns (g: seq<Bar>)
    requires 0 < d.horizon && r + d.horizon < |f| && Peeks(f, r, d)
    requires lower == [Telling(f[r + d.horizon], BarrierLabels.UpperPrice(f, r, d), BarrierLabels.LowerPrice(f, r, d))]
    ensures Continues(f, g, r + d.horizon + 1) && OutcomeOf(g, r, d, lower) == Some(BarrierLabels.AMBIGUOUS)
  {
    var last := f[r + d.horizon];
    g := OneMore(f, r + d.horizon + 1, last.timestamp);
    NextRowTells(last, BarrierLabels.UpperPrice(f, r, d), BarrierLabels.LowerPrice(f, r, d));
    PeekedLabel(f, g, r, d, lower);
  }

  // One of the two disagrees with the frame.
  lemma PeekingTells(f: seq<Bar>, r: nat, d: Definition)
    requires 0 < d.horizon && r + d.horizon < |f| && Peeks(f, r, d)
    ensures !Settled(f, r, d)
  {
    var lower := [Telling(f[r + d.horizon], BarrierLabels.UpperPrice(f, r, d), BarrierLabels.LowerPrice(f, r, d))];
    var g := WideContinuation(f, r, d, lower);
    if OutcomeOf(f, r, d, lower) == Some(BarrierLabels.UPPER_FIRST) {
      g := NarrowContinuation(f, r, d, lower);
    }
    OtherOutcomeOtherLabel(f, g, r, d, lower);
    assert !SameLabel(f, g, r, d, Some(lower));
  }

  lemma PeekedLabel(f: seq<Bar>, g: seq<Bar>, r: nat, d: Definition, lower: seq<LowerBar>)
    requires 0 < d.horizon && r + d.horizon < |f| && Peeks(f, r, d)
    requires |g| == r + d.horizon + 2 && g[..r + d.horizon + 1] == f[..r + d.horizon + 1]
    ensures var up, down := BarrierLabels.UpperPrice(f, r, d), BarrierLabels.LowerPrice(f, r, d);
            var w := BarrierLabels.ResolutionWindow(f[r + d.horizon], Some(g[r + d.horizon + 1]));
            && BarrierLabels.LabelAt(g, r, d, Some(lower)).Some?
            && BarrierLabels.LabelAt(g, r, d, Some(lower)).value.outcome == BarrierLabels.Resolve(lower, w, up, down)
  {
    var n := r + d.horizon + 1;
    var up, down := BarrierLabels.UpperPrice(f, r, d), BarrierLabels.LowerPrice(f, r, d);
    SharedSlice(g, f, n, r, n);
    SharedSlice(g, f, n, r + 1, n);
    BarrierLabels.LabelIsBuilt(g, r, d, Some(lower), up, down, Some(d.horizon - 1));
  }

  // A definition keeps every label of every frame in time order within its horizon exactly
  // when its policy does not consult finer bars.
  lemma AlwaysSettledExactlyWhen(d: Definition, r: nat)
    requires BarrierLabels.ValidDefinition(d)
    ensures (forall f: seq<Bar> :: Chronological(f) && r + d.horizon < |f| ==> Settled(f, r, d)) <==>
            d.policy != BarrierLabels.LOWER_TIMEFRAME
  {
    if d.policy == BarrierLabels.LOWER_TIMEFRAME {
      var f := PeekingFrame(d, r);
      SettledExactlyWhen(f, r, d);
    } else {
      forall f: seq<Bar> | Chronological(f) && r + d.horizon < |f|
        ensures Settled(f, r, d)
      {
        SettledExactlyWhen(f, r, d);
      }
    }
  }

  // A calm market without candle opens, until the last row of the horizon spans both barriers.
  lemma PeekingFrame(d: Definition, r: nat) returns (f: seq<Bar>)
    requires BarrierLabels.ValidDefinition(d) && d.policy == BarrierLabels.LOWER_TIMEFRAME
    ensures |f| == r + d.horizon + 1 && Chronological(f) && Peeks(f, r, d)
  {
    var calm := BarrierLabels.Bar(1.0, 1.0, 1.0, Some(1.0), 0, None);
    var both := calm.(high := 1.0 + d.upper, low := 1.0 - d.lower);
    f := seq(r + d.horizon, k => calm) + [both];
    var up, down := BarrierLabels.UpperPrice(f, r, d), BarrierLabels.LowerPrice(f, r, d);
    var future := f[r + 1..r + d.horizon + 1];
    forall k | 0 <= k < d.horizon
      ensures future[k] == if k < d.horizon - 1 then calm else both
    {
    }
    BarrierLabels.FirstTouchMeaning(future, up, down, Some(d.horizon - 1));
  }

  // ----- The dataset builder -----

  // A row of the source: a candle and when it opened.
  datatype Row = Row(candle: Indicators.Candle, openedAt: Instant)

  predicate OpenedNotAfter(source: seq<Row>, j: nat, k: nat)
    requires j < |source| && k < |source|
  {
    source[j].openedAt <= source[k].openedAt
  }

  ghost predicate InOrder(source: seq<Row>) {
    forall j, k {:trigger OpenedNotAfter(source, j, k)} :: 0 <= j < k < |source| ==> OpenedNotAfter(source, j, k)
  }

  function Candles(source: seq<Row>): (c: seq<Indicators.Candle>)
    ensures |c| == |source|
  {
    seq(|source|, k requires 0 <= k < |source| => source[k].candle)
  }

  // The builder computes the average true range over the whole source, stamps each bar with
  // its close as decision time and keeps its open beside it.
  function LabelInput(source: seq<Row>, period: nat, delta: int): (frame: seq<Bar>)
    requires 0 < period
    ensures |frame| == |source|
  {
    var ranges := Indicators.Atr(Candles(source), period);
    seq(|source|, k requires 0 <= k < |source| =>
      var c := source[k].candle;
      BarrierLabels.Bar(c.high, c.low, c.close, ranges[k], source[k].openedAt + delta, Some(source[k].openedAt)))
  }

  lemma BuilderOpensFirst(source: seq<Row>, period: nat, delta: int)
    requires 0 < period && 0 < delta && InOrder(source)
    ensures OpensFirst(LabelInput(source, period, delta)) && Chronological(LabelInput(source, period, delta))
  {
    forall j, k | 0 <= j < k < |source|
      ensures NotAfter(LabelInput(source, period, delta), j, k)
    {
      assert OpenedNotAfter(source, j, k);
    }
  }

  lemma BuilderIsCausal(f: seq<Row>, g: seq<Row>, period: nat, delta: int, n: nat)
    requires 0 < period && n <= |f| && n <= |g| && f[..n] == g[..n]
    ensures LabelInput(f, period, delta)[..n] == LabelInput(g, period, delta)[..n]
  {
    assert Candles(f)[..n] == Candles(f[..n]) == Candles(g[..n]) == Candles(g)[..n];
    Indicators.AveragedMoveIsCausal(Candles(f), Indicators.Range, period, n);
    Indicators.AveragedMoveIsCausal(Candles(g), Indicators.Range, period, n);
    var a, b := Indicators.Atr(Candles(f), period), Indicators.Atr(Candles(g), period);
    assert a[..n] == b[..n];
    forall k | 0 <= k < n
      ensures LabelInput(f, period, delta)[k] == LabelInput(g, period, delta)[k]
    {
      assert f[k] == f[..n][k] == g[..n][k] == g[k];
      assert a[k] == a[..n][k] == b[..n][k] == b[k];
    }
  }

  // ----- End to end -----

  // Two sources that agree before a row, with finer bars that agree up to the last decision
  // of a label's horizon.
  ghost predicate AgreeBefore(
    f: seq<Row>, g: seq<Row>, row: nat, lower: Option<seq<LowerBar>>, later: Option<seq<LowerBar>>, decided: Instant)
    requires row <= |f| && row <= |g|
  {
    f[..row] == g[..row] && SamePast(lower, later, decided)
  }

  lemma BuiltLabelStays(
    f: seq<Row>, g: seq<Row>, period: nat, delta: int, d: Definition, lower: Option<seq<LowerBar>>,
    later: Option<seq<LowerBar>>, r: nat)
    requires 0 < period && 0 < delta && 0 < d.horizon && InOrder(f)
    requires r + d.horizon < |f| && r + d.horizon < |g|
    requires f[..r + d.horizon + 1] == g[..r + d.horizon + 1]
    requires SamePast(lower, later, f[r + d.horizon].openedAt + delta)
    ensures BarrierLabels.LabelAt(LabelInput(f, period, delta), r, d, lower) ==
            BarrierLabels.LabelAt(LabelInput(g, period, delta), r, d, later)
  {
    BuilderOpensFirst(f, period, delta);
    BuilderStamps(f, period, delta, r + d.horizon);
    BuilderIsCausal(f, g, period, delta, r + d.horizon + 1);
    OrderedLabelStays(LabelInput(f, period, delta), LabelInput(g, period, delta), r, d, lower, later);
  }

  lemma BuilderStamps(source: seq<Row>, period: nat, delta: int, k: nat)
    requires 0 < period && k < |source|
    ensures LabelInput(source, period, delta)[k].timestamp == source[k].openedAt + delta
  {
  }

  // Change any candle of the source from the first row of a later part on, and any finer bar
  // from the last decision of the label's horizon on: no label of the earlier part moves.
  lemma NoLabelLeakage(
    f: seq<Row>, g: seq<Row>, period: nat, delta: int, d: Definition, lower: Option<seq<LowerBar>>,
    later: Option<seq<LowerBar>>, raw: seq<int>, first: Splits.IndexRange, second: Splits.IndexRange, i: int, j: int)
    requires 0 < period && 0 < delta && 0 < d.horizon && InOrder(f)
    requires Splits.RowMap(raw) && (forall k :: 0 <= k < |raw| ==> 0 <= raw[k] < |f| && raw[k] < |g|)
    requires Splits.Separated(raw, first, second, d.horizon)
    requires first.start <= i < first.stop && second.start <= j < second.stop && 0 <= i < |raw| && 0 <= j < |raw|
    ensures raw[i] + d.horizon < raw[j]
    ensures AgreeBefore(f, g, raw[j], lower, later, f[raw[i] + d.horizon].openedAt + delta) ==>
              BarrierLabels.LabelAt(LabelInput(f, period, delta), raw[i], d, lower) ==
              BarrierLabels.LabelAt(LabelInput(g, period, delta), raw[i], d, later)
  {
    if AgreeBefore(f, g, raw[j], lower, later, f[raw[i] + d.horizon].openedAt + delta) {
      SharedSlice(f, g, raw[j], 0, raw[i] + d.horizon + 1);
      BuiltLabelStays(f, g, period, delta, d, lower, later, raw[i]);
    }
  }

  // Rows i and j lie in an earlier and a later part of a fold.
  predicate Across(fold: Splits.Fold, i: int, j: int) {
    || (fold.train.start <= i < fold.train.stop && fold.validation.start <= j < fold.validation.stop)
    || (fold.validation.start <= i < fold.validation.stop && fold.oos.start <= j < fold.oos.stop)
  }

  // Train labels know nothing of validation, validation labels nothing of out-of-sample, in
  // every fold of the walk-forward splitter.
  lemma WalkForwardDoesNotLeak(
    f: seq<Row>, g: seq<Row>, period: nat, delta: int, d: Definition, lower: Option<seq<LowerBar>>,
    later: Option<seq<LowerBar>>, raw: seq<int>, w: Splits.Windows, purge: int, embargo: int, k: nat, i: int, j: int)
    requires 0 < period && 0 < delta && 0 < d.horizon && 0 <= embargo && InOrder(f)
    requires Splits.RowMap(raw) && (forall m :: 0 <= m < |raw| ==> 0 <= raw[m] < |f| && raw[m] < |g|)
    requires Splits.WalkForward(|raw|, w, d.horizon, purge, embargo).Success?
    requires k < |Splits.WalkForward(|raw|, w, d.horizon, purge, embargo).value|
    requires Across(Splits.WalkForward(|raw|, w, d.horizon, purge, embargo).value[k], i, j)
    ensures 0 <= i < |raw| && 0 <= j < |raw| && raw[i] + d.horizon < raw[j]
    ensures AgreeBefore(f, g, raw[j], lower, later, f[raw[i] + d.horizon].openedAt + delta) ==>
              BarrierLabels.LabelAt(LabelInput(f, period, delta), raw[i], d, lower) ==
              BarrierLabels.LabelAt(LabelInput(g, period, delta), raw[i], d, later)
  {
    var fold := Splits.WalkForward(|raw|, w, d.horizon, purge, embargo).value[k];
    Splits.WalkIsCut(|raw|, w, d.horizon, purge, embargo, k);
    Splits.SplitsAreSeparated(|raw|, w, d.horizon, purge, embargo, raw, k);
    if fold.train.start <= i < fold.train.stop && fold.validation.start <= j < fold.validation.stop {
      NoLabelLeakage(f, g, period, delta, d, lower, later, raw, fold.train, fold.validation, i, j);
    } else {
      NoLabelLeakage(f, g, period, delta, d, lower, later, raw, fold.validation, fold.oos, i, j);
    }
  }

  lemma ChronologicalDoesNotLeak(
    f: seq<Row>, g: seq<Row>, period: nat, delta: int, d: Definition, lower: Option<seq<LowerBar>>,
    later: Option<seq<LowerBar>>, raw: seq<int>, trainFraction: real, validationFraction: real, purge: int,
    embargo: int, i: int, j: int)
    requires 0 < period && 0 < delta && 0 < d.horizon && 0 <= embargo && InOrder(f)
    requires Splits.RowMap(raw) && (forall m :: 0 <= m < |raw| ==> 0 <= raw[m] < |f| && raw[m] < |g|)
    requires Splits.ChronologicalSplit(|raw|, trainFraction, validationFraction, d.horizon, purge, embargo).Success?
    requires Across(
               Splits.ChronologicalSplit(|raw|, trainFraction, validationFraction, d.horizon, purge, embargo).value,
               i, j)
    ensures 0 <= i < |raw| && 0 <= j < |raw| && raw[i] + d.horizon < raw[j]
    ensures AgreeBefore(f, g, raw[j], lower, later, f[raw[i] + d.horizon].openedAt + delta) ==>
              BarrierLabels.LabelAt(LabelInput(f, period, delta), raw[i], d, lower) ==
              BarrierLabels.LabelAt(LabelInput(g, period, delta), raw[i], d, later)
  {
    var fold := Splits.ChronologicalSplit(|raw|, trainFraction, validationFraction, d.horizon, purge, embargo).value;
    Splits.ChronologicalIsCut(|raw|, trainFraction, validationFraction, d.horizon, purge, embargo);
    Splits.ChronologicalIsSeparated(|raw|, trainFraction, validationFraction, d.horizon, purge, embargo, raw);
    if fold.train.start <= i < fold.train.stop && fold.validation.start <= j < fold.validation.stop {
      NoLabelLeakage(f, g, period, delta, d, lower, later, raw, fold.train, fold.validation, i, j);
    } else {
      NoLabelLeakage(f, g, period, delta, d, lower, later, raw, fold.validation, fold.oos, i, j);
    }
  }

  // Without the candle opens a double touch is looked up between this bar's time and the
  // next one's, so the label does depend on the row just past the horizon.
  lemma WithoutOpensItPeeks() returns (f: seq<Bar>, g: seq<Bar>, d: Definition, lower: seq<LowerBar>)
    ensures 0 < d.horizon && |f| == |g| == 3 && f[..2] == g[..2] && d.horizon == 1
    ensures Chronological(f) && Chronological(g)
    ensures BarrierLabels.LabelAt(f, 0, d, Some(lower)).Some? && BarrierLabels.LabelAt(g, 0, d, Some(lower)).Some?
    ensures BarrierLabels.LabelAt(f, 0, d, Some(lower)) != BarrierLabels.LabelAt(g, 0, d, Some(lower))
  {
    d := BarrierLabels.Definition(
      1, BarrierLabels.ABSOLUTE, 1.0, 1.0, BarrierLabels.LONG, BarrierLabels.LOWER_TIMEFRAME);
    var quiet := BarrierLabels.Bar(10.0, 10.0, 10.0, None, 0, None);
    var both := BarrierLabels.Bar(12.0, 8.0, 10.0, None, 10, None);
    f := [quiet, both, quiet.(timestamp := 20)];
    g := [quiet, both, quiet.(timestamp := 12)];
    lower := [BarrierLabels.LowerBar(15, 11.5, 10.0)];
    assert f[1..2] == [both] && g[1..2] == [both];
    assert BarrierLabels.FirstTouch([both], 11.0, 9.0) == Some(0);
    var wide := BarrierLabels.ResolutionWindow(both, Some(f[2]));
    var narrow := BarrierLabels.ResolutionWindow(both, Some(g[2]));
    assert wide == BarrierLabels.Window(10, 20) && narrow == BarrierLabels.Window(10, 12);
    assert lower[1..] == [];
    assert BarrierLabels.Resolve(lower, wide, 11.0, 9.0) == BarrierLabels.UPPER_FIRST;
    assert BarrierLabels.Resolve(lower, narrow, 11.0, 9.0) == BarrierLabels.AMBIGUOUS;
  }
}
