/**
 ATR, RSI, directional movement and MACD over whole price series: causal, bounded, and
 valid from exactly the declared row.
 */
module Indicators {
  import opened Numerics
  import opened Smoothing

  datatype Candle = Candle(high: real, low: real, close: real)

  predicate Sound(c: Candle) {
    c.low <= c.close <= c.high
  }

  ghost predicate AllSound(c: seq<Candle>) {
    forall k :: 0 <= k < |c| ==> Sound(c[k])
  }

  // ----- Row by row -----

  function Range(before: Candle, c: Candle): real {
    Max(Max(c.high - c.low, Abs(c.high - before.close)), Abs(c.low - before.close))
  }

  function PlusMove(before: Candle, c: Candle): real {
    var up, down := c.high - before.high, before.low - c.low;
    if down < up && 0.0 < up then up else 0.0
  }

  function MinusMove(before: Candle, c: Candle): real {
    var up, down := c.high - before.high, before.low - c.low;
    if up < down && 0.0 < down then down else 0.0
  }

  function Gain(before: Candle, c: Candle): real {
    Max(c.close - before.close, 0.0)
  }

  function Loss(before: Candle, c: Candle): real {
    Max(before.close - c.close, 0.0)
  }

  // The first row has nothing before it to compare with.
  function Pairwise(c: seq<Candle>, f: (Candle, Candle) -> real): (s: Series)
    ensures |s| == |c|
  {
    seq(|c|, k requires 0 <= k < |c| => if k == 0 then None else Some(f(c[k - 1], c[k])))
  }

  function Rowwise(a: Series, b: Series, f: (real, real) -> Option<real>): (s: Series)
    requires |a| == |b|
    ensures |s| == |a|
  {
    seq(|a|, k requires 0 <= k < |a| => if a[k].Some? && b[k].Some? then f(a[k].value, b[k].value) else None)
  }

  // ----- The indicators -----

  function Percent(part: real, whole: real): real
    requires whole != 0.0
  {
    100.0 * part / whole
  }

  function Atr(c: seq<Candle>, period: nat): (s: Series)
    requires 0 < period
    ensures |s| == |c|
  {
    Wilder(Pairwise(c, Range), period)
  }

  function RsiOf(gain: real, loss: real): Option<real> {
    if gain + loss == 0.0 then Some(0.0)
    else if gain == 0.0 && 0.0 < loss then Some(0.0)
    else if loss == 0.0 && 0.0 < gain then Some(100.0)
    else Some(Percent(gain, gain + loss))
  }

  function Rsi(c: seq<Candle>, period: nat): (s: Series)
    requires 0 < period
    ensures |s| == |c|
  {
    Rowwise(Wilder(Pairwise(c, Gain), period), Wilder(Pairwise(c, Loss), period), RsiOf)
  }

  // Not finite where the average true range is zero.
  function DiOf(move: real, range: real): Option<real> {
    if range == 0.0 then None else Some(Percent(move, range))
  }

  function PlusDi(c: seq<Candle>, period: nat): (s: Series)
    requires 0 < period
    ensures |s| == |c|
  {
    Rowwise(Wilder(Pairwise(c, PlusMove), period), Atr(c, period), DiOf)
  }

  function MinusDi(c: seq<Candle>, period: nat): (s: Series)
    requires 0 < period
    ensures |s| == |c|
  {
    Rowwise(Wilder(Pairwise(c, MinusMove), period), Atr(c, period), DiOf)
  }

  function DxOf(plus: real, minus: real): Option<real> {
    if plus + minus == 0.0 then Some(0.0) else Some(Percent(Abs(plus - minus), plus + minus))
  }

  function Dx(c: seq<Candle>, period: nat): (s: Series)
    requires 0 < period
    ensures |s| == |c|
  {
    Rowwise(PlusDi(c, period), MinusDi(c, period), DxOf)
  }

  function Adx(c: seq<Candle>, period: nat): (s: Series)
    requires 0 < period
    ensures |s| == |c|
  {
    Wilder(Dx(c, period), period)
  }

  function Closes(c: seq<Candle>): (s: Series)
    ensures |s| == |c|
  {
    seq(|c|, k requires 0 <= k < |c| => Some(c[k].close))
  }

  function Difference(a: real, b: real): Option<real> {
    Some(a - b)
  }

  function Macd(c: seq<Candle>, fast: nat, slow: nat): (s: Series)
    requires 0 < fast && 0 < slow
    ensures |s| == |c|
  {
    Rowwise(SeededEma(Closes(c), fast), SeededEma(Closes(c), slow), Difference)
  }

  function MacdSignal(c: seq<Candle>, fast: nat, slow: nat, signal: nat): (s: Series)
    requires 0 < fast && 0 < slow && 0 < signal
    ensures |s| == |c|
  {
    SeededEma(Macd(c, fast, slow), signal)
  }

  // ----- Causality -----

  lemma PairwiseIsCausal(c: seq<Candle>, f: (Candle, Candle) -> real, n: nat)
    requires n <= |c|
    ensures Pairwise(c[..n], f) == Pairwise(c, f)[..n]
  {
  }

  lemma RowwiseIsCausal(a: Series, b: Series, f: (real, real) -> Option<real>, n: nat)
    requires |a| == |b| && n <= |a|
    ensures Rowwise(a[..n], b[..n], f) == Rowwise(a, b, f)[..n]
  {
  }

  lemma AveragedMoveIsCausal(c: seq<Candle>, f: (Candle, Candle) -> real, period: nat, n: nat)
    requires 0 < period && n <= |c|
    ensures Wilder(Pairwise(c[..n], f), period) == Wilder(Pairwise(c, f), period)[..n]
  {
    PairwiseIsCausal(c, f, n);
    SmoothIsCausal(Pairwise(c, f), period, Towards(WilderAlpha(period)), n);
  }

  // No later bar changes an emitted value, however the averages are composed.
  lemma IndicatorsAreCausal(c: seq<Candle>, period: nat, fast: nat, slow: nat, signal: nat, n: nat)
    requires 0 < period && 0 < fast && 0 < slow && 0 < signal && n <= |c|
    ensures Atr(c[..n], period) == Atr(c, period)[..n]
    ensures Rsi(c[..n], period) == Rsi(c, period)[..n]
    ensures PlusDi(c[..n], period) == PlusDi(c, period)[..n]
    ensures MinusDi(c[..n], period) == MinusDi(c, period)[..n]
    ensures Adx(c[..n], period) == Adx(c, period)[..n]
    ensures MacdSignal(c[..n], fast, slow, signal) == MacdSignal(c, fast, slow, signal)[..n]
  {
    AveragedMoveIsCausal(c, Range, period, n);
    RsiIsCausal(c, period, n);
    DiIsCausal(c, period, n);
    RowwiseIsCausal(PlusDi(c, period), MinusDi(c, period), DxOf, n);
    SmoothIsCausal(Dx(c, period), period, Towards(WilderAlpha(period)), n);
    MacdIsCausal(c, fast, slow, signal, n);
  }

  lemma RsiIsCausal(c: seq<Candle>, period: nat, n: nat)
    requires 0 < period && n <= |c|
    ensures Rsi(c[..n], period) == Rsi(c, period)[..n]
  {
    AveragedMoveIsCausal(c, Gain, period, n);
    AveragedMoveIsCausal(c, Loss, period, n);
    RowwiseIsCausal(Wilder(Pairwise(c, Gain), period), Wilder(Pairwise(c, Loss), period), RsiOf, n);
  }

  lemma DiIsCausal(c: seq<Candle>, period: nat, n: nat)
    requires 0 < period && n <= |c|
    ensures PlusDi(c[..n], period) == PlusDi(c, period)[..n]
    ensures MinusDi(c[..n], period) == MinusDi(c, period)[..n]
  {
    AveragedMoveIsCausal(c, Range, period, n);
    AveragedMoveIsCausal(c, PlusMove, period, n);
    AveragedMoveIsCausal(c, MinusMove, period, n);
    RowwiseIsCausal(Wilder(Pairwise(c, PlusMove), period), Atr(c, period), DiOf, n);
    RowwiseIsCausal(Wilder(Pairwise(c, MinusMove), period), Atr(c, period), DiOf, n);
  }

  lemma MacdIsCausal(c: seq<Candle>, fast: nat, slow: nat, signal: nat, n: nat)
    requires 0 < fast && 0 < slow && 0 < signal && n <= |c|
    ensures MacdSignal(c[..n], fast, slow, signal) == MacdSignal(c, fast, slow, signal)[..n]
  {
    assert Closes(c[..n]) == Closes(c)[..n];
    SmoothIsCausal(Closes(c), fast, Towards(EmaAlpha(fast)), n);
    SmoothIsCausal(Closes(c), slow, Towards(EmaAlpha(slow)), n);
    RowwiseIsCausal(SeededEma(Closes(c), fast), SeededEma(Closes(c), slow), Difference, n);
    SmoothIsCausal(Macd(c, fast, slow), signal, Towards(EmaAlpha(signal)), n);
  }

  // ----- Bounds -----

  // A bar's directional moves cannot both count, and neither exceeds the true range.
  lemma MovesFitTheRange(before: Candle, c: Candle)
    requires Sound(before) && Sound(c)
    ensures 0.0 <= PlusMove(before, c) && 0.0 <= MinusMove(before, c)
    ensures PlusMove(before, c) + MinusMove(before, c) <= Range(before, c)
  {
  }

  function BothMoves(before: Candle, c: Candle): real {
    PlusMove(before, c) + MinusMove(before, c)
  }

  lemma MovesAlign(c: seq<Candle>)
    requires AllSound(c)
    ensures Adds(Pairwise(c, BothMoves), Pairwise(c, PlusMove), Pairwise(c, MinusMove))
    ensures Below(Pairwise(c, BothMoves), Pairwise(c, Range))
    ensures NotNegative(Pairwise(c, PlusMove)) && NotNegative(Pairwise(c, MinusMove))
    ensures NotNegative(Pairwise(c, Range))
  {
    forall j | 0 < j < |c|
      ensures 0.0 <= PlusMove(c[j - 1], c[j]) && 0.0 <= MinusMove(c[j - 1], c[j])
      ensures BothMoves(c[j - 1], c[j]) <= Range(c[j - 1], c[j])
    {
      MovesFitTheRange(c[j - 1], c[j]);
    }
  }

  lemma Percentage(part: real, whole: real)
    requires 0.0 <= part <= whole && 0.0 < whole
    ensures 0.0 <= Percent(part, whole) <= 100.0
  {
    ShareWithin(100.0 * part, whole, 0.0, 100.0);
  }

  lemma PercentagesAdd(a: real, b: real, whole: real)
    requires 0.0 <= a && 0.0 <= b && a + b <= whole && 0.0 < whole
    ensures 0.0 <= Percent(a, whole) && 0.0 <= Percent(b, whole)
    ensures Percent(a, whole) + Percent(b, whole) <= 100.0
  {
    Percentage(a + b, whole);
    Percentage(a, whole);
    Percentage(b, whole);
    DivideSum(100.0 * a, 100.0 * b, whole);
    assert 100.0 * (a + b) == 100.0 * a + 100.0 * b;
  }

  lemma RowOf(a: Series, b: Series, f: (real, real) -> Option<real>, k: nat)
    requires |a| == |b| && k < |a|
    ensures Rowwise(a, b, f)[k] == if a[k].Some? && b[k].Some? then f(a[k].value, b[k].value) else None
  {
  }

  // Wherever the average true range is positive, +DI and -DI are defined, not negative, and
  // add up to at most 100.
  lemma DiAddsUpToAtMost100(c: seq<Candle>, period: nat, k: nat)
    requires 0 < period && AllSound(c) && k < |c|
    requires Atr(c, period)[k].Some? && 0.0 < Atr(c, period)[k].value
    ensures PlusDi(c, period)[k].Some? && MinusDi(c, period)[k].Some?
    ensures 0.0 <= PlusDi(c, period)[k].value && 0.0 <= MinusDi(c, period)[k].value
    ensures PlusDi(c, period)[k].value + MinusDi(c, period)[k].value <= 100.0
  {
    var plus, minus, range := Pairwise(c, PlusMove), Pairwise(c, MinusMove), Pairwise(c, Range);
    MovesAlign(c);
    WilderPartsFit(plus, minus, Pairwise(c, BothMoves), range, period, k);
    WilderIsNotNegative(plus, period, k);
    WilderIsNotNegative(minus, period, k);
    DiRow(Wilder(plus, period), Wilder(minus, period), Wilder(range, period), k);
  }

  lemma DiRow(plus: Series, minus: Series, range: Series, k: nat)
    requires |plus| == |minus| == |range| && k < |plus|
    requires plus[k].Some? && minus[k].Some? && range[k].Some?
    requires 0.0 <= plus[k].value && 0.0 <= minus[k].value && 0.0 < range[k].value
    requires plus[k].value + minus[k].value <= range[k].value
    ensures var p, m := Rowwise(plus, range, DiOf)[k], Rowwise(minus, range, DiOf)[k];
            p.Some? && m.Some? && 0.0 <= p.value && 0.0 <= m.value && p.value + m.value <= 100.0
  {
    PercentagesAdd(plus[k].value, minus[k].value, range[k].value);
    RowOf(plus, range, DiOf, k);
    RowOf(minus, range, DiOf, k);
  }

  lemma DxIsAPercentage(plus: real, minus: real)
    requires 0.0 <= plus && 0.0 <= minus
    ensures DxOf(plus, minus).Some? && 0.0 <= DxOf(plus, minus).value <= 100.0
  {
    if plus + minus != 0.0 {
      Percentage(Abs(plus - minus), plus + minus);
    }
  }

  lemma DxRow(c: seq<Candle>, period: nat, k: nat)
    requires 0 < period && AllSound(c) && k < |c| && Dx(c, period)[k].Some?
    ensures 0.0 <= Dx(c, period)[k].value <= 100.0
  {
    var plus, minus := Wilder(Pairwise(c, PlusMove), period), Wilder(Pairwise(c, MinusMove), period);
    var range := Atr(c, period);
    RowOf(PlusDi(c, period), MinusDi(c, period), DxOf, k);
    RowOf(plus, range, DiOf, k);
    MovesAlign(c);
    WilderIsNotNegative(Pairwise(c, Range), period, k);
    assert range[k].Some? && 0.0 < range[k].value;
    DiAddsUpToAtMost100(c, period, k);
    DxIsAPercentage(PlusDi(c, period)[k].value, MinusDi(c, period)[k].value);
  }

  // ADX lies between 0 and 100 wherever it is defined.
  lemma AdxIsAPercentage(c: seq<Candle>, period: nat, k: nat)
    requires 0 < period && AllSound(c) && k < |c| && Adx(c, period)[k].Some?
    ensures 0.0 <= Adx(c, period)[k].value <= 100.0
  {
    var dx := Dx(c, period);
    forall j | 0 <= j < |dx| && dx[j].Some?
      ensures 0.0 <= dx[j].value <= 100.0
    {
      DxRow(c, period, j);
    }
    WilderIsWithin(dx, period, 0.0, 100.0, k);
  }

  lemma RsiOfIsAPercentage(gain: real, loss: real)
    requires 0.0 <= gain && 0.0 <= loss
    ensures RsiOf(gain, loss).Some? && 0.0 <= RsiOf(gain, loss).value <= 100.0
  {
    if gain + loss != 0.0 {
      Percentage(gain, gain + loss);
    }
  }

  // RSI lies between 0 and 100 wherever it is defined, for every price series.
  lemma RsiIsAPercentage(c: seq<Candle>, period: nat, k: nat)
    requires 0 < period && k < |c| && Rsi(c, period)[k].Some?
    ensures 0.0 <= Rsi(c, period)[k].value <= 100.0
  {
    var gains, losses := Pairwise(c, Gain), Pairwise(c, Loss);
    RowOf(Wilder(gains, period), Wilder(losses, period), RsiOf, k);
    assert NotNegative(gains) && NotNegative(losses);
    WilderIsNotNegative(gains, period, k);
    WilderIsNotNegative(losses, period, k);
    RsiOfIsAPercentage(Wilder(gains, period)[k].value, Wilder(losses, period)[k].value);
  }

  // ----- The declared warm-up -----

  datatype Output = ATR | RSI | DI | ADX | MACD_SIGNAL

  // The lookback the feature registry declares for an output.
  function DeclaredLookback(o: Output, period: nat, slow: nat, signal: nat): int {
    match o
    case ATR => period + 1
    case RSI => period + 1
    case DI => period + 1
    case ADX => 2 * period
    case MACD_SIGNAL => slow + signal - 1
  }

  lemma AveragedMoveStarts(c: seq<Candle>, f: (Candle, Candle) -> real, period: nat)
    requires 0 < period
    ensures ValidFrom(Wilder(Pairwise(c, f), period), period)
  {
    SmoothDelays(Pairwise(c, f), period, Towards(WilderAlpha(period)), 1);
  }

  // ATR is valid from exactly the row its declared lookback completes.
  lemma AtrWarmUpIsExact(c: seq<Candle>, period: nat)
    requires 0 < period
    ensures ValidFrom(Atr(c, period), DeclaredLookback(ATR, period, 0, 0) - 1)
  {
    AveragedMoveStarts(c, Range, period);
  }

  lemma RowwiseStarts(a: Series, b: Series, f: (real, real) -> Option<real>, m: nat, n: nat)
    requires |a| == |b| && ValidFrom(a, m) && ValidFrom(b, n)
    requires forall k :: 0 <= k < |a| && a[k].Some? && b[k].Some? ==> f(a[k].value, b[k].value).Some?
    ensures ValidFrom(Rowwise(a, b, f), if m <= n then n else m)
  {
  }

  lemma GainsAreNotNegative(c: seq<Candle>)
    ensures NotNegative(Pairwise(c, Gain)) && NotNegative(Pairwise(c, Loss))
  {
  }

  // So is RSI.
  lemma RsiWarmUpIsExact(c: seq<Candle>, period: nat)
    requires 0 < period
    ensures ValidFrom(Rsi(c, period), DeclaredLookback(RSI, period, 0, 0) - 1)
  {
    var gains, losses := Wilder(Pairwise(c, Gain), period), Wilder(Pairwise(c, Loss), period);
    AveragedMoveStarts(c, Gain, period);
    AveragedMoveStarts(c, Loss, period);
    GainsAreNotNegative(c);
    forall k | 0 <= k < |c| && gains[k].Some? && losses[k].Some?
      ensures RsiOf(gains[k].value, losses[k].value).Some?
    {
      RsiOfIsDefined(gains[k].value, losses[k].value);
    }
    RowwiseStarts(gains, losses, RsiOf, period, period);
  }

  lemma RsiOfIsDefined(gain: real, loss: real)
    ensures RsiOf(gain, loss).Some?
  {
  }

  ghost predicate PositiveAtr(c: seq<Candle>, period: nat)
    requires 0 < period
  {
    forall k :: 0 <= k < |c| && Atr(c, period)[k].Some? ==> 0.0 < Atr(c, period)[k].value
  }

  lemma DiStarts(c: seq<Candle>, period: nat)
    requires 0 < period && PositiveAtr(c, period)
    ensures ValidFrom(PlusDi(c, period), period) && ValidFrom(MinusDi(c, period), period)
  {
    var plus, minus := Wilder(Pairwise(c, PlusMove), period), Wilder(Pairwise(c, MinusMove), period);
    var range := Atr(c, period);
    AveragedMoveStarts(c, Range, period);
    AveragedMoveStarts(c, PlusMove, period);
    AveragedMoveStarts(c, MinusMove, period);
    forall k | 0 <= k < |c|
      ensures plus[k].Some? && range[k].Some? ==> DiOf(plus[k].value, range[k].value).Some?
      ensures minus[k].Some? && range[k].Some? ==> DiOf(minus[k].value, range[k].value).Some?
    {
    }
    RowwiseStarts(plus, range, DiOf, period, period);
    RowwiseStarts(minus, range, DiOf, period, period);
  }

  // And so are +DI, -DI and, one more averaging later, ADX, while the market keeps moving.
  lemma DirectionalWarmUpIsExact(c: seq<Candle>, period: nat)
    requires 0 < period && PositiveAtr(c, period)
    ensures ValidFrom(PlusDi(c, period), DeclaredLookback(DI, period, 0, 0) - 1)
    ensures ValidFrom(MinusDi(c, period), DeclaredLookback(DI, period, 0, 0) - 1)
    ensures ValidFrom(Adx(c, period), DeclaredLookback(ADX, period, 0, 0) - 1)
  {
    var plus, minus := PlusDi(c, period), MinusDi(c, period);
    DiStarts(c, period);
    forall k | 0 <= k < |c| && plus[k].Some? && minus[k].Some?
      ensures DxOf(plus[k].value, minus[k].value).Some?
    {
    }
    RowwiseStarts(plus, minus, DxOf, period, period);
    SmoothDelays(Dx(c, period), period, Towards(WilderAlpha(period)), period);
  }

  lemma MacdStarts(c: seq<Candle>, fast: nat, slow: nat)
    requires 0 < fast && 0 < slow
    ensures ValidFrom(Macd(c, fast, slow), if fast <= slow then slow - 1 else fast - 1)
  {
    var quick, slowly := SeededEma(Closes(c), fast), SeededEma(Closes(c), slow);
    assert ValidFrom(Closes(c), 0);
    SmoothDelays(Closes(c), fast, Towards(EmaAlpha(fast)), 0);
    SmoothDelays(Closes(c), slow, Towards(EmaAlpha(slow)), 0);
    RowwiseStarts(quick, slowly, Difference, fast - 1, slow - 1);
  }

  // The MACD signal too, when the fast period does not exceed the slow one; otherwise it
  // starts later than declared.
  lemma MacdWarmUpIsExact(c: seq<Candle>, fast: nat, slow: nat, signal: nat)
    requires 0 < fast && 0 < slow && 0 < signal
    ensures fast <= slow ==>
              ValidFrom(MacdSignal(c, fast, slow, signal), DeclaredLookback(MACD_SIGNAL, 0, slow, signal) - 1)
    ensures slow < fast ==> ValidFrom(MacdSignal(c, fast, slow, signal), fast + signal - 2)
  {
    MacdStarts(c, fast, slow);
    SmoothDelays(Macd(c, fast, slow), signal, Towards(EmaAlpha(signal)), if fast <= slow then slow - 1 else fast - 1);
  }
}
