/**
 Delayed swing pivots, breaks of structure, changes of character and the bias they leave,
 and the Supertrend bands. Everything at row k is specified from rows 0 to k.
 */
module MarketStructure {
  import opened Numerics
  import opened Smoothing
  import opened Indicators

  // ----- Swing pivots, emitted right bars late -----

  // The value left and right bars around it do not exceed.
  predicate IsTop(s: seq<real>, pivot: nat, left: nat, right: nat)
    requires left <= pivot && pivot + right < |s|
  {
    forall j :: pivot - left <= j <= pivot + right ==> s[j] <= s[pivot]
  }

  predicate IsBottom(s: seq<real>, pivot: nat, left: nat, right: nat)
    requires left <= pivot && pivot + right < |s|
  {
    forall j :: pivot - left <= j <= pivot + right ==> s[pivot] <= s[j]
  }

  function SwingHigh(high: seq<real>, left: nat, right: nat, k: nat): Option<real>
    requires k < |high|
  {
    if left + right <= k && IsTop(high, k - right, left, right) then Some(high[k - right]) else None
  }

  function SwingLow(low: seq<real>, left: nat, right: nat, k: nat): Option<real>
    requires k < |low|
  {
    if left + right <= k && IsBottom(low, k - right, left, right) then Some(low[k - right]) else None
  }

  // The last swing high emitted before row k: the resistance row k meets.
  function LastHigh(high: seq<real>, left: nat, right: nat, k: nat): Option<real>
    requires k <= |high|
  {
    if k == 0 then None
    else if SwingHigh(high, left, right, k - 1).Some? then SwingHigh(high, left, right, k - 1)
    else LastHigh(high, left, right, k - 1)
  }

  function LastLow(low: seq<real>, left: nat, right: nat, k: nat): Option<real>
    requires k <= |low|
  {
    if k == 0 then None
    else if SwingLow(low, left, right, k - 1).Some? then SwingLow(low, left, right, k - 1)
    else LastLow(low, left, right, k - 1)
  }

  // What a row says about a swing: its value, and whether it went beyond the one before it
  // or fell short of it. Nothing is said before the first possible confirmation.
  datatype PivotRow = PivotRow(swing: Option<real>, beyond: Option<bool>, short: Option<bool>)

  const BLANK := PivotRow(None, None, None)

  function HighRow(swing: Option<real>, last: Option<real>): PivotRow {
    if swing.Some? && last.Some? then
      PivotRow(swing, Some(last.value < swing.value), Some(swing.value <= last.value))
    else
      PivotRow(swing, Some(false), Some(false))
  }

  function LowRow(swing: Option<real>, last: Option<real>): PivotRow {
    if swing.Some? && last.Some? then
      PivotRow(swing, Some(swing.value < last.value), Some(last.value <= swing.value))
    else
      PivotRow(swing, Some(false), Some(false))
  }

  function HighRowAt(high: seq<real>, left: nat, right: nat, k: nat): PivotRow
    requires k < |high|
  {
    if k < left + right then BLANK
    else HighRow(SwingHigh(high, left, right, k), LastHigh(high, left, right, k))
  }

  function LowRowAt(low: seq<real>, left: nat, right: nat, k: nat): PivotRow
    requires k < |low|
  {
    if k < left + right then BLANK
    else LowRow(SwingLow(low, left, right, k), LastLow(low, left, right, k))
  }

  function HighRows(high: seq<real>, left: nat, right: nat): (rows: seq<PivotRow>)
    ensures |rows| == |high|
  {
    seq(|high|, k requires 0 <= k < |high| => HighRowAt(high, left, right, k))
  }

  function LowRows(low: seq<real>, left: nat, right: nat): (rows: seq<PivotRow>)
    ensures |rows| == |low|
  {
    seq(|low|, k requires 0 <= k < |low| => LowRowAt(low, left, right, k))
  }

  // One pass over the confirmed rows, carrying the last swing high and the last swing low.
  method FindPivots(high: seq<real>, low: seq<real>, left: nat, right: nat)
    returns (highs: array<PivotRow>, lows: array<PivotRow>)
    requires |high| == |low|
    ensures highs[..] == HighRows(high, left, right)
    ensures lows[..] == LowRows(low, left, right)
  {
    ghost var expectedHighs, expectedLows := HighRows(high, left, right), LowRows(low, left, right);
    highs := new PivotRow[|high|](_ => BLANK);
    lows := new PivotRow[|low|](_ => BLANK);
    var lastHigh: Option<real> := None;
    var lastLow: Option<real> := None;
    var confirmedAt := left + right;
    if |high| < confirmedAt {
      return;
    }
    NothingBefore(high, low, left, right, confirmedAt);
    while confirmedAt < |high|
      invariant left + right <= confirmedAt <= |high|
      invariant lastHigh == LastHigh(high, left, right, confirmedAt)
      invariant lastLow == LastLow(low, left, right, confirmedAt)
      invariant forall k :: 0 <= k < confirmedAt ==> highs[k] == expectedHighs[k] && lows[k] == expectedLows[k]
    {
      var pivot := confirmedAt - right;
      var top := if IsTop(high, pivot, left, right) then Some(high[pivot]) else None;
      var bottom := if IsBottom(low, pivot, left, right) then Some(low[pivot]) else None;
      RowsOfPivot(high, low, left, right, confirmedAt);
      highs[confirmedAt] := HighRow(top, lastHigh);
      lows[confirmedAt] := LowRow(bottom, lastLow);
      if top.Some? {
        lastHigh := top;
      }
      if bottom.Some? {
        lastLow := bottom;
      }
      confirmedAt := confirmedAt + 1;
    }
  }

  lemma RowsOfPivot(high: seq<real>, low: seq<real>, left: nat, right: nat, k: nat)
    requires |high| == |low| && left + right <= k < |high|
    ensures var top := if IsTop(high, k - right, left, right) then Some(high[k - right]) else None;
            && HighRows(high, left, right)[k] == HighRow(top, LastHigh(high, left, right, k))
            && LastHigh(high, left, right, k + 1) == if top.Some? then top else LastHigh(high, left, right, k)
    ensures var bottom := if IsBottom(low, k - right, left, right) then Some(low[k - right]) else None;
            && LowRows(low, left, right)[k] == LowRow(bottom, LastLow(low, left, right, k))
            && LastLow(low, left, right, k + 1) == if bottom.Some? then bottom else LastLow(low, left, right, k)
  {
  }

  lemma {:induction false} NothingBefore(high: seq<real>, low: seq<real>, left: nat, right: nat, k: nat)
    requires |high| == |low| && k <= |high| && k <= left + right
    ensures LastHigh(high, left, right, k) == None && LastLow(low, left, right, k) == None
  {
    if 0 < k {
      NothingBefore(high, low, left, right, k - 1);
    }
  }

  // ----- Breaks of structure and the bias -----

  datatype Market = Market(high: seq<real>, low: seq<real>, close: seq<real>, left: nat, right: nat)

  predicate ValidMarket(m: Market) {
    |m.high| == |m.low| == |m.close|
  }

  // None where there is no level to break yet.
  function BosUp(m: Market, k: nat): Option<bool>
    requires ValidMarket(m) && k < |m.close|
  {
    var level := LastHigh(m.high, m.left, m.right, k);
    if level.None? then None else Some(0 < k && level.value < m.close[k] && m.close[k - 1] <= level.value)
  }

  function BosDown(m: Market, k: nat): Option<bool>
    requires ValidMarket(m) && k < |m.close|
  {
    var level := LastLow(m.low, m.left, m.right, k);
    if level.None? then None else Some(0 < k && m.close[k] < level.value && level.value <= m.close[k - 1])
  }

  datatype Bias = NEUTRAL | UP | DOWN

  // The bias the first k rows leave.
  function BiasAfter(up: seq<Option<bool>>, down: seq<Option<bool>>, k: nat): Bias
    requires |up| == |down| && k <= |up|
  {
    if k == 0 then NEUTRAL
    else if up[k - 1] == Some(true) then UP
    else if down[k - 1] == Some(true) then DOWN
    else BiasAfter(up, down, k - 1)
  }

  predicate Known(up: seq<Option<bool>>, down: seq<Option<bool>>, k: nat)
    requires |up| == |down| && k < |up|
  {
    up[k].Some? || down[k].Some?
  }

  function ChochUp(up: seq<Option<bool>>, down: seq<Option<bool>>, k: nat): Option<bool>
    requires |up| == |down| && k < |up|
  {
    if Known(up, down, k) then Some(up[k] == Some(true) && BiasAfter(up, down, k) == DOWN) else None
  }

  function ChochDown(up: seq<Option<bool>>, down: seq<Option<bool>>, k: nat): Option<bool>
    requires |up| == |down| && k < |up|
  {
    if Known(up, down, k) then Some(down[k] == Some(true) && BiasAfter(up, down, k) == UP) else None
  }

  method FindBias(up: seq<Option<bool>>, down: seq<Option<bool>>)
    returns (bias: array<Option<Bias>>, chochUp: array<Option<bool>>, chochDown: array<Option<bool>>)
    requires |up| == |down|
    ensures bias.Length == chochUp.Length == chochDown.Length == |up|
    ensures forall k :: 0 <= k < |up| ==>
              && bias[k] == (if Known(up, down, k) then Some(BiasAfter(up, down, k + 1)) else None)
              && chochUp[k] == ChochUp(up, down, k)
              && chochDown[k] == ChochDown(up, down, k)
  {
    bias := new Option<Bias>[|up|](_ => None);
    chochUp := new Option<bool>[|up|](_ => None);
    chochDown := new Option<bool>[|up|](_ => None);
    var current := NEUTRAL;
    for position := 0 to |up|
      invariant current == BiasAfter(up, down, position)
      invariant forall k :: position <= k < |up| ==> bias[k] == None && chochUp[k] == None && chochDown[k] == None
      invariant forall k :: 0 <= k < position ==>
                  && bias[k] == (if Known(up, down, k) then Some(BiasAfter(up, down, k + 1)) else None)
                  && chochUp[k] == ChochUp(up, down, k)
                  && chochDown[k] == ChochDown(up, down, k)
    {
      if up[position].None? && down[position].None? {
        continue;
      }
      chochUp[position] := Some(up[position] == Some(true) && current == DOWN);
      chochDown[position] := Some(down[position] == Some(true) && current == UP);
      if up[position] == Some(true) {
        current := UP;
      } else if down[position] == Some(true) {
        current := DOWN;
      }
      bias[position] := Some(current);
    }
  }

  function Breaks(m: Market, up: bool): (s: seq<Option<bool>>)
    requires ValidMarket(m)
    ensures |s| == |m.close|
  {
    seq(|m.close|, k requires 0 <= k < |m.close| => if up then BosUp(m, k) else BosDown(m, k))
  }

  predicate Broke(up: seq<Option<bool>>, down: seq<Option<bool>>, k: nat)
    requires |up| == |down| && k < |up|
  {
    up[k] == Some(true) || down[k] == Some(true)
  }

  // The last break among the first k rows.
  predicate LastBreak(up: seq<Option<bool>>, down: seq<Option<bool>>, j: nat, k: nat)
    requires |up| == |down| && k <= |up|
  {
    j < k && Broke(up, down, j) && forall i :: j < i < k ==> !Broke(up, down, i)
  }

  // The bias is the direction of the last break, and a change of character is exactly a
  // break against it.
  lemma {:induction false} BiasIsTheLastBreak(up: seq<Option<bool>>, down: seq<Option<bool>>, j: nat, k: nat)
    requires |up| == |down| && k <= |up| && LastBreak(up, down, j, k)
    ensures BiasAfter(up, down, k) == if up[j] == Some(true) then UP else DOWN
  {
    if j + 1 < k {
      assert !Broke(up, down, k - 1);
      BiasIsTheLastBreak(up, down, j, k - 1);
    }
  }

  lemma {:induction false} NoBreakNoBias(up: seq<Option<bool>>, down: seq<Option<bool>>, k: nat)
    requires |up| == |down| && k <= |up| && (forall i :: 0 <= i < k ==> !Broke(up, down, i))
    ensures BiasAfter(up, down, k) == NEUTRAL
  {
    if 0 < k {
      assert !Broke(up, down, k - 1);
      NoBreakNoBias(up, down, k - 1);
    }
  }

  lemma {:induction false} SomeLastBreak(up: seq<Option<bool>>, down: seq<Option<bool>>, k: nat) returns (j: nat)
    requires |up| == |down| && k <= |up| && BiasAfter(up, down, k) != NEUTRAL
    ensures LastBreak(up, down, j, k)
  {
    if Broke(up, down, k - 1) {
      j := k - 1;
    } else {
      j := SomeLastBreak(up, down, k - 1);
    }
  }

  lemma OneLastBreak(up: seq<Option<bool>>, down: seq<Option<bool>>, i: nat, j: nat, k: nat)
    requires |up| == |down| && k <= |up| && LastBreak(up, down, i, k) && LastBreak(up, down, j, k)
    ensures i == j
  {
  }

  lemma ChochReversesTheLastBreak(up: seq<Option<bool>>, down: seq<Option<bool>>, k: nat)
    requires |up| == |down| && k < |up|
    ensures ChochUp(up, down, k) == Some(true) <==>
            up[k] == Some(true) && exists j: nat :: LastBreak(up, down, j, k) && up[j] != Some(true)
    ensures ChochDown(up, down, k) == Some(true) <==>
            down[k] == Some(true) && exists j: nat :: LastBreak(up, down, j, k) && up[j] == Some(true)
  {
    if BiasAfter(up, down, k) != NEUTRAL {
      var j := SomeLastBreak(up, down, k);
      BiasIsTheLastBreak(up, down, j, k);
      forall i: nat | LastBreak(up, down, i, k)
        ensures i == j
      {
        OneLastBreak(up, down, i, j, k);
      }
    } else {
      forall i: nat
        ensures !LastBreak(up, down, i, k)
      {
        if LastBreak(up, down, i, k) {
          BiasIsTheLastBreak(up, down, i, k);
        }
      }
    }
  }

  // ----- Causality -----

  function Cut(m: Market, n: nat): Market
    requires ValidMarket(m) && n <= |m.close|
  {
    m.(high := m.high[..n], low := m.low[..n], close := m.close[..n])
  }

  lemma {:induction false} HighsAreLocal(s: seq<real>, left: nat, right: nat, n: nat, k: nat)
    requires k <= n <= |s|
    ensures LastHigh(s[..n], left, right, k) == LastHigh(s, left, right, k)
    ensures k < n ==> SwingHigh(s[..n], left, right, k) == SwingHigh(s, left, right, k)
  {
    if k < n && left + right <= k {
      TopIsLocal(s, left, right, n, k);
    }
    if 0 < k {
      HighsAreLocal(s, left, right, n, k - 1);
    }
  }

  lemma TopIsLocal(s: seq<real>, left: nat, right: nat, n: nat, k: nat)
    requires left + right <= k < n <= |s|
    ensures IsTop(s[..n], k - right, left, right) <==> IsTop(s, k - right, left, right)
    ensures IsBottom(s[..n], k - right, left, right) <==> IsBottom(s, k - right, left, right)
  {
    var cut, pivot := s[..n], k - right;
    assert forall j :: pivot - left <= j <= pivot + right ==> cut[j] == s[j];
  }

  lemma {:induction false} LowsAreLocal(s: seq<real>, left: nat, right: nat, n: nat, k: nat)
    requires k <= n <= |s|
    ensures LastLow(s[..n], left, right, k) == LastLow(s, left, right, k)
    ensures k < n ==> SwingLow(s[..n], left, right, k) == SwingLow(s, left, right, k)
  {
    if k < n && left + right <= k {
      TopIsLocal(s, left, right, n, k);
    }
    if 0 < k {
      LowsAreLocal(s, left, right, n, k - 1);
    }
  }

  lemma {:induction false} BiasIsLocal(up: seq<Option<bool>>, down: seq<Option<bool>>, n: nat, k: nat)
    requires |up| == |down| && k <= n <= |up|
    ensures BiasAfter(up[..n], down[..n], k) == BiasAfter(up, down, k)
  {
    if 0 < k {
      BiasIsLocal(up, down, n, k - 1);
    }
  }

  lemma ChochIsLocal(up: seq<Option<bool>>, down: seq<Option<bool>>, n: nat, k: nat)
    requires |up| == |down| && k < n <= |up|
    ensures ChochUp(up[..n], down[..n], k) == ChochUp(up, down, k)
    ensures ChochDown(up[..n], down[..n], k) == ChochDown(up, down, k)
  {
    BiasIsLocal(up, down, n, k);
  }

  lemma BreaksAreCausal(m: Market, n: nat)
    requires ValidMarket(m) && n <= |m.close|
    ensures Breaks(Cut(m, n), true) == Breaks(m, true)[..n]
    ensures Breaks(Cut(m, n), false) == Breaks(m, false)[..n]
  {
    forall k | 0 <= k < n
      ensures BosUp(Cut(m, n), k) == BosUp(m, k) && BosDown(Cut(m, n), k) == BosDown(m, k)
    {
      HighsAreLocal(m.high, m.left, m.right, n, k);
      LowsAreLocal(m.low, m.left, m.right, n, k);
    }
  }

  // No later bar changes an emitted pivot, break, change of character or bias.
  lemma StructureIsCausal(m: Market, n: nat, k: nat)
    requires ValidMarket(m) && k < n <= |m.close|
    ensures HighRowAt(m.high[..n], m.left, m.right, k) == HighRowAt(m.high, m.left, m.right, k)
    ensures LowRowAt(m.low[..n], m.left, m.right, k) == LowRowAt(m.low, m.left, m.right, k)
    ensures var up, down := Breaks(m, true), Breaks(m, false);
            var cutUp, cutDown := Breaks(Cut(m, n), true), Breaks(Cut(m, n), false);
            && cutUp[k] == up[k] && cutDown[k] == down[k]
            && ChochUp(cutUp, cutDown, k) == ChochUp(up, down, k)
            && ChochDown(cutUp, cutDown, k) == ChochDown(up, down, k)
            && BiasAfter(cutUp, cutDown, k + 1) == BiasAfter(up, down, k + 1)
  {
    HighsAreLocal(m.high, m.left, m.right, n, k);
    LowsAreLocal(m.low, m.left, m.right, n, k);
    BreaksAreCausal(m, n);
    ChochIsLocal(Breaks(m, true), Breaks(m, false), n, k);
    BiasIsLocal(Breaks(m, true), Breaks(m, false), n, k + 1);
  }

  // A swing is never backdated: the row that first shows a pivot comes right bars after it,
  // and the pivot tops everything up to that very row.
  lemma PivotsAreConfirmedLate(m: Market, k: nat)
    requires ValidMarket(m) && k < |m.close| && SwingHigh(m.high, m.left, m.right, k).Some?
    ensures m.left + m.right <= k
    ensures SwingHigh(m.high, m.left, m.right, k).value == m.high[k - m.right]
    ensures forall j :: k - m.right - m.left <= j <= k ==> m.high[j] <= m.high[k - m.right]
  {
  }

  // ----- Supertrend -----

  datatype Trend = Trend(upper: real, lower: real, rising: bool)

  function Line(t: Trend): real {
    if t.rising then t.lower else t.upper
  }

  function NextTrend(before: Trend, previousClose: real, close: real, bu: real, bl: real): Trend {
    var upper := if bu < before.upper || before.upper < previousClose then bu else before.upper;
    var lower := if before.lower < bl || previousClose < before.lower then bl else before.lower;
    Trend(upper, lower,
          if !before.rising && upper < close then true
          else if before.rising && close < lower then false
          else before.rising)
  }

  // The bands at row k, where both basic bands are finite.
  function TrendAt(bu: Series, bl: Series, close: seq<real>, k: nat): Option<Trend>
    requires |bu| == |bl| == |close| && k < |bu|
  {
    if bu[k].None? || bl[k].None? then
      None
    else if k == 0 || TrendAt(bu, bl, close, k - 1).None? then
      Some(Trend(bu[k].value, bl[k].value, true))
    else
      Some(NextTrend(TrendAt(bu, bl, close, k - 1).value, close[k - 1], close[k], bu[k].value, bl[k].value))
  }

  function Trends(bu: Series, bl: Series, close: seq<real>): (s: seq<Option<Trend>>)
    requires |bu| == |bl| == |close|
    ensures |s| == |close|
  {
    seq(|close|, k requires 0 <= k < |close| => TrendAt(bu, bl, close, k))
  }

  function Lines(bands: seq<Option<Trend>>): (s: seq<Option<real>>)
    ensures |s| == |bands|
  {
    seq(|bands|, k requires 0 <= k < |bands| => if bands[k].Some? then Some(Line(bands[k].value)) else None)
  }

  method FollowTrend(bu: Series, bl: Series, close: seq<real>)
    returns (bands: array<Option<Trend>>, line: array<Option<real>>)
    requires |bu| == |bl| == |close|
    ensures bands[..] == Trends(bu, bl, close)
    ensures line[..] == Lines(Trends(bu, bl, close))
  {
    ghost var expected, lines := Trends(bu, bl, close), Lines(Trends(bu, bl, close));
    bands := new Option<Trend>[|close|](_ => None);
    line := new Option<real>[|close|](_ => None);
    for index := 0 to |close|
      invariant forall k :: index <= k < |close| ==> bands[k] == None && line[k] == None
      invariant forall k :: 0 <= k < index ==> bands[k] == expected[k]
      invariant forall k :: 0 <= k < index ==> line[k] == lines[k]
    {
      assert expected[index] == TrendAt(bu, bl, close, index);
      assert 0 < index ==> expected[index - 1] == TrendAt(bu, bl, close, index - 1);
      if bu[index].None? || bl[index].None? {
        continue;
      }
      var next := Trend(bu[index].value, bl[index].value, true);
      if 0 < index && bands[index - 1].Some? {
        next := MoveBands(bands[index - 1].value, close[index - 1], close[index], next.upper, next.lower);
      }
      bands[index] := Some(next);
      line[index] := Some(Line(next));
    }
  }

  method MoveBands(before: Trend, previousClose: real, close: real, bu: real, bl: real) returns (next: Trend)
    ensures next == NextTrend(before, previousClose, close, bu, bl)
  {
    var upper := if bu < before.upper || before.upper < previousClose then bu else before.upper;
    var lower := if before.lower < bl || previousClose < before.lower then bl else before.lower;
    var rising := before.rising;
    if !before.rising && upper < close {
      rising := true;
    } else if before.rising && close < lower {
      rising := false;
    }
    next := Trend(upper, lower, rising);
  }

  // A band moves away from the price only after the price closed beyond it, and the trend
  // turns only when the close crosses the band it was following.
  lemma BandsRatchet(bu: Series, bl: Series, close: seq<real>, k: nat)
    requires |bu| == |bl| == |close| && 0 < k < |bu|
    requires TrendAt(bu, bl, close, k - 1).Some? && TrendAt(bu, bl, close, k).Some?
    ensures var before, t := TrendAt(bu, bl, close, k - 1).value, TrendAt(bu, bl, close, k).value;
            && (close[k - 1] <= before.upper ==> t.upper <= before.upper)
            && (before.lower <= close[k - 1] ==> before.lower <= t.lower)
            && (t.rising != before.rising <==> if before.rising then close[k] < t.lower else t.upper < close[k])
  {
  }

  // The basic bands around the middle of each bar.
  function Middles(c: seq<Candle>): (s: Series)
    ensures |s| == |c|
  {
    seq(|c|, k requires 0 <= k < |c| => Some((c[k].high + c[k].low) / 2.0))
  }

  function Offset(multiplier: real): (real, real) -> Option<real> {
    (middle: real, range: real) => Some(middle + Times(multiplier, range))
  }

  function Basic(c: seq<Candle>, period: nat, multiplier: real): (s: Series)
    requires 0 < period
    ensures |s| == |c|
  {
    Rowwise(Middles(c), Atr(c, period), Offset(multiplier))
  }

  function ClosesOf(c: seq<Candle>): (s: seq<real>)
    ensures |s| == |c|
  {
    seq(|c|, k requires 0 <= k < |c| => c[k].close)
  }

  function Supertrend(c: seq<Candle>, period: nat, multiplier: real): (s: seq<Option<Trend>>)
    requires 0 < period
    ensures |s| == |c|
  {
    Trends(Basic(c, period, multiplier), Basic(c, period, -multiplier), ClosesOf(c))
  }

  lemma {:induction false} TrendIsLocal(bu: Series, bl: Series, close: seq<real>, n: nat, k: nat)
    requires |bu| == |bl| == |close| && k < n <= |bu|
    ensures TrendAt(bu[..n], bl[..n], close[..n], k) == TrendAt(bu, bl, close, k)
  {
    if 0 < k {
      TrendIsLocal(bu, bl, close, n, k - 1);
    }
  }

  lemma TrendsAreCausal(bu: Series, bl: Series, close: seq<real>, n: nat)
    requires |bu| == |bl| == |close| && n <= |bu|
    ensures Trends(bu[..n], bl[..n], close[..n]) == Trends(bu, bl, close)[..n]
  {
    forall k | 0 <= k < n
      ensures TrendAt(bu[..n], bl[..n], close[..n], k) == TrendAt(bu, bl, close, k)
    {
      TrendIsLocal(bu, bl, close, n, k);
    }
  }

  lemma BasicIsCausal(c: seq<Candle>, period: nat, multiplier: real, n: nat)
    requires 0 < period && n <= |c|
    ensures Basic(c[..n], period, multiplier) == Basic(c, period, multiplier)[..n]
  {
    AveragedMoveIsCausal(c, Range, period, n);
    assert Middles(c[..n]) == Middles(c)[..n];
    RowwiseIsCausal(Middles(c), Atr(c, period), Offset(multiplier), n);
  }

  // Supertrend on a prefix is the prefix of Supertrend.
  lemma SupertrendIsCausal(c: seq<Candle>, period: nat, multiplier: real, n: nat)
    requires 0 < period && n <= |c|
    ensures Supertrend(c[..n], period, multiplier) == Supertrend(c, period, multiplier)[..n]
  {
    BasicIsCausal(c, period, multiplier, n);
    BasicIsCausal(c, period, -multiplier, n);
    assert ClosesOf(c[..n]) == ClosesOf(c)[..n];
    TrendsAreCausal(Basic(c, period, multiplier), Basic(c, period, -multiplier), ClosesOf(c), n);
  }
}
