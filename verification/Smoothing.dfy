/**
 The seeded recursive averages behind the indicators. None stands for a value that is not
 finite. Where the average stands after k rows is specified from those k rows.
 */
module Smoothing {
  import opened Numerics

  type Series = seq<Option<real>>

  datatype Progress = WAITING | RUNNING(average: real) | STOPPED

  predicate Finite(s: Series, from: nat, till: nat)
    requires from <= till <= |s|
  {
    forall k :: from <= k < till ==> s[k].Some?
  }

  // The window of period rows that ends just before row k is full.
  predicate Full(s: Series, period: nat, k: nat)
    requires k <= |s|
  {
    period <= k && Finite(s, k - period, k)
  }

  function Total(s: Series, from: nat, till: nat): real
    requires from <= till <= |s| && Finite(s, from, till)
    decreases till
  {
    if from == till then 0.0 else Total(s, from, till - 1) + s[till - 1].value
  }

  function Mean(s: Series, period: nat, k: nat): real
    requires 0 < period && k <= |s| && Full(s, period, k)
  {
    Total(s, k - period, k) / period as real
  }

  // How an average takes in one more value.
  type Blend = (real, real) -> real

  // Moves by alpha towards the value.
  function Towards(alpha: real): Blend {
    (average: real, x: real) => average + Times(alpha, x - average)
  }

  // Where the average stands after the first k rows: it starts at the first full window,
  // takes in each further value, and ends at the first gap.
  function After(s: Series, period: nat, blend: Blend, k: nat): Progress
    requires 0 < period && k <= |s|
  {
    if k == 0 then
      WAITING
    else
      match After(s, period, blend, k - 1)
      case STOPPED => STOPPED
      case RUNNING(average) =>
        if s[k - 1].None? then STOPPED else RUNNING(blend(average, s[k - 1].value))
      case WAITING => if Full(s, period, k) then RUNNING(Mean(s, period, k)) else WAITING
  }

  function Emitted(p: Progress): Option<real> {
    if p.RUNNING? then Some(p.average) else None
  }

  // The whole smoothed series.
  function Smooth(s: Series, period: nat, blend: Blend): (out: Series)
    requires 0 < period
    ensures |out| == |s|
  {
    seq(|s|, k requires 0 <= k < |s| => Emitted(After(s, period, blend, k + 1)))
  }

  function EmaAlpha(period: nat): real {
    2.0 / (period as real + 1.0)
  }

  function WilderAlpha(period: nat): real
    requires 0 < period
  {
    1.0 / period as real
  }

  function SeededEma(s: Series, period: nat): (out: Series)
    requires 0 < period
    ensures |out| == |s|
  {
    Smooth(s, period, Towards(EmaAlpha(period)))
  }

  function Wilder(s: Series, period: nat): (out: Series)
    requires 0 < period
    ensures |out| == |s|
  {
    Smooth(s, period, Towards(WilderAlpha(period)))
  }

  // ----- The loops -----

  lemma {:induction false} StaysWaiting(s: Series, period: nat, blend: Blend, k: nat)
    requires 0 < period && k <= |s|
    requires forall e :: 0 <= e <= k ==> !Full(s, period, e)
    ensures After(s, period, blend, k) == WAITING
  {
    if 0 < k {
      StaysWaiting(s, period, blend, k - 1);
    }
  }

  lemma {:induction false} StaysStopped(s: Series, period: nat, blend: Blend, j: nat, k: nat)
    requires 0 < period && j <= k <= |s| && After(s, period, blend, j) == STOPPED
    ensures After(s, period, blend, k) == STOPPED
    decreases k - j
  {
    if j < k {
      StaysStopped(s, period, blend, j, k - 1);
    }
  }

  // Finds the seed window, then runs on from it until a value is missing.
  method SmoothInto(s: Series, period: nat, blend: Blend) returns (output: array<Option<real>>)
    requires 0 < period
    ensures fresh(output) && output[..] == Smooth(s, period, blend)
  {
    output := new Option<real>[|s|](_ => None);
    if |s| < period {
      WaitingRows(s, period, blend, |s|);
      return;
    }
    var seedEnd := period - 1;
    assert forall e :: 0 <= e <= seedEnd ==> !Full(s, period, e);
    while seedEnd < |s| && !Full(s, period, seedEnd + 1)
      invariant period - 1 <= seedEnd <= |s|
      invariant forall e :: 0 <= e <= seedEnd ==> !Full(s, period, e)
      invariant forall k :: 0 <= k < |s| ==> output[k] == None
    {
      seedEnd := seedEnd + 1;
    }
    WaitingRows(s, period, blend, seedEnd);
    if seedEnd < |s| {
      StaysWaiting(s, period, blend, seedEnd);
      output[seedEnd] := Some(Mean(s, period, seedEnd + 1));
      RunOn(s, period, blend, seedEnd, output);
    }
  }

  lemma WaitingRows(s: Series, period: nat, blend: Blend, count: nat)
    requires 0 < period && count <= |s|
    requires forall e :: 0 <= e <= count ==> !Full(s, period, e)
    ensures forall k :: 0 <= k < count ==> Smooth(s, period, blend)[k] == None
  {
    forall k | 0 <= k < count
      ensures Smooth(s, period, blend)[k] == None
    {
      StaysWaiting(s, period, blend, k + 1);
    }
  }

  lemma StoppedRows(s: Series, period: nat, blend: Blend, from: nat)
    requires 0 < period && from <= |s| && After(s, period, blend, from) == STOPPED
    ensures forall k :: from <= k < |s| ==> Smooth(s, period, blend)[k] == None
  {
    forall k | from <= k < |s|
      ensures Smooth(s, period, blend)[k] == None
    {
      StaysStopped(s, period, blend, from, k + 1);
    }
  }

  method RunOn(s: Series, period: nat, blend: Blend, seedEnd: nat, output: array<Option<real>>)
    requires 0 < period && seedEnd < |s| && output.Length == |s|
    requires forall k :: 0 <= k < seedEnd ==> output[k] == Smooth(s, period, blend)[k]
    requires output[seedEnd].Some? && After(s, period, blend, seedEnd + 1) == RUNNING(output[seedEnd].value)
    requires forall k :: seedEnd < k < |s| ==> output[k] == None
    modifies output
    ensures output[..] == Smooth(s, period, blend)
  {
    ghost var expected := Smooth(s, period, blend);
    var index := seedEnd + 1;
    while index < |s| && s[index].Some?
      invariant seedEnd < index <= |s|
      invariant forall k :: 0 <= k < index ==> output[k] == expected[k]
      invariant forall k :: index <= k < |s| ==> output[k] == None
      invariant output[index - 1].Some? && After(s, period, blend, index) == RUNNING(output[index - 1].value)
    {
      var before := output[index - 1].value;
      output[index] := Some(blend(before, s[index].value));
      index := index + 1;
    }
    if index < |s| {
      StoppedRows(s, period, blend, index + 1);
    }
  }

  // ----- Causality -----

  lemma {:induction false} TotalIsLocal(s: Series, longer: Series, from: nat, till: nat)
    requires s <= longer && from <= till <= |s| && Finite(s, from, till)
    ensures Finite(longer, from, till) && Total(longer, from, till) == Total(s, from, till)
    decreases till
  {
    if from < till {
      TotalIsLocal(s, longer, from, till - 1);
    }
  }

  lemma {:induction false} AfterIsLocal(s: Series, longer: Series, period: nat, blend: Blend, k: nat)
    requires 0 < period && s <= longer && k <= |s|
    ensures After(longer, period, blend, k) == After(s, period, blend, k)
  {
    if 0 < k {
      AfterIsLocal(s, longer, period, blend, k - 1);
      assert Full(longer, period, k) <==> Full(s, period, k);
      if Full(s, period, k) {
        TotalIsLocal(s, longer, k - period, k);
      }
    }
  }

  // Smoothing a prefix is the prefix of the smoothing: no later row changes an earlier value.
  lemma SmoothIsCausal(s: Series, period: nat, blend: Blend, n: nat)
    requires 0 < period && n <= |s|
    ensures Smooth(s[..n], period, blend) == Smooth(s, period, blend)[..n]
  {
    forall k | 0 <= k < n
      ensures Smooth(s[..n], period, blend)[k] == Smooth(s, period, blend)[k]
    {
      AfterIsLocal(s[..n], s, period, blend, k + 1);
    }
  }

  // ----- Where it is defined -----

  // The first full window ends just before row e.
  predicate SeedsBefore(s: Series, period: nat, e: nat)
    requires e <= |s|
  {
    Full(s, period, e) && forall j :: 0 <= j < e ==> !Full(s, period, j)
  }

  // The average is defined on one contiguous interval: from the first full window on, for
  // as long as no value is missing.
  lemma {:induction false} DefinedExactlyWhen(s: Series, period: nat, blend: Blend, e: nat, k: nat)
    requires 0 < period && e <= |s| && k <= |s| && SeedsBefore(s, period, e)
    ensures After(s, period, blend, k).RUNNING? <==> e <= k && Finite(s, e, k)
    ensures k < e ==> After(s, period, blend, k) == WAITING
    ensures e <= k && !Finite(s, e, k) ==> After(s, period, blend, k) == STOPPED
  {
    if k < e {
      StaysWaiting(s, period, blend, k);
    } else if k == e {
      StaysWaiting(s, period, blend, k - 1);
    } else {
      DefinedExactlyWhen(s, period, blend, e, k - 1);
    }
  }

  // Finite exactly from this row on.
  ghost predicate ValidFrom(s: Series, first: nat) {
    forall k :: 0 <= k < |s| ==> (s[k].Some? <==> first <= k)
  }

  lemma FullFrom(s: Series, period: nat, first: nat, k: nat)
    requires 0 < period && ValidFrom(s, first) && k <= |s|
    ensures Full(s, period, k) <==> first + period <= k
  {
    if period <= k && k < first + period {
      assert !s[k - period].Some?;
    }
  }

  // Smoothing delays the first valid row by the period less one, so delays add up when
  // averages are composed.
  lemma SmoothDelays(s: Series, period: nat, blend: Blend, first: nat)
    requires 0 < period && ValidFrom(s, first)
    ensures ValidFrom(Smooth(s, period, blend), first + period - 1)
  {
    forall k | 0 <= k < |s|
      ensures Smooth(s, period, blend)[k].Some? <==> first + period - 1 <= k
    {
      RunsFrom(s, period, blend, first, k + 1);
    }
  }

  lemma RunsFrom(s: Series, period: nat, blend: Blend, first: nat, k: nat)
    requires 0 < period && ValidFrom(s, first) && k <= |s|
    ensures After(s, period, blend, k).RUNNING? <==> first + period <= k
  {
    forall e | 0 <= e <= |s|
      ensures Full(s, period, e) <==> first + period <= e
    {
      FullFrom(s, period, first, e);
    }
    if first + period <= |s| {
      DefinedExactlyWhen(s, period, blend, first + period, k);
    } else {
      StaysWaiting(s, period, blend, k);
    }
  }

  // ----- Convex -----

  ghost predicate Within(s: Series, lo: real, hi: real) {
    forall k :: 0 <= k < |s| && s[k].Some? ==> lo <= s[k].value <= hi
  }

  lemma {:induction false} TotalWithin(s: Series, from: nat, till: nat, lo: real, hi: real)
    requires from <= till <= |s| && Finite(s, from, till) && Within(s, lo, hi)
    ensures lo * (till - from) as real <= Total(s, from, till) <= hi * (till - from) as real
    decreases till
  {
    if from < till {
      TotalWithin(s, from, till - 1, lo, hi);
      var n := (till - 1 - from) as real;
      assert lo * (n + 1.0) == lo * n + lo && hi * (n + 1.0) == hi * n + hi;
    }
  }

  lemma ShareWithin(total: real, n: real, lo: real, hi: real)
    requires 0.0 < n && lo * n <= total <= hi * n
    ensures lo <= total / n <= hi
  {
    var q := total / n;
    assert q * n == total;
    assert q < lo ==> q * n < lo * n;
    assert hi < q ==> hi * n < q * n;
  }

  ghost predicate KeepsWithin(blend: Blend, lo: real, hi: real) {
    forall a, x {:trigger blend(a, x)} :: lo <= a <= hi && lo <= x <= hi ==> lo <= blend(a, x) <= hi
  }

  lemma TowardsKeepsWithin(alpha: real, lo: real, hi: real)
    requires 0.0 <= alpha <= 1.0
    ensures KeepsWithin(Towards(alpha), lo, hi)
  {
    forall a, x | lo <= a <= hi && lo <= x <= hi
      ensures lo <= Towards(alpha)(a, x) <= hi
    {
      BlendWithin(a, x, alpha, lo, hi);
    }
  }

  lemma PartOf(alpha: real, d: real)
    requires 0.0 <= alpha <= 1.0 && 0.0 <= d
    ensures 0.0 <= Times(alpha, d) <= d
  {
    var rest := 1.0 - alpha;
    ProductIsNotNegative(rest, d);
    ProductIsNotNegative(alpha, d);
    assert rest * d == d - alpha * d;
  }

  lemma BlendWithin(a: real, x: real, alpha: real, lo: real, hi: real)
    requires 0.0 <= alpha <= 1.0 && lo <= a <= hi && lo <= x <= hi
    ensures lo <= a + Times(alpha, x - a) <= hi
  {
    if a <= x {
      PartOf(alpha, x - a);
    } else {
      PartOf(alpha, a - x);
      assert Times(alpha, x - a) == -Times(alpha, a - x);
    }
  }

  // Every average lies between the least and the greatest value it saw.
  lemma {:induction false} AverageWithin(s: Series, period: nat, blend: Blend, lo: real, hi: real, k: nat)
    requires 0 < period && KeepsWithin(blend, lo, hi) && k <= |s| && Within(s, lo, hi)
    ensures var p := After(s, period, blend, k); p.RUNNING? ==> lo <= p.average <= hi
  {
    if 0 < k {
      AverageWithin(s, period, blend, lo, hi, k - 1);
      var before := After(s, period, blend, k - 1);
      if before.WAITING? && Full(s, period, k) {
        MeanWithin(s, period, lo, hi, k);
      }
    }
  }

  lemma MeanWithin(s: Series, period: nat, lo: real, hi: real, k: nat)
    requires 0 < period && k <= |s| && Within(s, lo, hi) && Full(s, period, k)
    ensures lo <= Mean(s, period, k) <= hi
  {
    TotalWithin(s, k - period, k, lo, hi);
    ShareWithin(Total(s, k - period, k), period as real, lo, hi);
  }

  // ----- Linear -----

  // Two series with the same gaps.
  ghost predicate Aligned(a: Series, b: Series) {
    |a| == |b| && forall k :: 0 <= k < |a| ==> (a[k].Some? <==> b[k].Some?)
  }

  // c = a + b at every row where they are finite.
  ghost predicate Adds(c: Series, a: Series, b: Series) {
    && Aligned(a, b) && Aligned(a, c)
    && forall k :: 0 <= k < |a| && a[k].Some? ==> c[k].value == a[k].value + b[k].value
  }

  // c = x * a at every row where they are finite.
  ghost predicate Scales(c: Series, x: real, a: Series) {
    && Aligned(a, c)
    && forall k :: 0 <= k < |a| && a[k].Some? ==> c[k].value == Times(x, a[k].value)
  }

  lemma {:induction false} TotalAdds(c: Series, a: Series, b: Series, from: nat, till: nat)
    requires Adds(c, a, b) && from <= till <= |a| && Finite(a, from, till)
    ensures Finite(b, from, till) && Finite(c, from, till)
    ensures Total(c, from, till) == Total(a, from, till) + Total(b, from, till)
    decreases till
  {
    if from < till {
      TotalAdds(c, a, b, from, till - 1);
    }
  }

  lemma {:induction false} TotalScales(c: Series, x: real, a: Series, from: nat, till: nat)
    requires Scales(c, x, a) && from <= till <= |a| && Finite(a, from, till)
    ensures Finite(c, from, till)
    ensures Total(c, from, till) == Times(x, Total(a, from, till))
    decreases till
  {
    if from < till {
      TotalScales(c, x, a, from, till - 1);
      Distribute(x, Total(a, from, till - 1), a[till - 1].value);
    }
  }

  lemma DivideSum(p: real, q: real, n: real)
    requires 0.0 < n
    ensures (p + q) / n == p / n + q / n
  {
  }

  lemma DivideScaled(x: real, p: real, n: real)
    requires 0.0 < n
    ensures Times(x, p) / n == Times(x, p / n)
  {
    var u := p / n;
    assert u * n == p;
    assert (x * u) * n == x * (u * n);
  }

  ghost predicate AddsAt(blend: Blend, p: real, q: real, u: real, v: real) {
    blend(p + q, u + v) == blend(p, u) + blend(q, v)
  }

  ghost predicate Additive(blend: Blend) {
    forall p, q, u, v :: AddsAt(blend, p, q, u, v)
  }

  ghost predicate ScalesAt(blend: Blend, x: real, p: real, u: real) {
    blend(Times(x, p), Times(x, u)) == Times(x, blend(p, u))
  }

  ghost predicate Homogeneous(blend: Blend, x: real) {
    forall p, u :: ScalesAt(blend, x, p, u)
  }

  lemma Distribute(alpha: real, u: real, v: real)
    ensures Times(alpha, u + v) == Times(alpha, u) + Times(alpha, v)
  {
  }

  lemma TowardsIsAdditive(alpha: real)
    ensures Additive(Towards(alpha))
  {
    forall p: real, q: real, u: real, v: real
      ensures AddsAt(Towards(alpha), p, q, u, v)
    {
      BlendAdds(alpha, p, q, u, v);
    }
  }

  lemma BlendAdds(alpha: real, p: real, q: real, u: real, v: real)
    ensures (p + q) + Times(alpha, (u + v) - (p + q)) == (p + Times(alpha, u - p)) + (q + Times(alpha, v - q))
  {
    var du, dv := u - p, v - q;
    assert (u + v) - (p + q) == du + dv;
    Distribute(alpha, du, dv);
  }

  lemma TowardsIsHomogeneous(alpha: real, x: real)
    ensures Homogeneous(Towards(alpha), x)
  {
    forall p: real, u: real
      ensures ScalesAt(Towards(alpha), x, p, u)
    {
      BlendScales(alpha, x, p, u);
    }
  }

  lemma BlendScales(alpha: real, x: real, p: real, u: real)
    ensures Times(x, p) + Times(alpha, Times(x, u) - Times(x, p)) == Times(x, p + Times(alpha, u - p))
  {
    var gap := u - p;
    assert Times(x, u) - Times(x, p) == Times(x, gap);
    Exchange(alpha, x, gap);
    Distribute(x, p, Times(alpha, gap));
  }

  lemma Exchange(alpha: real, x: real, v: real)
    ensures Times(alpha, Times(x, v)) == Times(x, Times(alpha, v))
  {
  }

  // Averaging keeps sums: the average of a sum is the sum of the averages.
  lemma {:induction false} AverageAdds(c: Series, a: Series, b: Series, period: nat, blend: Blend, k: nat)
    requires 0 < period && Adds(c, a, b) && k <= |a| && Additive(blend)
    ensures var p, q, r := After(a, period, blend, k), After(b, period, blend, k), After(c, period, blend, k);
            match p
            case WAITING => q == WAITING && r == WAITING
            case STOPPED => q == STOPPED && r == STOPPED
            case RUNNING(average) => q.RUNNING? && r.RUNNING? && r.average == average + q.average
  {
    if 0 < k {
      AverageAdds(c, a, b, period, blend, k - 1);
      if After(a, period, blend, k - 1).WAITING? {
        MeanAdds(c, a, b, period, k);
      } else if After(a, period, blend, k - 1).RUNNING? && a[k - 1].Some? {
        var p, q := After(a, period, blend, k - 1).average, After(b, period, blend, k - 1).average;
        var u, v := a[k - 1].value, b[k - 1].value;
        assert AddsAt(blend, p, q, u, v);
      }
    }
  }

  lemma MeanAdds(c: Series, a: Series, b: Series, period: nat, k: nat)
    requires 0 < period && Adds(c, a, b) && k <= |a|
    ensures (Full(a, period, k) <==> Full(b, period, k)) && (Full(a, period, k) <==> Full(c, period, k))
    ensures Full(a, period, k) ==> Mean(c, period, k) == Mean(a, period, k) + Mean(b, period, k)
  {
    if Full(a, period, k) {
      TotalAdds(c, a, b, k - period, k);
      DivideSum(Total(a, k - period, k), Total(b, k - period, k), period as real);
    }
  }

  // Averaging keeps multiples; with sums, this makes it linear.
  lemma {:induction false} AverageScales(c: Series, x: real, a: Series, period: nat, blend: Blend, k: nat)
    requires 0 < period && Scales(c, x, a) && k <= |a| && Homogeneous(blend, x)
    ensures var p, r := After(a, period, blend, k), After(c, period, blend, k);
            match p
            case WAITING => r == WAITING
            case STOPPED => r == STOPPED
            case RUNNING(average) => r.RUNNING? && r.average == Times(x, average)
  {
    if 0 < k {
      AverageScales(c, x, a, period, blend, k - 1);
      if After(a, period, blend, k - 1).WAITING? {
        MeanScales(c, x, a, period, k);
      } else if After(a, period, blend, k - 1).RUNNING? && a[k - 1].Some? {
        var p, u := After(a, period, blend, k - 1).average, a[k - 1].value;
        assert ScalesAt(blend, x, p, u);
      }
    }
  }

  lemma MeanScales(c: Series, x: real, a: Series, period: nat, k: nat)
    requires 0 < period && Scales(c, x, a) && k <= |a|
    ensures Full(a, period, k) <==> Full(c, period, k)
    ensures Full(a, period, k) ==> Mean(c, period, k) == Times(x, Mean(a, period, k))
  {
    if Full(a, period, k) {
      TotalScales(c, x, a, k - period, k);
      DivideScaled(x, Total(a, k - period, k), period as real);
    }
  }

  // ----- Monotone -----

  // b is never below a.
  ghost predicate Below(a: Series, b: Series) {
    Aligned(a, b) && forall k :: 0 <= k < |a| && a[k].Some? ==> a[k].value <= b[k].value
  }

  function Gap(a: Series, b: Series): (gap: Series)
    requires |a| == |b|
    ensures |gap| == |a|
  {
    seq(|a|, k requires 0 <= k < |a| =>
      if a[k].Some? && b[k].Some? then Some(b[k].value - a[k].value) else None)
  }

  lemma {:induction false} BoundedAbove(s: Series, n: nat) returns (top: real)
    requires n <= |s|
    ensures forall k :: 0 <= k < n && s[k].Some? ==> s[k].value <= top
  {
    if n == 0 {
      top := 0.0;
    } else {
      top := BoundedAbove(s, n - 1);
      if s[n - 1].Some? && top < s[n - 1].value {
        top := s[n - 1].value;
      }
    }
  }

  lemma AverageIsNotNegative(s: Series, period: nat, alpha: real, k: nat)
    requires 0 < period && 0.0 <= alpha <= 1.0 && k <= |s|
    requires forall j :: 0 <= j < |s| && s[j].Some? ==> 0.0 <= s[j].value
    ensures var p := After(s, period, Towards(alpha), k); p.RUNNING? ==> 0.0 <= p.average
  {
    var top := BoundedAbove(s, |s|);
    TowardsKeepsWithin(alpha, 0.0, top);
    AverageWithin(s, period, Towards(alpha), 0.0, top, k);
  }

  // Averaging is monotone: it keeps sums, and the average of a difference that is never
  // negative is not negative.
  lemma AverageIsMonotone(a: Series, b: Series, period: nat, alpha: real, k: nat)
    requires 0 < period && 0.0 <= alpha <= 1.0 && Below(a, b) && k <= |a|
    ensures var p, q := After(a, period, Towards(alpha), k), After(b, period, Towards(alpha), k);
            (p.RUNNING? <==> q.RUNNING?) && (p.RUNNING? ==> p.average <= q.average)
  {
    var gap := Gap(a, b);
    assert Adds(b, a, gap);
    TowardsIsAdditive(alpha);
    AverageAdds(b, a, gap, period, Towards(alpha), k);
    AverageIsNotNegative(gap, period, alpha, k);
  }

  lemma AlphasAreShares(period: nat)
    requires 0 < period
    ensures 0.0 < WilderAlpha(period) <= 1.0
    ensures 0.0 < EmaAlpha(period) <= 1.0
  {
    ShareWithin(1.0, period as real, 0.0, 1.0);
    var p, e := WilderAlpha(period), EmaAlpha(period);
    assert p * period as real == 1.0;
    assert e * (period as real + 1.0) == 2.0;
  }

  ghost predicate NotNegative(s: Series) {
    forall k :: 0 <= k < |s| && s[k].Some? ==> 0.0 <= s[k].value
  }

  lemma WilderIsNotNegative(s: Series, period: nat, k: nat)
    requires 0 < period && k < |s| && NotNegative(s) && Wilder(s, period)[k].Some?
    ensures 0.0 <= Wilder(s, period)[k].value
  {
    AlphasAreShares(period);
    AverageIsNotNegative(s, period, WilderAlpha(period), k + 1);
  }

  lemma WilderIsWithin(s: Series, period: nat, lo: real, hi: real, k: nat)
    requires 0 < period && k < |s| && Within(s, lo, hi) && Wilder(s, period)[k].Some?
    ensures lo <= Wilder(s, period)[k].value <= hi
  {
    AlphasAreShares(period);
    TowardsKeepsWithin(WilderAlpha(period), lo, hi);
    AverageWithin(s, period, Towards(WilderAlpha(period)), lo, hi, k + 1);
  }

  // Two series that together stay below a third do so on average too.
  lemma WilderPartsFit(a: Series, b: Series, both: Series, whole: Series, period: nat, k: nat)
    requires 0 < period && Adds(both, a, b) && Below(both, whole) && k < |whole|
    requires Wilder(whole, period)[k].Some?
    ensures Wilder(a, period)[k].Some? && Wilder(b, period)[k].Some?
    ensures Wilder(a, period)[k].value + Wilder(b, period)[k].value <= Wilder(whole, period)[k].value
  {
    var alpha := WilderAlpha(period);
    AlphasAreShares(period);
    TowardsIsAdditive(alpha);
    AverageAdds(both, a, b, period, Towards(alpha), k + 1);
    AverageIsMonotone(both, whole, period, alpha, k + 1);
  }
}
