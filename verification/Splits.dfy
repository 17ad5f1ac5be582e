/**
 Chronological and walk-forward splits, purged by the label horizon and embargoed.
 */
module Splits {
  import opened Numerics

  datatype IndexRange = IndexRange(start: int, stop: int)

  datatype Fold = Fold(
    number: nat,
    train: IndexRange,
    validation: IndexRange,
    oos: IndexRange,
    purgedTrain: int,
    purgedValidation: int,
    embargoedValidation: int,
    embargoedOos: int
  )

  datatype SplitError =
    | TOO_FEW_ROWS
    | BAD_FRACTION
    | FRACTIONS_TOO_LARGE
    | NOT_POSITIVE
    | NEGATIVE_INDEX
    | EMPTY_SPLIT

  function Larger(a: int, b: int): int {
    if a < b then b else a
  }

  function Smaller(a: int, b: int): int {
    if b < a then b else a
  }

  function Size(r: IndexRange): int {
    Larger(0, r.stop - r.start)
  }

  predicate NonNegative(r: IndexRange) {
    0 <= r.start && 0 <= r.stop
  }

  predicate Indexed(f: Fold) {
    NonNegative(f.train) && NonNegative(f.validation) && NonNegative(f.oos)
  }

  predicate NonEmpty(f: Fold) {
    0 < Size(f.train) && 0 < Size(f.validation) && 0 < Size(f.oos)
  }

  // ----- chronological_split -----

  function Boundary(rows: int, fraction: real): int {
    (rows as real * fraction).Floor
  }

  function ChronologicalFold(rows: int, trainEnd: int, validationEnd: int, purge: int, embargo: int): Fold {
    Fold(
      0,
      IndexRange(0, Larger(0, trainEnd - purge)),
      IndexRange(Smaller(rows, trainEnd + embargo), Larger(trainEnd + embargo, validationEnd - purge)),
      IndexRange(Smaller(rows, validationEnd + embargo), rows),
      Smaller(purge, trainEnd), Smaller(purge, validationEnd - trainEnd),
      Smaller(embargo, validationEnd - trainEnd), Smaller(embargo, rows - validationEnd))
  }

  function ChronologicalSplit(
    rows: int, trainFraction: real, validationFraction: real, horizon: int, purge: int, embargo: int
  ): Outcome<Fold, SplitError> {
    if rows < 3 then
      Failure(TOO_FEW_ROWS)
    else if !(0.0 < trainFraction < 1.0 && 0.0 < validationFraction < 1.0) then
      Failure(BAD_FRACTION)
    else if 1.0 <= trainFraction + validationFraction then
      Failure(FRACTIONS_TOO_LARGE)
    else
      var f := ChronologicalFold(
                 rows, Boundary(rows, trainFraction), Boundary(rows, trainFraction + validationFraction),
                 Larger(purge, horizon), embargo);
      if !Indexed(f) then Failure(NEGATIVE_INDEX) else if !NonEmpty(f) then Failure(EMPTY_SPLIT) else Success(f)
  }

  // ----- walk_forward_splits -----

  datatype Windows = Windows(expanding: bool, train: int, validation: int, oos: int, step: int)

  predicate Positive(w: Windows, horizon: int) {
    0 < w.train && 0 < w.validation && 0 < w.oos && 0 < w.step && 0 < horizon
  }

  function WalkFold(number: nat, w: Windows, trainStop: int, purge: int, embargo: int): Fold {
    var trainStart := if w.expanding then 0 else trainStop - w.train;
    var validationStop := trainStop + w.validation;
    Fold(
      number,
      IndexRange(trainStart, Larger(trainStart, trainStop - purge)),
      IndexRange(trainStop + embargo, Larger(trainStop + embargo, validationStop - purge)),
      IndexRange(validationStop + embargo, validationStop + w.oos),
      purge, purge, embargo, embargo)
  }

  function TrainStop(w: Windows, number: nat): int {
    w.train + number * w.step
  }

  // How many windows fit, in closed form.
  function FoldCount(rows: int, w: Windows): nat
    requires 0 < w.step
  {
    var spare := rows - (w.train + w.validation + w.oos);
    if spare < 0 then 0 else spare / w.step + 1
  }

  function FoldsUpTo(count: nat, w: Windows, purge: int, embargo: int): (folds: seq<Fold>)
    ensures |folds| == count
  {
    seq(count, k requires 0 <= k < count => WalkFold(k, w, TrainStop(w, k), purge, embargo))
  }

  predicate AllIndexed(folds: seq<Fold>) {
    forall k :: 0 <= k < |folds| ==> Indexed(folds[k])
  }

  predicate AllNonEmpty(folds: seq<Fold>) {
    forall k :: 0 <= k < |folds| ==> NonEmpty(folds[k])
  }

  function WalkForward(rows: int, w: Windows, horizon: int, purge: int, embargo: int): Outcome<seq<Fold>, SplitError> {
    if !Positive(w, horizon) then
      Failure(NOT_POSITIVE)
    else
      var folds := FoldsUpTo(FoldCount(rows, w), w, Larger(purge, horizon), embargo);
      if !AllIndexed(folds) then Failure(NEGATIVE_INDEX)
      else if folds == [] || !AllNonEmpty(folds) then Failure(EMPTY_SPLIT)
      else Success(folds)
  }

  lemma AnotherFits(rows: int, w: Windows, number: nat)
    requires 0 < w.step
    ensures TrainStop(w, number) + w.validation + w.oos <= rows <==> number < FoldCount(rows, w)
  {
    var spare := rows - (w.train + w.validation + w.oos);
    if 0 <= spare {
      var q := spare / w.step;
      assert q * w.step <= spare < q * w.step + w.step;
      if number <= q {
        assert number * w.step <= q * w.step;
      } else {
        assert (q + 1) * w.step <= number * w.step;
      }
    } else {
      assert 0 <= number * w.step;
    }
  }

  lemma BadFold(count: nat, w: Windows, purge: int, embargo: int, k: nat)
    requires k < count && !Indexed(WalkFold(k, w, TrainStop(w, k), purge, embargo))
    ensures !AllIndexed(FoldsUpTo(count, w, purge, embargo))
  {
    assert FoldsUpTo(count, w, purge, embargo)[k] == WalkFold(k, w, TrainStop(w, k), purge, embargo);
  }

  lemma GoodFold(w: Windows, purge: int, embargo: int, k: nat)
    requires Indexed(WalkFold(k, w, TrainStop(w, k), purge, embargo))
    requires AllIndexed(FoldsUpTo(k, w, purge, embargo))
    ensures FoldsUpTo(k + 1, w, purge, embargo) ==
            FoldsUpTo(k, w, purge, embargo) + [WalkFold(k, w, TrainStop(w, k), purge, embargo)]
    ensures AllIndexed(FoldsUpTo(k + 1, w, purge, embargo))
  {
    var longer, shorter := FoldsUpTo(k + 1, w, purge, embargo), FoldsUpTo(k, w, purge, embargo);
    assert longer == shorter + [WalkFold(k, w, TrainStop(w, k), purge, embargo)];
  }

  // The loop stops, and makes exactly as many folds as fit.
  method WalkForwardSplits(rows: int, w: Windows, horizon: int, purge: int, embargo: int)
    returns (outcome: Outcome<seq<Fold>, SplitError>)
    ensures outcome == WalkForward(rows, w, horizon, purge, embargo)
  {
    if !Positive(w, horizon) {
      return Failure(NOT_POSITIVE);
    }
    var effective := Larger(purge, horizon);
    var count := FoldCount(rows, w);
    var folds: seq<Fold> := [];
    var trainStop, number := w.train, 0;
    AnotherFits(rows, w, 0);
    while trainStop + w.validation + w.oos <= rows
      invariant trainStop == TrainStop(w, number)
      invariant number <= count
      invariant trainStop + w.validation + w.oos <= rows <==> number < count
      invariant folds == FoldsUpTo(number, w, effective, embargo)
      invariant AllIndexed(folds)
      decreases rows - trainStop
    {
      var fold := WalkFold(number, w, trainStop, effective, embargo);
      if !Indexed(fold) {
        BadFold(count, w, effective, embargo, number);
        return Failure(NEGATIVE_INDEX);
      }
      GoodFold(w, effective, embargo, number);
      folds := folds + [fold];
      trainStop := trainStop + w.step;
      number := number + 1;
      AnotherFits(rows, w, number);
    }
    if folds == [] || !AllNonEmpty(folds) {
      return Failure(EMPTY_SPLIT);
    }
    return Success(folds);
  }

  // ----- What every fold guarantees -----

  // How the parts of a fold lie in the window they were cut from.
  predicate Cut(f: Fold, trainEnd: int, validationEnd: int, end: int, purge: int, embargo: int) {
    && 0 <= f.train.start < f.train.stop == trainEnd - purge
    && f.validation.start == trainEnd + embargo
    && f.validation.start < f.validation.stop == validationEnd - purge
    && f.oos.start == validationEnd + embargo
    && f.oos.start < f.oos.stop == end
  }

  lemma ChronologicalIsCut(
    rows: int, trainFraction: real, validationFraction: real, horizon: int, purge: int, embargo: int)
    requires ChronologicalSplit(rows, trainFraction, validationFraction, horizon, purge, embargo).Success?
    ensures var f := ChronologicalSplit(rows, trainFraction, validationFraction, horizon, purge, embargo).value;
            Cut(f, Boundary(rows, trainFraction), Boundary(rows, trainFraction + validationFraction), rows,
                Larger(purge, horizon), embargo)
  {
  }

  lemma WalkIsCut(rows: int, w: Windows, horizon: int, purge: int, embargo: int, k: nat)
    requires WalkForward(rows, w, horizon, purge, embargo).Success?
    requires k < |WalkForward(rows, w, horizon, purge, embargo).value|
    ensures var f := WalkForward(rows, w, horizon, purge, embargo).value[k];
            var trainEnd := TrainStop(w, k);
            && Cut(f, trainEnd, trainEnd + w.validation, trainEnd + w.validation + w.oos,
                   Larger(purge, horizon), embargo)
            && f.oos.stop <= rows
  {
    AnotherFits(rows, w, k);
    var folds := WalkForward(rows, w, horizon, purge, embargo).value;
    assert Indexed(folds[k]) && NonEmpty(folds[k]);
  }

  // Kept, purged and embargoed rows add up to the three windows.
  lemma ChronologicalConserves(
    rows: int, trainFraction: real, validationFraction: real, horizon: int, purge: int, embargo: int)
    requires 0 <= horizon && 0 <= embargo
    requires ChronologicalSplit(rows, trainFraction, validationFraction, horizon, purge, embargo).Success?
    ensures var f := ChronologicalSplit(rows, trainFraction, validationFraction, horizon, purge, embargo).value;
            var trainEnd := Boundary(rows, trainFraction);
            var validationEnd := Boundary(rows, trainFraction + validationFraction);
            && Size(f.train) + f.purgedTrain == trainEnd
            && f.embargoedValidation + Size(f.validation) + f.purgedValidation == validationEnd - trainEnd
            && f.embargoedOos + Size(f.oos) == rows - validationEnd
  {
    ChronologicalIsCut(rows, trainFraction, validationFraction, horizon, purge, embargo);
  }

  lemma WalkForwardConserves(rows: int, w: Windows, horizon: int, purge: int, embargo: int, k: nat)
    requires WalkForward(rows, w, horizon, purge, embargo).Success?
    requires k < |WalkForward(rows, w, horizon, purge, embargo).value|
    ensures var f := WalkForward(rows, w, horizon, purge, embargo).value[k];
            && Size(f.train) + f.purgedTrain == (if w.expanding then TrainStop(w, k) else w.train)
            && f.embargoedValidation + Size(f.validation) + f.purgedValidation == w.validation
            && f.embargoedOos + Size(f.oos) == w.oos
  {
    WalkIsCut(rows, w, horizon, purge, embargo, k);
  }

  // ----- Separation, even after rows were dropped -----

  // Where the rows of the dataset came from: dropping rows keeps their order.
  ghost predicate RowMap(raw: seq<int>) {
    forall i, j :: 0 <= i < j < |raw| ==> raw[i] < raw[j]
  }

  // The look-ahead of every row of the first part ends before the second part begins.
  ghost predicate Separated(raw: seq<int>, first: IndexRange, second: IndexRange, horizon: int) {
    forall i, j ::
      first.start <= i < first.stop && second.start <= j < second.stop && 0 <= i < |raw| && 0 <= j < |raw| ==>
        raw[i] + horizon < raw[j]
  }

  lemma {:induction false} RowsSpread(raw: seq<int>, i: nat, j: nat)
    requires RowMap(raw) && i <= j < |raw|
    ensures j - i <= raw[j] - raw[i]
    decreases j - i
  {
    if i < j {
      RowsSpread(raw, i, j - 1);
    }
  }

  // Two parts are separated under every order-keeping row map exactly when purge and embargo
  // together cover the horizon; an embargo that is not negative always does.
  lemma SeparatedExactlyWhen(
    rows: nat, first: IndexRange, second: IndexRange, cut: int, purge: int, embargo: int, horizon: int)
    requires 0 <= first.start < first.stop == cut - purge <= rows
    requires 0 <= second.start == cut + embargo < second.stop <= rows
    requires 0 <= horizon
    ensures (forall raw: seq<int> :: |raw| == rows && RowMap(raw) ==> Separated(raw, first, second, horizon)) <==>
            horizon <= purge + embargo
  {
    if horizon <= purge + embargo {
      forall raw: seq<int>, i, j |
        && |raw| == rows && RowMap(raw)
        && first.start <= i < first.stop && second.start <= j < second.stop
        ensures raw[i] + horizon < raw[j]
      {
        RowsSpread(raw, i, j);
      }
    } else {
      var raw := seq(rows, k => k);
      assert RowMap(raw);
      assert raw[first.stop - 1] + horizon >= raw[second.start];
      assert !Separated(raw, first, second, horizon);
    }
  }

  // Both splitters: with an embargo that is not negative, and whatever rows were dropped,
  // the look-ahead of a train row ends before validation, and that of a validation row
  // before the out-of-sample part.
  lemma CutIsSeparated(
    f: Fold, trainEnd: int, validationEnd: int, end: int, purge: int, embargo: int, raw: seq<int>, horizon: int)
    requires Cut(f, trainEnd, validationEnd, end, Larger(purge, horizon), embargo)
    requires RowMap(raw) && end <= |raw| && 0 <= horizon && 0 <= embargo
    ensures Separated(raw, f.train, f.validation, horizon)
    ensures Separated(raw, f.validation, f.oos, horizon)
  {
    forall i, j | f.train.start <= i < f.train.stop && f.validation.start <= j < f.validation.stop
      ensures raw[i] + horizon < raw[j]
    {
      RowsSpread(raw, i, j);
    }
    forall i, j | f.validation.start <= i < f.validation.stop && f.oos.start <= j < f.oos.stop
      ensures raw[i] + horizon < raw[j]
    {
      RowsSpread(raw, i, j);
    }
  }

  lemma SplitsAreSeparated(rows: int, w: Windows, horizon: int, purge: int, embargo: int, raw: seq<int>, k: nat)
    requires 0 <= embargo && RowMap(raw) && rows <= |raw|
    requires WalkForward(rows, w, horizon, purge, embargo).Success?
    requires k < |WalkForward(rows, w, horizon, purge, embargo).value|
    ensures var f := WalkForward(rows, w, horizon, purge, embargo).value[k];
            Separated(raw, f.train, f.validation, horizon) && Separated(raw, f.validation, f.oos, horizon)
  {
    var f := WalkForward(rows, w, horizon, purge, embargo).value[k];
    var trainEnd := TrainStop(w, k);
    WalkIsCut(rows, w, horizon, purge, embargo, k);
    CutIsSeparated(f, trainEnd, trainEnd + w.validation, trainEnd + w.validation + w.oos, purge, embargo, raw, horizon);
  }

  lemma ChronologicalIsSeparated(
    rows: int, trainFraction: real, validationFraction: real, horizon: int, purge: int, embargo: int, raw: seq<int>)
    requires 0 <= horizon && 0 <= embargo && RowMap(raw) && |raw| == rows
    requires ChronologicalSplit(rows, trainFraction, validationFraction, horizon, purge, embargo).Success?
    ensures var f := ChronologicalSplit(rows, trainFraction, validationFraction, horizon, purge, embargo).value;
            Separated(raw, f.train, f.validation, horizon) && Separated(raw, f.validation, f.oos, horizon)
  {
    var f := ChronologicalSplit(rows, trainFraction, validationFraction, horizon, purge, embargo).value;
    ChronologicalIsCut(rows, trainFraction, validationFraction, horizon, purge, embargo);
    CutIsSeparated(f, Boundary(rows, trainFraction), Boundary(rows, trainFraction + validationFraction), rows,
                   purge, embargo, raw, horizon);
  }
}
