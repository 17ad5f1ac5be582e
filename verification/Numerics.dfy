/**
 Values shared by every part of the model: optional values, results that carry an
 error instead of an exception, and the floating-point helpers of the standard
 library read over the reals.
 */
module Numerics {
  datatype Option<+T> = None | Some(value: T)

  datatype Outcome<+T, +E> = Success(value: T) | Failure(error: E)

  // Identifiers are compared and ordered, never inspected: 0 stands for the empty string.
  type Id = nat

  // UTC instants, in microseconds.
  type Instant = int

  function Abs(x: real): real {
    if x < 0.0 then -x else x
  }

  function Max(x: real, y: real): real {
    if x < y then y else x
  }

  function Min(x: real, y: real): real {
    if y < x then y else x
  }

  // A product kept apart, so that reasoning about it is by lemma.
  function Times(x: real, y: real): real {
    x * y
  }

  lemma ProductIsNotNegative(x: real, y: real)
    requires 0.0 <= x && 0.0 <= y
    ensures 0.0 <= x * y
  {
  }

  // math.isclose
  predicate IsClose(a: real, b: real, relativeTolerance: real, absoluteTolerance: real) {
    Abs(a - b) <= Max(relativeTolerance * Max(Abs(a), Abs(b)), absoluteTolerance)
  }

  const DEFAULT_RELATIVE_TOLERANCE := 0.000_000_001

  // Python's round to an integer: ties go to the even neighbour.
  function RoundHalfEven(x: real): int {
    var below := x.Floor;
    var rest := x - below as real;
    if rest < 0.5 || (rest == 0.5 && below % 2 == 0) then below else below + 1
  }

  const TEN_DIGITS := 10_000_000_000.0

  // round(x, 10)
  function Round10(x: real): real {
    RoundHalfEven(x * TEN_DIGITS) as real / TEN_DIGITS
  }

  lemma Round10Error(x: real)
    ensures Abs(Round10(x) - x) <= 0.000_000_000_05
    ensures 0.0 <= x ==> 0.0 <= Round10(x)
  {
    var scaled := x * TEN_DIGITS;
    var n := RoundHalfEven(scaled) as real;
    assert Abs(n - scaled) <= 0.5;
    assert Round10(x) - x == (n - scaled) / TEN_DIGITS;
    if 0.0 <= x {
      assert 0.0 <= scaled;
      assert 0 <= scaled.Floor;
    }
  }
}
