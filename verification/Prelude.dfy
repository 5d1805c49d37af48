/** Vocabulary shared by every model: optional values and the arithmetic the sources use. */
module Prelude {

  datatype Option<+T> = None | Some(value: T)

  function Abs(x: int): nat { if x < 0 then -x else x }

  function MaxInt(a: int, b: int): int { if a < b then b else a }

  function MinInt(a: int, b: int): int { if a < b then a else b }

  function MaxReal(a: real, b: real): real { if a < b then b else a }

  function MinReal(a: real, b: real): real { if a < b then a else b }

  /** `Math.round`: halves go up, also below zero. */
  function Round(x: real): int { (x + 0.5).Floor }

  /** `n` is the whole number nearest to `x`, the upper one half-way. */
  ghost predicate Nearest(n: int, x: real) { n as real - 0.5 <= x < n as real + 0.5 }

  /** `x` rounded, but at least one. */
  ghost predicate AtLeastOne(n: int, x: real) { if x < 0.5 then n == 1 else Nearest(n, x) }

  lemma RoundIsNearest(x: real)
    ensures Nearest(Round(x), x) && AtLeastOne(MaxInt(1, Round(x)), x)
  {}

  /** `Math.pow` at a whole exponent. */
  function Pow(x: real, n: nat): real { if n == 0 then 1.0 else x * Pow(x, n - 1) }

  function SumSeq(s: seq<nat>): nat { if s == [] then 0 else s[0] + SumSeq(s[1..]) }

  lemma RoundMonotone(x: real, y: real)
    requires x <= y
    ensures Round(x) <= Round(y)
  {}

  /** Rounding moves a value by at most one half, and an integer shift passes through it. */
  lemma RoundWhole(x: real, k: int)
    ensures Round(x - k as real) == Round(x) - k
  {
    var f := (x + 0.5).Floor;
    assert (f - k) as real <= x - k as real + 0.5 < (f - k) as real + 1.0;
  }

  lemma MulMonotone(a: real, x: real, y: real)
    requires 0.0 <= a && x <= y
    ensures a * x <= a * y
  {
    assert a * (y - x) >= 0.0;
  }
}
