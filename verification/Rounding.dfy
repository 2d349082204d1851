/** Dart's `round()`: to the nearest integer, halves away from zero. */
module Rounding {
  function Round(x: real): int {
    if x >= 0.0 then (x + 0.5).Floor else -((0.5 - x).Floor)
  }

  lemma RoundMonotone(x: real, y: real)
    requires x <= y
    ensures Round(x) <= Round(y)
  {
  }

  lemma RoundNearest(x: real)
    ensures x - 0.5 <= Round(x) as real <= x + 0.5
    ensures Round(-x) == -Round(x)
  {
  }

  lemma RoundWhole(n: int)
    ensures Round(n as real) == n
  {
  }
}
