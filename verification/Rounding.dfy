/** Rounding as Python does it, over the rationals. */
module Rounding {
  /** Python's `round`: to nearest, ties to even. */
  function Round(x: real): int {
    var below := x.Floor;
    var frac := x - below as real;
    if frac < 0.5 || (frac == 0.5 && below % 2 == 0) then below else below + 1
  }

  lemma RoundIsNear(x: real)
    ensures x - 0.5 <= Round(x) as real <= x + 0.5
  {
  }

  lemma RoundOfWhole(x: real)
    requires x == x.Floor as real
    ensures Round(x) as real == x
  {
  }
}
