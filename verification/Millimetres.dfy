// Lengths in millimetres, exact: the tolerance of every comparison, and rounding down to whole units.
module Millimetres {
  const EPS := 0.000000001

  lemma {:induction false} FloorMonotone(a: real, b: real)
    requires a <= b
    ensures a.Floor <= b.Floor
  {}

  lemma {:induction false} FloorShift(a: real, n: int)
    ensures (a + n as real).Floor == a.Floor + n
  {}
}
