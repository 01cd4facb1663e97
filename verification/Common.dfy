// Small shared vocabulary: optional values, results with an error, and the
// maximum of a list of integers.
module Common {

  datatype Option<+T> = None | Some(value: T)

  datatype Result<+T, +E> = Ok(value: T) | Err(error: E)

  function Max(a: int, b: int): int {
    if a < b then b else a
  }

  function Min(a: int, b: int): int {
    if a < b then a else b
  }

  /** The largest element of `xs`, or `floor` when nothing in `xs` exceeds it. */
  function MaxOf(floor: int, xs: seq<int>): (m: int)
    ensures floor <= m
    ensures forall x :: x in xs ==> x <= m
    ensures m == floor || m in xs
    decreases |xs|
  {
    assert forall x :: x in xs ==> x == xs[0] || x in xs[1..];
    if xs == [] then floor else MaxOf(Max(floor, xs[0]), xs[1..])
  }

  function Pow2(k: nat): (power: nat)
    ensures power >= 1
  {
    if k == 0 then 1 else 2 * Pow2(k - 1)
  }

  predicate Distinct(names: seq<string>) {
    forall i, j :: 0 <= i < j < |names| ==> names[i] != names[j]
  }

  predicate Sorted(xs: seq<int>) {
    forall i, j :: 0 <= i < j < |xs| ==> xs[i] <= xs[j]
  }
}
