/** The JavaScript number operations the model needs, on exact integers and reals. */
module JsMath {

  /** `a % b` for a positive `b`: the remainder takes the sign of `a` (truncating division). */
  function Rem(a: int, b: int): (r: int)
    requires b > 0
    ensures a >= 0 ==> 0 <= r < b
    ensures a < 0 ==> -b < r <= 0
    ensures a == Trunc(a, b) * b + r
  {
    if a >= 0 then a % b else -((-a) % b)
  }

  /** The truncating quotient `Math.trunc(a / b)` for a positive `b`. */
  function Trunc(a: int, b: int): int
    requires b > 0
  {
    if a >= 0 then a / b else -((-a) / b)
  }

  /** `Math.round(x)`: the nearest integer, halves rounded up. */
  function Round(x: real): (r: int)
    ensures r as real - 0.5 <= x < r as real + 0.5
  {
    (x + 0.5).Floor
  }

  /** `Math.floor(x)`. */
  function Floor(x: real): (r: int)
    ensures r as real <= x < r as real + 1.0
  {
    x.Floor
  }

  /** `Math.min(a, b)`. */
  function Min(a: int, b: int): int {
    if a <= b then a else b
  }

  /** `Math.max(a, b)`. */
  function Max(a: int, b: int): int {
    if a >= b then a else b
  }

  /** A value of `Math.random()`. */
  predicate IsDraw(r: real) {
    0.0 <= r < 1.0
  }

  /** `Math.floor(r * n)` for a draw `r`: an index below `n`. */
  function Pick(r: real, n: nat): (i: nat)
    requires IsDraw(r) && n > 0
    ensures i < n
    ensures i as real <= r * n as real < i as real + 1.0
  {
    ScaledBelow(r, n as real);
    (r * n as real).Floor
  }

  lemma ScaledBelow(r: real, x: real)
    requires 0.0 <= r < 1.0 && x > 0.0
    ensures 0.0 <= r * x < x
  {
    assert x - r * x == (1.0 - r) * x;
  }

  /** `list[Math.floor(Math.random() * list.length)]`. */
  function PickFrom<T>(list: seq<T>, r: real): (x: T)
    requires IsDraw(r) && |list| > 0
    ensures x in list
  {
    list[Pick(r, |list|)]
  }
}
