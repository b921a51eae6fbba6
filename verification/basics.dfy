// What more than one of the simulators needs.
module Basics {

  datatype Option<+T> = None | Some(value: T)

  function Pow2(n: nat): (r: nat)
    ensures r >= 1
  {
    if n == 0 then 1 else 2 * Pow2(n - 1)
  }

  /** The sequence without its i-th element. */
  function RemoveAt<T>(q: seq<T>, i: nat): seq<T>
    requires i < |q|
  {
    q[..i] + q[i + 1..]
  }

  lemma MulMonotone(a: int, b: int, c: int)
    requires a <= b && 0 <= c
    ensures a * c <= b * c
  {
  }

  lemma SmallMultiple(d: int, m: int)
    requires -m < d * m < m
    ensures d == 0
  {
    if d >= 1 {
      MulMonotone(1, d, m);
    } else if d <= -1 {
      MulMonotone(d, -1, m);
    }
  }

  /** Quotient and remainder are determined by the division equation. */
  lemma DivisionUnique(a: int, m: nat, q: int, r: int)
    requires m >= 1 && 0 <= r < m && a == q * m + r
    ensures q == a / m && r == a % m
  {
    var d := a / m - q;
    assert d * m == (a / m) * m - q * m;
    SmallMultiple(d, m);
  }
}
