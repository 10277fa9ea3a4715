/**
  The parts of JavaScript number arithmetic that the carousel relies on, on
  integral values: `Math.abs` and the remainder operator `%`, which truncates
  toward zero (its result takes the sign of the dividend) unlike Dafny's
  Euclidean `%`.
 */
module JsMath {

  /** `Math.abs` on an integral number. */
  function Abs(x: int): (r: nat)
    ensures r == x || r == -x
  {
    if x < 0 then -x else x
  }

  /** The quotient JavaScript's `%` is defined against: `a / b` truncated toward zero. */
  function Quot(a: int, b: int): int
    requires b != 0
  {
    var q := if a >= 0 then a / Abs(b) else -((-a) / Abs(b));
    if b > 0 then q else -q
  }

  /** JavaScript's `a % b` on integral numbers. */
  function Rem(a: int, b: int): (r: int)
    requires b != 0
    ensures a == Quot(a, b) * b + r
    ensures Abs(r) < Abs(b)
    ensures a >= 0 ==> r >= 0
    ensures a <= 0 ==> r <= 0
  {
    if a >= 0 then a % Abs(b) else -((-a) % Abs(b))
  }

  /** Euclidean division is determined by any decomposition with a remainder in range. */
  lemma ModUnique(i: int, n: int, k: int, r: int)
    requires n > 0 && 0 <= r < n && i == k * n + r
    ensures i % n == r
  {
    var d := k - i / n;
    assert d * n == i % n - r;
  }

  /** The JavaScript formula below agrees with the mathematical (Euclidean) modulus. */
  lemma WrapIsModulo(index: int, total: int)
    requires total > 0
    ensures Rem(Rem(index, total) + total, total) == index % total
  {
    var q := Rem(index, total);
    var k := Quot(index, total);
    var x := q + total;
    assert index == k * total + q;
    if q >= 0 {
      ModUnique(index, total, k, q);
      ModUnique(x, total, 1, q);
    } else {
      assert index == (k - 1) * total + x;
      ModUnique(index, total, k - 1, x);
      ModUnique(x, total, 0, x);
    }
  }

  /**
    The slide normalisation `(index % total + total) % total`, written with
    JavaScript's remainder: every integer lands in range, wrapped, never clamped.
   */
  function Wrap(index: int, total: int): (r: int)
    requires total > 0
    ensures 0 <= r < total
    ensures r == index % total
  {
    WrapIsModulo(index, total);
    Rem(Rem(index, total) + total, total)
  }

  /** With five slides, -1 wraps to 4, 5 to 0, 12 to 2 and -6 to 4. */
  lemma WrapExamples()
    ensures Wrap(-1, 5) == 4
    ensures Wrap(5, 5) == 0
    ensures Wrap(12, 5) == 2
    ensures Wrap(-6, 5) == 4
  {
  }
}
