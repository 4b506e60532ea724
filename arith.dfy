/** Facts about multiplication and integer division with a variable divisor,
    which the solver does not find by itself. */
module Arith {

  lemma MulMonoLeft(x: int, y: int, z: int)
    requires x <= y && z >= 0
    ensures x * z <= y * z
  {
    assert y * z - x * z == (y - x) * z;
  }

  /** The quotient is the only `q` that leaves a remainder in [0, b). */
  lemma DivUnique(a: int, b: int, q: int, r: int)
    requires b > 0 && 0 <= r < b && a == b * q + r
    ensures a / b == q
  {
    var q', r' := a / b, a % b;
    assert a == b * q' + r' && 0 <= r' < b;
    if q' < q {
      MulMonoLeft(q' + 1, q, b);
    } else if q < q' {
      MulMonoLeft(q + 1, q', b);
    }
  }

  lemma DivCancel(a: nat, b: nat, c: nat)
    requires b > 0 && c > 0
    ensures (a * c) / (b * c) == a / b
  {
    var q, r := a / b, a % b;
    assert a == b * q + r;
    assert a * c == (b * c) * q + r * c;
    MulMonoLeft(r, b - 1, c);
    DivUnique(a * c, b * c, q, r * c);
  }

  lemma DivAtLeast(a: nat, b: nat, w: nat)
    requires 0 < b && b * w <= a
    ensures a / b >= w
  {
    var q, r := a / b, a % b;
    assert a == b * q + r;
    if q < w {
      MulMonoLeft(q + 1, w, b);
    }
  }

  lemma DivAtMost(a: nat, b: nat)
    requires 0 < b
    ensures 0 <= a / b <= a
  {
    var q, r := a / b, a % b;
    assert a == b * q + r;
    MulMonoLeft(1, b, q);
  }

  /** At most `b` copies of `a / b` fit in `a`. */
  lemma MulQuotientAtMost(a: nat, b: nat, k: nat)
    requires 0 < b && k <= b
    ensures k * (a / b) <= a
  {
    var q, r := a / b, a % b;
    assert a == b * q + r && 0 <= r;
    MulMonoLeft(k, b, q);
  }

  /** A larger divisor never gives a larger quotient. */
  lemma DivAntitone(a: nat, b: nat, c: nat)
    requires 0 < b <= c
    ensures a / c <= a / b
  {
    var q, r := a / c, a % c;
    assert a == c * q + r && 0 <= r;
    MulMonoLeft(b, c, q);
    assert b * q <= a;
    DivAtLeast(a, b, q);
  }
}
