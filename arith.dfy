// Facts about Euclidean remainder that the wrap-around of machine integers needs.
module Arith {

  lemma MulAtLeast(d: int, m: int)
    requires d >= 1 && m > 0
    ensures d * m >= m
  {
    assert d * m == (d - 1) * m + m;
    assert (d - 1) * m >= 0;
  }

  /** The remainder is determined by any quotient/remainder decomposition. */
  lemma ModUnique(a: int, m: int, q: int, r: int)
    requires m > 0 && 0 <= r < m && a == q * m + r
    ensures a % m == r
  {
    var q0, r0 := a / m, a % m;
    assert a == q0 * m + r0;
    assert (q - q0) * m == r0 - r;
    if q > q0 {
      MulAtLeast(q - q0, m);
    } else if q < q0 {
      MulAtLeast(q0 - q, m);
    }
  }

  /** Reducing a factor before multiplying does not change the result modulo m. */
  lemma ModMulLeft(x: int, y: int, m: int)
    requires m > 0
    ensures ((x % m) * y) % m == (x * y) % m
  {
    var q, r := x / m, x % m;
    var s, t := (r * y) % m, (r * y) / m;
    assert r * y == t * m + s;
    assert x * y == (q * y + t) * m + s by {
      assert x == q * m + r;
      calc {
        x * y;
        == (q * m + r) * y;
        == q * m * y + r * y;
        == q * y * m + t * m + s;
        == (q * y + t) * m + s;
      }
    }
    ModUnique(x * y, m, q * y + t, s);
  }

  /** One step of a left fold of products that reduces after every multiplication. */
  lemma ModMulStep(acc: int, d: int, w: int, m: int)
    requires m > 0
    ensures (((acc * d) % m) * w) % m == (acc * (d * w)) % m
  {
    ModMulLeft(acc * d, w, m);
    assert acc * d * w == acc * (d * w);
  }

  /** Reducing modulo a multiple k * m first does not change the remainder modulo m. */
  lemma ModModMultiple(x: int, m: int, k: int)
    requires m > 0 && k > 0
    ensures (x % (k * m)) % m == x % m
  {
    var km := k * m;
    MulAtLeast(k, m);
    var q, r := x / km, x % km;
    assert x == q * km + r;
    var s, t := r % m, r / m;
    assert r == t * m + s;
    assert x == (q * k + t) * m + s by {
      calc {
        x;
        == q * km + r;
        == q * (k * m) + t * m + s;
        == (q * k + t) * m + s;
      }
    }
    ModUnique(x, m, q * k + t, s);
  }
}
