/** Facts about remainders used by the ring and round-robin arguments. */
module Modular {

  lemma ModOf(x: int, b: int, q: int, r: int)
    requires b > 0 && x == b * q + r && 0 <= r < b
    ensures x % b == r && x / b == q
  {
    var q', r' := x / b, x % b;
    assert x == b * q' + r';
    assert b * (q - q') == r' - r;
    if q < q' {
      Scale(b, q - q', -1);
    } else if q > q' {
      Scale(b, 1, q - q');
    }
  }

  lemma Scale(b: int, x: int, y: int)
    requires b > 0 && x <= y
    ensures b * x <= b * y
  {
    assert b * (y - x) >= 0;
  }

  /** Stepping by the modulus, or by less than what is left of it. */
  lemma ModStep(x: int, b: int, t: int)
    requires b > 0 && 0 <= x % b + t < b
    ensures (x + t) % b == x % b + t
  {
    ModOf(x + t, b, x / b, x % b + t);
  }

  lemma NextQuotient(i: nat, per: nat)
    requires per > 0
    ensures (i + 1) % per == (if i % per + 1 < per then i % per + 1 else 0)
    ensures (i + 1) / per == i / per + (if i % per + 1 < per then 0 else 1)
  {
    var q, r := i / per, i % per;
    assert i == per * q + r;
    if r + 1 < per {
      ModOf(i + 1, per, q, r + 1);
    } else {
      assert per * (q + 1) == per * q + per;
      ModOf(i + 1, per, q + 1, 0);
    }
  }

  lemma AddModulus(x: int, b: int)
    requires b > 0
    ensures (x + b) % b == x % b && (x + b) / b == x / b + 1
  {
    assert x + b == b * (x / b + 1) + x % b;
    ModOf(x + b, b, x / b + 1, x % b);
  }

  lemma MultipleStep(x: int, b: int)
    requires b > 0 && x % b == 0
    ensures (x + b) % b == 0
  {
    ModOf(x + b, b, x / b + 1, 0);
  }

  lemma MultipleGap(x: int, y: int, b: int)
    requires b > 0 && x % b == 0 && y % b == 0 && x < y
    ensures x + b <= y
  {
    assert x == b * (x / b) && y == b * (y / b);
    if y / b <= x / b {
      Scale(b, y / b, x / b);
    } else {
      Scale(b, x / b + 1, y / b);
    }
  }

  /** Distinct numbers less than m apart have distinct remainders. */
  lemma ModDistinct(x: int, y: int, m: int)
    requires m > 0 && 0 < y - x < m
    ensures x % m != y % m
  {
    if x % m == y % m {
      assert y - x == m * (y / m - x / m);
      if y / m - x / m <= 0 {
        Scale(m, y / m - x / m, 0);
      } else {
        Scale(m, 1, y / m - x / m);
      }
    }
  }

  /** A remainder modulo a multiple of b is the same modulo b. */
  lemma ModModMultiple(x: int, m: int, b: int)
    requires b > 0 && m > 0 && m % b == 0
    ensures (x % m) % b == x % b
  {
    var q := m / b;
    assert x == m * (x / m) + x % m;
    assert m == b * q;
    assert m * (x / m) == b * (q * (x / m));
    ModOf(x, b, q * (x / m) + (x % m) / b, (x % m) % b);
  }
}
