/** The conversion of a 64-bit unsigned number to double and back: 53 significant bits, ties to the even one. */
module Doubles {
  import opened BitOps
  import opened Common
  import opened Modular

  const TWO52: nat := 0x10_0000_0000_0000
  const TWO53: nat := 0x20_0000_0000_0000

  /** How many low bits of v lie beyond its 53 leading ones. */
  function Excess(v: nat): nat { if v < TWO53 then 0 else 1 + Excess(v / 2) }

  /** The distance of the doubles around v. */
  function Gap(v: nat): (p: nat)
    ensures p > 0
  {
    Pow2(Excess(v))
  }

  predicate Representable(v: nat) { v % Gap(v) == 0 }

  function Nearest(v: nat): nat {
    var p := Gap(v);
    var q, r := v / p, v % p;
    if 2 * r > p || (2 * r == p && q % 2 == 1) then p * (q + 1) else p * q
  }

  lemma DivDouble(v: nat, p: nat)
    requires p > 0
    ensures v / (2 * p) == (v / 2) / p
  {
    var h := v / 2;
    var q, r := h / p, h % p;
    assert h == p * q + r && v == 2 * h + v % 2;
    assert v == (2 * p) * q + (2 * r + v % 2);
    ModOf(v, 2 * p, q, 2 * r + v % 2);
  }

  /** The leading bits of v. */
  lemma {:induction false} Leading(v: nat)
    ensures v / Gap(v) < TWO53
    ensures v >= TWO53 ==> v / Gap(v) >= TWO52
  {
    if v >= TWO53 {
      Leading(v / 2);
      DivDouble(v, Gap(v / 2));
      if v / 2 < TWO53 {
        assert Gap(v / 2) == 1;
      }
    }
  }

  lemma {:induction false} ExcessUnique(v: nat, e: nat)
    requires e > 0 && TWO52 <= v / Pow2(e) < TWO53
    ensures Excess(v) == e
  {
    DivDouble(v, Pow2(e - 1));
    if e == 1 {
      assert Pow2(0) == 1 && v / 2 < TWO53 && v >= TWO53;
    } else {
      ExcessUnique(v / 2, e - 1);
    }
  }

  /** The conversion is exact for the representable numbers and for no others. */
  lemma ExactIff(v: nat)
    ensures Nearest(v) == v <==> Representable(v)
  {
    var p := Gap(v);
    var q, r := v / p, v % p;
    assert v == p * q + r && p * (q + 1) == p * q + p;
  }

  /** Halfway between two representable numbers the result is the one whose last significant bit is zero. */
  lemma TiesToEven(v: nat)
    requires 2 * (v % Gap(v)) == Gap(v)
    ensures Nearest(v) % (2 * Gap(v)) == 0
  {
    var p := Gap(v);
    var q := v / p;
    var m := if q % 2 == 1 then q + 1 else q;
    assert Nearest(v) == p * m && m == 2 * (m / 2);
    assert p * m == (2 * p) * (m / 2);
    ModOf(Nearest(v), 2 * p, m / 2, 0);
  }

  lemma OutsideGap(v: nat, w: nat)
    requires Representable(w) && !Representable(v)
    ensures w <= Gap(v) * (v / Gap(v)) || w >= Gap(v) * (v / Gap(v)) + Gap(v)
  {
    var p, q := Gap(v), v / Gap(v);
    if p * q < w < p * q + p {
      Leading(v);
      ModOf(w, p, q, w - p * q);
      ExcessUnique(w, Excess(v));
    }
  }

  function Distance(a: nat, b: nat): nat { if a < b then b - a else a - b }

  /** No representable number is closer. */
  lemma NearestIsClosest(v: nat, w: nat)
    requires Representable(w)
    ensures Distance(Nearest(v), v) <= Distance(w, v)
  {
    var p := Gap(v);
    var q, r := v / p, v % p;
    assert v == p * q + r && p * (q + 1) == p * q + p;
    if r == 0 {
      ExactIff(v);
    } else {
      OutsideGap(v, w);
    }
  }

  lemma ScaledRepresentable(m: nat, e: nat)
    requires TWO52 <= m < TWO53
    ensures Representable(Pow2(e) * m)
  {
    var p := Pow2(e);
    ModOf(p * m, p, m, 0);
    if e > 0 {
      ExcessUnique(p * m, e);
    }
  }

  /** The result of the conversion is representable. */
  lemma NearestRepresentable(v: nat)
    ensures Representable(Nearest(v))
  {
    var e, p := Excess(v), Gap(v);
    var q := v / p;
    if Representable(v) {
      ExactIff(v);
    } else {
      Leading(v);
      ScaledRepresentable(q, e);
      if q + 1 < TWO53 {
        ScaledRepresentable(q + 1, e);
      } else {
        assert p * TWO53 == Pow2(e + 1) * TWO52;
        ScaledRepresentable(TWO52, e + 1);
      }
    }
  }

  lemma {:induction false} ExcessAtMost(v: nat, e: nat)
    requires v < TWO53 * Pow2(e)
    ensures Excess(v) <= e
  {
    if v >= TWO53 {
      assert e > 0;
      ExcessAtMost(v / 2, e - 1);
    }
  }

  lemma {:induction false} Pow2Monotone(d: nat, e: nat)
    requires d <= e
    ensures Pow2(d) <= Pow2(e)
  {
    if d < e {
      Pow2Monotone(d, e - 1);
    }
  }

  /** Numbers that a 64-bit word can take back are those below 2^64 - 1024: from there on they round to 2^64. */
  lemma StaysBelowIff(v: nat)
    requires v < TWO64
    ensures Nearest(v) < TWO64 <==> v < TWO64 - 1024
  {
    var p := Gap(v);
    var q, r := v / p, v % p;
    assert v == p * q + r;
    Leading(v);
    if v < TWO64 / 2 {
      assert Pow2(10) == 1024;
      ExcessAtMost(v, 10);
      Pow2Monotone(Excess(v), 10);
      Bounded(p, q + 1, 1024, TWO53);
    } else {
      assert Pow2(11) == 2048;
      ExcessUnique(v, 11);
    }
  }

  lemma Bounded(a: nat, b: nat, c: nat, d: nat)
    requires 0 < a <= c && b <= d
    ensures a * b <= c * d
  {
    Scale(a, b, d);
    assert (c - a) * d >= 0;
    assert c * d == a * d + (c - a) * d;
  }

  lemma SmallRepresentable(v: nat)
    requires v <= TWO53
    ensures Representable(v)
  {
    if v == TWO53 {
      assert Excess(TWO53 / 2) == 0;
      assert Gap(v) == 2;
    } else {
      assert Gap(v) == 1;
    }
  }
}
