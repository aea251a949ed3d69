/** Sums over sequences: the counting arguments of the protocol proofs are all phrased with Total. */
module Counting {

  function Total<T>(s: seq<T>, f: T -> int): int {
    if s == [] then 0 else f(s[0]) + Total(s[1..], f)
  }

  /** Replacing one element changes the sum by the difference at that element. */
  lemma {:induction false} TotalUpdate<T>(s: seq<T>, i: nat, x: T, f: T -> int)
    requires i < |s|
    ensures Total(s[i := x], f) == Total(s, f) - f(s[i]) + f(x)
  {
    if i == 0 {
      assert s[0 := x][1..] == s[1..];
    } else {
      assert s[i := x][1..] == s[1..][i - 1 := x];
      TotalUpdate(s[1..], i - 1, x, f);
    }
  }

  lemma {:induction false} TotalBounds<T>(s: seq<T>, f: T -> int, lo: int, hi: int)
    requires forall i :: 0 <= i < |s| ==> lo <= f(s[i]) <= hi
    ensures lo * |s| <= Total(s, f) <= hi * |s|
  {
    if s != [] {
      var t := s[1..];
      assert forall i :: 0 <= i < |t| ==> t[i] == s[i + 1];
      TotalBounds(t, f, lo, hi);
      assert lo * |s| == lo * |t| + lo && hi * |s| == hi * |t| + hi;
    }
  }

  lemma TotalConst<T>(s: seq<T>, f: T -> int, v: int)
    requires forall i :: 0 <= i < |s| ==> f(s[i]) == v
    ensures Total(s, f) == v * |s|
  {
    TotalBounds(s, f, v, v);
  }

  /** Two sequences that differ by a constant at each index differ by length times that constant in sum. */
  lemma {:induction false} TotalShift<T, U>(a: seq<T>, b: seq<U>, f: T -> int, g: U -> int, d: int)
    requires |a| == |b|
    requires forall i :: 0 <= i < |a| ==> f(a[i]) == g(b[i]) + d
    ensures Total(a, f) == Total(b, g) + d * |a|
  {
    if a != [] {
      var a', b' := a[1..], b[1..];
      assert forall i :: 0 <= i < |a'| ==> a'[i] == a[i + 1] && b'[i] == b[i + 1];
      TotalShift(a', b', f, g, d);
      assert d * |a| == d * |a'| + d;
    }
  }

  lemma {:induction false} TotalSum<T>(s: seq<T>, f: T -> int, g: T -> int, h: T -> int)
    requires forall i :: 0 <= i < |s| ==> f(s[i]) == g(s[i]) + h(s[i])
    ensures Total(s, f) == Total(s, g) + Total(s, h)
  {
    if s != [] {
      var t := s[1..];
      assert forall i :: 0 <= i < |t| ==> t[i] == s[i + 1];
      TotalSum(t, f, g, h);
    }
  }

  lemma {:induction false} TotalNonneg<T>(s: seq<T>, f: T -> int)
    requires forall j :: 0 <= j < |s| ==> f(s[j]) >= 0
    ensures Total(s, f) >= 0
  {
    if s != [] {
      var t := s[1..];
      assert forall j :: 0 <= j < |t| ==> t[j] == s[j + 1];
      TotalNonneg(t, f);
    }
  }

  /** A sum of natural numbers is at least each of its parts. */
  lemma {:induction false} TotalAtLeast<T>(s: seq<T>, f: T -> int, i: nat)
    requires i < |s|
    requires forall j :: 0 <= j < |s| ==> f(s[j]) >= 0
    ensures f(s[i]) <= Total(s, f)
  {
    var t := s[1..];
    assert forall j :: 0 <= j < |t| ==> t[j] == s[j + 1];
    if i == 0 {
      TotalNonneg(t, f);
    } else {
      TotalAtLeast(t, f, i - 1);
    }
  }

  /** A positive sum has a positive element. */
  lemma {:induction false} TotalWitness<T>(s: seq<T>, f: T -> int) returns (i: nat)
    requires Total(s, f) > 0
    ensures i < |s| && f(s[i]) > 0
  {
    if f(s[0]) > 0 {
      i := 0;
    } else {
      i := TotalWitness(s[1..], f);
      i := i + 1;
    }
  }

  /** A sum of naturals that is zero has only zero elements. */
  lemma TotalZero<T>(s: seq<T>, f: T -> int)
    requires forall j :: 0 <= j < |s| ==> f(s[j]) >= 0
    requires Total(s, f) == 0
    ensures forall j :: 0 <= j < |s| ==> f(s[j]) == 0
  {
    forall j | 0 <= j < |s| ensures f(s[j]) == 0 {
      TotalAtLeast(s, f, j);
    }
  }
}
