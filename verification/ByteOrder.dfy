/** Words and their bytes in network order. */
module ByteOrder {
  import opened Modular

  newtype Byte = x: int | 0 <= x < 256

  /** The low n bytes of a word, most significant first. */
  function Hton(w: nat, n: nat): (b: seq<Byte>)
    ensures |b| == n
  {
    if n == 0 then [] else Hton(w / 256, n - 1) + [(w % 256) as Byte]
  }

  function Ntoh(b: seq<Byte>): nat {
    if b == [] then 0 else 256 * Ntoh(b[..|b| - 1]) + b[|b| - 1] as nat
  }

  function Pow256(n: nat): (p: nat)
    ensures p > 0
  {
    if n == 0 then 1 else 256 * Pow256(n - 1)
  }

  lemma {:induction false} ByteOrderRoundTrip(w: nat, n: nat)
    requires w < Pow256(n)
    ensures Ntoh(Hton(w, n)) == w
  {
    if n > 0 {
      ByteOrderRoundTrip(w / 256, n - 1);
      assert Hton(w, n)[..n - 1] == Hton(w / 256, n - 1);
    }
  }

  lemma {:induction false} BytesRoundTrip(b: seq<Byte>)
    ensures Hton(Ntoh(b), |b|) == b && Ntoh(b) < Pow256(|b|)
  {
    if b != [] {
      BytesRoundTrip(b[..|b| - 1]);
    }
  }

  /** Byte i of a word: the word without its lower bytes, modulo 256. */
  lemma {:induction false} MostSignificantFirst(w: nat, n: nat, i: nat)
    requires i < n
    ensures Hton(w, n)[i] as nat == w / Pow256(n - 1 - i) % 256
  {
    if i < n - 1 {
      MostSignificantFirst(w / 256, n - 1, i);
      DivTwice(w, Pow256(n - 2 - i));
    }
  }

  lemma DivTwice(w: nat, p: nat)
    requires p > 0
    ensures w / 256 / p == w / (256 * p)
  {
    var q, r := w / 256 / p, w / 256 % p;
    assert w / 256 == p * q + r;
    assert w == (256 * p) * q + (256 * r + w % 256);
    ModOf(w, 256 * p, q, 256 * r + w % 256);
  }
}
