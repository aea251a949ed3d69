/** Small C notions several modules share. */
module Common {

  const TWO32: nat := 0x1_0000_0000
  const TWO64: nat := 0x1_0000_0000_0000_0000

  function Min(a: int, b: int): int { if a < b then a else b }

  /** The elements before the first NUL. */
  function CStr<T(==)>(s: seq<T>, nul: T): seq<T> {
    if s == [] || s[0] == nul then [] else [s[0]] + CStr(s[1..], nul)
  }

  lemma {:induction false} CStrWhole<T>(s: seq<T>, rest: seq<T>, nul: T)
    requires nul !in s && (rest == [] || rest[0] == nul)
    ensures CStr(s + rest, nul) == s
  {
    if s == [] {
      assert s + rest == rest;
    } else {
      CStrWhole(s[1..], rest, nul);
      assert (s + rest)[1..] == s[1..] + rest;
    }
  }

  /** A NUL after the characters changes nothing. */
  lemma {:induction false} CStrStops<T>(s: seq<T>, nul: T)
    ensures CStr(s + [nul], nul) == CStr(s, nul)
  {
    if s != [] {
      CStrStops(s[1..], nul);
      assert (s + [nul])[1..] == s[1..] + [nul];
    }
  }
}
