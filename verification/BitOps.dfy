/** Bitwise operations on natural numbers, as C computes them on unsigned words. */
module BitOps {
  import opened Modular

  function Pow2(n: nat): (p: nat)
    ensures p > 0
  {
    if n == 0 then 1 else 2 * Pow2(n - 1)
  }

  datatype BitFn = Xor | Or | And

  function Bit(f: BitFn, a: nat, b: nat): nat {
    match f
    case Xor => if a != b then 1 else 0
    case Or => if a != 0 || b != 0 then 1 else 0
    case And => if a != 0 && b != 0 then 1 else 0
  }

  /** The low n bits of the bitwise operation. */
  function BitOp(f: BitFn, a: nat, b: nat, n: nat): nat {
    if n == 0 then 0 else Bit(f, a % 2, b % 2) + 2 * BitOp(f, a / 2, b / 2, n - 1)
  }

  lemma {:induction false} BitOpBound(f: BitFn, a: nat, b: nat, n: nat)
    ensures BitOp(f, a, b, n) < Pow2(n)
  {
    if n > 0 {
      BitOpBound(f, a / 2, b / 2, n - 1);
    }
  }

  /** Remainder by twice p, from the halves. */
  lemma ModDouble(bit: nat, x: nat, p: nat)
    requires bit < 2 && p > 0
    ensures (bit + 2 * x) % (2 * p) == bit + 2 * (x % p)
  {
    var q, r := x / p, x % p;
    assert bit + 2 * x == (2 * p) * q + (bit + 2 * r);
    ModOf(bit + 2 * x, 2 * p, q, bit + 2 * r);
  }

  /** The low k bits of a number, bit by bit. */
  function Low(a: nat, k: nat): nat {
    if k == 0 then 0 else a % 2 + 2 * Low(a / 2, k - 1)
  }

  lemma {:induction false} LowIsMod(a: nat, k: nat)
    ensures Low(a, k) == a % Pow2(k)
  {
    if k > 0 {
      LowIsMod(a / 2, k - 1);
      ModDouble(a % 2, a / 2, Pow2(k - 1));
    }
  }

  lemma LowCons(bit: nat, high: nat, k: nat)
    requires bit < 2 && k > 0
    ensures Low(bit + 2 * high, k) == bit + 2 * Low(high, k - 1)
  {
  }

  lemma BitOpCons(f: BitFn, p: nat, q: nat, r: nat, s: nat, k: nat)
    requires p < 2 && r < 2 && k > 0
    ensures BitOp(f, p + 2 * q, r + 2 * s, k) == Bit(f, p, r) + 2 * BitOp(f, q, s, k - 1)
  {
  }

  lemma LowBitsStep(f: BitFn, p: nat, q: nat, r: nat, s: nat, n: nat, k: nat)
    requires p < 2 && r < 2 && 0 < k <= n
    requires Low(BitOp(f, q, s, n - 1), k - 1) == BitOp(f, Low(q, k - 1), Low(s, k - 1), k - 1)
    ensures Low(BitOp(f, p + 2 * q, r + 2 * s, n), k) == BitOp(f, Low(p + 2 * q, k), Low(r + 2 * s, k), k)
  {
    BitOpCons(f, p, q, r, s, n);
    LowCons(Bit(f, p, r), BitOp(f, q, s, n - 1), k);
    LowCons(p, q, k);
    LowCons(r, s, k);
    BitOpCons(f, p, Low(q, k - 1), r, Low(s, k - 1), k);
  }

  /** The low k bits of a bitwise operation depend on the low k bits of the operands only. */
  lemma {:induction false} LowBits(f: BitFn, a: nat, b: nat, n: nat, k: nat)
    requires k <= n
    ensures Low(BitOp(f, a, b, n), k) == BitOp(f, Low(a, k), Low(b, k), k)
  {
    if k > 0 {
      LowBits(f, a / 2, b / 2, n - 1, k - 1);
      LowBitsStep(f, a % 2, a / 2, b % 2, b / 2, n, k);
    }
  }

  function BitAt(a: nat, i: nat): nat { a / Pow2(i) % 2 }

  lemma BitAtStep(a: nat, i: nat)
    ensures BitAt(a, i + 1) == BitAt(a / 2, i)
  {
    var p := Pow2(i);
    var h := a / 2;
    var q, r := h / p, h % p;
    assert h == p * q + r;
    assert a == (2 * p) * q + (2 * r + a % 2);
    ModOf(a, 2 * p, q, 2 * r + a % 2);
  }

  lemma BitOpHalves(f: BitFn, a: nat, b: nat, n: nat)
    requires n > 0
    ensures BitOp(f, a, b, n) % 2 == Bit(f, a % 2, b % 2)
    ensures BitOp(f, a, b, n) / 2 == BitOp(f, a / 2, b / 2, n - 1)
  {
  }

  /** Each bit of the result is the operation on the bits of the operands. */
  lemma {:induction false} BitOpAt(f: BitFn, a: nat, b: nat, n: nat, i: nat)
    requires i < n
    ensures BitAt(BitOp(f, a, b, n), i) == Bit(f, BitAt(a, i), BitAt(b, i))
  {
    BitOpHalves(f, a, b, n);
    if i == 0 {
      assert forall x: nat :: BitAt(x, 0) == x % 2;
    } else {
      BitOpAt(f, a / 2, b / 2, n - 1, i - 1);
      BitAtStep(a, i - 1);
      BitAtStep(b, i - 1);
      BitAtStep(BitOp(f, a, b, n), i - 1);
    }
  }
}
