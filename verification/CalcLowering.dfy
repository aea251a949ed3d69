/**
 The calc operations of cc_pingpong.c: host operations and operands are rewritten to the few 64-bit operations the
 device has, folded there, and rewritten back.
 */
module CalcLowering {
  import opened BitOps
  import opened ByteOrder
  import opened Common
  import opened Doubles
  import opened Folds
  import opened Modular

  datatype Type = Int8 | Int16 | Int32 | Int64 | Uint8 | Uint16 | Uint32 | Uint64 {
    predicate Signed() { Int8? || Int16? || Int32? || Int64? }
  }

  datatype Op = Lxor | Bxor | Lor | Bor | Land | Band | Add | Max | Min | MaxLoc | MinLoc | Prod

  datatype NicOp = NicBxor | NicBor | NicBand | NicAdd | NicMaxLoc

  datatype Result<T> = Ok(value: T) | Einval


  function Width(t: Type): nat {
    match t
    case Int8 => 8 case Uint8 => 8
    case Int16 => 16 case Uint16 => 16
    case Int32 => 32 case Uint32 => 32
    case Int64 => 64 case Uint64 => 64
  }

  /** Two to the width. */
  function Modulus(t: Type): (m: nat)
    ensures m > 0
  {
    match t
    case Int8 => 0x100 case Uint8 => 0x100
    case Int16 => 0x1_0000 case Uint16 => 0x1_0000
    case Int32 => TWO32 case Uint32 => TWO32
    case Int64 => TWO64 case Uint64 => TWO64
  }

  /** The bytes of a host value of type t, read as an unsigned number. */
  predicate Raw(t: Type, x: nat) { x < Modulus(t) }

  /** The value C computes with: the number the bytes stand for in type t. */
  function Extend(t: Type, x: nat): int {
    if t.Signed() && x >= Modulus(t) / 2 then x - Modulus(t) else x
  }

  function Bool(b: bool): nat { if b then 1 else 0 }

  function Neg(v: int): int { -v }

  /** A C value as a 64-bit or 32-bit word. */
  function Wrap64(v: int): nat { v % TWO64 }
  function Wrap32(v: int): nat { v % TWO32 }

  // ---------------------------------------------------------------------------------------------
  // Host side
  // ---------------------------------------------------------------------------------------------

  /** EXEC_INT on two operands of type t, cast back to t; operations outside the chain give 0. */
  function Exec(op: Op, t: Type, a: nat, b: nat): nat {
    var x, y := Extend(t, a), Extend(t, b);
    match op
    case Lxor => Bool((x == 0 && y != 0) || (x != 0 && y == 0))
    case Bxor => BitOp(Xor, Wrap64(x), Wrap64(y), 64) % Modulus(t)
    case Lor => Bool(x != 0 || y != 0)
    case Bor => BitOp(Or, Wrap64(x), Wrap64(y), 64) % Modulus(t)
    case Land => Bool(x != 0 && y != 0)
    case Band => BitOp(And, Wrap64(x), Wrap64(y), 64) % Modulus(t)
    case Add => (x + y) % Modulus(t)
    case Max => if x > y then a else b
    case MaxLoc => if x > y then a else b
    case Min => if x < y then a else b
    case MinLoc => if x < y then a else b
    case Prod => 0
  }

  function HostFold(op: Op, t: Type, xs: seq<nat>): nat
    requires xs != []
  {
    Fold((a, b) => Exec(op, t, a, b), xs)
  }

  /** The C value of a type's bytes: unsigned types read them as they are, signed ones in two's complement. */
  lemma ExtendMeaning(t: Type, x: nat)
    requires Raw(t, x)
    ensures t in {Uint8, Uint16, Uint32, Uint64} ==> Extend(t, x) == x
    ensures t in {Int8, Int16, Int32, Int64} ==>
              && Neg(Modulus(t) / 2) <= Extend(t, x) < Modulus(t) / 2
              && (Extend(t, x) == x || Extend(t, x) == x - Modulus(t))
  {
  }

  // ---------------------------------------------------------------------------------------------
  // Lowering
  // ---------------------------------------------------------------------------------------------

  /** The device operation, whether operands are negated, and whether they are reduced to truth values. */
  datatype Lowered = Lowered(op: NicOp, neg: bool, toBool: bool)

  function Lower(op: Op): Result<Lowered> {
    match op
    case Lxor => Ok(Lowered(NicBxor, false, true))
    case Lor => Ok(Lowered(NicBor, false, true))
    case Land => Ok(Lowered(NicBand, false, true))
    case Min => Ok(Lowered(NicMaxLoc, true, false))
    case Bxor => Ok(Lowered(NicBxor, false, false))
    case Bor => Ok(Lowered(NicBor, false, false))
    case Band => Ok(Lowered(NicBand, false, false))
    case Add => Ok(Lowered(NicAdd, false, false))
    case Max => Ok(Lowered(NicMaxLoc, false, false))
    case _ => Einval
  }

  /** pp_prepare_net_buff with do_neg: the operand is read unsigned; multiplying by -1 happens in int for 8 and 16
      bits (then widened with its sign), in 32-bit unsigned arithmetic for 32 bits (then widened with zeros), and in
      64 bits otherwise. */
  function Negate(t: Type, x: nat): nat {
    if Width(t) == 32 then Wrap32(Neg(x)) else Wrap64(Neg(x))
  }

  /** The word an operand becomes before byte swapping. */
  function NetValue(l: Lowered, t: Type, x: nat): nat {
    var v := if l.neg then Negate(t, x) else x;
    if l.toBool then Bool(v != 0) else v
  }

  /** pp_pack_data_for_calc. */
  function Pack(op: Op, t: Type, x: nat): Result<(NicOp, seq<Byte>)> {
    match Lower(op)
    case Einval => Einval
    case Ok(l) => Ok((l.op, Hton(NetValue(l, t, x), 8)))
  }

  /** pp_pack_data_for_calc on its buffers: the operation and signedness for the request, and eight bytes written. */
  method PackForCalc(op: Op, t: Type, x: nat, net: array<Byte>) returns (r: Result<(NicOp, bool)>)
    requires net.Length >= 8
    modifies net
    ensures match Pack(op, t, x)
            case Ok(packed) => r == Ok((packed.0, t.Signed())) && net[..8] == packed.1
            case Einval => r == Einval && net[..8] == old(net[..8])
    ensures net[8..] == old(net[8..])
  {
    var outOp, doNeg, toBool := NicMaxLoc, false, false;
    match op {
      case Lxor => outOp, toBool := NicBxor, true;
      case Lor => outOp, toBool := NicBor, true;
      case Land => outOp, toBool := NicBand, true;
      case Min => doNeg := true;
      case Bxor => outOp := NicBxor;
      case Bor => outOp := NicBor;
      case Band => outOp := NicBand;
      case Add => outOp := NicAdd;
      case Max =>
      case _ => return Einval;
    }
    var word := if doNeg then Negate(t, x) else x;
    if toBool {
      word := Bool(word != 0);
    }
    var bytes := Hton(word, 8);
    forall i | 0 <= i < 8 {
      net[i] := bytes[i];
    }
    return Ok((outOp, t.Signed()));
  }

  /** pp_unpack_data_from_calc after byte swapping: MIN and MINLOC negate back, and the type's low bytes are kept. */
  function FromWord(op: Op, t: Type, w: nat): nat {
    (if op == Min || op == MinLoc then Wrap64(Neg(w)) else w) % Modulus(t)
  }

  function Unpack(op: Op, t: Type, net: seq<Byte>): nat { FromWord(op, t, Ntoh(net)) }

  // ---------------------------------------------------------------------------------------------
  // The device
  // ---------------------------------------------------------------------------------------------

  /** A word as the device orders it. */
  function NicKey(signed: bool, w: nat): int {
    if signed && w >= TWO64 / 2 then w - TWO64 else w
  }

  /** The plain 64-bit operation an opcode names; MAXLOC compares as the signedness of the lowered type says. */
  function NicExec(op: NicOp, signed: bool, a: nat, b: nat): nat {
    match op
    case NicBxor => BitOp(Xor, a, b, 64)
    case NicBor => BitOp(Or, a, b, 64)
    case NicBand => BitOp(And, a, b, 64)
    case NicAdd => (a + b) % TWO64
    case NicMaxLoc => if NicKey(signed, b) > NicKey(signed, a) then b else a
  }

  /** The device works on network byte order. */
  function NicExecNet(op: NicOp, signed: bool, a: seq<Byte>, b: seq<Byte>): seq<Byte> {
    Hton(NicExec(op, signed, Ntoh(a), Ntoh(b)), 8)
  }

  function Nets(op: Op, t: Type, xs: seq<nat>): seq<seq<Byte>>
    requires Lower(op).Ok?
  {
    seq(|xs|, i requires 0 <= i < |xs| => Pack(op, t, xs[i]).value.1)
  }

  /** Pack every operand, fold the gathered network words on the device, unpack the result. */
  function Offload(op: Op, t: Type, xs: seq<nat>): Result<nat>
    requires xs != []
  {
    match Lower(op)
    case Einval => Einval
    case Ok(l) => Ok(Unpack(op, t, Fold((a, b) => NicExecNet(l.op, t.Signed(), a, b), Nets(op, t, xs))))
  }

  // ---------------------------------------------------------------------------------------------
  // The device's fold with the byte order left out
  // ---------------------------------------------------------------------------------------------

  function Words(l: Lowered, t: Type, xs: seq<nat>): seq<nat> {
    seq(|xs|, i requires 0 <= i < |xs| => NetValue(l, t, xs[i]))
  }

  function WordFold(l: Lowered, t: Type, xs: seq<nat>): nat
    requires xs != []
  {
    Fold((a, b) => NicExec(l.op, t.Signed(), a, b), Words(l, t, xs))
  }

  predicate Encodes(net: seq<Byte>, w: nat) { Ntoh(net) == w && w < TWO64 }

  predicate AllRaw(t: Type, xs: seq<nat>) { forall i :: 0 <= i < |xs| ==> Raw(t, xs[i]) }

  lemma HtonEncodes(w: nat)
    requires w < TWO64
    ensures Encodes(Hton(w, 8), w)
  {
    assert Pow256(8) == TWO64;
    ByteOrderRoundTrip(w, 8);
  }

  lemma {:induction false} Pow2Add(m: nat, n: nat)
    ensures Pow2(m + n) == Pow2(m) * Pow2(n)
  {
    if n > 0 {
      Pow2Add(m, n - 1);
    }
  }

  lemma Pow2Double(n: nat, p: nat)
    requires Pow2(n) == p
    ensures Pow2(2 * n) == p * p
  {
    Pow2Add(n, n);
  }

  lemma WidthIsExponent(t: Type)
    ensures Pow2(Width(t)) == Modulus(t)
  {
    assert Pow2(8) == 0x100;
    Pow2Double(8, 0x100);
    Pow2Double(16, 0x1_0000);
    Pow2Double(32, TWO32);
  }

  lemma NicExecFits(op: NicOp, signed: bool, a: nat, b: nat)
    requires a < TWO64 && b < TWO64
    ensures NicExec(op, signed, a, b) < TWO64
  {
    WidthIsExponent(Int64);
    BitOpBound(Xor, a, b, 64);
    BitOpBound(Or, a, b, 64);
    BitOpBound(And, a, b, 64);
  }

  lemma NetValueEncodes(l: Lowered, t: Type, x: nat)
    requires Raw(t, x)
    ensures Encodes(Hton(NetValue(l, t, x), 8), NetValue(l, t, x))
  {
    HtonEncodes(NetValue(l, t, x));
  }

  /** What the packed word reads back as: the operand, zero-extended; its truth value for the logical operations; its
      negation for MIN, in 32 bits for the 32-bit types and in 64 bits for all others. */
  lemma PackedWord(op: Op, t: Type, x: nat)
    requires Raw(t, x) && Lower(op).Ok?
    ensures var word := Ntoh(Pack(op, t, x).value.1);
            && (op.Add? || op.Bxor? || op.Bor? || op.Band? || op.Max? ==> word == x)
            && (op.Lxor? || op.Lor? || op.Land? ==> word == if x == 0 then 0 else 1)
            && (op.Min? ==> word == if x == 0 then 0 else (if t.Int32? || t.Uint32? then TWO32 else TWO64) - x)
  {
    NetValueEncodes(Lower(op).value, t, x);
    Wrapped(TWO64, x);
    Wrapped(TWO32, x);
    RawFits(t, x);
  }

  lemma NicExecEncodes(op: NicOp, signed: bool, a: seq<Byte>, v: nat, b: seq<Byte>, w: nat)
    requires Encodes(a, v) && Encodes(b, w)
    ensures Encodes(NicExecNet(op, signed, a, b), NicExec(op, signed, v, w))
  {
    NicExecFits(op, signed, v, w);
    HtonEncodes(NicExec(op, signed, v, w));
  }

  /** Byte order cancels out: offloading is folding words. */
  lemma OffloadIsWordFold(op: Op, t: Type, xs: seq<nat>)
    requires xs != [] && AllRaw(t, xs) && Lower(op).Ok?
    ensures Offload(op, t, xs) == Ok(FromWord(op, t, WordFold(Lower(op).value, t, xs)))
  {
    var l := Lower(op).value;
    var f := (a, b) => NicExecNet(l.op, t.Signed(), a, b);
    var g := (a, b) => NicExec(l.op, t.Signed(), a, b);
    var nets, words := Nets(op, t, xs), Words(l, t, xs);
    forall i | 0 <= i < |xs| ensures Encodes(nets[i], words[i]) {
      NetValueEncodes(l, t, xs[i]);
    }
    forall a, b, i | 0 < i < |xs| && Encodes(a, b) ensures Encodes(f(a, nets[i]), g(b, words[i])) {
      NicExecEncodes(l.op, t.Signed(), a, b, nets[i], words[i]);
    }
    FoldRelated(f, nets, g, words, Encodes);
  }

  // ---------------------------------------------------------------------------------------------
  // Direct and logical operations
  // ---------------------------------------------------------------------------------------------

  /** Operations that are lowered to themselves. */
  predicate Direct(op: Op) { op.Add? || op.Bxor? || op.Bor? || op.Band? }

  predicate Logical(op: Op) { op.Lxor? || op.Lor? || op.Land? }

  lemma Congruent(a: int, b: int, m: nat, k: int)
    requires m > 0 && a == b + m * k
    ensures a % m == b % m
  {
    ModOf(a, m, b / m + k, b % m);
  }

  lemma WordIsMultiple(t: Type)
    ensures TWO64 % Modulus(t) == 0
  {
  }

  /** Sign extension leaves the low bytes alone. */
  lemma ExtendLow(t: Type, x: nat)
    requires Raw(t, x)
    ensures Wrap64(Extend(t, x)) % Modulus(t) == x
  {
    var m, e := Modulus(t), Extend(t, x);
    WordIsMultiple(t);
    ModModMultiple(e, TWO64, m);
    Congruent(e, x, m, if e == x then 0 else -1);
    ModOf(x, m, 0, x);
  }

  /** Sign extension changes a sum by a multiple of the modulus. */
  lemma ExtendedSum(t: Type, v: nat, x: nat)
    ensures (Extend(t, v) + Extend(t, x)) % Modulus(t) == (v + x) % Modulus(t)
  {
    var m := Modulus(t);
    var d, e := if Extend(t, v) == v then 0 else 1, if Extend(t, x) == x then 0 else 1;
    assert Extend(t, v) == v - m * d && Extend(t, x) == x - m * e;
    Congruent(v + x, Extend(t, v) + Extend(t, x), m, d + e);
  }

  /** Reducing a sum modulo b may be preceded by reducing it modulo a multiple of b and its first term modulo b. */
  lemma ReducedSum(w: nat, x: nat, big: nat, m: nat)
    requires m > 0 && big > 0 && big % m == 0
    ensures ((w + x) % big) % m == (w % m + x) % m
  {
    ModModMultiple(w + x, big, m);
    assert w == m * (w / m) + w % m;
    Congruent(w + x, w % m + x, m, w / m);
  }

  lemma AddStep(t: Type, w: nat, x: nat)
    ensures ((w + x) % TWO64) % Modulus(t) == Exec(Add, t, w % Modulus(t), x)
  {
    WordIsMultiple(t);
    ReducedSum(w, x, TWO64, Modulus(t));
    ExtendedSum(t, w % Modulus(t), x);
  }

  lemma BitStep(f: BitFn, t: Type, w: nat, x: nat, y: nat, z: nat)
    requires w % Modulus(t) == y % Modulus(t) && x % Modulus(t) == z % Modulus(t)
    ensures BitOp(f, w, x, 64) % Modulus(t) == BitOp(f, y, z, 64) % Modulus(t)
  {
    var k := Width(t);
    WidthIsExponent(t);
    LowIsMod(w, k);
    LowIsMod(x, k);
    LowIsMod(y, k);
    LowIsMod(z, k);
    LowBits(f, w, x, 64, k);
    LowBits(f, y, z, 64, k);
    LowIsMod(BitOp(f, w, x, 64), k);
    LowIsMod(BitOp(f, y, z, 64), k);
  }

  lemma BitwiseStep(f: BitFn, t: Type, w: nat, x: nat)
    requires Raw(t, x)
    ensures BitOp(f, w, x, 64) % Modulus(t)
         == BitOp(f, Wrap64(Extend(t, w % Modulus(t))), Wrap64(Extend(t, x)), 64) % Modulus(t)
  {
    var v := w % Modulus(t);
    ExtendLow(t, v);
    ExtendLow(t, x);
    RawFits(t, x);
    BitStep(f, t, w, x, Wrap64(Extend(t, v)), Wrap64(Extend(t, x)));
  }

  /** On the low bytes, a direct device operation is the host's, whatever the accumulator's high bytes hold. */
  lemma DirectStep(op: Op, t: Type, w: nat, x: nat)
    requires Direct(op) && w < TWO64 && Raw(t, x)
    ensures NicExec(Lower(op).value.op, t.Signed(), w, x) % Modulus(t) == Exec(op, t, w % Modulus(t), x)
  {
    match op
    case Add => AddStep(t, w, x);
    case Bxor => BitwiseStep(Xor, t, w, x);
    case Bor => BitwiseStep(Or, t, w, x);
    case Band => BitwiseStep(And, t, w, x);
  }

  lemma RawFits(t: Type, x: nat)
    requires Raw(t, x)
    ensures x < TWO64 && x % Modulus(t) == x
  {
  }

  lemma FoldLasts(op: Op, l: Lowered, t: Type, xs: seq<nat>)
    requires |xs| > 1
    ensures var n := |xs| - 1;
            && WordFold(l, t, xs) == NicExec(l.op, t.Signed(), WordFold(l, t, xs[..n]), NetValue(l, t, xs[n]))
            && HostFold(op, t, xs) == Exec(op, t, HostFold(op, t, xs[..n]), xs[n])
  {
    assert Words(l, t, xs)[..|xs| - 1] == Words(l, t, xs[..|xs| - 1]);
  }

  lemma {:induction false} DirectFold(op: Op, t: Type, xs: seq<nat>)
    requires Direct(op) && xs != [] && AllRaw(t, xs)
    ensures WordFold(Lower(op).value, t, xs) < TWO64
    ensures WordFold(Lower(op).value, t, xs) % Modulus(t) == HostFold(op, t, xs)
  {
    var l, n := Lower(op).value, |xs| - 1;
    RawFits(t, xs[n]);
    if n > 0 {
      DirectFold(op, t, xs[..n]);
      FoldLasts(op, l, t, xs);
      DirectStep(op, t, WordFold(l, t, xs[..n]), xs[n]);
      NicExecFits(l.op, t.Signed(), WordFold(l, t, xs[..n]), xs[n]);
    }
  }

  /** ADD, BXOR, BOR and BAND mean the same offloaded as on the host, for every integer type and operand list. */
  lemma DirectIsExact(op: Op, t: Type, xs: seq<nat>)
    requires Direct(op) && xs != [] && AllRaw(t, xs)
    ensures Offload(op, t, xs) == Ok(HostFold(op, t, xs))
  {
    OffloadIsWordFold(op, t, xs);
    DirectFold(op, t, xs);
  }

  lemma BitOfBools(f: BitFn, a: nat, b: nat, n: nat)
    requires a <= 1 && b <= 1 && n > 0
    ensures BitOp(f, a, b, n) == Bit(f, a, b)
  {
    BitOpZero(f, n - 1);
  }

  lemma {:induction false} BitOpZero(f: BitFn, n: nat)
    ensures BitOp(f, 0, 0, n) == 0
  {
    if n > 0 {
      BitOpZero(f, n - 1);
    }
  }

  lemma ExtendZero(t: Type, x: nat)
    requires Raw(t, x)
    ensures Extend(t, x) == 0 <==> x == 0
  {
  }

  lemma LogicalBit(op: Op, signed: bool, a: nat, b: nat)
    requires Logical(op) && a <= 1 && b <= 1
    ensures NicExec(Lower(op).value.op, signed, a, b)
         == Bit(if op.Lxor? then Xor else if op.Lor? then Or else And, a, b)
  {
    BitOfBools(if op.Lxor? then Xor else if op.Lor? then Or else And, a, b, 64);
  }

  lemma LogicalStep(op: Op, t: Type, v: nat, x: nat)
    requires Logical(op) && Raw(t, v) && Raw(t, x)
    ensures NicExec(Lower(op).value.op, t.Signed(), Bool(v != 0), Bool(x != 0)) == Exec(op, t, v, x) <= 1
  {
    ExtendZero(t, v);
    ExtendZero(t, x);
    LogicalBit(op, t.Signed(), Bool(v != 0), Bool(x != 0));
  }

  lemma LogicalWord(op: Op, t: Type, x: nat)
    requires Logical(op)
    ensures NetValue(Lower(op).value, t, x) == Bool(x != 0)
    ensures x <= 1 ==> FromWord(op, t, x) == x
  {
  }

  lemma {:induction false} LogicalFold(op: Op, t: Type, xs: seq<nat>)
    requires Logical(op) && xs != [] && AllRaw(t, xs)
    ensures WordFold(Lower(op).value, t, xs) == Bool(HostFold(op, t, xs) != 0)
    ensures |xs| > 1 ==> HostFold(op, t, xs) <= 1
    ensures Raw(t, HostFold(op, t, xs))
  {
    var n := |xs| - 1;
    LogicalWord(op, t, xs[n]);
    if n > 0 {
      LogicalFold(op, t, xs[..n]);
      FoldLasts(op, Lower(op).value, t, xs);
      LogicalStep(op, t, HostFold(op, t, xs[..n]), xs[n]);
    }
  }

  /** LXOR, LOR and LAND agree as truth values on every list, and exactly as soon as there are two operands. */
  lemma LogicalIsExact(op: Op, t: Type, xs: seq<nat>)
    requires Logical(op) && xs != [] && AllRaw(t, xs)
    ensures Offload(op, t, xs) == Ok(Bool(HostFold(op, t, xs) != 0))
    ensures |xs| > 1 ==> Offload(op, t, xs) == Ok(HostFold(op, t, xs))
  {
    OffloadIsWordFold(op, t, xs);
    LogicalFold(op, t, xs);
    LogicalWord(op, t, Bool(HostFold(op, t, xs) != 0));
  }

  // ---------------------------------------------------------------------------------------------
  // MAX and MIN
  // ---------------------------------------------------------------------------------------------

  predicate Extremal(op: Op) { op.Max? || op.Min? }

  /** What the host prefers: the larger the better. */
  function HostRank(op: Op, t: Type, x: nat): int {
    if op.Max? then Extend(t, x) else Neg(Extend(t, x))
  }

  /** What the device prefers among lowered operands. */
  function NicRank(op: Op, t: Type, x: nat): int
    requires Extremal(op)
  {
    NicKey(t.Signed(), NetValue(Lower(op).value, t, x))
  }

  /** The operands whose order relative to the others lowering reverses:
      MAX of narrow signed types compares zero-extended bytes, so non-negative operands lose to negative ones;
      MIN negates first, which for 8- and 16-bit signed operands again orders bytes, for unsigned ones leaves zero
      as the smallest key, for INT32 (negated in 32 bits) puts zero and negatives below the positives, and for INT64
      maps the least value to itself. */
  predicate Reversed(op: Op, t: Type, x: nat) {
    match op
    case Max => t.Signed() && !t.Int64? && x < Modulus(t) / 2
    case Min =>
      (match t
       case Int8 => x >= Modulus(t) / 2
       case Int16 => x >= Modulus(t) / 2
       case Int32 => x == 0 || x >= Modulus(t) / 2
       case Int64 => x == Modulus(t) / 2
       case _ => x == 0)
    case _ => false
  }

  /** The device's preference, worked out: for MIN it is the negated operand in the arithmetic of its width. */
  function RankValue(op: Op, t: Type, x: nat): int {
    if op.Max? then (if t.Int64? then Extend(t, x) else x)
    else
      match t
      case Int8 => Neg(x)
      case Int16 => Neg(x)
      case Int32 => if x == 0 then 0 else TWO32 - x
      case Uint32 => if x == 0 then 0 else TWO32 - x
      case Int64 => if x == TWO64 / 2 then x - TWO64 else Neg(Extend(t, x))
      case _ => if x == 0 then 0 else TWO64 - x
  }

  lemma MaxRank(t: Type, x: nat)
    requires Raw(t, x)
    ensures NicRank(Max, t, x) == RankValue(Max, t, x)
  {
  }

  lemma MinRank(t: Type, x: nat)
    requires Raw(t, x)
    ensures NicRank(Min, t, x) == RankValue(Min, t, x)
  {
    Wrapped(TWO64, x);
    Wrapped(TWO32, x);
  }

  /** The remainder of a negated number. */
  lemma Wrapped(m: nat, x: nat)
    requires m > 0
    ensures x == 0 ==> Neg(x) % m == 0
    ensures 0 < x <= m ==> Neg(x) % m == m - x
  {
    if 0 < x <= m {
      ModOf(Neg(x), m, -1, m - x);
    }
  }

  lemma MaxRanksAgree(t: Type, x: nat, y: nat)
    requires Raw(t, x) && Raw(t, y)
    ensures Reversed(Max, t, x) == Reversed(Max, t, y) ==>
              (HostRank(Max, t, x) > HostRank(Max, t, y) <==> RankValue(Max, t, x) > RankValue(Max, t, y))
    ensures Reversed(Max, t, x) && !Reversed(Max, t, y) ==>
              HostRank(Max, t, x) > HostRank(Max, t, y) && RankValue(Max, t, x) < RankValue(Max, t, y)
  {
  }

  lemma MinRanksAgree(t: Type, x: nat, y: nat)
    requires Raw(t, x) && Raw(t, y)
    ensures Reversed(Min, t, x) == Reversed(Min, t, y) ==>
              (HostRank(Min, t, x) > HostRank(Min, t, y) <==> RankValue(Min, t, x) > RankValue(Min, t, y))
    ensures Reversed(Min, t, x) && !Reversed(Min, t, y) ==>
              HostRank(Min, t, x) > HostRank(Min, t, y) && RankValue(Min, t, x) < RankValue(Min, t, y)
  {
  }

  /** Among operands of one class host and device agree; across the classes they disagree. */
  lemma RanksAgree(op: Op, t: Type, x: nat, y: nat)
    requires Extremal(op) && Raw(t, x) && Raw(t, y)
    ensures Reversed(op, t, x) == Reversed(op, t, y) ==>
              (HostRank(op, t, x) > HostRank(op, t, y) <==> NicRank(op, t, x) > NicRank(op, t, y))
    ensures Reversed(op, t, x) && !Reversed(op, t, y) ==>
              HostRank(op, t, x) > HostRank(op, t, y) && NicRank(op, t, x) < NicRank(op, t, y)
    ensures HostRank(op, t, x) == HostRank(op, t, y) ==> x == y
  {
    if op.Max? {
      MaxRank(t, x);
      MaxRank(t, y);
      MaxRanksAgree(t, x, y);
    } else {
      MinRank(t, x);
      MinRank(t, y);
      MinRanksAgree(t, x, y);
    }
  }

  /** Unpacking undoes packing for MAX and MIN. */
  lemma WordRoundTrip(op: Op, t: Type, x: nat)
    requires Extremal(op) && Raw(t, x)
    ensures FromWord(op, t, NetValue(Lower(op).value, t, x)) == x
  {
    Wrapped(TWO64, x);
    Wrapped(TWO32, x);
    RawFits(t, x);
    if op.Min? && x > 0 {
      Wrapped(TWO64, NetValue(Lower(op).value, t, x));
    }
  }

  /** The list holds operands of both classes. */
  ghost predicate Mixed(op: Op, t: Type, xs: seq<nat>) {
    && (exists i :: 0 <= i < |xs| && Reversed(op, t, xs[i]))
    && (exists j :: 0 <= j < |xs| && !Reversed(op, t, xs[j]))
  }

  lemma HostPick(op: Op, t: Type, xs: seq<nat>) returns (h: nat)
    requires Extremal(op) && xs != []
    ensures h < |xs| && HostFold(op, t, xs) == xs[h]
    ensures forall k :: 0 <= k < |xs| ==> HostRank(op, t, xs[k]) <= HostRank(op, t, xs[h])
  {
    h := FoldBest((a, b) => Exec(op, t, a, b), xs, x => HostRank(op, t, x));
  }

  lemma NicPick(op: Op, t: Type, xs: seq<nat>) returns (r: nat)
    requires Extremal(op) && xs != [] && AllRaw(t, xs)
    ensures r < |xs| && Offload(op, t, xs) == Ok(xs[r])
    ensures forall k :: 0 <= k < |xs| ==> NicRank(op, t, xs[k]) <= NicRank(op, t, xs[r])
  {
    var words := Words(Lower(op).value, t, xs);
    OffloadIsWordFold(op, t, xs);
    r := FoldBest((a, b) => NicExec(NicMaxLoc, t.Signed(), a, b), words, w => NicKey(t.Signed(), w));
    assert forall k :: 0 <= k < |xs| ==> NicRank(op, t, xs[k]) == NicKey(t.Signed(), words[k]);
    WordRoundTrip(op, t, xs[r]);
  }

  lemma PicksAgree(op: Op, t: Type, xs: seq<nat>, h: nat, r: nat)
    requires Extremal(op) && AllRaw(t, xs) && h < |xs| && r < |xs| && !Mixed(op, t, xs)
    requires HostRank(op, t, xs[r]) <= HostRank(op, t, xs[h]) && NicRank(op, t, xs[h]) <= NicRank(op, t, xs[r])
    ensures xs[h] == xs[r]
  {
    RanksAgree(op, t, xs[h], xs[r]);
  }

  lemma PicksDiffer(op: Op, t: Type, xs: seq<nat>, h: nat, r: nat)
    requires Extremal(op) && AllRaw(t, xs) && h < |xs| && r < |xs| && Mixed(op, t, xs)
    requires forall k :: 0 <= k < |xs| ==> HostRank(op, t, xs[k]) <= HostRank(op, t, xs[h])
    requires forall k :: 0 <= k < |xs| ==> NicRank(op, t, xs[k]) <= NicRank(op, t, xs[r])
    ensures xs[h] != xs[r]
  {
    var i :| 0 <= i < |xs| && Reversed(op, t, xs[i]);
    var j :| 0 <= j < |xs| && !Reversed(op, t, xs[j]);
    RanksAgree(op, t, xs[i], xs[h]);
    RanksAgree(op, t, xs[r], xs[j]);
  }

  /** Exactly when MAX and MIN survive lowering: the operands are all of the reversed class or none is. */
  lemma ExtremalIsExactIff(op: Op, t: Type, xs: seq<nat>)
    requires Extremal(op) && xs != [] && AllRaw(t, xs)
    ensures Offload(op, t, xs) == Ok(HostFold(op, t, xs)) <==> !Mixed(op, t, xs)
  {
    var h := HostPick(op, t, xs);
    var r := NicPick(op, t, xs);
    if Mixed(op, t, xs) {
      PicksDiffer(op, t, xs, h, r);
    } else {
      PicksAgree(op, t, xs, h, r);
    }
  }

  // ---------------------------------------------------------------------------------------------
  // The --verify rounds
  // ---------------------------------------------------------------------------------------------

  /** One end: the host value last unpacked, the network word in its buffer, and the last_result word. */
  datatype End = End(buf: nat, net: nat, last: nat)

  /** What the two programs do with a word: `send` applies the device operation with the packed second operand,
      `unpack` reads it back, `store` is pp_update_last_result, `check` is pp_calc_verify. */
  datatype Calc = Calc(send: nat -> nat, unpack: nat -> nat, store: nat -> nat, check: (nat, nat) -> bool)

  /** The end that sends next and the one that receives, after k messages; first the client, which has applied the
      operation once to its own operands, sends to the server, which has copied the first operand. */
  function Turn(c: Calc, start: End, k: nat): (End, End) {
    if k == 0 then (start.(last := c.store(start.buf)), start)
    else
      var (sender, receiver) := Turn(c, start, k - 1);
      var word := c.send(sender.net);
      (Received(c, word), sender)
  }

  /** An end that has accepted a message. */
  function Received(c: Calc, word: nat): End { End(c.unpack(word), word, c.store(c.unpack(word))) }

  /** The outcome of the check on the message after the first k. */
  predicate RoundPasses(c: Calc, start: End, k: nat) {
    var (sender, receiver) := Turn(c, start, k);
    c.check(receiver.last, c.unpack(c.send(sender.net)))
  }

  /** The word of the k-th message, and the host value it unpacks to (for 0: the first operand as given). */
  function Net(c: Calc, start: End, k: nat): nat {
    if k == 0 then start.net else c.send(Net(c, start, k - 1))
  }

  function Running(c: Calc, start: End, k: nat): nat {
    if k == 0 then start.buf else c.unpack(Net(c, start, k))
  }

  /** What the two ends hold after k messages. */
  lemma {:induction false} TurnShape(c: Calc, start: End, k: nat)
    ensures var (sender, receiver) := Turn(c, start, k);
            && sender.net == Net(c, start, k)
            && sender.last == c.store(Running(c, start, k))
            && receiver.last == if k == 0 then start.last else c.store(Running(c, start, k - 1))
  {
    if k > 0 {
      TurnShape(c, start, k - 1);
    }
  }

  /** A C value after the macro's common type double and the cast to uint64_t; where C does not define that cast
      (negative values, and those that round to 2^64) `undef` tells what the machine does. */
  function Converted(undef: int -> nat, v: int): nat {
    if v >= 0 && Nearest(v) < TWO64 then Nearest(v) else undef(v)
  }

  /** What pp_update_last_result stores. */
  function Stored(undef: int -> nat, op: Op, t: Type, a: nat, b: nat): nat {
    Converted(undef, Extend(t, Exec(op, t, a, b)))
  }

  /** The value a 64-bit word yields when read through a pointer to t on a little-endian host. */
  function ReadAs(t: Type, w: nat): nat { w % Modulus(t) }

  /** A value stored in last_result and read back. */
  function Reread(undef: int -> nat, t: Type, v: nat): nat { ReadAs(t, Converted(undef, Extend(t, v))) }

  /** The programs of both ends for one operation, type and second operand. */
  function CalcOf(undef: int -> nat, op: Op, t: Type, op2: nat): Calc
    requires Lower(op).Ok?
  {
    var l := Lower(op).value;
    Calc(w => NicExec(l.op, t.Signed(), w, NetValue(l, t, op2)),
         w => FromWord(op, t, w),
         v => Stored(undef, op, t, v, op2),
         (last: nat, v: nat) => Exec(op, t, ReadAs(t, last), op2) == v)
  }

  function StartOf(op: Op, t: Type, op1: nat): End
    requires Lower(op).Ok?
  {
    End(op1, NetValue(Lower(op).value, t, op1), op1)
  }

  /** The buffers and last_result of one process, and the operation it was started with. */
  class CalcContext {
    const undef: int -> nat
    const op: Op
    const t: Type
    const op2: nat
    var buf: nat
    var net: nat
    var last: nat

    ghost predicate Valid() { Lower(op).Ok? }

    ghost function State(): End
      reads this
    {
      End(buf, net, last)
    }

    ghost function Program(): Calc
      requires Valid()
    {
      CalcOf(undef, op, t, op2)
    }

    /** Once packing has accepted the operation, the client starts as the end that sends next, the server as the one
        that receives. */
    constructor (undef: int -> nat, op: Op, t: Type, op1: nat, op2: nat, isClient: bool)
      requires Lower(op).Ok?
      ensures Valid() && this.undef == undef && this.op == op && this.t == t && this.op2 == op2
      ensures var ends := Turn(Program(), StartOf(op, t, op1), 0);
              State() == if isClient then ends.0 else ends.1
    {
      this.undef, this.op, this.t, this.op2 := undef, op, t, op2;
      buf := op1;
      net := NetValue(Lower(op).value, t, op1);
      last := if isClient then Stored(undef, op, t, op1, op2) else op1;
    }

    /** pp_post_send: the device folds the two gathered words. */
    method PostSend() returns (word: nat)
      requires Valid()
      ensures word == Program().send(net)
    {
      var l := Lower(op).value;
      word := NicExec(l.op, t.Signed(), net, NetValue(l, t, op2));
    }

    /** A receive completion: unpack, verify, update last_result; a failed check ends the run. When the ends are
        where k messages leave them and the next one arrives, the outcome is the check's of that round, and a receiver
        that passes is the sender of the next. */
    method OnReceive(word: nat, ghost op1: nat, ghost k: nat) returns (passed: bool)
      requires Valid()
      modifies this
      ensures passed == Program().check(old(last), Program().unpack(word))
      ensures State() == if passed then Received(Program(), word) else End(Program().unpack(word), word, old(last))
      ensures var ends := Turn(Program(), StartOf(op, t, op1), k);
              old(State()) == ends.1 && word == Program().send(ends.0.net) ==>
                && (passed <==> Passes(undef, op, t, op1, op2, k))
                && (passed ==> State() == Turn(Program(), StartOf(op, t, op1), k + 1).0)
    {
      net := word;
      buf := FromWord(op, t, net);
      passed := Exec(op, t, ReadAs(t, last), op2) == buf;
      if passed {
        last := Stored(undef, op, t, buf, op2);
      }
    }
  }

  /** The running value of round k. */
  function Value(undef: int -> nat, op: Op, t: Type, op1: nat, op2: nat, k: nat): nat
    requires Lower(op).Ok?
  {
    Running(CalcOf(undef, op, t, op2), StartOf(op, t, op1), k)
  }

  predicate Passes(undef: int -> nat, op: Op, t: Type, op1: nat, op2: nat, k: nat)
    requires Lower(op).Ok?
  {
    RoundPasses(CalcOf(undef, op, t, op2), StartOf(op, t, op1), k)
  }

  /** The device's step from round k to k + 1 is the host's. */
  predicate StepOk(undef: int -> nat, op: Op, t: Type, op1: nat, op2: nat, k: nat)
    requires Lower(op).Ok?
  {
    Value(undef, op, t, op1, op2, k + 1) == Exec(op, t, Value(undef, op, t, op1, op2, k), op2)
  }

  /** The check after k messages compares against the k-th running value as the receiver has stored it. */
  lemma RoundMeaning(undef: int -> nat, op: Op, t: Type, op1: nat, op2: nat, k: nat)
    requires Lower(op).Ok? && Raw(t, op1) && (k > 0 ==> StepOk(undef, op, t, op1, op2, k - 1))
    ensures Passes(undef, op, t, op1, op2, k) <==>
            Exec(op, t, if k == 0 then op1 else Reread(undef, t, Value(undef, op, t, op1, op2, k)), op2)
              == Value(undef, op, t, op1, op2, k + 1)
  {
    TurnShape(CalcOf(undef, op, t, op2), StartOf(op, t, op1), k);
    RawFits(t, op1);
  }

  /** The operands a running value is made of: the first operand and k times the second. */
  function Chain(op1: nat, op2: nat, k: nat): seq<nat> { [op1] + seq(k, _ => op2) }

  ghost predicate Exact(op: Op, t: Type, xs: seq<nat>)
    requires xs != []
  {
    Offload(op, t, xs) == Ok(HostFold(op, t, xs))
  }

  lemma ChainMixed(op: Op, t: Type, op1: nat, op2: nat, k: nat)
    requires k > 0
    ensures Mixed(op, t, Chain(op1, op2, k)) <==> Reversed(op, t, op1) != Reversed(op, t, op2)
  {
    var xs := Chain(op1, op2, k);
    assert xs[0] == op1 && xs[1] == op2;
  }

  lemma NetStep(undef: int -> nat, op: Op, t: Type, op1: nat, op2: nat, k: nat)
    requires Lower(op).Ok? && k > 0
    ensures var c, start, l := CalcOf(undef, op, t, op2), StartOf(op, t, op1), Lower(op).value;
            Net(c, start, k) == NicExec(l.op, t.Signed(), Net(c, start, k - 1), NetValue(l, t, op2))
  {
  }

  lemma ChainStep(op1: nat, op2: nat, k: nat)
    requires k > 0
    ensures Chain(op1, op2, k)[..k] == Chain(op1, op2, k - 1) && Chain(op1, op2, k)[k] == op2
  {
  }

  lemma {:induction false} NetIsWordFold(undef: int -> nat, op: Op, t: Type, op1: nat, op2: nat, k: nat)
    requires Lower(op).Ok?
    ensures Net(CalcOf(undef, op, t, op2), StartOf(op, t, op1), k) == WordFold(Lower(op).value, t, Chain(op1, op2, k))
  {
    if k > 0 {
      NetIsWordFold(undef, op, t, op1, op2, k - 1);
      NetStep(undef, op, t, op1, op2, k);
      ChainStep(op1, op2, k);
      FoldLasts(op, Lower(op).value, t, Chain(op1, op2, k));
    }
  }

  /** A running value is the offloaded fold of its operands. */
  lemma ValueIsOffload(undef: int -> nat, op: Op, t: Type, op1: nat, op2: nat, k: nat)
    requires Lower(op).Ok? && Raw(t, op1) && Raw(t, op2) && k > 0
    ensures Offload(op, t, Chain(op1, op2, k)) == Ok(Value(undef, op, t, op1, op2, k))
  {
    NetIsWordFold(undef, op, t, op1, op2, k);
    OffloadIsWordFold(op, t, Chain(op1, op2, k));
  }

  /** Where offloading is right for the operands so far and with one more, the device's step is the host's. */
  lemma StepFromExact(undef: int -> nat, op: Op, t: Type, op1: nat, op2: nat, k: nat)
    requires Lower(op).Ok? && Raw(t, op1) && Raw(t, op2) && (k > 0 ==> Exact(op, t, Chain(op1, op2, k)))
    ensures StepOk(undef, op, t, op1, op2, k) <==> Exact(op, t, Chain(op1, op2, k + 1))
  {
    ValueIsOffload(undef, op, t, op1, op2, k + 1);
    ChainStep(op1, op2, k + 1);
    FoldLasts(op, Lower(op).value, t, Chain(op1, op2, k + 1));
    if k > 0 {
      ValueIsOffload(undef, op, t, op1, op2, k);
    }
  }

  /** Lowering a chain is right exactly unless it is MAX or MIN of operands of both classes. */
  lemma ChainExactIff(op: Op, t: Type, op1: nat, op2: nat, k: nat)
    requires Lower(op).Ok? && Raw(t, op1) && Raw(t, op2) && k > 0
    ensures Exact(op, t, Chain(op1, op2, k)) <==> !(Extremal(op) && Reversed(op, t, op1) != Reversed(op, t, op2))
  {
    var xs := Chain(op1, op2, k);
    assert AllRaw(t, xs);
    if Direct(op) {
      DirectIsExact(op, t, xs);
    } else if Logical(op) {
      LogicalIsExact(op, t, xs);
    } else {
      ExtremalIsExactIff(op, t, xs);
      ChainMixed(op, t, op1, op2, k);
    }
  }

  /** The first check, which involves no stored double, passes exactly when lowering is right on the two operands. */
  lemma FirstCheckIff(undef: int -> nat, op: Op, t: Type, op1: nat, op2: nat)
    requires Lower(op).Ok? && Raw(t, op1) && Raw(t, op2)
    ensures Passes(undef, op, t, op1, op2, 0)
       <==> !(Extremal(op) && Reversed(op, t, op1) != Reversed(op, t, op2))
  {
    RoundMeaning(undef, op, t, op1, op2, 0);
    StepFromExact(undef, op, t, op1, op2, 0);
    ChainExactIff(op, t, op1, op2, 1);
  }

  /** Lowering is right in every round once it is right on the two operands. */
  lemma StepsOk(undef: int -> nat, op: Op, t: Type, op1: nat, op2: nat, k: nat)
    requires Lower(op).Ok? && Raw(t, op1) && Raw(t, op2)
    requires !(Extremal(op) && Reversed(op, t, op1) != Reversed(op, t, op2))
    ensures StepOk(undef, op, t, op1, op2, k)
  {
    if k > 0 {
      ChainExactIff(op, t, op1, op2, k);
    }
    ChainExactIff(op, t, op1, op2, k + 1);
    StepFromExact(undef, op, t, op1, op2, k);
  }

  lemma RereadExact(undef: int -> nat, t: Type, v: nat)
    requires Raw(t, v) && 0 <= Extend(t, v) && Representable(Extend(t, v))
    ensures Reread(undef, t, v) == v
  {
    RawFits(t, v);
    ExactIff(v);
  }

  /** When both ends start with the same operands and lowering is right on those two, no check ever fails as long as
      the running value is, as a C value, a number a double represents. */
  lemma VerifyNeverFails(undef: int -> nat, op: Op, t: Type, op1: nat, op2: nat, k: nat)
    requires Lower(op).Ok? && Raw(t, op1) && Raw(t, op2)
    requires !(Extremal(op) && Reversed(op, t, op1) != Reversed(op, t, op2))
    requires k > 0 ==> var v := Extend(t, Value(undef, op, t, op1, op2, k)); 0 <= v && Representable(v)
    ensures Passes(undef, op, t, op1, op2, k)
  {
    StepsOk(undef, op, t, op1, op2, k);
    if k > 0 {
      StepsOk(undef, op, t, op1, op2, k - 1);
      RereadExact(undef, t, Value(undef, op, t, op1, op2, k));
    }
    RoundMeaning(undef, op, t, op1, op2, k);
  }

  /** In particular as long as the running value stays in 0..2^53. */
  lemma VerifyInRange(undef: int -> nat, op: Op, t: Type, op1: nat, op2: nat, k: nat)
    requires Lower(op).Ok? && Raw(t, op1) && Raw(t, op2)
    requires !(Extremal(op) && Reversed(op, t, op1) != Reversed(op, t, op2))
    requires k > 0 ==> 0 <= Extend(t, Value(undef, op, t, op1, op2, k)) <= TWO53
    ensures Passes(undef, op, t, op1, op2, k)
  {
    if k > 0 {
      SmallRepresentable(Extend(t, Value(undef, op, t, op1, op2, k)));
    }
    VerifyNeverFails(undef, op, t, op1, op2, k);
  }

  lemma AddCancels(t: Type, x: nat, y: nat, z: nat)
    requires Raw(t, x) && Raw(t, y) && Exec(Add, t, x, z) == Exec(Add, t, y, z)
    ensures x == y
  {
    var m := Modulus(t);
    var a, b, c := Extend(t, x), Extend(t, y), Extend(t, z);
    assert a + c == m * ((a + c) / m) + (a + c) % m;
    assert b + c == m * ((b + c) / m) + (b + c) % m;
    var d := (a + c) / m - (b + c) / m;
    assert a - b == m * d;
    if d > 0 {
      Scale(m, 1, d);
    } else if d < 0 {
      Scale(m, d, -1);
    }
  }

  lemma AddPassesIffReread(undef: int -> nat, t: Type, op1: nat, op2: nat, k: nat)
    requires Raw(t, op1) && Raw(t, op2) && k > 0
    ensures var v := Value(undef, Add, t, op1, op2, k);
            Passes(undef, Add, t, op1, op2, k) <==> Reread(undef, t, v) == v
  {
    StepsOk(undef, Add, t, op1, op2, k - 1);
    StepsOk(undef, Add, t, op1, op2, k);
    RoundMeaning(undef, Add, t, op1, op2, k);
    var v := Value(undef, Add, t, op1, op2, k);
    if Exec(Add, t, Reread(undef, t, v), op2) == Exec(Add, t, v, op2) {
      AddCancels(t, Reread(undef, t, v), v, op2);
    }
  }

  lemma RereadIff(undef: int -> nat, t: Type, v: nat)
    requires Raw(t, v) && 0 <= Extend(t, v) < TWO64 - 1024
    ensures Reread(undef, t, v) == v <==> Representable(v)
  {
    RawFits(t, v);
    StaysBelowIff(v);
    ExactIff(v);
    if Width(t) < 64 {
      NarrowRepresentable(t, v);
    }
  }

  lemma NarrowRepresentable(t: Type, v: nat)
    requires Raw(t, v) && Width(t) < 64
    ensures Representable(v)
  {
    SmallRepresentable(v);
  }

  /** For ADD the exact condition, wherever C defines the conversion: a check after the first passes if and only if
      the running value is below 2^53 or its bits beyond the 53 leading ones are zero. */
  lemma AddVerifyIff(undef: int -> nat, t: Type, op1: nat, op2: nat, k: nat)
    requires Raw(t, op1) && Raw(t, op2) && k > 0
    requires 0 <= Extend(t, Value(undef, Add, t, op1, op2, k)) < TWO64 - 1024
    ensures Passes(undef, Add, t, op1, op2, k) <==> Representable(Value(undef, Add, t, op1, op2, k))
  {
    AddPassesIffReread(undef, t, op1, op2, k);
    RereadIff(undef, t, Value(undef, Add, t, op1, op2, k));
  }

  /** Adding one to 2^53 on INT64, the check on the second message fails on every machine. */
  lemma AddVerifyFails(undef: int -> nat)
    ensures !Passes(undef, Add, Int64, TWO53, 1, 1)
  {
    assert Value(undef, Add, Int64, TWO53, 1, 1) == TWO53 + 1;
    assert Excess((TWO53 + 1) / 2) == 0 && Gap(TWO53 + 1) == 2;
    AddVerifyIff(undef, Int64, TWO53, 1, 1);
  }

  // ---------------------------------------------------------------------------------------------
  // The gather list
  // ---------------------------------------------------------------------------------------------

  datatype Sge = Sge(addr: int, length: int, lkey: nat)

  function GatherCount(perGather: nat, operands: nat): nat
    requires perGather > 0
  {
    operands / perGather + if operands % perGather != 0 then 1 else 0
  }

  /** pp_prepare_sg_list: one entry for every group of operands, each operand taking size + 8 bytes. */
  method PrepareSgList(perGather: nat, operands: nat, lkey: nat, size: int, buff: int) returns (list: array<Sge>)
    requires perGather > 0
    ensures list.Length == GatherCount(perGather, operands)
    ensures forall g :: 0 <= g < list.Length ==>
              list[g] == Sge(buff + (size + 8) * (perGather * g), (size + 8) * perGather, lkey)
  {
    list := new Sge[GatherCount(perGather, operands)](_ => Sge(0, 0, 0));
    var i, g := 0, 0;
    while i < operands
      invariant 0 <= i <= operands
      invariant g == GatherCount(perGather, i) <= list.Length
      invariant forall k :: 0 <= k < g ==>
                  list[k] == Sge(buff + (size + 8) * (perGather * k), (size + 8) * perGather, lkey)
    {
      GatherStep(perGather, i, operands);
      if i % perGather == 0 {
        list[g] := Sge(buff + (size + 8) * i, (size + 8) * perGather, lkey);
        g := g + 1;
      }
      i := i + 1;
    }
  }

  lemma GatherStep(per: nat, i: nat, n: nat)
    requires per > 0 && i < n
    ensures GatherCount(per, i + 1) == GatherCount(per, i) + if i % per == 0 then 1 else 0
    ensures i % per == 0 ==> per * GatherCount(per, i) == i
    ensures GatherCount(per, i + 1) <= GatherCount(per, n)
  {
    NextQuotient(i, per);
    GatherMonotone(per, i + 1, n);
  }

  lemma GatherMonotone(per: nat, a: nat, b: nat)
    requires per > 0 && a <= b
    ensures GatherCount(per, a) <= GatherCount(per, b)
  {
    var p, q := a / per, b / per;
    if q < p {
      Scale(per, q + 1, p);
    } else if q == p {
      assert a % per <= b % per;
    }
  }

  /** What pp_query_calc_cap answers for every operation. */
  const OPERANDS_PER_GATHER: nat := 1

  /** The list pp_init_ctx hands to the device: as many entries as the request announces (gather_list_size, the number
      of operands), each covering exactly one packed operand. */
  method InitGatherList(operands: nat, lkey: nat, size: int, buff: int) returns (list: array<Sge>)
    ensures list.Length == operands
    ensures forall i :: 0 <= i < operands ==> list[i] == Sge(buff + (size + 8) * i, size + 8, lkey)
  {
    ModOf(operands, OPERANDS_PER_GATHER, operands, 0);
    list := PrepareSgList(OPERANDS_PER_GATHER, operands, lkey, size, buff);
  }
}
