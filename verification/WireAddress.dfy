/**
 The textual addresses the ping-pong programs exchange over their sockets: a GID as 32 hexadecimal digits (pingpong.c),
 and the lines made of numbers and a GID (srq_pingpong.c and xsrq_pingpong.c).
 */
module WireAddress {
  import opened ByteOrder
  import opened Common

  const NUL: char := '\0'

  // ---------------------------------------------------------------------------------------------
  // Printing and scanning, as the C standard defines the conversions the programs use
  // ---------------------------------------------------------------------------------------------

  function HexDigit(d: nat): char
    requires d < 16
  {
    (if d < 10 then '0' as int + d else 'a' as int + d - 10) as char
  }

  function HexValue(c: char): int {
    if '0' <= c <= '9' then c as int - '0' as int
    else if 'a' <= c <= 'f' then c as int - 'a' as int + 10
    else if 'A' <= c <= 'F' then c as int - 'A' as int + 10
    else -1
  }

  predicate IsHex(c: char) { HexValue(c) >= 0 }

  predicate AllHex(s: string) { forall i :: 0 <= i < |s| ==> IsHex(s[i]) }

  predicate IsSpace(c: char) { c == ' ' || '\t' <= c <= '\r' }

  /** %x. */
  function Digits(v: nat): (s: string)
    ensures |s| > 0
  {
    if v < 16 then [HexDigit(v)] else Digits(v / 16) + [HexDigit(v % 16)]
  }

  function Repeat(c: char, n: nat): string { seq(n, _ => c) }

  /** A conversion with a minimum width. */
  function Pad(c: char, width: nat, s: string): string { Repeat(c, Fill(width, |s|)) + s }

  function Fill(width: nat, n: nat): nat { if n < width then width - n else 0 }

  /** %0<width>x. */
  function PadHex(width: nat, v: nat): string { Pad('0', width, Digits(v)) }

  datatype Option<T> = Some(value: T) | None

  datatype Hex = Match(value: nat, rest: string) | NoMatch

  function SkipSpace(s: string): string {
    if s != [] && IsSpace(s[0]) then SkipSpace(s[1..]) else s
  }

  /** How many hexadecimal digits a string starts with. */
  function Run(s: string): (n: nat)
    ensures n <= |s| && AllHex(s[..n])
  {
    if s != [] && IsHex(s[0]) then 1 + Run(s[1..]) else 0
  }

  function HexNumber(s: string): nat
    requires AllHex(s)
  {
    if s == [] then 0 else 16 * HexNumber(s[..|s| - 1]) + HexValue(s[|s| - 1])
  }

  function Unprefixed(u: string): string {
    if |u| >= 2 && u[0] == '0' && (u[1] == 'x' || u[1] == 'X') then u[2..] else u
  }

  /** Digits up to the first other character. */
  function ScanDigits(d: string, negative: bool): (h: Hex)
    ensures h.Match? ==> h.value < TWO32
  {
    var n := Run(d);
    if n == 0 then NoMatch
    else
      var v: int := HexNumber(d[..n]);
      Match((if negative then -v else v) % TWO32, d[n..])
  }

  /** %x on a 32-bit variable: white space, an optional sign, an optional 0x, then as many digits as there are. */
  function ScanHex(s: string): (h: Hex)
    ensures h.Match? ==> h.value < TWO32
  {
    var t := SkipSpace(s);
    var u := if t != [] && (t[0] == '-' || t[0] == '+') then t[1..] else t;
    ScanDigits(Unprefixed(u), t != [] && t[0] == '-')
  }

  function Word(s: string): string {
    if s == [] || IsSpace(s[0]) then [] else [s[0]] + Word(s[1..])
  }

  /** %s. */
  function ScanWord(s: string): Option<string> {
    var t := SkipSpace(s);
    if t == [] then None else Some(Word(t))
  }

  // ---------------------------------------------------------------------------------------------
  // Scanning undoes printing
  // ---------------------------------------------------------------------------------------------

  lemma HexDigitValue(d: nat)
    requires d < 16
    ensures HexValue(HexDigit(d)) == d
  {
  }

  lemma {:induction false} PaddedNumber(k: nat, v: nat)
    ensures AllHex(Repeat('0', k) + Digits(v))
    ensures HexNumber(Repeat('0', k) + Digits(v)) == v
  {
    var s := Repeat('0', k) + Digits(v);
    if v < 16 {
      HexDigitValue(v);
      assert s[..|s| - 1] == Repeat('0', k);
      ZerosNumber(k);
    } else {
      HexDigitValue(v % 16);
      PaddedNumber(k, v / 16);
      assert s[..|s| - 1] == Repeat('0', k) + Digits(v / 16);
    }
  }

  lemma PadHexNumber(width: nat, v: nat)
    ensures AllHex(PadHex(width, v)) && HexNumber(PadHex(width, v)) == v && |PadHex(width, v)| > 0
  {
    PaddedNumber(Fill(width, |Digits(v)|), v);
  }

  lemma {:induction false} ZerosNumber(k: nat)
    ensures AllHex(Repeat('0', k)) && HexNumber(Repeat('0', k)) == 0
  {
    if k > 0 {
      ZerosNumber(k - 1);
      assert Repeat('0', k)[..k - 1] == Repeat('0', k - 1);
    }
  }

  lemma {:induction false} RunStops(s: string, rest: string)
    requires AllHex(s) && (rest == [] || !IsHex(rest[0]))
    ensures Run(s + rest) == |s|
  {
    if s == [] {
      assert s + rest == rest;
    } else {
      RunStops(s[1..], rest);
      assert (s + rest)[1..] == s[1..] + rest;
    }
  }

  lemma HexStart(t: string)
    requires t != [] && IsHex(t[0])
    ensures SkipSpace(t) == t && t[0] != '-' && t[0] != '+' && !IsSpace(t[0])
  {
  }

  lemma HexIsPlain(s: string)
    requires AllHex(s)
    ensures forall c <- s :: c != NUL && c != 'x' && c != 'X'
  {
  }

  lemma ScanRun(digits: string, rest: string, negative: bool)
    requires AllHex(digits) && digits != [] && (rest == [] || !IsHex(rest[0]))
    ensures var v: int := HexNumber(digits);
            ScanDigits(digits + rest, negative) == Match((if negative then -v else v) % TWO32, rest)
  {
    var d := digits + rest;
    RunStops(digits, rest);
    assert d[..|digits|] == digits && d[|digits|..] == rest;
  }

  /** No digits look like a prefix unless a lone 0 is followed by an x. */
  lemma NoPrefix(digits: string, rest: string)
    requires AllHex(digits) && digits != []
    requires |digits| == 1 && digits[0] == '0' && rest != [] ==> rest[0] != 'x' && rest[0] != 'X'
    ensures Unprefixed(digits + rest) == digits + rest
  {
    var d := digits + rest;
    if |digits| >= 2 {
      assert d[1] == digits[1] && IsHex(d[1]);
    }
  }

  predicate IsPrefix(prefix: string) { prefix == "" || prefix == "0x" || prefix == "0X" }

  lemma PrefixSkipped(prefix: string, d: string)
    requires IsPrefix(prefix) && prefix != ""
    ensures Unprefixed(prefix + d) == d
  {
    var u := prefix + d;
    assert u[0] == prefix[0] && u[1] == prefix[1] && u[2..] == d;
  }

  lemma {:induction false} SkipsSpace(space: string, t: string)
    requires (forall c <- space :: IsSpace(c)) && t != [] && !IsSpace(t[0])
    ensures SkipSpace(space + t) == t
  {
    if space == [] {
      assert space + t == t;
    } else {
      SkipsSpace(space[1..], t);
      assert (space + t)[1..] == space[1..] + t;
    }
  }

  lemma ScanSigned(space: string, sign: string, u: string)
    requires (forall c <- space :: IsSpace(c)) && sign in ["", "+", "-"] && u != [] && IsHex(u[0])
    ensures ScanHex(space + (sign + u)) == ScanDigits(Unprefixed(u), sign == "-")
  {
    var t := sign + u;
    HexStart(u);
    if sign == "" {
      assert t == u;
    } else {
      assert t[0] == sign[0] && t[1..] == u;
    }
    SkipsSpace(space, t);
  }

  /** Everything %x accepts: white space, a sign, a prefix and digits up to the first other character. */
  lemma ScanForm(space: string, sign: string, prefix: string, digits: string, rest: string)
    requires forall c <- space :: IsSpace(c)
    requires sign in ["", "+", "-"] && IsPrefix(prefix)
    requires AllHex(digits) && digits != [] && (rest == [] || !IsHex(rest[0]))
    requires prefix == "" && |digits| == 1 && digits[0] == '0' && rest != [] ==> rest[0] != 'x' && rest[0] != 'X'
    ensures var v: int := HexNumber(digits);
            ScanHex(space + (sign + (prefix + (digits + rest)))) == Match((if sign == "-" then -v else v) % TWO32, rest)
  {
    var d := digits + rest;
    var u := prefix + d;
    assert u[0] == if prefix == "" then digits[0] else '0';
    ScanSigned(space, sign, u);
    if prefix == "" {
      assert u == d;
      NoPrefix(digits, rest);
    } else {
      PrefixSkipped(prefix, d);
    }
    ScanRun(digits, rest, sign == "-");
  }

  lemma ScanPlain(t: string)
    requires t != [] && IsHex(t[0])
    ensures ScanHex(t) == ScanDigits(Unprefixed(t), false)
  {
    HexStart(t);
  }

  lemma SmallRun(s: string, v: nat, rest: string)
    requires AllHex(s) && s != [] && HexNumber(s) == v < TWO32 && (rest == [] || !IsHex(rest[0]))
    ensures ScanDigits(s + rest, false) == Match(v, rest)
  {
    var h := ScanDigits(s + rest, false);
    ScanRun(s, rest, false);
    assert h.value == v % TWO32 == v;
  }

  lemma ScanNumber(s: string, v: nat, rest: string)
    requires AllHex(s) && s != [] && HexNumber(s) == v < TWO32 && (rest == [] || rest[0] == ':')
    ensures ScanHex(s + rest) == Match(v, rest)
  {
    var t := s + rest;
    assert IsHex(s[0]) && t[0] == s[0];
    ScanPlain(t);
    assert Unprefixed(t) == t by {
      NoPrefix(s, rest);
    }
    SmallRun(s, v, rest);
  }

  /** What a printed number scans as, whatever its width, in front of a colon or the end. */
  lemma ScanPrinted(width: nat, v: nat, rest: string)
    requires v < TWO32 && (rest == [] || rest[0] == ':')
    ensures ScanHex(PadHex(width, v) + rest) == Match(v, rest)
  {
    PadHexNumber(width, v);
    ScanNumber(PadHex(width, v), v, rest);
  }

  function Pow16(n: nat): (p: nat)
    ensures p > 0
  {
    if n == 0 then 1 else 16 * Pow16(n - 1)
  }

  lemma {:induction false} DigitsLength(v: nat, n: nat)
    requires n > 0
    ensures |Digits(v)| <= n <==> v < Pow16(n)
  {
    if v >= 16 && n > 1 {
      DigitsLength(v / 16, n - 1);
    } else if n > 1 {
      assert Pow16(n) == 16 * Pow16(n - 1);
    }
  }

  /** The width is exact as long as the number fits it. */
  lemma PadHexLength(width: nat, v: nat)
    requires width > 0
    ensures |PadHex(width, v)| >= width
    ensures |PadHex(width, v)| == width <==> v < Pow16(width)
  {
    DigitsLength(v, width);
  }

  /** The digits the programs print. */
  predicate LowerHex(c: char) { '0' <= c <= '9' || 'a' <= c <= 'f' }

  lemma {:induction false} DigitsText(v: nat)
    ensures forall c <- Digits(v) :: LowerHex(c)
    ensures Digits(v)[0] == '0' ==> v == 0
  {
    if v >= 16 {
      DigitsText(v / 16);
    }
  }

  /** What a printed field is, told by its characters: lower-case digits with the number's value, as many as the width
      asks for, and more only if the number needs them. */
  lemma PadHexText(width: nat, v: nat)
    requires width > 0
    ensures forall c <- PadHex(width, v) :: LowerHex(c)
    ensures AllHex(PadHex(width, v)) && HexNumber(PadHex(width, v)) == v
    ensures |PadHex(width, v)| >= width && (|PadHex(width, v)| > width ==> PadHex(width, v)[0] != '0')
  {
    PadHexNumber(width, v);
    DigitsText(v);
    if |Digits(v)| > width {
      assert PadHex(width, v) == Digits(v);
    }
  }

  // ---------------------------------------------------------------------------------------------
  // GIDs
  // ---------------------------------------------------------------------------------------------

  function Flip(b: seq<Byte>): (r: seq<Byte>)
    ensures |r| == |b|
  {
    seq(|b|, i requires 0 <= i < |b| => b[|b| - 1 - i])
  }

  /** A 32-bit word in memory, on a little-endian or a big-endian host. */
  function Load(little: bool, b: seq<Byte>): nat { Ntoh(if little then Flip(b) else b) }

  function Store(little: bool, v: nat): (b: seq<Byte>)
    ensures |b| == 4
  {
    if little then Flip(Hton(v, 4)) else Hton(v, 4)
  }

  /** htonl and ntohl: the host word whose memory is the network order of v, and back. */
  function Htonl(little: bool, v: nat): nat { Load(little, Store(false, v)) }
  function Ntohl(little: bool, v: nat): nat { Load(false, Store(little, v)) }

  lemma FlipFlip(b: seq<Byte>)
    ensures Flip(Flip(b)) == b
  {
  }

  /** On either host, converting a loaded word gives the big-endian reading of its bytes. */
  lemma HtonlOfLoad(little: bool, b: seq<Byte>)
    requires |b| == 4
    ensures Htonl(little, Load(little, b)) == Ntoh(b)
  {
    BytesRoundTrip(Flip(b));
    BytesRoundTrip(b);
    FlipFlip(b);
  }

  /** On either host, storing a converted word leaves its bytes in network order. */
  lemma StoreOfNtohl(little: bool, v: nat)
    requires v < TWO32
    ensures Store(little, Ntohl(little, v)) == Hton(v, 4)
  {
    var b := Hton(v, 4);
    FlipFlip(b);
    BytesRoundTrip(Flip(b));
    BytesRoundTrip(b);
  }

  lemma Pow256Of4()
    ensures Pow256(4) == TWO32
  {
  }

  function Concat(groups: seq<string>): string {
    if groups == [] then [] else Concat(groups[..|groups| - 1]) + groups[|groups| - 1]
  }

  predicate Eights(groups: seq<string>) { forall i :: 0 <= i < |groups| ==> |groups[i]| == 8 }

  lemma {:induction false} ConcatLength(groups: seq<string>)
    requires Eights(groups)
    ensures |Concat(groups)| == 8 * |groups|
  {
    if groups != [] {
      ConcatLength(groups[..|groups| - 1]);
    }
  }

  /** Each group stands where it should. */
  lemma {:induction false} ConcatGroup(groups: seq<string>, n: nat)
    requires Eights(groups) && n < |groups|
    ensures |Concat(groups)| == 8 * |groups|
    ensures Concat(groups)[8 * n..8 * n + 8] == groups[n]
  {
    var init := groups[..|groups| - 1];
    ConcatLength(init);
    ConcatLength(groups);
    if n < |init| {
      ConcatGroup(init, n);
      assert Concat(groups)[8 * n..8 * n + 8] == Concat(init)[8 * n..8 * n + 8];
    }
  }

  /** The four bytes of word i. */
  function RawWord(raw: seq<Byte>, i: nat): (b: seq<Byte>)
    requires |raw| == 16 && i < 4
    ensures |b| == 4
  {
    raw[4 * i..4 * i + 4]
  }

  /** Each word of a GID, read in network order, as eight digits. */
  function Groups(raw: seq<Byte>): (groups: seq<string>)
    requires |raw| == 16
    ensures |groups| == 4
  {
    seq(4, i requires 0 <= i < 4 => PadHex(8, Ntoh(RawWord(raw, i))))
  }

  function WireGid(raw: seq<Byte>): string
    requires |raw| == 16
  {
    Concat(Groups(raw))
  }

  lemma WordFits(b: seq<Byte>)
    requires |b| == 4
    ensures Ntoh(b) < TWO32 && |PadHex(8, Ntoh(b))| == 8
  {
    BytesRoundTrip(b);
    Pow256Of4();
    assert Pow16(8) == TWO32;
    PadHexLength(8, Ntoh(b));
  }

  lemma GroupsAreEights(raw: seq<Byte>)
    requires |raw| == 16
    ensures Eights(Groups(raw))
  {
    forall i | 0 <= i < 4 ensures |Groups(raw)[i]| == 8 {
      WordFits(RawWord(raw, i));
    }
  }

  /** sprintf: the text and a terminating NUL, from position `at` on. */
  method Sprintf(buf: array<char>, at: nat, text: string)
    requires at + |text| < buf.Length
    modifies buf
    ensures buf[..] == old(buf[..at]) + text + [NUL] + old(buf[at + |text| + 1..])
  {
    forall i | 0 <= i < |text| {
      buf[at + i] := text[i];
    }
    buf[at + |text|] := NUL;
  }

  lemma SprintfEffect(before: string, at: nat, text: string, after: string)
    requires at + |text| < |before|
    requires after == before[..at] + text + [NUL] + before[at + |text| + 1..]
    ensures |after| == |before|
    ensures after[..at + |text|] == before[..at] + text
    ensures after[at + |text|] == NUL
    ensures forall k :: at + |text| < k <= |before| ==> after[k..] == before[k..]
  {
  }

  /** sprintf of "%08x" on one word. */
  method PrintWord(little: bool, raw: array<Byte>, i: nat, wgid: array<char>)
    requires raw.Length == 16 && wgid.Length >= 33 && i < 4
    modifies wgid
    ensures wgid[..8 * i + 8] == old(wgid[..8 * i]) + Groups(raw[..])[i]
    ensures wgid[8 * i + 8] == NUL && wgid[33..] == old(wgid[33..])
  {
    ghost var before := wgid[..];
    var b := raw[4 * i..4 * i + 4];
    assert b == RawWord(raw[..], i);
    HtonlOfLoad(little, b);
    WordFits(b);
    var text := PadHex(8, Htonl(little, Load(little, b)));
    Sprintf(wgid, i * 8, text);
    SprintfEffect(before, 8 * i, text, wgid[..]);
  }

  /** gid_to_wire_gid: each sprintf overwrites the NUL the one before it left. */
  method GidToWireGid(little: bool, raw: array<Byte>, wgid: array<char>)
    requires raw.Length == 16 && wgid.Length >= 33
    modifies wgid
    ensures |WireGid(raw[..])| == 32
    ensures wgid[..32] == WireGid(raw[..]) && wgid[32] == NUL && wgid[33..] == old(wgid[33..])
    ensures Spells(wgid[..32], raw[..])
  {
    ghost var groups := Groups(raw[..]);
    var i := 0;
    while i < 4
      invariant 0 <= i <= 4
      invariant wgid[..8 * i] == Concat(groups[..i])
      invariant i == 4 ==> wgid[32] == NUL
      invariant wgid[33..] == old(wgid[33..])
    {
      PrintWord(little, raw, i, wgid);
      assert groups[..i + 1][..i] == groups[..i];
      i := i + 1;
    }
    assert groups[..4] == groups;
    WireGidSpells(raw[..]);
  }

  type Word32 = x: nat | x < TWO32

  /** sscanf with %x on what a char array holds. */
  function ScanText(s: string): Option<Word32> {
    match ScanHex(CStr(s, NUL))
    case Match(w, _) => Some(w)
    case NoMatch => None
  }

  /** The i-th group of eight characters. */
  function Eight(wgid: string, i: nat): (s: string)
    requires i < 4 && |wgid| >= 32
    ensures |s| == 8
  {
    wgid[8 * i..8 * i + 8]
  }

  /** The variable after the first n groups of eight characters are scanned into it; one that does not match leaves it
      alone. */
  function WordAt(scan: string -> Option<Word32>, wgid: string, v: Word32, n: nat): Word32
    requires n <= 4 && |wgid| >= 32
  {
    if n == 0 then v
    else
      match scan(Eight(wgid, n - 1))
      case Some(w) => w
      case None => WordAt(scan, wgid, v, n - 1)
  }

  /** The bytes read back from the first n groups. */
  function GidBytes(scan: string -> Option<Word32>, wgid: string, v: Word32, n: nat): (bytes: seq<Byte>)
    requires n <= 4 && |wgid| >= 32
    ensures |bytes| == 4 * n
  {
    if n == 0 then [] else GidBytes(scan, wgid, v, n - 1) + Hton(WordAt(scan, wgid, v, n), 4)
  }

  /** What a string of 32 characters is read as; v is what the uninitialised v32 happens to hold. */
  function GidOf(wgid: string, v: Word32): (raw: seq<Byte>)
    requires |wgid| >= 32
    ensures |raw| == 16
  {
    GidBytes(ScanText, wgid, v, 4)
  }

  /** memcpy of eight characters in front of the NUL of tmp. */
  method CopyGroup(wgid: array<char>, i: nat, tmp: array<char>)
    requires wgid.Length >= 32 && i < 4 && tmp.Length == 9 && tmp[8] == NUL && tmp != wgid
    modifies tmp
    ensures tmp[8] == NUL && tmp[..] == Eight(wgid[..], i) + [NUL]
  {
    forall k | 0 <= k < 8 {
      tmp[k] := wgid[i * 8 + k];
    }
  }

  /** raw[i] = ntohl(v). */
  method StoreWord(little: bool, raw: array<Byte>, i: nat, v: Word32)
    requires raw.Length == 16 && i < 4
    modifies raw
    ensures raw[..4 * (i + 1)] == old(raw[..4 * i]) + Hton(v, 4)
  {
    StoreOfNtohl(little, v);
    var b := Store(little, Ntohl(little, v));
    forall k | 0 <= k < 4 {
      raw[4 * i + k] := b[k];
    }
    assert raw[..4 * (i + 1)] == old(raw[..4 * i]) + b;
  }

  ghost predicate StopsAtNul(scan: string -> Option<Word32>, s: string) { scan(s + [NUL]) == scan(s) }

  /** The loop of wire_gid_to_gid, for any way of scanning that does not look past a NUL. */
  method ReadGroups(scan: string -> Option<Word32>, little: bool, wgid: array<char>, raw: array<Byte>, garbage: Word32)
    requires wgid.Length >= 32 && raw.Length == 16 && forall s :: StopsAtNul(scan, s)
    modifies raw
    ensures raw[..] == GidBytes(scan, wgid[..], garbage, 4)
  {
    ghost var text := wgid[..];
    var tmp := new char[9];
    var v32 := garbage;
    tmp[8] := NUL;
    var i := 0;
    while i < 4
      invariant 0 <= i <= 4 && tmp[8] == NUL && wgid[..] == text
      invariant v32 == WordAt(scan, text, garbage, i) && raw[..4 * i] == GidBytes(scan, text, garbage, i)
    {
      CopyGroup(wgid, i, tmp);
      assert StopsAtNul(scan, Eight(text, i));
      var scanned := scan(tmp[..]);
      if scanned.Some? {
        v32 := scanned.value;
      }
      StoreWord(little, raw, i, v32);
      i := i + 1;
    }
    assert raw[..4 * i] == raw[..];
  }

  lemma ScanStopsAtNul(s: string)
    ensures ScanText(s + [NUL]) == ScanText(s)
  {
    CStrStops(s, NUL);
  }

  /** wire_gid_to_gid. */
  method WireGidToGid(little: bool, wgid: array<char>, raw: array<Byte>, garbage: Word32)
    requires wgid.Length >= 32 && raw.Length == 16
    modifies raw
    ensures raw[..] == GidOf(wgid[..], garbage)
  {
    forall s ensures StopsAtNul(ScanText, s) {
      ScanStopsAtNul(s);
    }
    ReadGroups(ScanText, little, wgid, raw, garbage);
  }

  lemma PadHexIsHex(width: nat, v: nat)
    ensures AllHex(PadHex(width, v)) && NUL !in PadHex(width, v)
  {
    PadHexNumber(width, v);
    HexIsPlain(PadHex(width, v));
  }

  lemma {:induction false} GidBytesWord(scan: string -> Option<Word32>, wgid: string, v: Word32, n: nat, i: nat)
    requires i < n <= 4 && |wgid| >= 32
    ensures GidBytes(scan, wgid, v, n)[4 * i..4 * i + 4] == Hton(WordAt(scan, wgid, v, i + 1), 4)
  {
    var init := GidBytes(scan, wgid, v, n - 1);
    var last := Hton(WordAt(scan, wgid, v, n), 4);
    if i < n - 1 {
      GidBytesWord(scan, wgid, v, n - 1, i);
      assert (init + last)[4 * i..4 * i + 4] == init[4 * i..4 * i + 4];
    } else {
      assert (init + last)[4 * i..4 * i + 4] == last;
    }
  }

  lemma BytesWord(scan: string -> Option<Word32>, wgid: string, v: Word32, i: nat)
    requires |wgid| >= 32 && i < 4
    ensures RawWord(GidBytes(scan, wgid, v, 4), i) ==
            match scan(Eight(wgid, i))
            case Some(w) => Hton(w, 4)
            case None => if i == 0 then Hton(v, 4) else RawWord(GidBytes(scan, wgid, v, 4), i - 1)
  {
    GidBytesWord(scan, wgid, v, 4, i);
    if i > 0 {
      GidBytesWord(scan, wgid, v, 4, i - 1);
    }
  }

  /** Word i of a parsed GID: the number its group of characters starts with, in network order; where there is none,
      the word before it, and in front of the first word what the variable held. */
  lemma ParsedWord(wgid: string, v: Word32, i: nat)
    requires |wgid| >= 32 && i < 4
    ensures RawWord(GidOf(wgid, v), i) ==
            match ScanText(Eight(wgid, i))
            case Some(w) => Hton(w, 4)
            case None => if i == 0 then Hton(v, 4) else RawWord(GidOf(wgid, v), i - 1)
  {
    BytesWord(ScanText, wgid, v, i);
  }

  /** A group of digits gives its word back. */
  lemma GroupRoundTrip(b: seq<Byte>)
    requires |b| == 4
    ensures Ntoh(b) < TWO32 && ScanText(PadHex(8, Ntoh(b))) == Some(Ntoh(b))
  {
    var s := PadHex(8, Ntoh(b));
    WordFits(b);
    PadHexIsHex(8, Ntoh(b));
    CStrWhole(s, [], NUL);
    ScanPrinted(8, Ntoh(b), []);
    assert s + [] == s;
  }

  /** Each group of eight characters scans to a word of raw. */
  ghost predicate ScansTo(scan: string -> Option<Word32>, wgid: string, raw: seq<Byte>)
    requires |raw| == 16 && |wgid| >= 32
  {
    forall i :: 0 <= i < 4 ==> scan(Eight(wgid, i)) == Some(Ntoh(RawWord(raw, i)))
  }

  lemma {:induction false} GidBytesRoundTrip(
      scan: string -> Option<Word32>, raw: seq<Byte>, wgid: string, v: Word32, n: nat)
    requires |raw| == 16 && n <= 4 && |wgid| >= 32 && ScansTo(scan, wgid, raw)
    ensures GidBytes(scan, wgid, v, n) == raw[..4 * n]
  {
    if n > 0 {
      var b := RawWord(raw, n - 1);
      GidBytesRoundTrip(scan, raw, wgid, v, n - 1);
      assert scan(Eight(wgid, n - 1)) == Some(Ntoh(b));
      BytesRoundTrip(b);
      assert raw[..4 * n] == raw[..4 * n - 4] + b;
    }
  }

  /** Every GID is read back as it was, whatever the variable held and whatever follows the 32 digits. */
  lemma GidRoundTrip(raw: seq<Byte>, tail: string, v: Word32)
    requires |raw| == 16
    ensures |WireGid(raw)| == 32 && GidOf(WireGid(raw) + tail, v) == raw
  {
    GroupsAreEights(raw);
    ConcatLength(Groups(raw));
    var wgid := WireGid(raw) + tail;
    forall i | 0 <= i < 4 ensures ScanText(Eight(wgid, i)) == Some(Ntoh(RawWord(raw, i))) {
      ConcatGroup(Groups(raw), i);
      assert Eight(wgid, i) == WireGid(raw)[8 * i..8 * i + 8] == Groups(raw)[i];
      GroupRoundTrip(RawWord(raw, i));
    }
    GidBytesRoundTrip(ScanText, raw, wgid, v, 4);
  }

  /** The digits of each byte in turn. */
  function HexDump(b: seq<Byte>): string {
    if b == [] then []
    else HexDump(b[..|b| - 1]) + [HexDigit(b[|b| - 1] as nat / 16), HexDigit(b[|b| - 1] as nat % 16)]
  }

  lemma PadHexStep(width: nat, q: nat, d: nat)
    requires width > 0 && d < 16
    ensures PadHex(width + 1, 16 * q + d) == PadHex(width, q) + [HexDigit(d)]
  {
    if q == 0 {
      assert Digits(d) == [HexDigit(d)];
    } else {
      assert Digits(16 * q + d) == Digits(q) + [HexDigit(d)];
    }
  }

  lemma PadHexByte(width: nat, q: nat, last: nat)
    requires width > 0 && last < 256
    ensures PadHex(width + 2, 256 * q + last) == PadHex(width, q) + [HexDigit(last / 16), HexDigit(last % 16)]
  {
    PadHexStep(width, q, last / 16);
    PadHexStep(width + 1, 16 * q + last / 16, last % 16);
  }

  lemma PadHexOneByte(last: nat)
    requires last < 256
    ensures PadHex(2, last) == [HexDigit(last / 16), HexDigit(last % 16)]
  {
    PadHexStep(1, last / 16, last % 16);
    assert Digits(last / 16) == [HexDigit(last / 16)];
  }

  lemma {:induction false} PaddedIsHexDump(b: seq<Byte>)
    requires b != []
    ensures PadHex(2 * |b|, Ntoh(b)) == HexDump(b)
  {
    var init, last := b[..|b| - 1], b[|b| - 1] as nat;
    if init == [] {
      PadHexOneByte(last);
    } else {
      PaddedIsHexDump(init);
      PadHexByte(2 * |init|, Ntoh(init), last);
    }
  }

  lemma {:induction false} HexDumpAppend(a: seq<Byte>, b: seq<Byte>)
    ensures HexDump(a + b) == HexDump(a) + HexDump(b)
  {
    if b == [] {
      assert a + b == a;
    } else {
      HexDumpAppend(a, b[..|b| - 1]);
      assert (a + b)[..|a + b| - 1] == a + b[..|b| - 1];
    }
  }

  lemma {:induction false} GroupsAreHexDump(raw: seq<Byte>, n: nat)
    requires |raw| == 16 && n <= 4
    ensures Concat(Groups(raw)[..n]) == HexDump(raw[..4 * n])
  {
    if n > 0 {
      GroupsAreHexDump(raw, n - 1);
      assert Groups(raw)[..n][..n - 1] == Groups(raw)[..n - 1];
      PaddedIsHexDump(RawWord(raw, n - 1));
      HexDumpAppend(raw[..4 * n - 4], RawWord(raw, n - 1));
      assert raw[..4 * n] == raw[..4 * n - 4] + RawWord(raw, n - 1);
    }
  }

  /** The wire form is the GID's bytes in order, two lower-case digits each. */
  lemma WireGidIsHexDump(raw: seq<Byte>)
    requires |raw| == 16
    ensures WireGid(raw) == HexDump(raw)
  {
    GroupsAreHexDump(raw, 4);
    assert Groups(raw)[..4] == Groups(raw) && raw[..16] == raw;
  }

  lemma HexDigitText(d: nat)
    requires d < 16
    ensures LowerHex(HexDigit(d)) && HexValue(HexDigit(d)) == d
  {
  }

  /** Text that holds the bytes, two lower-case digits each, the high one first. */
  predicate Spells(text: string, raw: seq<Byte>) {
    && |text| == 2 * |raw|
    && (forall c <- text :: LowerHex(c))
    && forall i :: 0 <= i < |raw| ==> 16 * HexValue(text[2 * i]) + HexValue(text[2 * i + 1]) == raw[i] as int
  }

  lemma {:induction false} HexDumpSpells(b: seq<Byte>)
    ensures Spells(HexDump(b), b)
  {
    if b != [] {
      HexDumpSpells(b[..|b| - 1]);
      HexDigitText(b[|b| - 1] as nat / 16);
      HexDigitText(b[|b| - 1] as nat % 16);
    }
  }

  lemma WireGidSpells(raw: seq<Byte>)
    requires |raw| == 16
    ensures Spells(WireGid(raw), raw)
  {
    WireGidIsHexDump(raw);
    HexDumpSpells(raw);
  }

  // ---------------------------------------------------------------------------------------------
  // Address lines
  // ---------------------------------------------------------------------------------------------

  /** The widths of the %0x fields, the minimum width of the %s that ends the line, and the size of the buffer. */
  datatype Format = Format(widths: seq<nat>, wordWidth: nat, size: nat)

  /** LID, QPN and PSN in srq_pingpong.c. */
  const SRQ_LINE := Format([4, 6, 6], 0, 52)

  /** LID, receive and send QPN, PSN and SRQN in xsrq_pingpong.c. */
  const XRC_LINE := Format([4, 6, 6, 6, 4], 32, 66)

  datatype Dest = Dest(fields: seq<nat>, gid: seq<Byte>)

  predicate Words32(fields: seq<nat>) { forall i :: 0 <= i < |fields| ==> fields[i] < TWO32 }

  predicate Valid(f: Format, d: Dest) { |d.fields| == |f.widths| && Words32(d.fields) && |d.gid| == 16 }

  function PrintFields(widths: seq<nat>, fields: seq<nat>): string
    requires |widths| == |fields|
  {
    if fields == [] then [] else PadHex(widths[0], fields[0]) + ":" + PrintFields(widths[1..], fields[1..])
  }

  function PrintLine(f: Format, d: Dest): string
    requires Valid(f, d)
  {
    PrintFields(f.widths, d.fields) + Pad(' ', f.wordWidth, WireGid(d.gid))
  }

  /** What "%x:" n times and "%s" convert before the first mismatch. */
  datatype Conversions = Conversions(fields: seq<nat>, word: Option<string>)

  function ScanFields(s: string, n: nat): (c: Conversions)
    ensures |c.fields| <= n
    decreases n
  {
    if n == 0 then Conversions([], ScanWord(s))
    else
      match ScanHex(s)
      case NoMatch => Conversions([], None)
      case Match(v, rest) =>
        if rest == [] || rest[0] != ':' then Conversions([v], None)
        else
          var c := ScanFields(rest[1..], n - 1);
          Conversions([v] + c.fields, c.word)
  }

  /** The gid buffer after the scan: the word and its NUL over what was there. */
  function GidBuffer(word: Option<string>, old': string): string
    requires |old'| == 33 && (word.Some? ==> |word.value| <= 32)
  {
    match word
    case None => old'
    case Some(w) => w + [NUL] + old'[|w| + 1..]
  }

  /** The outcome of reading a message: the %s has no width, so a long word runs over the 33-byte buffer. */
  datatype Arrival = Overrun | Read(dest: Dest)

  /** What a message is read as; unconverted fields, the buffer and v32 keep what they happen to hold. */
  function Received(f: Format, msg: string, stale: seq<nat>, buffer: string, v: Word32): Arrival
    requires |stale| == |f.widths| && |buffer| == 33
  {
    var c := ScanFields(CStr(msg, NUL), |f.widths|);
    if c.word.Some? && |c.word.value| >= |buffer| then Overrun
    else Read(Dest(c.fields + stale[|c.fields|..], GidOf(GidBuffer(c.word, buffer), v)))
  }

  /** The sending side of the address exchange: the line and its NUL go into a buffer of the format's size. */
  method SendAddress(little: bool, f: Format, fields: seq<nat>, raw: array<Byte>) returns (msg: array<char>)
    requires raw.Length == 16 && Valid(f, Dest(fields, raw[..]))
    requires |PrintLine(f, Dest(fields, raw[..]))| < f.size
    ensures fresh(msg) && msg.Length == f.size
    ensures PrintLine(f, Dest(fields, raw[..])) + [NUL] <= msg[..]
  {
    var gid := new char[33];
    GidToWireGid(little, raw, gid);
    msg := new char[f.size];
    ghost var before := msg[..];
    var line := PrintFields(f.widths, fields) + Pad(' ', f.wordWidth, gid[..32]);
    Sprintf(msg, 0, line);
    assert before[..0] == [];
  }

  /** The %s of the scan: the word and a NUL go to the front of the buffer, if they fit. */
  method StoreScanned(gid: array<char>, word: Option<string>) returns (overrun: bool)
    requires gid.Length == 33
    modifies gid
    ensures overrun <==> word.Some? && |word.value| >= 33
    ensures !overrun ==> gid[..] == GidBuffer(word, old(gid[..]))
  {
    overrun := word.Some? && |word.value| >= gid.Length;
    if word.Some? && !overrun {
      ghost var before := gid[..];
      Sprintf(gid, 0, word.value);
      assert before[..0] + word.value == word.value;
    }
  }

  /** The receiving side; nothing is promised about memory after an overrun. */
  method ReceiveAddress(little: bool, f: Format, msg: array<char>, stale: seq<nat>, gid: array<char>, raw: array<Byte>,
                        garbage: Word32)
    returns (overrun: bool, fields: seq<nat>)
    requires |stale| == |f.widths| && gid.Length == 33 && raw.Length == 16 && gid != msg
    modifies gid, raw
    ensures var r := Received(f, msg[..], stale, old(gid[..]), garbage);
            if overrun then r == Overrun else r == Read(Dest(fields, raw[..]))
  {
    var c := ScanFields(CStr(msg[..], NUL), |f.widths|);
    fields := c.fields + stale[|c.fields|..];
    overrun := StoreScanned(gid, c.word);
    if !overrun {
      WireGidToGid(little, gid, raw, garbage);
    }
  }

  lemma ScanFieldsStep(s: string, v: nat, more: string, n: nat)
    requires n > 0 && ScanHex(s) == Match(v, ":" + more)
    ensures ScanFields(s, n) == Conversions([v] + ScanFields(more, n - 1).fields, ScanFields(more, n - 1).word)
  {
    assert (":" + more)[1..] == more;
  }

  lemma ScanFieldsOne(width: nat, v: nat, more: string, n: nat, c: Conversions)
    requires n > 0 && v < TWO32 && ScanFields(more, n - 1) == c
    ensures ScanFields(PadHex(width, v) + (":" + more), n) == Conversions([v] + c.fields, c.word)
  {
    ScanPrinted(width, v, ":" + more);
    ScanFieldsStep(PadHex(width, v) + (":" + more), v, more, n);
  }

  lemma PrintFieldsStep(widths: seq<nat>, fields: seq<nat>, tail: string)
    requires |widths| == |fields| > 0
    ensures PrintFields(widths, fields) + tail
         == PadHex(widths[0], fields[0]) + (":" + (PrintFields(widths[1..], fields[1..]) + tail))
  {
  }

  lemma PrintedStep(widths: seq<nat>, fields: seq<nat>, tail: string, n: nat, word: Option<string>)
    requires |widths| == |fields| == n > 0 && fields[0] < TWO32
    requires ScanFields(PrintFields(widths[1..], fields[1..]) + tail, n - 1) == Conversions(fields[1..], word)
    ensures ScanFields(PrintFields(widths, fields) + tail, n) == Conversions(fields, word)
  {
    PrintFieldsStep(widths, fields, tail);
    var more := PrintFields(widths[1..], fields[1..]) + tail;
    ScanFieldsOne(widths[0], fields[0], more, n, Conversions(fields[1..], word));
    assert [fields[0]] + fields[1..] == fields;
  }

  lemma {:induction false} ScanFieldsPrinted(widths: seq<nat>, fields: seq<nat>, tail: string, n: nat)
    requires |widths| == |fields| == n && Words32(fields)
    ensures ScanFields(PrintFields(widths, fields) + tail, n) == Conversions(fields, ScanWord(tail))
  {
    if n == 0 {
      assert PrintFields(widths, fields) + tail == tail;
    } else {
      ScanFieldsPrinted(widths[1..], fields[1..], tail, n - 1);
      PrintedStep(widths, fields, tail, n, ScanWord(tail));
    }
  }

  lemma {:induction false} SkipPadding(k: nat, s: string)
    requires s != [] && !IsSpace(s[0])
    ensures SkipSpace(Repeat(' ', k) + s) == s
  {
    if k == 0 {
      assert Repeat(' ', k) + s == s;
    } else {
      SkipPadding(k - 1, s);
      assert (Repeat(' ', k) + s)[1..] == Repeat(' ', k - 1) + s;
    }
  }

  lemma {:induction false} WordIsAll(s: string)
    requires forall c <- s :: !IsSpace(c)
    ensures Word(s) == s
  {
    if s != [] {
      WordIsAll(s[1..]);
    }
  }

  lemma {:induction false} ConcatIsHex(groups: seq<string>)
    requires forall i :: 0 <= i < |groups| ==> AllHex(groups[i])
    ensures AllHex(Concat(groups))
  {
    if groups != [] {
      ConcatIsHex(groups[..|groups| - 1]);
    }
  }

  lemma WireGidIsHex(raw: seq<Byte>)
    requires |raw| == 16
    ensures AllHex(WireGid(raw)) && |WireGid(raw)| == 32
  {
    forall i | 0 <= i < 4 ensures AllHex(Groups(raw)[i]) {
      PadHexIsHex(8, Ntoh(RawWord(raw, i)));
    }
    ConcatIsHex(Groups(raw));
    GroupsAreEights(raw);
    ConcatLength(Groups(raw));
  }

  lemma {:induction false} FieldsHaveNoNul(widths: seq<nat>, fields: seq<nat>)
    requires |widths| == |fields|
    ensures NUL !in PrintFields(widths, fields)
  {
    if fields != [] {
      FieldsHaveNoNul(widths[1..], fields[1..]);
      PadHexIsHex(widths[0], fields[0]);
    }
  }

  lemma ScanPaddedGid(width: nat, w: string)
    requires AllHex(w) && w != []
    ensures ScanWord(Pad(' ', width, w)) == Some(w)
  {
    SkipPadding(Fill(width, |w|), w);
    WordIsAll(w);
  }

  lemma LineIsCString(f: Format, d: Dest, tail: string)
    requires Valid(f, d)
    ensures CStr(PrintLine(f, d) + [NUL] + tail, NUL) == PrintLine(f, d)
  {
    var line := PrintLine(f, d);
    FieldsHaveNoNul(f.widths, d.fields);
    WireGidIsHex(d.gid);
    HexIsPlain(WireGid(d.gid));
    assert line + [NUL] + tail == line + ([NUL] + tail);
    CStrWhole(line, [NUL] + tail, NUL);
  }

  /** What the conversions of a printed line yield. */
  lemma LineScans(f: Format, d: Dest, tail: string)
    requires Valid(f, d)
    ensures ScanFields(CStr(PrintLine(f, d) + [NUL] + tail, NUL), |f.widths|)
         == Conversions(d.fields, Some(WireGid(d.gid)))
  {
    var w := WireGid(d.gid);
    LineIsCString(f, d, tail);
    WireGidIsHex(d.gid);
    ScanPaddedGid(f.wordWidth, w);
    ScanFieldsPrinted(f.widths, d.fields, Pad(' ', f.wordWidth, w), |d.fields|);
  }

  lemma BufferRoundTrip(raw: seq<Byte>, buffer: string, v: Word32)
    requires |raw| == 16 && |buffer| == 33
    ensures |WireGid(raw)| == 32 && GidOf(GidBuffer(Some(WireGid(raw)), buffer), v) == raw
  {
    var w := WireGid(raw);
    WireGidIsHex(raw);
    assert w + [NUL] + buffer[33..] == w + ([NUL] + buffer[33..]);
    GidRoundTrip(raw, [NUL] + buffer[33..], v);
  }

  /** Any printed line is read back as it was, for all 32-bit fields and every GID, whatever follows its NUL in the
      message and whatever the receiver's variables held. */
  lemma LineRoundTrip(f: Format, d: Dest, tail: string, stale: seq<nat>, buffer: string, v: Word32)
    requires Valid(f, d) && |stale| == |f.widths| && |buffer| == 33
    ensures Received(f, PrintLine(f, d) + [NUL] + tail, stale, buffer, v) == Read(d)
  {
    LineScans(f, d, tail);
    BufferRoundTrip(d.gid, buffer, v);
    assert d.fields + stale[|d.fields|..] == d.fields;
  }

  /** The parts of a line with colons between them. */
  function Join(parts: seq<string>): string {
    if parts == [] then [] else if |parts| == 1 then parts[0] else parts[0] + (":" + Join(parts[1..]))
  }

  function FieldTexts(widths: seq<nat>, fields: seq<nat>): seq<string>
    requires |widths| == |fields|
  {
    seq(|fields|, i requires 0 <= i < |fields| => PadHex(widths[i], fields[i]))
  }

  lemma {:induction false} FieldsJoined(widths: seq<nat>, fields: seq<nat>, last: string)
    requires |widths| == |fields|
    ensures PrintFields(widths, fields) + last == Join(FieldTexts(widths, fields) + [last])
  {
    var parts := FieldTexts(widths, fields) + [last];
    if fields == [] {
      assert parts == [last];
    } else {
      FieldsJoined(widths[1..], fields[1..], last);
      PrintFieldsStep(widths, fields, last);
      assert parts[1..] == FieldTexts(widths[1..], fields[1..]) + [last];
    }
  }

  lemma LineJoined(f: Format, d: Dest)
    requires Valid(f, d) && f.wordWidth <= 32
    ensures PrintLine(f, d) == Join(FieldTexts(f.widths, d.fields) + [WireGid(d.gid)])
  {
    WireGidIsHex(d.gid);
    assert Pad(' ', f.wordWidth, WireGid(d.gid)) == WireGid(d.gid);
    FieldsJoined(f.widths, d.fields, WireGid(d.gid));
  }

  /** The shared-receive-queue line. */
  lemma SrqLineText(lid: nat, qpn: nat, psn: nat, gid: seq<Byte>)
    requires Words32([lid, qpn, psn]) && |gid| == 16
    ensures PrintLine(SRQ_LINE, Dest([lid, qpn, psn], gid))
         == Join([PadHex(4, lid), PadHex(6, qpn), PadHex(6, psn), WireGid(gid)])
  {
    LineJoined(SRQ_LINE, Dest([lid, qpn, psn], gid));
    assert FieldTexts([4, 6, 6], [lid, qpn, psn]) + [WireGid(gid)]
        == [PadHex(4, lid), PadHex(6, qpn), PadHex(6, psn), WireGid(gid)];
  }

  /** The XRC line; the GID always fills its minimum width of 32. */
  lemma XrcLineText(lid: nat, recvQpn: nat, sendQpn: nat, psn: nat, srqn: nat, gid: seq<Byte>)
    requires Words32([lid, recvQpn, sendQpn, psn, srqn]) && |gid| == 16
    ensures PrintLine(XRC_LINE, Dest([lid, recvQpn, sendQpn, psn, srqn], gid))
         == Join([PadHex(4, lid), PadHex(6, recvQpn), PadHex(6, sendQpn), PadHex(6, psn), PadHex(4, srqn),
                  WireGid(gid)])
  {
    var x := [lid, recvQpn, sendQpn, psn, srqn];
    LineJoined(XRC_LINE, Dest(x, gid));
    assert FieldTexts([4, 6, 6, 6, 4], x) + [WireGid(gid)]
        == [PadHex(4, x[0]), PadHex(6, x[1]), PadHex(6, x[2]), PadHex(6, x[3]), PadHex(4, x[4]), WireGid(gid)];
  }

  /** The exact condition for the shared-receive-queue line to fit its buffer with its NUL. */
  lemma SrqLineFitsIff(d: Dest)
    requires Valid(SRQ_LINE, d)
    ensures |PrintLine(SRQ_LINE, d)| < SRQ_LINE.size
       <==> d.fields[0] < 0x1_0000 && d.fields[1] < 0x100_0000 && d.fields[2] < 0x100_0000
  {
    var x, ws := d.fields, SRQ_LINE.widths;
    WireGidIsHex(d.gid);
    FieldWidths(x[0], x[1]);
    FieldWidths(x[0], x[2]);
    LineLength3(ws, x);
  }

  /** A LID of 16 bits fits four digits, a number of 24 bits six. */
  lemma FieldWidths(lid: nat, number: nat)
    ensures |PadHex(4, lid)| >= 4 && (|PadHex(4, lid)| == 4 <==> lid < 0x1_0000)
    ensures |PadHex(6, number)| >= 6 && (|PadHex(6, number)| == 6 <==> number < 0x100_0000)
  {
    assert Pow16(4) == 0x1_0000;
    assert Pow16(6) == 0x100_0000;
    PadHexLength(4, lid);
    PadHexLength(6, number);
  }

  lemma LineLength3(ws: seq<nat>, x: seq<nat>)
    requires |ws| == |x| == 3
    ensures |PrintFields(ws, x)| == |PadHex(ws[0], x[0])| + |PadHex(ws[1], x[1])| + |PadHex(ws[2], x[2])| + 3
  {
    LineLengthStep(ws, x);
    LineLengthStep(ws[1..], x[1..]);
    LineLengthStep(ws[2..], x[2..]);
    assert ws[1..][1..] == ws[2..] && x[1..][1..] == x[2..];
  }

  lemma LineLengthStep(ws: seq<nat>, x: seq<nat>)
    requires |ws| == |x| > 0
    ensures |PrintFields(ws, x)| == |PadHex(ws[0], x[0])| + 1 + |PrintFields(ws[1..], x[1..])|
  {
  }

  /** With a 16-bit LID and 24-bit QPNs and PSN the XRC line fits its buffer, NUL included, exactly when the SRQN has
      at most 24 bits; its four-digit field may then take six. */
  lemma XrcLineFitsIff(d: Dest)
    requires Valid(XRC_LINE, d) && d.fields[0] < 0x1_0000
    requires d.fields[1] < 0x100_0000 && d.fields[2] < 0x100_0000 && d.fields[3] < 0x100_0000
    ensures |PrintLine(XRC_LINE, d)| < XRC_LINE.size <==> d.fields[4] < 0x100_0000
  {
    var x, ws := d.fields, XRC_LINE.widths;
    WireGidIsHex(d.gid);
    FieldWidths(x[0], x[1]);
    FieldWidths(x[0], x[2]);
    FieldWidths(x[0], x[3]);
    SrqnWidth(x[4]);
    LineLengthStep(ws, x);
    LineLengthStep(ws[1..], x[1..]);
    LineLength3(ws[2..], x[2..]);
    assert ws[1..][1..] == ws[2..] && x[1..][1..] == x[2..];
  }

  lemma SrqnWidth(srqn: nat)
    ensures |PadHex(4, srqn)| <= 6 <==> srqn < 0x100_0000
  {
    assert Pow16(6) == 0x100_0000;
    DigitsLength(srqn, 6);
  }
}
