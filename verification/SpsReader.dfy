/**
 Reading the sequence parameter set: emulation prevention, the bit reader, Exp-Golomb codes and the fields that the AVC
 decoder configuration record needs (libobs/obs-avc.c, libobs/util/bitstream.c).
 */
module SpsReader {
  import opened Bytes
  import opened NalUnits

  // ---------- Emulation prevention ----------

  /** What `get_sps_high_params` makes of a NAL unit's bytes: every `00 00 03` loses its 03. */
  function Unescape(s: bytes): bytes
    decreases |s|
  {
    if |s| < 3 then s
    else if s[0] == 0 && s[1] == 0 && s[2] == 3 then [0, 0] + Unescape(s[3..])
    else [s[0]] + Unescape(s[1..])
  }

  /** The encoder's side (section 7.4.1.1 of ITU-T H.264): after two zero bytes a byte up to 3 is preceded by 03. */
  ghost function Escape(zeros: nat, s: bytes): bytes
    decreases |s|
  {
    if s == [] then []
    else if zeros == 2 && s[0] <= 3 then [3, s[0]] + Escape(if s[0] == 0 then 1 else 0, s[1..])
    else [s[0]] + Escape(if s[0] == 0 then zeros + 1 else 0, s[1..])
  }

  ghost function Zeros(n: nat): (r: bytes)
    ensures |r| == n
  {
    seq(n, _ => 0)
  }

  lemma UnescapeCons(b: byte, s: bytes)
    requires b != 0 || (|s| > 0 && s[0] != 0) || (|s| > 1 && s[0] == 0 && s[1] != 3)
    ensures Unescape([b] + s) == [b] + Unescape(s)
  {
    assert ([b] + s)[1..] == s;
  }

  lemma UnescapeTriple(s: bytes)
    ensures Unescape([0, 0, 3] + s) == [0, 0] + Unescape(s)
  {
    assert ([0, 0, 3] + s)[3..] == s;
  }

  lemma {:induction false} UnescapeAfterZeros(zeros: nat, s: bytes)
    requires zeros <= 2
    ensures Unescape(Zeros(zeros) + Escape(zeros, s)) == Zeros(zeros) + s
    decreases |s|
  {
    if s == [] {
    } else {
      var b, rest := s[0], s[1..];
      assert s == [b] + rest;
      if b == 0 && zeros < 2 {
        UnescapeAfterZeros(zeros + 1, rest);
        assert Zeros(zeros) + ([b] + Escape(zeros + 1, rest)) == Zeros(zeros + 1) + Escape(zeros + 1, rest);
        assert Zeros(zeros) + s == Zeros(zeros + 1) + rest;
      } else if zeros == 2 && b <= 3 {
        UnescapeAfterZeros(if b == 0 then 1 else 0, rest);
        UnescapeInserted(b, Escape(if b == 0 then 1 else 0, rest), rest);
      } else {
        UnescapeAfterZeros(0, rest);
        UnescapeKept(zeros, b, Escape(0, rest), rest);
      }
    }
  }

  lemma ZerosAre()
    ensures Zeros(0) == [] && Zeros(1) == [0] && Zeros(2) == [0, 0]
  {
  }

  /** The inserted 03 is taken out again. */
  lemma UnescapeInserted(b: byte, escaped: bytes, rest: bytes)
    requires b <= 3
    requires var z := Zeros(if b == 0 then 1 else 0); Unescape(z + escaped) == z + rest
    ensures Unescape(Zeros(2) + ([3, b] + escaped)) == Zeros(2) + ([b] + rest)
  {
    ZerosAre();
    assert Zeros(2) + ([3, b] + escaped) == [0, 0, 3] + ([b] + escaped);
    UnescapeTriple([b] + escaped);
    if b != 0 {
      assert [] + escaped == escaped && [] + rest == rest;
      UnescapeCons(b, escaped);
    }
  }

  /** A byte that needed no 03 is kept, and so are the zeros before it. */
  lemma UnescapeKept(zeros: nat, b: byte, escaped: bytes, rest: bytes)
    requires zeros <= 2 && b != 0 && (zeros < 2 || b > 3)
    requires Unescape(Zeros(0) + escaped) == Zeros(0) + rest
    ensures Unescape(Zeros(zeros) + ([b] + escaped)) == Zeros(zeros) + ([b] + rest)
  {
    ZerosAre();
    assert [] + escaped == escaped && [] + rest == rest;
    UnescapeCons(b, escaped);
    match zeros
    case 0 => assert [] + ([b] + escaped) == [b] + escaped && [] + ([b] + rest) == [b] + rest;
    case 1 => UnescapeCons(0, [b] + escaped);
    case 2 => UnescapeKeptAfterTwo(b, [b] + escaped, [b] + rest);
  }

  lemma UnescapeKeptAfterTwo(b: byte, escaped: bytes, rest: bytes)
    requires b > 3 && escaped != [] && escaped[0] == b
    requires Unescape(escaped) == rest
    ensures Unescape(Zeros(2) + escaped) == Zeros(2) + rest
  {
    ZerosAre();
    UnescapeCons(0, escaped);
    UnescapeCons(0, [0] + escaped);
    assert [0] + ([0] + escaped) == [0, 0] + escaped;
    assert [0] + ([0] + rest) == [0, 0] + rest;
  }

  /** Removing emulation prevention bytes undoes inserting them, for every payload. */
  lemma EmulationRoundTrip(rbsp: bytes)
    ensures Unescape(Escape(0, rbsp)) == rbsp
  {
    UnescapeAfterZeros(0, rbsp);
    ZerosAre();
    assert [] + Escape(0, rbsp) == Escape(0, rbsp) && [] + rbsp == rbsp;
  }

  ghost predicate NoEmulation(s: bytes) {
    forall i :: 0 <= i < |s| - 2 ==> !(s[i] == 0 && s[i + 1] == 0 && s[i + 2] <= 2)
  }

  lemma EscapeZero(zeros: nat, s: bytes)
    requires zeros < 2 && s != [] && s[0] == 0
    ensures Zeros(zeros) + Escape(zeros, s) == Zeros(zeros + 1) + Escape(zeros + 1, s[1..])
  {
    assert Zeros(zeros) + [0] == Zeros(zeros + 1);
  }

  lemma EscapeOther(zeros: nat, s: bytes)
    requires zeros <= 2 && s != [] && (s[0] == 0 ==> zeros == 2)
    ensures Escape(zeros, s) ==
      (if zeros == 2 && s[0] <= 3 then [3, s[0]] else [s[0]]) + Escape(if s[0] == 0 then 1 else 0, s[1..])
  {
  }

  lemma {:induction false} EscapedHasNoEmulation(zeros: nat, s: bytes)
    requires zeros <= 2
    ensures NoEmulation(Zeros(zeros) + Escape(zeros, s))
    decreases |s|
  {
    if s == [] {
      ZerosAre();
    } else if s[0] == 0 && zeros < 2 {
      EscapedHasNoEmulation(zeros + 1, s[1..]);
      EscapeZero(zeros, s);
    } else {
      var z := if s[0] == 0 then 1 else 0;
      EscapedHasNoEmulation(z, s[1..]);
      EscapedHead(zeros, s[0], Escape(z, s[1..]));
      EscapeOther(zeros, s);
    }
  }

  /** What the escaping of one byte puts in front of the rest. */
  lemma EscapedHead(zeros: nat, b: byte, escaped: bytes)
    requires zeros <= 2 && (b == 0 ==> zeros == 2)
    requires NoEmulation(Zeros(if b == 0 then 1 else 0) + escaped)
    ensures NoEmulation(Zeros(zeros) + ((if zeros == 2 && b <= 3 then [3, b] else [b]) + escaped))
  {
    ZerosAre();
    assert [] + escaped == escaped;
    if b != 0 {
      NoEmulationCons(b, escaped);
    }
    var own := [b] + escaped;
    if zeros == 2 && b <= 3 {
      NoEmulationCons(3, own);
      AfterTwoZeros([3] + own);
      assert [3, b] + escaped == [3] + own;
    } else if zeros == 2 {
      AfterTwoZeros(own);
    } else if zeros == 1 {
      NoEmulationCons(0, own);
    } else {
      assert [] + own == own;
    }
  }

  lemma NoEmulationCons(b: byte, s: bytes)
    requires NoEmulation(s)
    requires b != 0 || |s| < 2 || s[0] != 0 || s[1] > 2
    ensures NoEmulation([b] + s)
  {
    var all := [b] + s;
    assert forall i :: 1 <= i < |all| ==> all[i] == s[i - 1];
  }

  lemma AfterTwoZeros(s: bytes)
    requires s != [] && s[0] > 2 && NoEmulation(s)
    ensures NoEmulation(Zeros(2) + s)
  {
    ZerosAre();
    NoEmulationCons(0, s);
    NoEmulationCons(0, [0] + s);
    assert [0, 0] + s == [0] + ([0] + s);
  }

  /** An escaped payload behind a non-zero header byte holds no start code, so it survives an Annex B stream. */
  lemma EscapedUnitIsPlain(header: byte, rbsp: bytes)
    requires header != 0
    requires rbsp != [] && rbsp[|rbsp| - 1] != 0
    ensures Plain([header] + Escape(0, rbsp))
  {
    EscapedHasNoEmulation(0, rbsp);
    ZerosAre();
    assert [] + Escape(0, rbsp) == Escape(0, rbsp);
    NoEmulationCons(header, Escape(0, rbsp));
    EscapeKeepsLast(0, rbsp);
  }

  lemma {:induction false} EscapeKeepsLast(zeros: nat, s: bytes)
    requires s != []
    ensures var e := Escape(zeros, s); e != [] && e[|e| - 1] == s[|s| - 1]
    decreases |s|
  {
    if |s| > 1 {
      var z := if s[0] == 0 then (if zeros == 2 && s[0] <= 3 then 1 else zeros + 1) else 0;
      EscapeKeepsLast(z, s[1..]);
    }
  }

  // ---------- The bit reader ----------

  function Mask(index: nat): bv8
    requires index < 8
  {
    match index
    case 0 => 0x80
    case 1 => 0x40
    case 2 => 0x20
    case 3 => 0x10
    case 4 => 0x08
    case 5 => 0x04
    case 6 => 0x02
    case _ => 0x01
  }

  predicate TestBit(b: byte, mask: bv8) {
    (b as bv8) & mask == mask
  }

  function ByteBits(b: byte): (r: seq<bool>)
    ensures |r| == 8
  {
    seq(8, i requires 0 <= i < 8 => TestBit(b, Mask(i)))
  }

  /** A byte string as bits, the most significant bit of each byte first. */
  function Bits(buf: bytes): (r: seq<bool>)
    ensures |r| == 8 * |buf|
    decreases |buf|
  {
    if buf == [] then [] else ByteBits(buf[0]) + Bits(buf[1..])
  }

  /** The next bit of what is left to read, and what is left then; behind the end there are only zeros. */
  function Head(b: seq<bool>): byte {
    if b != [] && b[0] then 1 else 0
  }

  function Tail(b: seq<bool>): seq<bool> {
    if b == [] then [] else b[1..]
  }

  /** `res <<= 1; res |= bit` on eight bits. */
  function ShiftIn(res: byte, bit: byte): byte
    requires bit <= 1
  {
    res * 2 % 256 + bit
  }

  /** Reading `n` bits, eight of which are kept; also what is left to read. */
  function BitsFrom(b: seq<bool>, n: nat, acc: byte): (byte, seq<bool>)
    decreases n, |b|
  {
    if n == 0 then (acc, b) else BitsFrom(Tail(b), n - 1, ShiftIn(acc, Head(b)))
  }

  lemma {:induction false} BitsAt(buf: bytes, pos: nat, index: nat)
    requires pos < |buf| && index < 8
    ensures Bits(buf)[8 * pos + index] == TestBit(buf[pos], Mask(index))
    decreases |buf|
  {
    if pos == 0 {
    } else {
      BitsAt(buf[1..], pos - 1, index);
    }
  }

  // The same, in terms of a position in all the bits. The reader's byte position has eight bits, so it starts over
  // behind the 256th byte, and only a shorter buffer has an end.

  const WRAP: nat := 8 * 256

  function BitAt(b: seq<bool>, at: nat): byte {
    if at < |b| && b[at] then 1 else 0
  }

  function Next(b: seq<bool>, at: nat): nat {
    if at >= |b| then at else if at + 1 == WRAP then 0 else at + 1
  }

  function NumberAt(b: seq<bool>, at: nat, n: nat, acc: byte): (byte, nat)
    decreases n, |b|
  {
    if n == 0 then (acc, at) else NumberAt(b, Next(b, at), n - 1, ShiftIn(acc, BitAt(b, at)))
  }

  /** That many bits can be read without starting over. */
  predicate InReach(b: seq<bool>, at: nat, n: nat) { |b| < WRAP || at + n < WRAP }

  lemma {:induction false} NumberAtIs(b: seq<bool>, at: nat, n: nat, acc: byte)
    requires at <= |b| && InReach(b, at, n)
    ensures var (number, next) := NumberAt(b, at, n, acc);
      next <= |b| && BitsFrom(b[at..], n, acc) == (number, b[next..])
    decreases n
  {
    if n == 0 {
    } else {
      assert Head(b[at..]) == BitAt(b, at) && Tail(b[at..]) == b[Next(b, at)..];
      NumberAtIs(b, Next(b, at), n - 1, ShiftIn(acc, BitAt(b, at)));
    }
  }

  lemma AroundOnce(n: nat)
    ensures (WRAP + n) % WRAP == n % WRAP
  {
  }

  /** Reading stops at the end of a short buffer, and goes around in a long one. */
  lemma {:induction false} ReachedPosition(b: seq<bool>, at: nat, n: nat, acc: byte)
    requires at <= |b| && at < WRAP
    ensures NumberAt(b, at, n, acc).1 ==
      if |b| >= WRAP then (at + n) % WRAP else if at + n <= |b| then at + n else |b|
    decreases n
  {
    if n == 0 {
    } else {
      ReachedPosition(b, Next(b, at), n - 1, ShiftIn(acc, BitAt(b, at)));
      if |b| >= WRAP && at + 1 == WRAP {
        AroundOnce(n - 1);
      }
    }
  }

  /** The reader is where the bits end or `n` bits further on if and only if they are in its reach. */
  lemma InReachExactly(b: seq<bool>, at: nat, n: nat, acc: byte)
    requires at <= |b| && at < WRAP
    ensures NumberAt(b, at, n, acc).1 == (if at + n <= |b| then at + n else |b|) <==> InReach(b, at, n)
  {
    ReachedPosition(b, at, n, acc);
  }

  /** In 256 bytes the bit behind the last one is the first one again, and no zero. */
  lemma StartsOver(b: seq<bool>)
    requires |b| == WRAP && b[0]
    ensures var at := NumberAt(b, 0, WRAP, 0).1; BitAt(b, at) == 1 && Head(b[WRAP..]) == 0
  {
    ReachedPosition(b, 0, WRAP, 0);
  }

  function ZerosAt(b: seq<bool>, at: nat, i: nat): (nat, nat)
    requires i <= 32
    decreases 32 - i, |b|
  {
    if i == 32 then (at, i)
    else if BitAt(b, at) == 1 then (Next(b, at), i)
    else ZerosAt(b, Next(b, at), i + 1)
  }

  lemma {:induction false} ZerosAtIs(b: seq<bool>, at: nat, i: nat)
    requires at <= |b| && i <= 32 && InReach(b, at, 32 - i)
    ensures var (next, zeros) := ZerosAt(b, at, i);
      next <= |b| && UeFrom(b[at..], i) == UeSuffix(b[next..], zeros)
    decreases 32 - i
  {
    if i == 32 {
    } else {
      assert Head(b[at..]) == BitAt(b, at) && Tail(b[at..]) == b[Next(b, at)..];
      if BitAt(b, at) != 1 {
        ZerosAtIs(b, Next(b, at), i + 1);
      }
    }
  }

  lemma {:induction false} ZerosBound(b: seq<bool>, at: nat, i: nat)
    requires i <= 32
    ensures var (next, zeros) := ZerosAt(b, at, i); next + zeros + i <= at + 64 && zeros <= 32
    decreases 32 - i
  {
    if i == 32 {
    } else if BitAt(b, at) != 1 {
      ZerosBound(b, Next(b, at), i + 1);
    }
  }

  lemma {:induction false} NumberBound(b: seq<bool>, at: nat, n: nat, acc: byte)
    ensures NumberAt(b, at, n, acc).1 <= at + n
    decreases n
  {
    if n == 0 {
    } else {
      NumberBound(b, Next(b, at), n - 1, ShiftIn(acc, BitAt(b, at)));
    }
  }

  lemma ReadInReach(b: seq<bool>, at: nat, n: nat)
    requires at <= |b|
    ensures var (number, next) := NumberAt(b, at, n, 0);
      InReach(b, at, n) ==> next <= |b| && BitsFrom(b[at..], n, 0) == (number, b[next..])
  {
    if InReach(b, at, n) {
      NumberAtIs(b, at, n, 0);
    }
  }

  /** A code's value and the position behind it. */
  function UeAt(b: seq<bool>, at: nat): (byte, nat) {
    var (next, zeros) := ZerosAt(b, at, 0);
    var (suffix, after) := NumberAt(b, next, zeros, 0);
    (MinusOne(suffix, zeros), after)
  }

  /** A code has at most 64 bits. */
  lemma UeAtIs(b: seq<bool>, at: nat)
    requires at <= |b|
    ensures UeAt(b, at).1 <= at + 64
    ensures InReach(b, at, 64) ==> UeAt(b, at).1 <= |b| && Ue(b[at..]) == (UeAt(b, at).0, b[UeAt(b, at).1..])
  {
    var (next, zeros) := ZerosAt(b, at, 0);
    ZerosBound(b, at, 0);
    NumberBound(b, next, zeros, 0);
    if InReach(b, at, 64) {
      ZerosAtIs(b, at, 0);
      NumberAtIs(b, next, zeros, 0);
    }
  }

  lemma NextMask(index: nat)
    requires index < 8
    ensures Mask(index) >> 1 == if index == 7 then 0 else Mask(index + 1)
    ensures Mask(index) >> 1 == 0 <==> index == 7
  {
  }

  /** `struct bitstream_reader` */
  class BitstreamReader {
    const buf: bytes
    var pos: byte
    var subPos: bv8

    /** How many bits of the current byte are behind. */
    ghost var index: nat

    ghost predicate Valid()
      reads this
    {
      index < 8 && At() <= |Bits(buf)| && subPos == Mask(index)
    }

    ghost function At(): nat
      reads this
    {
      8 * pos + index
    }

    /** The bits that are left to read. */
    ghost function Rest(): seq<bool>
      requires Valid()
      reads this
    {
      Bits(buf)[At()..]
    }

    constructor (data: bytes)
      ensures Valid() && buf == data && At() == 0
    {
      buf := data;
      pos, subPos, index := 0, 0x80, 0;
    }

    method ReadBit() returns (bit: byte)
      requires Valid()
      modifies this
      ensures Valid()
      ensures bit == BitAt(Bits(buf), old(At())) && At() == Next(Bits(buf), old(At()))
    {
      if pos >= |buf| {
        return 0;
      }
      NextMask(index);
      BitsAt(buf, pos, index);
      bit := if TestBit(buf[pos], subPos) then 1 else 0;
      subPos := subPos >> 1;
      index := index + 1;
      if subPos == 0 {
        subPos := 0x80;
        pos := if pos == 255 then 0 else pos + 1;
        index := 0;
      }
    }

    /** The loop of `bitstream_reader_read_bits`. */
    method ReadLoop(bits: nat) returns (res: byte)
      requires Valid()
      modifies this
      ensures Valid()
      ensures (res, At()) == NumberAt(Bits(buf), old(At()), bits, 0)
    {
      res := 0;
      var i := 1;
      ghost var all, b := NumberAt(Bits(buf), At(), bits, 0), Bits(buf);
      while i <= bits
        invariant 1 <= i <= bits + 1
        invariant Valid()
        invariant NumberAt(b, At(), bits + 1 - i, res) == all
      {
        var bit := ReadBit();
        res := ShiftIn(res, bit);
        i := i + 1;
      }
    }

    /** Reads on from the present position; that is what is left to read unless the position starts over. */
    method ReadBits(bits: nat) returns (res: byte)
      requires Valid()
      modifies this
      ensures Valid() && At() <= old(At()) + bits
      ensures (res, At()) == NumberAt(Bits(buf), old(At()), bits, 0)
      ensures InReach(Bits(buf), old(At()), bits) ==> (res, Rest()) == BitsFrom(old(Rest()), bits, 0)
    {
      NumberBound(Bits(buf), At(), bits, 0);
      ReadInReach(Bits(buf), At(), bits);
      res := ReadLoop(bits);
    }

    /** `get_ue_golomb`; the result is cut down to eight bits. */
    method GetUeGolomb() returns (value: byte)
      requires Valid()
      modifies this
      ensures Valid() && At() <= old(At()) + 64
      ensures (value, At()) == UeAt(Bits(buf), old(At()))
      ensures InReach(Bits(buf), old(At()), 64) ==> (value, Rest()) == Ue(old(Rest()))
    {
      UeAtIs(Bits(buf), At());
      var i := LeadingZeros();
      var suffix := ReadBits(i);
      value := MinusOne(suffix, i);
    }

    /** The loop at the start of `get_ue_golomb`. */
    method LeadingZeros() returns (i: nat)
      requires Valid()
      modifies this
      ensures Valid()
      ensures (At(), i) == ZerosAt(Bits(buf), old(At()), 0)
    {
      i := 0;
      while i < 32
        invariant 0 <= i <= 32
        invariant Valid()
        invariant ZerosAt(Bits(buf), At(), i) == ZerosAt(Bits(buf), old(At()), 0)
      {
        var bit := ReadBit();
        if bit != 0 {
          return;
        }
        i := i + 1;
      }
    }
  }

  // ---------- Exp-Golomb codes ----------

  function Pow2(n: nat): (r: nat)
    ensures r > 0
  {
    if n == 0 then 1 else 2 * Pow2(n - 1)
  }

  /** `suffix + (1 << k) - 1` on eight bits. */
  function MinusOne(suffix: byte, k: nat): byte { (suffix + Pow2(k) - 1) % 256 }

  /** The code's suffix, once `k` leading zeros are behind the reader. */
  function UeSuffix(b: seq<bool>, k: nat): (byte, seq<bool>) {
    var (rest, b') := BitsFrom(b, k, 0);
    (MinusOne(rest, k), b')
  }

  /** What the reader makes of a code of which it has seen `i` leading zeros. */
  function UeFrom(b: seq<bool>, i: nat): (byte, seq<bool>)
    requires i <= 32
    decreases 32 - i, |b|
  {
    if i == 32 then UeSuffix(b, i)
    else if Head(b) == 1 then UeSuffix(Tail(b), i)
    else UeFrom(Tail(b), i + 1)
  }

  function Ue(b: seq<bool>): (byte, seq<bool>) { UeFrom(b, 0) }

  // ----- The writer's side -----

  /** The `len` low bits of `m`, most significant first. */
  ghost function Bin(m: nat, len: nat): (r: seq<bool>)
    requires m < Pow2(len)
    ensures |r| == len
  {
    if len == 0 then []
    else if m >= Pow2(len - 1) then [true] + Bin(m - Pow2(len - 1), len - 1)
    else [false] + Bin(m, len - 1)
  }

  /** The `i`-th bit of a byte has the weight 2^(7-i): it is set in that number, and in no byte made of all the
      others. */
  lemma HighBitFirst(i: nat)
    requires i < 8
    ensures var weight := Pow2(7 - i);
      weight <= 128 && ByteBits(weight)[i] && !ByteBits(255 - weight)[i]
  {
    assert Pow2(7) == 2 * Pow2(6) && Pow2(6) == 2 * Pow2(5) && Pow2(5) == 2 * Pow2(4);
    assert Pow2(4) == 2 * Pow2(3) && Pow2(3) == 2 * Pow2(2) && Pow2(2) == 2 * Pow2(1);
    match i
    case 0 => assert TestBit(128, Mask(0)) && !TestBit(127, Mask(0));
    case 1 => assert TestBit(64, Mask(1)) && !TestBit(191, Mask(1));
    case 2 => assert TestBit(32, Mask(2)) && !TestBit(223, Mask(2));
    case 3 => assert TestBit(16, Mask(3)) && !TestBit(239, Mask(3));
    case 4 => assert TestBit(8, Mask(4)) && !TestBit(247, Mask(4));
    case 5 => assert TestBit(4, Mask(5)) && !TestBit(251, Mask(5));
    case 6 => assert TestBit(2, Mask(6)) && !TestBit(253, Mask(6));
    case _ => assert TestBit(1, Mask(7)) && !TestBit(254, Mask(7));
  }

  /** The code of 3 is `00100`, and `00 00 03 01` is the escaped form of `00 00 01`. */
  lemma SmallCodes()
    ensures UeBits(3) == [false, false, true, false, false]
    ensures Escape(0, [0, 0, 1]) == [0, 0, 3, 1]
  {
    assert Pow2(2) == 4 && Pow2(1) == 2;
    assert Log2(4) == 2 by {
      assert Log2(4) == 1 + Log2(2) && Log2(2) == 1 + Log2(1);
    }
    assert Falses(2) == [false, false] && Bin(0, 2) == [false] + Bin(0, 1) && Bin(0, 1) == [false] + Bin(0, 0);
    var s: bytes := [0, 0, 1];
    assert s[1..] == [0, 1] && s[1..][1..] == [1] && s[1..][1..][1..] == [];
    assert Escape(2, s[1..][1..]) == [3, 1] + Escape(0, []);
    assert Escape(1, s[1..]) == [0] + Escape(2, s[1..][1..]);
  }

  lemma ModShift(a: nat, bit: byte)
    requires bit <= 1
    ensures ShiftIn(a % 256, bit) == (2 * a + bit) % 256
  {
  }

  lemma Regroup(a: nat, bit: nat, p: nat, rest: nat)
    ensures (2 * a + bit) * p + rest == a * (2 * p) + (bit * p + rest)
  {
  }

  lemma FirstBit(first: bool, rest: seq<bool>)
    ensures Head([first] + rest) == (if first then 1 else 0) && Tail([first] + rest) == rest
  {
  }

  /** Reading a number's bits yields the number, cut down to eight bits. */
  lemma {:induction false} BitsOfNumber(m: nat, len: nat, a: nat, tail: seq<bool>)
    requires m < Pow2(len)
    ensures BitsFrom(Bin(m, len) + tail, len, a % 256) == ((a * Pow2(len) + m) % 256, tail)
    decreases len
  {
    if len == 0 {
      assert [] + tail == tail;
    } else {
      var bit := if m >= Pow2(len - 1) then 1 else 0;
      var m' := m - bit * Pow2(len - 1);
      assert Bin(m, len) + tail == [bit == 1] + (Bin(m', len - 1) + tail);
      FirstBit(bit == 1, Bin(m', len - 1) + tail);
      ModShift(a, bit);
      BitsOfNumber(m', len - 1, 2 * a + bit, tail);
      Regroup(a, bit, Pow2(len - 1), m');
    }
  }

  function Log2(m: nat): (r: nat)
    requires m > 0
    ensures Pow2(r) <= m < 2 * Pow2(r)
  {
    if m == 1 then 0 else 1 + Log2(m / 2)
  }

  ghost function Falses(k: nat): (r: seq<bool>)
    ensures |r| == k
  {
    if k == 0 then [] else [false] + Falses(k - 1)
  }

  /** The code of `v` (section 9.1 of ITU-T H.264): leading zeros, a one, and as many bits again. */
  ghost function UeBits(v: nat): (r: seq<bool>)
    ensures |r| == 2 * Log2(v + 1) + 1
  {
    UeBitsOf(v, Log2(v + 1))
  }

  ghost function UeBitsOf(v: nat, k: nat): (r: seq<bool>)
    requires Pow2(k) <= v + 1 < 2 * Pow2(k)
    ensures |r| == 2 * k + 1
  {
    Falses(k) + ([true] + Bin(v + 1 - Pow2(k), k))
  }

  lemma {:induction false} UeFromZeros(i: nat, k: nat, rest: seq<bool>)
    requires i + k < 32
    ensures UeFrom(Falses(k) + ([true] + rest), i) == UeSuffix(rest, i + k)
    decreases k
  {
    if k == 0 {
      assert Falses(0) + ([true] + rest) == [true] + rest;
      FirstBit(true, rest);
    } else {
      assert Falses(k) + ([true] + rest) == [false] + (Falses(k - 1) + ([true] + rest));
      FirstBit(false, Falses(k - 1) + ([true] + rest));
      UeFromZeros(i + 1, k - 1, rest);
    }
  }

  lemma ModPlus(m: nat, c: nat)
    ensures (m % 256 + c) % 256 == (m + c) % 256
  {
  }

  /** The value read is the suffix plus the power of two that the leading zeros stand for, minus one. */
  lemma UeValue(v: nat, k: nat, tail: seq<bool>)
    requires Pow2(k) <= v + 1 < 2 * Pow2(k)
    ensures UeSuffix(Bin(v + 1 - Pow2(k), k) + tail, k) == (v % 256, tail)
  {
    BitsOfNumber(v + 1 - Pow2(k), k, 0, tail);
    MinusOneMeans(v, k);
  }

  lemma MinusOneMeans(v: nat, k: nat)
    requires Pow2(k) <= v + 1
    ensures MinusOne((v + 1 - Pow2(k)) % 256, k) == v % 256
  {
    ModPlus(v + 1 - Pow2(k), Pow2(k) - 1);
  }

  lemma Regrouped(a: seq<bool>, b: seq<bool>, c: seq<bool>)
    ensures (a + ([true] + b)) + c == a + ([true] + (b + c))
  {
  }

  lemma UeRead(v: nat, k: nat, tail: seq<bool>)
    requires k < 32 && Pow2(k) <= v + 1 < 2 * Pow2(k)
    ensures Ue(UeBitsOf(v, k) + tail) == (v % 256, tail)
  {
    var suffix := Bin(v + 1 - Pow2(k), k);
    Regrouped(Falses(k), suffix, tail);
    UeFromZeros(0, k, suffix + tail);
    UeValue(v, k, tail);
  }

  lemma SmallKept(v: nat)
    ensures v % 256 == v <==> v <= 255
  {
  }

  /**
   Every code is read back, cut down to eight bits, and the reader moves on by exactly its length, whatever follows; so
   the value is recovered if and only if it is at most 255.
   */
  lemma UeRoundTrip(v: nat, tail: seq<bool>)
    requires Log2(v + 1) < 32
    ensures Ue(UeBits(v) + tail) == (v % 256, tail)
    ensures Ue(UeBits(v) + tail).0 == v <==> v <= 255
  {
    UeRead(v, Log2(v + 1), tail);
    SmallKept(v);
  }
}
