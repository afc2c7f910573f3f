/**
 AV1 open bitstream units: LEB128 sizes, unit headers, metadata units and header extraction (libobs/obs-av1.c).
 `None` stands for what the C language leaves undefined: an overflowing shift, or a read past the end of the packet.
 */
module Av1Obu {
  import opened Bytes

  // ---------- LEB128 ----------

  const TWO_31: nat := 0x8000_0000
  const TWO_64: nat := 0x1_0000_0000_0000_0000

  function Pow128(n: nat): (r: nat)
    ensures r > 0
  {
    if n == 0 then 1 else 128 * Pow128(n - 1)
  }

  /** `x << (7 * i)` on `int`: defined when the shift is below 32 and the result fits. */
  function IntShift(x: byte, i: nat): Option<nat> {
    if 7 * i < 32 && x * Pow128(i) < TWO_31 then Some(x * Pow128(i)) else None
  }

  datatype Leb = Leb(value: nat, len: nat)

  /** `leb128` from its `i`-th byte on. The groups of seven bits do not overlap, so joining them is adding them. */
  function ReadLeb(buf: bytes, i: nat): Option<Leb>
    requires i <= 8
    decreases 8 - i, |buf|
  {
    if i == 8 || i >= |buf| then Some(Leb(0, i))
    else
      match IntShift(buf[i] % 128, i)
      case None => None
      case Some(part) =>
        if buf[i] < 128 then Some(Leb(part, i + 1))
        else
          match ReadLeb(buf, i + 1)
          case None => None
          case Some(rest) => Some(Leb(part + rest.value, rest.len))
  }

  /** `encode_uleb128` */
  function WriteLeb(val: nat): (r: bytes)
    ensures r != []
  {
    if val < 128 then [val] else [val % 128 + 128] + WriteLeb(val / 128)
  }

  /** As many bytes as there are groups of seven bits. */
  lemma {:induction false} WriteLebLength(val: nat, n: nat)
    requires n > 0 && val < Pow128(n)
    ensures |WriteLeb(val)| <= n
    decreases n
  {
    assert Pow128(1) == 128 * Pow128(0);
    if val < 128 {
    } else {
      assert val / 128 < Pow128(n - 1);
      WriteLebLength(val / 128, n - 1);
    }
  }

  lemma TenBytes(val: nat)
    requires val < TWO_64
    ensures |WriteLeb(val)| <= 10
  {
    assert Pow128(5) == 128 * Pow128(4) && Pow128(4) == 128 * Pow128(3);
    assert Pow128(3) == 128 * Pow128(2) && Pow128(2) == 128 * Pow128(1);
    assert Pow128(10) == 128 * Pow128(9) && Pow128(9) == 128 * Pow128(8) && Pow128(8) == 128 * Pow128(7);
    assert Pow128(7) == 128 * Pow128(6) && Pow128(6) == 128 * Pow128(5);
    WriteLebLength(val, 10);
  }

  lemma Pow128Values()
    ensures Pow128(0) == 1 && Pow128(1) == 0x80 && Pow128(2) == 0x4000
    ensures Pow128(3) == 0x20_0000 && Pow128(4) == 0x1000_0000
  {
    assert Pow128(4) == 128 * Pow128(3) && Pow128(3) == 128 * Pow128(2) && Pow128(2) == 128 * Pow128(1);
  }

  /** One byte more: the groups above it decide whether the value fits, because 2^31 is a multiple of their weight. */
  lemma GroupsFit(val: nat, i: nat)
    requires val >= 128 && i < 4
    ensures val * Pow128(i) < TWO_31 <==> val / 128 * Pow128(i + 1) < TWO_31
    ensures val * Pow128(i) == val % 128 * Pow128(i) + val / 128 * Pow128(i + 1)
    ensures val % 128 * Pow128(i) < TWO_31
  {
    Pow128Values();
    match i
    case 0 => case 1 => case 2 => case 3 =>
  }

  lemma FirstOfSlice(buf: bytes, i: nat, w: bytes)
    requires w != [] && i + |w| <= |buf| && buf[i..i + |w|] == w
    ensures buf[i] == w[0] && buf[i + 1..i + 1 + |w[1..]|] == w[1..]
  {
    assert buf[i..i + |w|][0] == w[0] && buf[i..i + |w|][1..] == w[1..];
  }

  /** A fifth group that is not the last one never fits. */
  lemma FifthGroup(val: nat)
    requires val >= 128
    ensures val * Pow128(4) >= TWO_31
  {
    Pow128Values();
  }

  /** One group, given what is read behind it. */
  lemma ReadGroup(buf: bytes, i: nat, val: nat, end: nat)
    requires i < 4 && i < |buf| && val >= 128 && buf[i] == val % 128 + 128
    requires ReadLeb(buf, i + 1) ==
      if val / 128 * Pow128(i + 1) < TWO_31 then Some(Leb(val / 128 * Pow128(i + 1), end)) else None
    ensures ReadLeb(buf, i) == if val * Pow128(i) < TWO_31 then Some(Leb(val * Pow128(i), end)) else None
  {
    GroupsFit(val, i);
  }

  lemma {:induction false} ReadWritten(buf: bytes, i: nat, val: nat)
    requires i <= 5 && i + |WriteLeb(val)| <= |buf|
    requires buf[i..i + |WriteLeb(val)|] == WriteLeb(val)
    requires i == 5 ==> val > 0
    ensures ReadLeb(buf, i) ==
      if i < 5 && val * Pow128(i) < TWO_31 then Some(Leb(val * Pow128(i), i + |WriteLeb(val)|)) else None
    decreases val
  {
    FirstOfSlice(buf, i, WriteLeb(val));
    if val < 128 || i == 5 {
    } else {
      assert WriteLeb(val)[1..] == WriteLeb(val / 128);
      ReadWritten(buf, i + 1, val / 128);
      if i < 4 {
        ReadGroup(buf, i, val, i + |WriteLeb(val)|);
      } else {
        FifthGroup(val);
      }
    }
  }

  /**
   Reading undoes writing exactly for the values below 2^31, whatever follows; for any larger value the C code shifts an
   `int` too far. (Section 4.10.5 of the AV1 specification allows values up to 2^32 - 1.)
   */
  lemma LebRoundTrip(val: nat, tail: bytes)
    ensures ReadLeb(WriteLeb(val) + tail, 0) ==
      if val < TWO_31 then Some(Leb(val, |WriteLeb(val)|)) else None
  {
    var buf := WriteLeb(val) + tail;
    assert buf[0..|WriteLeb(val)|] == WriteLeb(val);
    ReadWritten(buf, 0, val);
    Pow128Values();
  }

  /** The low seven bits come first. */
  lemma LowGroupFirst()
    ensures WriteLeb(300) == [0xac, 0x02]
  {
    assert WriteLeb(300) == [0xac] + WriteLeb(2);
  }

  /** `leb128` as the loop it is. */
  method Leb128(buf: bytes) returns (value: nat, len: nat, defined: bool)
    ensures defined <==> ReadLeb(buf, 0).Some?
    ensures defined ==> ReadLeb(buf, 0) == Some(Leb(value, len))
  {
    value, len := 0, 0;
    var i := 0;
    while i < 8
      invariant 0 <= i <= 8 && len == i
      invariant ReadLeb(buf, 0) == AddTo(value, ReadLeb(buf, i))
    {
      if i >= |buf| {
        break;
      }
      len := len + 1;
      var part := IntShift(buf[i] % 128, i);
      if part.None? {
        return value, len, false;
      }
      value := value + part.value;
      if buf[i] < 128 {
        return value, len, true;
      }
      i := i + 1;
    }
    defined := true;
  }

  function AddTo(value: nat, rest: Option<Leb>): Option<Leb> {
    match rest case None => None case Some(r) => Some(Leb(value + r.value, r.len))
  }

  lemma WriteLebCons(done: bytes, b: byte, val: nat)
    requires b < 128 && val > 0
    ensures done + WriteLeb(b + 128 * val) == (done + [b + 128]) + WriteLeb(val)
  {
    assert (b + 128 * val) % 128 == b && (b + 128 * val) / 128 == val;
  }

  /** `encode_uleb128` into a buffer of ten bytes. */
  method EncodeUleb128(value: nat, outBuf: array<byte>) returns (len: nat)
    requires value < TWO_64 && outBuf.Length >= 10
    modifies outBuf
    ensures len == |WriteLeb(value)| <= 10
    ensures outBuf[..len] == WriteLeb(value)
  {
    TenBytes(value);
    ghost var written := WriteLeb(value);
    var numBytes := 0;
    var b := value % 128;
    var val := value / 128;
    while val > 0
      invariant 0 <= b < 128 && 0 <= val && numBytes <= 10
      invariant outBuf[..numBytes] + WriteLeb(b + 128 * val) == written
      decreases val
    {
      WriteLebCons(outBuf[..numBytes], b, val);
      outBuf[numBytes] := b + 128;
      assert outBuf[..numBytes + 1] == outBuf[..numBytes] + [b + 128];
      numBytes := numBytes + 1;
      assert val == val % 128 + 128 * (val / 128);
      b := val % 128;
      val := val / 128;
    }
    outBuf[numBytes] := b;
    assert outBuf[..numBytes + 1] == outBuf[..numBytes] + [b];
    numBytes := numBytes + 1;
    len := numBytes;
  }

  // ---------- Unit headers ----------

  const SEQUENCE_HEADER: nat := 1
  const METADATA: nat := 5

  function Pow2(n: nat): (r: nat)
    ensures r > 0
  {
    if n == 0 then 1 else 2 * Pow2(n - 1)
  }

  /** `get_bits`: `count` bits behind the first `n`. */
  function GetBits(val: byte, n: nat, count: nat): nat
    requires n + count <= 8
  {
    val / Pow2(8 - n - count) % Pow2(count)
  }

  /** Where the payload starts, how long it is, and the type. */
  datatype Header = Header(start: nat, size: nat, obuType: nat)

  /** `parse_obu_header` */
  function ParseHeader(buf: bytes): Option<Header> {
    if buf == [] then Some(Header(0, 0, 0))
    else
      var obuType := GetBits(buf[0], 1, 4);
      var start := 1 + GetBits(buf[0], 5, 1);
      if GetBits(buf[0], 6, 1) == 0 then Some(Header(start, |buf| - 1, obuType))
      else if start > |buf| then None
      else
        match ReadLeb(buf[start..], 0)
        case None => None
        case Some(leb) => Some(Header(start + leb.len, leb.value, obuType))
  }

  method ParseObuHeader(buf: bytes) returns (header: Option<Header>)
    ensures header == ParseHeader(buf)
  {
    if |buf| < 1 {
      return Some(Header(0, 0, 0));
    }
    var obuType := GetBits(buf[0], 1, 4);
    var extensionFlag := GetBits(buf[0], 5, 1);
    var hasSizeField := GetBits(buf[0], 6, 1);
    var obuStart := 0;
    if extensionFlag != 0 {
      obuStart := obuStart + 1;
    }
    obuStart := obuStart + 1;
    GetBitsValues(buf[0]);
    if hasSizeField != 0 {
      if obuStart > |buf| {
        return None;
      }
      var value, sizeLen, defined := Leb128(buf[obuStart..]);
      if !defined {
        return None;
      }
      return Some(Header(obuStart + sizeLen, value, obuType));
    }
    return Some(Header(obuStart, |buf| - 1, obuType));
  }

  lemma GetBitsValues(b: byte)
    ensures GetBits(b, 1, 4) == b / 8 % 16
    ensures GetBits(b, 5, 1) == b / 4 % 2
    ensures GetBits(b, 6, 1) == b / 2 % 2
  {
    assert Pow2(4) == 2 * Pow2(3) && Pow2(3) == 2 * Pow2(2) && Pow2(2) == 2 * Pow2(1) && Pow2(1) == 2 * Pow2(0);
  }

  // ---------- Metadata units ----------

  /** The bytes of a metadata unit (sections 5.3.1, 5.3.2 and 5.8.1 of the AV1 specification). */
  function MetadataObu(source: bytes, metadataType: byte): bytes {
    [METADATA * 8 + 2] + WriteLeb(1 + |source| + 1) + [metadataType] + source + [0x80]
  }

  /** `metadata_obu`: allocates the whole unit and fills it from front to back. */
  method BuildMetadataObu(source: bytes, metadataType: byte) returns (out: array<byte>)
    requires 1 + |source| + 1 < TWO_64
    ensures fresh(out) && out[..] == MetadataObu(source, metadataType)
  {
    var sizeBuf := new byte[10](_ => 0);
    var sizeBufSize := EncodeUleb128(1 + |source| + 1, sizeBuf);
    var size := sizeBuf[..sizeBufSize];
    var outSize := 1 + sizeBufSize + 1 + |source| + 1;
    out := new byte[outSize](_ => 0);
    var offset := Append(out, 0, [], [METADATA * 8 + 2]);
    offset := Append(out, offset, [METADATA * 8 + 2], size);
    offset := Append(out, offset, [METADATA * 8 + 2] + size, [metadataType]);
    offset := Append(out, offset, [METADATA * 8 + 2] + size + [metadataType], source);
    offset := Append(out, offset, [METADATA * 8 + 2] + size + [metadataType] + source, [0x80]);
    assert out[..] == out[..outSize];
  }

  /** Writes behind what is there already, and moves the offset on. */
  method Append(out: array<byte>, at: nat, ghost done: bytes, data: bytes) returns (offset: nat)
    requires at + |data| <= out.Length
    requires out[..at] == done
    modifies out
    ensures offset == at + |data| == |done + data| && out[..offset] == done + data
  {
    forall i | 0 <= i < |data| {
      out[at + i] := data[i];
    }
    offset := at + |data|;
    assert out[..offset] == out[..at] + data;
  }

  lemma MetadataByte()
    ensures var b: byte := METADATA * 8 + 2;
      GetBits(b, 1, 4) == METADATA && GetBits(b, 5, 1) == 0 && GetBits(b, 6, 1) == 1
  {
    GetBitsValues(METADATA * 8 + 2);
  }

  /**
   Metadata round trip: if the size fits, parsing a metadata unit finds type 5 and a payload that ends where the buffer
   ends, made of the type byte, the source bytes and the trailing bits; if not, the size cannot be read back.
   */
  lemma MetadataRoundTrip(source: bytes, metadataType: byte)
    ensures var obu := MetadataObu(source, metadataType);
      match ParseHeader(obu)
      case None => |source| + 2 >= TWO_31
      case Some(h) =>
        && |source| + 2 < TWO_31
        && h.obuType == 5
        && h.start + h.size == |obu|
        && obu[h.start..] == [metadataType] + source + [0x80]
  {
    var w, rest := WriteLeb(1 + |source| + 1), [metadataType] + source + [0x80];
    var obu := MetadataObu(source, metadataType);
    MetadataByte();
    assert obu[0] == METADATA * 8 + 2 && obu[1..] == w + rest by {
      assert obu == [METADATA * 8 + 2] + (w + rest);
    }
    assert forall i :: i == 1 + |w| ==> obu[i..] == rest by {
      assert obu[1..][|w|..] == rest;
    }
    LebRoundTrip(1 + |source| + 1, rest);
  }

  // ---------- Header extraction ----------

  predicate IsHeaderType(obuType: nat) { obuType == METADATA || obuType == SEQUENCE_HEADER }

  datatype Extracted = Extracted(packet: bytes, header: bytes)

  function Prepend(unit: bytes, isHeader: bool, rest: Option<Extracted>): Option<Extracted> {
    match rest
    case None => None
    case Some(r) => Some(Extracted(unit + r.packet, if isHeader then unit + r.header else r.header))
  }

  /** `obs_extract_av1_headers`: every unit goes to the packet output, the header units also to the other one. */
  function Extract(s: bytes): Option<Extracted>
    decreases |s|
  {
    if s == [] then Some(Extracted([], []))
    else
      match ParseHeader(s)
      case None => None
      case Some(h) =>
        HeaderAdvances(s);
        var n := h.start + h.size;
        if n > |s| then None else Prepend(s[..n], IsHeaderType(h.obuType), Extract(s[n..]))
  }

  /** The scan always moves on, so it ends on every input. */
  lemma HeaderAdvances(s: bytes)
    requires s != []
    ensures ParseHeader(s).Some? ==> ParseHeader(s).value.start >= 1
  {
  }

  function Join(acc: Extracted, rest: Option<Extracted>): Option<Extracted> {
    match rest
    case None => None
    case Some(r) => Some(Extracted(acc.packet + r.packet, acc.header + r.header))
  }

  function Grown(acc: Extracted, unit: bytes, isHeader: bool): Extracted {
    Extracted(acc.packet + unit, if isHeader then acc.header + unit else acc.header)
  }

  /** The same from the front, on top of what was extracted before. */
  function Scan(acc: Extracted, s: bytes): Option<Extracted>
    decreases |s|
  {
    if s == [] then Some(acc)
    else
      match ParseHeader(s)
      case None => None
      case Some(h) =>
        HeaderAdvances(s);
        var n := h.start + h.size;
        if n > |s| then None else Scan(Grown(acc, s[..n], IsHeaderType(h.obuType)), s[n..])
  }

  lemma {:induction false} ScanIsExtract(acc: Extracted, s: bytes)
    ensures Scan(acc, s) == Join(acc, Extract(s))
    decreases |s|
  {
    if s == [] {
      assert acc.packet + [] == acc.packet && acc.header + [] == acc.header;
    } else {
      var parsed := ParseHeader(s);
      if parsed.Some? {
        HeaderAdvances(s);
        var n, isHeader := parsed.value.start + parsed.value.size, IsHeaderType(parsed.value.obuType);
        if n <= |s| {
          ScanIsExtract(Grown(acc, s[..n], isHeader), s[n..]);
          JoinPrepend(acc, s[..n], isHeader, Extract(s[n..]));
        }
      }
    }
  }

  /** `obs_extract_av1_headers` as the loop it is. */
  method ExtractHeaders(s: bytes) returns (packet: bytes, header: bytes, defined: bool)
    ensures defined <==> Extract(s).Some?
    ensures defined ==> Extract(s) == Some(Extracted(packet, header))
  {
    ScanIsExtract(Extracted([], []), s);
    JoinNothing(Extract(s));
    packet, header, defined := ScanUnits(s);
  }

  method ScanUnits(s: bytes) returns (packet: bytes, header: bytes, defined: bool)
    ensures defined <==> Scan(Extracted([], []), s).Some?
    ensures defined ==> Scan(Extracted([], []), s) == Some(Extracted(packet, header))
  {
    packet, header := [], [];
    var start := 0;
    ghost var rest, all := s, Scan(Extracted([], []), s);
    while start < |s|
      invariant 0 <= start <= |s| && rest == s[start..]
      invariant Scan(Extracted(packet, header), rest) == all
    {
      var ok;
      packet, header, start, ok, rest := TakeUnit(s, start, packet, header, rest);
      if !ok {
        return packet, header, false;
      }
    }
    defined := true;
  }

  /** One turn of the loop; `rest` is what it starts from. */
  method TakeUnit(s: bytes, start: nat, wasPacket: bytes, wasHeader: bytes, ghost rest: bytes)
    returns (packet: bytes, header: bytes, next: nat, ok: bool, ghost left: bytes)
    requires start < |s| && rest == s[start..]
    ensures !ok ==> Scan(Extracted(wasPacket, wasHeader), rest).None?
    ensures ok ==> start < next <= |s| && left == s[next..]
    ensures ok ==> Scan(Extracted(wasPacket, wasHeader), rest) == Scan(Extracted(packet, header), left)
  {
    packet, header, next := wasPacket, wasHeader, start;
    var size, obuType;
    size, obuType, ok, left := MeasureUnit(s[start..], Extracted(wasPacket, wasHeader));
    if ok {
      next := start + size;
      SlicesOfRest(s, start, size);
      packet, header := AddUnit(s[start..next], obuType, packet, header);
      UnitTaken(Extracted(wasPacket, wasHeader), rest, size, obuType, left, s[start..next], Extracted(packet, header));
    }
  }

  lemma UnitTaken(acc: Extracted, rest: bytes, size: nat, obuType: nat, left: bytes, unit: bytes, next: Extracted)
    requires size <= |rest| && unit == rest[..size] && next == Grown(acc, unit, IsHeaderType(obuType))
    requires Scan(acc, rest) == Scan(Grown(acc, rest[..size], IsHeaderType(obuType)), left)
    ensures Scan(acc, rest) == Scan(next, left)
  {
  }

  /** The size of the unit at the front, if it is all there. */
  method MeasureUnit(rest: bytes, ghost acc: Extracted)
    returns (size: nat, obuType: nat, ok: bool, ghost left: bytes)
    requires rest != []
    ensures !ok ==> Scan(acc, rest).None?
    ensures ok ==> 0 < size <= |rest| && left == rest[size..]
    ensures ok ==> Scan(acc, rest) == Scan(Grown(acc, rest[..size], IsHeaderType(obuType)), left)
  {
    var h := ParseObuHeader(rest);
    if h.None? {
      return 0, 0, false, rest;
    }
    HeaderAdvances(rest);
    size, obuType := h.value.start + h.value.size, h.value.obuType;
    ok := size <= |rest|;
    left := if ok then rest[size..] else rest;
  }

  lemma SlicesOfRest(s: bytes, start: nat, n: nat)
    requires start + n <= |s|
    ensures s[start..][..n] == s[start..start + n] && s[start..][n..] == s[start + n..]
  {
  }

  method AddUnit(unit: bytes, obuType: nat, wasPacket: bytes, wasHeader: bytes) returns (packet: bytes, header: bytes)
    ensures Extracted(packet, header) == Grown(Extracted(wasPacket, wasHeader), unit, IsHeaderType(obuType))
  {
    packet, header := wasPacket, wasHeader;
    if obuType == METADATA || obuType == SEQUENCE_HEADER {
      header := header + unit;
    }
    packet := packet + unit;
  }

  lemma JoinNothing(rest: Option<Extracted>)
    ensures Join(Extracted([], []), rest) == rest
  {
    match rest
    case None =>
    case Some(r) => assert [] + r.packet == r.packet && [] + r.header == r.header;
  }

  lemma JoinPrepend(acc: Extracted, unit: bytes, isHeader: bool, rest: Option<Extracted>)
    ensures Join(acc, Prepend(unit, isHeader, rest))
         == Join(Grown(acc, unit, isHeader), rest)
  {
    match rest
    case None =>
    case Some(r) =>
      assert acc.packet + (unit + r.packet) == (acc.packet + unit) + r.packet;
      assert acc.header + (unit + r.header) == (acc.header + unit) + r.header;
  }

  /** Whenever the scan stays inside the packet, the packet output is the input itself. */
  lemma {:induction false} PacketIsInput(s: bytes)
    ensures Extract(s).Some? ==> Extract(s).value.packet == s
    decreases |s|
  {
    if s == [] {
    } else {
      HeaderAdvances(s);
      match ParseHeader(s)
      case None =>
      case Some(h) =>
        var n := h.start + h.size;
        if n <= |s| {
          PacketIsInput(s[n..]);
          assert s[..n] + s[n..] == s;
        }
    }
  }

  /** A last unit without a size field is taken whole if and only if it has no extension byte, since that byte is not
      counted in its size; otherwise the scan reads behind the packet. */
  lemma UnitWithoutSize(s: bytes)
    requires s != [] && GetBits(s[0], 6, 1) == 0
    ensures Extract(s).Some? <==> GetBits(s[0], 5, 1) == 0
    ensures Extract(s).Some? ==>
      Extract(s).value == Extracted(s, if GetBits(s[0], 1, 4) in {1, 5} then s else [])
  {
    GetBitsValues(s[0]);
    PacketIsInput(s);
    if GetBits(s[0], 5, 1) == 0 {
      assert s[..|s|] == s && s[|s|..] == [];
      assert Extract([]) == Some(Extracted([], []));
      assert s + [] == s;
    }
  }

  /** An extension byte and no size field: the two bytes are not enough for the scan. */
  lemma ExtensionNotCounted()
    ensures Extract([0x34, 0]).None?
  {
    GetBitsValues(0x34);
    UnitWithoutSize([0x34, 0]);
  }

  /** A unit with a size field; the forbidden and reserved bits and the extension byte may be anything. */
  datatype Obu = Obu(forbidden: bool, obuType: nat, extension: Option<byte>, reserved: bool, payload: bytes)

  predicate WellFormed(o: Obu) { o.obuType < 16 && |o.payload| < TWO_31 }

  function Bit(b: bool): nat { if b then 1 else 0 }

  function HeaderByte(o: Obu): byte
    requires o.obuType < 16
  {
    128 * Bit(o.forbidden) + 8 * o.obuType + 4 * Bit(o.extension.Some?) + 2 + Bit(o.reserved)
  }

  function PrintObu(o: Obu): bytes
    requires WellFormed(o)
  {
    [HeaderByte(o)] + (match o.extension case None => [] case Some(e) => [e]) + WriteLeb(|o.payload|) + o.payload
  }

  lemma HeaderBits(o: Obu)
    requires o.obuType < 16
    ensures GetBits(HeaderByte(o), 1, 4) == o.obuType
    ensures GetBits(HeaderByte(o), 5, 1) == Bit(o.extension.Some?)
    ensures GetBits(HeaderByte(o), 6, 1) == 1
  {
    GetBitsValues(HeaderByte(o));
    HeaderGroups(Bit(o.forbidden), o.obuType, Bit(o.extension.Some?), Bit(o.reserved));
  }

  lemma HeaderGroups(a: nat, t: nat, x: nat, r: nat)
    requires a <= 1 && t < 16 && x <= 1 && r <= 1
    ensures var b := 128 * a + 8 * t + 4 * x + 2 + r; b / 8 % 16 == t && b / 4 % 2 == x && b / 2 % 2 == 1
  {
    var b := 128 * a + 8 * t + 4 * x + 2 + r;
    assert b / 8 == 16 * a + t && b / 4 == 2 * (16 * a + t) + x && b / 2 == 2 * (2 * (16 * a + t) + x) + 1;
  }

  /** A printed unit is parsed back, whatever follows it. */
  lemma PrintedObuParses(o: Obu, tail: bytes)
    requires WellFormed(o)
    ensures match ParseHeader(PrintObu(o) + tail)
      case None => false
      case Some(h) => h.obuType == o.obuType && h.size == |o.payload| && h.start + h.size == |PrintObu(o)|
  {
    var buf := PrintObu(o) + tail;
    var ext := match o.extension case None => [] case Some(e) => [e];
    var start := 1 + |ext|;
    HeaderBits(o);
    assert buf[start..] == WriteLeb(|o.payload|) + (o.payload + tail);
    LebRoundTrip(|o.payload|, o.payload + tail);
  }

  function PrintAll(os: seq<Obu>): bytes
    requires forall i :: 0 <= i < |os| ==> WellFormed(os[i])
    decreases |os|
  {
    if os == [] then [] else PrintObu(os[0]) + PrintAll(os[1..])
  }

  /** The sequence headers, of type 1, and the metadata, of type 5 (section 6.2.2 of the AV1 specification). */
  function HeadersOf(os: seq<Obu>): seq<Obu>
    decreases |os|
  {
    if os == [] then []
    else if os[0].obuType in {1, 5} then [os[0]] + HeadersOf(os[1..]) else HeadersOf(os[1..])
  }

  lemma {:induction false} HeadersWellFormed(os: seq<Obu>)
    requires forall i :: 0 <= i < |os| ==> WellFormed(os[i])
    ensures forall i :: 0 <= i < |HeadersOf(os)| ==> WellFormed(HeadersOf(os)[i])
    decreases |os|
  {
    if os == [] {
    } else {
      HeadersWellFormed(os[1..]);
    }
  }

  /**
   For well-formed units with size fields the packet output is the input, and the header output is the sequence header
   and metadata units, in order.
   */
  lemma {:induction false} ExtractionOfUnits(os: seq<Obu>)
    requires forall i :: 0 <= i < |os| ==> WellFormed(os[i])
    ensures forall i :: 0 <= i < |HeadersOf(os)| ==> WellFormed(HeadersOf(os)[i])
    ensures Extract(PrintAll(os)) == Some(Extracted(PrintAll(os), PrintAll(HeadersOf(os))))
    decreases |os|
  {
    HeadersWellFormed(os);
    if os == [] {
    } else {
      var s, n := PrintAll(os), |PrintObu(os[0])|;
      HeadersWellFormed(os[1..]);
      ExtractionOfUnits(os[1..]);
      PrintedObuParses(os[0], PrintAll(os[1..]));
      assert s[..n] == PrintObu(os[0]) && s[n..] == PrintAll(os[1..]);
    }
  }
}
