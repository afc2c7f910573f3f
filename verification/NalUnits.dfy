/**
 Splitting Annex B byte streams into NAL units: length-prefixed serialization, packet priority and header extraction
 (libobs/obs-avc.c, libobs/obs-hevc.c). The two codecs run the same loops and differ in how they read a unit's first
 byte.
 */
module NalUnits {
  import opened Bytes
  import opened StartCode

  datatype Codec = Avc | Hevc

  // ---------- Units of a packet ----------

  /** One unit: the start code, with any zero bytes before it, and the bytes up to the next start code. */
  datatype Unit = Unit(code: bytes, payload: bytes)
  {
    function Chunk(): bytes { code + payload }

    /** The byte the codecs look at; in an empty unit that is the zero byte the next start code begins with. */
    function First(): byte {
      if payload == [] then 0 else payload[0]
    }
  }

  /** Behind the first non-zero byte at or after `p`, or the end. */
  function SkipZeros(s: bytes, p: nat): (r: nat)
    requires p <= |s|
    ensures p <= r <= |s|
    ensures p < |s| ==> p < r
    decreases |s| - p
  {
    if p == |s| then p else if s[p] != 0 then p + 1 else SkipZeros(s, p + 1)
  }

  /** The units from the start code at `p` on. */
  function Units(s: bytes, p: nat): seq<Unit>
    requires p <= |s|
    decreases |s| - p
  {
    var start := SkipZeros(s, p);
    if start == |s| then []
    else
      var end := FindStartCode(s, start);
      [Unit(s[p..start], s[start..end])] + Units(s, end)
  }

  function UnitsOf(s: bytes): seq<Unit> {
    Units(s, FindStartCode(s, 0))
  }

  function Payloads(units: seq<Unit>): (r: seq<bytes>)
    ensures |r| == |units|
    decreases |units|
  {
    if units == [] then [] else [units[0].payload] + Payloads(units[1..])
  }

  /** The byte that is read at the start of a unit is its first byte. */
  lemma FirstByte(s: bytes, p: nat, start: nat)
    requires p <= start < |s|
    ensures Unit(s[p..start], s[start..FindStartCode(s, start)]).First() == s[start]
  {
  }

  /** The loop that every function below starts a unit with. */
  method SkipZeroBytes(s: bytes, p: nat) returns (r: nat)
    requires p <= |s|
    ensures r == SkipZeros(s, p)
  {
    r := p;
    while r < |s|
      invariant p <= r <= |s|
      invariant SkipZeros(s, p) == SkipZeros(s, r)
    {
      r := r + 1;
      if s[r - 1] != 0 {
        return;
      }
    }
  }

  // ---------- The annex B stream of a list of units ----------

  ghost predicate NoStartCode(u: bytes) {
    forall i :: 0 <= i < |u| - 2 ==> !(u[i] == 0 && u[i + 1] == 0 && u[i + 2] == 1)
  }

  /** A unit that can be told apart in a stream: not empty, no start code inside, last byte not zero. */
  ghost predicate Plain(u: bytes) {
    u != [] && u[|u| - 1] != 0 && NoStartCode(u)
  }

  ghost predicate AllPlain(us: seq<bytes>) {
    forall i :: 0 <= i < |us| ==> Plain(us[i])
  }

  function Code(long: bool): bytes {
    if long then [0, 0, 0, 1] else [0, 0, 1]
  }

  /** The units joined by start codes, `long[i]` telling whether the `i`-th code has four bytes. */
  ghost function AnnexB(us: seq<bytes>, long: seq<bool>): bytes
    requires |long| == |us|
    decreases |us|
  {
    if us == [] then [] else Code(long[0]) + us[0] + AnnexB(us[1..], long[1..])
  }

  /** What remains to be read of a stream: it is over, or it goes on with a start code and at least one more byte. */
  ghost predicate Continues(s: bytes, p: nat) {
    p <= |s| && (p == |s| || (IsStart(s, p) || (p + 4 < |s| && s[p] == 0 && IsStart(s, p + 1))))
  }

  /** The end of a plain unit is where the next start code is found. */
  lemma PlainUnitEnds(s: bytes, start: nat, u: bytes)
    requires start + |u| <= |s| && s[start..start + |u|] == u
    requires Plain(u) && Continues(s, start + |u|)
    ensures FindStartCode(s, start) == start + |u|
  {
    var e := start + |u|;
    assert forall i :: 0 <= i < |u| ==> s[start + i] == u[i];
    forall i | start <= i < e
      ensures !IsStart(s, i)
    {
      if i + 2 < e {
        assert !(u[i - start] == 0 && u[i - start + 1] == 0 && u[i - start + 2] == 1);
      }
      assert s[e - 1] == u[|u| - 1] != 0;
    }
    if e == |s| || IsStart(s, e) {
      FirstStartIs(s, start, e);
    } else {
      assert !IsStart(s, e);
      FirstStartIs(s, start, e + 1);
    }
  }

  lemma CodeSkipped(s: bytes, p: nat, long: bool)
    requires p + |Code(long)| <= |s| && s[p..p + |Code(long)|] == Code(long)
    ensures SkipZeros(s, p) == p + |Code(long)|
  {
    var c := Code(long);
    assert forall i :: 0 <= i < |c| ==> s[p + i] == c[i];
    assert s[p] == c[0] == 0 && s[p + 1] == c[1] == 0;
    assert SkipZeros(s, p) == SkipZeros(s, p + 1) == SkipZeros(s, p + 2);
    if long {
      assert s[p + 2] == c[2] == 0;
    }
    var one := p + |c| - 1;
    assert s[one] == c[|c| - 1] == 1;
    assert SkipZeros(s, p + 2) == SkipZeros(s, one);
    assert SkipZeros(s, one) == one + 1;
  }

  lemma AnnexBContinues(s: bytes, p: nat, us: seq<bytes>, long: seq<bool>)
    requires |long| == |us| && AllPlain(us)
    requires p <= |s| && s[p..] == AnnexB(us, long)
    ensures Continues(s, p)
  {
    if us != [] {
      var c, rest := Code(long[0]), AnnexB(us[1..], long[1..]);
      assert forall i :: 0 <= i < |c| ==> s[p + i] == s[p..][i] == c[i];
      assert |s[p..]| == |c| + |us[0]| + |rest|;
    }
  }

  lemma ThreeParts(s: bytes, p: nat, m: nat, n: nat, a: bytes, b: bytes, c: bytes)
    requires p <= |s| && s[p..] == a + b + c
    requires m == p + |a| && n == m + |b|
    ensures n <= |s| && s[p..m] == a && s[m..n] == b && s[n..] == c
  {
    var t := s[p..];
    assert t[..|a|] == a && t[|a|..|a| + |b|] == b && t[|a| + |b|..] == c;
  }

  /** The units as they come out of the joined stream, each with its start code. */
  ghost function Joined(us: seq<bytes>, long: seq<bool>): seq<Unit>
    requires |long| == |us|
    decreases |us|
  {
    if us == [] then [] else [Unit(Code(long[0]), us[0])] + Joined(us[1..], long[1..])
  }

  lemma UnitAt(s: bytes, p: nat, long: bool, u: bytes, start: nat, end: nat)
    requires start == p + |Code(long)| && end == start + |u| <= |s|
    requires s[p..start] == Code(long) && s[start..end] == u
    requires Plain(u) && Continues(s, end)
    ensures Units(s, p) == [Unit(Code(long), u)] + Units(s, end)
  {
    CodeSkipped(s, p, long);
    PlainUnitEnds(s, start, u);
  }

  /** The first unit of a joined stream, and what is left behind it. */
  lemma FirstUnitOfAnnexB(s: bytes, p: nat, start: nat, end: nat, us: seq<bytes>, long: seq<bool>)
    requires |long| == |us| > 0 && AllPlain(us)
    requires p <= |s| && s[p..] == AnnexB(us, long)
    requires start == p + |Code(long[0])| && end == start + |us[0]|
    ensures end <= |s|
    ensures s[end..] == AnnexB(us[1..], long[1..])
    ensures Units(s, p) == [Unit(Code(long[0]), us[0])] + Units(s, end)
  {
    ThreeParts(s, p, start, end, Code(long[0]), us[0], AnnexB(us[1..], long[1..]));
    AnnexBContinues(s, end, us[1..], long[1..]);
    UnitAt(s, p, long[0], us[0], start, end);
  }

  /** Splitting undoes joining, from any position of the stream on. */
  lemma {:induction false} UnitsOfAnnexB(s: bytes, p: nat, us: seq<bytes>, long: seq<bool>)
    requires |long| == |us| && AllPlain(us)
    requires p <= |s| && s[p..] == AnnexB(us, long)
    ensures Units(s, p) == Joined(us, long)
    decreases |us|
  {
    if us == [] {
    } else {
      var start := p + |Code(long[0])|;
      var end := start + |us[0]|;
      FirstUnitOfAnnexB(s, p, start, end, us, long);
      UnitsOfAnnexB(s, end, us[1..], long[1..]);
    }
  }

  lemma {:induction false} PayloadsOfJoined(us: seq<bytes>, long: seq<bool>)
    requires |long| == |us|
    ensures Payloads(Joined(us, long)) == us
    decreases |us|
  {
    if us == [] {
    } else {
      PayloadsOfJoined(us[1..], long[1..]);
      assert Joined(us, long)[1..] == Joined(us[1..], long[1..]);
    }
  }

  /**
   Reading an Annex B stream gives back the units it was joined from, whatever mix of three- and four-byte start codes
   separates them (Annex B of ITU-T H.264 and of ITU-T H.265).
   */
  lemma AnnexBRoundTrip(us: seq<bytes>, long: seq<bool>)
    requires |long| == |us| && AllPlain(us)
    ensures UnitsOf(AnnexB(us, long)) == Joined(us, long)
    ensures Payloads(UnitsOf(AnnexB(us, long))) == us
  {
    var s := AnnexB(us, long);
    assert s[0..] == s;
    AnnexBContinues(s, 0, us, long);
    if us == [] {
    } else if IsStart(s, 0) {
      FirstStartIs(s, 0, 0);
    } else {
      FirstStartIs(s, 0, 1);
    }
    UnitsOfAnnexB(s, 0, us, long);
    PayloadsOfJoined(us, long);
  }

  // ---------- Length-prefixed serialization ----------

  const TWO_32: nat := 0x1_0000_0000

  function BigEndian16(n: nat): (r: bytes)
    ensures |r| == 2
  {
    [n / 0x100 % 0x100, n % 0x100]
  }

  /** `s_wb32` of a size that is cut down to 32 bits. */
  function BigEndian32(n: nat): (r: bytes)
    ensures |r| == 4
  {
    BigEndian16(n / 0x1_0000) + BigEndian16(n)
  }

  function FromBigEndian16(b: bytes): nat
    requires |b| == 2
  {
    var high: int, low: int := b[0], b[1];
    high * 0x100 + low
  }

  function FromBigEndian32(b: bytes): nat
    requires |b| == 4
  {
    FromBigEndian16(b[..2]) * 0x1_0000 + FromBigEndian16(b[2..])
  }

  lemma BigEndian16RoundTrip(n: nat)
    ensures FromBigEndian16(BigEndian16(n)) == n % 0x1_0000
  {
  }

  /** The most significant byte comes first. */
  lemma MostSignificantFirst()
    ensures BigEndian16(0x0102) == [1, 2] && BigEndian32(0x0102_0304) == [1, 2, 3, 4]
  {
    assert BigEndian16(0x0102) == [1, 2] && BigEndian16(0x0102_0304) == [3, 4];
  }

  lemma BigEndianRoundTrip(n: nat)
    ensures FromBigEndian32(BigEndian32(n)) == n % TWO_32
  {
    BigEndian16RoundTrip(n / 0x1_0000);
    BigEndian16RoundTrip(n);
    var b := BigEndian32(n);
    assert b[..2] == BigEndian16(n / 0x1_0000) && b[2..] == BigEndian16(n);
  }

  function LengthPrefixed(us: seq<bytes>): bytes
    decreases |us|
  {
    if us == [] then [] else BigEndian32(|us[0]|) + us[0] + LengthPrefixed(us[1..])
  }

  /** What a reader of length-prefixed units gets out of them. */
  function ReadUnits(b: bytes): Option<seq<bytes>>
    decreases |b|
  {
    if b == [] then Some([])
    else if |b| < 4 || |b| < 4 + FromBigEndian32(b[..4]) then None
    else
      var n := FromBigEndian32(b[..4]);
      match ReadUnits(b[4 + n..])
      case None => None
      case Some(rest) => Some([b[4..4 + n]] + rest)
  }

  lemma ReadFirst(b: bytes, u: bytes, rest: bytes)
    requires |u| < TWO_32 && b == BigEndian32(|u|) + u + rest
    ensures ReadUnits(rest).Some? ==> ReadUnits(b) == Some([u] + ReadUnits(rest).value)
  {
    BigEndianRoundTrip(|u|);
    ReadBehindHead(b, BigEndian32(|u|), u, rest);
  }

  lemma ReadBehindHead(b: bytes, head: bytes, u: bytes, rest: bytes)
    requires |head| == 4 && FromBigEndian32(head) == |u|
    requires b == head + u + rest
    ensures ReadUnits(rest).Some? ==> ReadUnits(b) == Some([u] + ReadUnits(rest).value)
  {
    assert b[..4] == head;
    assert b[4..4 + |u|] == u;
    assert b[4 + |u|..] == rest;
  }

  lemma {:induction false} LengthPrefixRoundTrip(us: seq<bytes>)
    requires forall i :: 0 <= i < |us| ==> |us[i]| < TWO_32
    ensures ReadUnits(LengthPrefixed(us)) == Some(us)
    decreases |us|
  {
    if us == [] {
    } else {
      LengthPrefixRoundTrip(us[1..]);
      ReadFirst(LengthPrefixed(us), us[0], LengthPrefixed(us[1..]));
      assert us == [us[0]] + us[1..];
    }
  }

  // ---------- Priorities ----------

  const PRIORITY_HIGH: int := 2
  const PRIORITY_HIGHEST: int := 3

  function NalType(codec: Codec, first: byte): nat {
    match codec
    case Avc => first % 32
    case Hevc => first % 128 / 2
  }

  predicate IsKeyframe(codec: Codec, first: byte) {
    match codec
    case Avc => NalType(codec, first) == 5
    case Hevc => 16 <= NalType(codec, first) <= 23
  }

  /** `compute_avc_keyframe_priority` and `compute_hevc_keyframe_priority` */
  function NextPriority(codec: Codec, first: byte, priority: int): int {
    match codec
    case Avc => if priority < first / 32 then first / 32 else priority
    case Hevc =>
      if IsKeyframe(codec, first) then PRIORITY_HIGHEST
      else if NalType(codec, first) <= 9 && priority < PRIORITY_HIGH then PRIORITY_HIGH
      else priority
  }

  function FoldPriority(codec: Codec, units: seq<Unit>, priority: int): int
    decreases |units|
  {
    if units == [] then priority
    else FoldPriority(codec, units[1..], NextPriority(codec, units[0].First(), priority))
  }

  ghost predicate AnyKeyframe(codec: Codec, units: seq<Unit>) {
    exists i :: 0 <= i < |units| && IsKeyframe(codec, units[i].First())
  }

  /** An AVC packet's priority is the largest reference indicator among its units, if that exceeds what it was
      before. */
  lemma {:induction false} AvcPriorityIsMaximum(units: seq<Unit>, priority: int)
    ensures var r := FoldPriority(Avc, units, priority);
      && priority <= r
      && (forall i :: 0 <= i < |units| ==> units[i].First() / 32 <= r)
      && (r == priority || exists i :: 0 <= i < |units| && r == units[i].First() / 32)
    decreases |units|
  {
    if units == [] {
    } else {
      AvcPriorityIsMaximum(units[1..], NextPriority(Avc, units[0].First(), priority));
      assert forall i :: 1 <= i < |units| ==> units[i] == units[1..][i - 1];
    }
  }

  ghost predicate AnySlice(units: seq<Unit>) {
    exists i :: 0 <= i < |units| && NalType(Hevc, units[i].First()) <= 9
  }

  /** An HEVC packet with a random access picture gets the highest priority, one with another slice at least a high
      one. */
  lemma {:induction false} HevcPriorityByContent(units: seq<Unit>, priority: int)
    requires priority <= PRIORITY_HIGHEST
    ensures FoldPriority(Hevc, units, priority) ==
      if AnyKeyframe(Hevc, units) then PRIORITY_HIGHEST
      else if AnySlice(units) && priority < PRIORITY_HIGH then PRIORITY_HIGH
      else priority
    decreases |units|
  {
    if units == [] {
    } else {
      HevcPriorityByContent(units[1..], NextPriority(Hevc, units[0].First(), priority));
      assert forall i :: 1 <= i < |units| ==> units[i] == units[1..][i - 1];
      assert forall i :: 0 <= i < |units| - 1 ==> units[1..][i] == units[i + 1];
    }
  }

  /** What the serializer has written and found out. */
  datatype Serialized = Serialized(output: bytes, keyframe: bool, priority: int)

  function SerializeUnit(codec: Codec, acc: Serialized, u: Unit): Serialized {
    Serialized(acc.output + BigEndian32(|u.payload|) + u.payload,
               acc.keyframe || IsKeyframe(codec, u.First()),
               NextPriority(codec, u.First(), acc.priority))
  }

  function SerializeUnits(codec: Codec, acc: Serialized, units: seq<Unit>): Serialized
    decreases |units|
  {
    if units == [] then acc else SerializeUnits(codec, SerializeUnit(codec, acc, units[0]), units[1..])
  }

  /** The serializer's three results, each said on its own. */
  lemma {:induction false} SerializeUnitsMeans(codec: Codec, acc: Serialized, units: seq<Unit>)
    ensures var r := SerializeUnits(codec, acc, units);
      && r.output == acc.output + LengthPrefixed(Payloads(units))
      && r.keyframe == (acc.keyframe || AnyKeyframe(codec, units))
      && r.priority == FoldPriority(codec, units, acc.priority)
    decreases |units|
  {
    if units == [] {
    } else {
      var rest := units[1..];
      SerializeUnitsMeans(codec, SerializeUnit(codec, acc, units[0]), rest);
      KeyframeCons(codec, units);
      OutputStep(acc.output, units);
    }
  }

  lemma OutputStep(output: bytes, units: seq<Unit>)
    requires units != []
    ensures var u := units[0];
      (output + BigEndian32(|u.payload|) + u.payload) + LengthPrefixed(Payloads(units[1..]))
      == output + LengthPrefixed(Payloads(units))
  {
    assert Payloads(units)[1..] == Payloads(units[1..]);
    Reassociated(output, BigEndian32(|units[0].payload|), units[0].payload, LengthPrefixed(Payloads(units[1..])));
  }

  lemma Reassociated(a: bytes, b: bytes, c: bytes, d: bytes)
    ensures (a + b + c) + d == a + (b + c + d)
  {
  }

  lemma KeyframeCons(codec: Codec, units: seq<Unit>)
    requires units != []
    ensures AnyKeyframe(codec, units) <==> IsKeyframe(codec, units[0].First()) || AnyKeyframe(codec, units[1..])
  {
    assert forall i :: 1 <= i < |units| ==> units[i] == units[1..][i - 1];
    assert forall i :: 0 <= i < |units| - 1 ==> units[1..][i] == units[i + 1];
  }

  /** One turn of the serializer's loop. */
  lemma SerializeTurn(codec: Codec, acc: Serialized, s: bytes, p: nat)
    requires p <= |s| && SkipZeros(s, p) < |s|
    ensures var start := SkipZeros(s, p);
      var end := FindStartCode(s, start);
      SerializeUnits(codec, acc, Units(s, p)) ==
      SerializeUnits(codec, Serialized(acc.output + BigEndian32(end - start) + s[start..end],
                                       acc.keyframe || IsKeyframe(codec, s[start]),
                                       NextPriority(codec, s[start], acc.priority)), Units(s, end))
  {
    FirstByte(s, p, SkipZeros(s, p));
    UnitsUnfold(s, p);
  }

  lemma UnitsUnfold(s: bytes, p: nat)
    requires p <= |s| && SkipZeros(s, p) < |s|
    ensures var start := SkipZeros(s, p);
      var end := FindStartCode(s, start);
      && Units(s, p) != []
      && Units(s, p)[0] == Unit(s[p..start], s[start..end])
      && Units(s, p)[1..] == Units(s, end)
  {
  }

  /** `serialize_avc_data` and `serialize_hevc_data`: the packet's units with their lengths in front, its keyframe flag
      and its priority, in one pass. */
  method SerializeData(codec: Codec, s: bytes, address: nat, wasKeyframe: bool, wasPriority: int)
    returns (output: bytes, keyframe: bool, priority: int)
    ensures output == LengthPrefixed(Payloads(UnitsOf(s)))
    ensures keyframe <==> wasKeyframe || AnyKeyframe(codec, UnitsOf(s))
    ensures priority == FoldPriority(codec, UnitsOf(s), wasPriority)
  {
    SerializeUnitsMeans(codec, Serialized([], wasKeyframe, wasPriority), UnitsOf(s));
    output, keyframe, priority := SerializeLoop(codec, s, address, wasKeyframe, wasPriority);
  }

  method SerializeLoop(codec: Codec, s: bytes, address: nat, wasKeyframe: bool, wasPriority: int)
    returns (output: bytes, keyframe: bool, priority: int)
    ensures Serialized(output, keyframe, priority)
         == SerializeUnits(codec, Serialized([], wasKeyframe, wasPriority), UnitsOf(s))
  {
    output, keyframe, priority := [], wasKeyframe, wasPriority;
    var nalStart := Find(s, 0, address % 4);
    ghost var all := SerializeUnits(codec, Serialized([], wasKeyframe, wasPriority), UnitsOf(s));
    while true
      invariant nalStart <= |s|
      invariant SerializeUnits(codec, Serialized(output, keyframe, priority), Units(s, nalStart)) == all
      decreases |s| - nalStart
    {
      ghost var codeStart := nalStart;
      nalStart := SkipZeroBytes(s, nalStart);
      if nalStart == |s| {
        return;
      }
      SerializeTurn(codec, Serialized(output, keyframe, priority), s, codeStart);
      keyframe := keyframe || IsKeyframe(codec, s[nalStart]);
      priority := NextPriority(codec, s[nalStart], priority);
      var nalEnd := Find(s, nalStart, (address + nalStart) % 4);
      output := WriteUnit(output, s[nalStart..nalEnd]);
      nalStart := nalEnd;
    }
  }

  method WriteUnit(output: bytes, unit: bytes) returns (r: bytes)
    ensures r == output + BigEndian32(|unit|) + unit
  {
    r := output + BigEndian32(|unit|);
    r := r + unit;
  }

  /** `obs_parse_avc_packet_priority` and `obs_parse_hevc_packet_priority`: the scan agrees with the serializer's
      fold. */
  method ParsePacketPriority(codec: Codec, s: bytes, address: nat, wasPriority: int) returns (priority: int)
    ensures priority == FoldPriority(codec, UnitsOf(s), wasPriority)
  {
    priority := wasPriority;
    var nalStart := Find(s, 0, address % 4);
    while true
      invariant nalStart <= |s|
      invariant FoldPriority(codec, UnitsOf(s), wasPriority) == FoldPriority(codec, Units(s, nalStart), priority)
      decreases |s| - nalStart
    {
      ghost var codeStart := nalStart;
      nalStart := SkipZeroBytes(s, nalStart);
      if nalStart == |s| {
        return;
      }
      FirstByte(s, codeStart, nalStart);
      priority := NextPriority(codec, s[nalStart], priority);
      nalStart := Find(s, nalStart, (address + nalStart) % 4);
    }
  }

  /**
   Annex B to length-prefixed and back: for plain units joined by any mix of start codes, reading what the serializer
   writes returns the same units.
   */
  lemma SerializedRoundTrip(us: seq<bytes>, long: seq<bool>)
    requires |long| == |us| && AllPlain(us)
    requires forall i :: 0 <= i < |us| ==> |us[i]| < TWO_32
    ensures ReadUnits(LengthPrefixed(Payloads(UnitsOf(AnnexB(us, long))))) == Some(us)
  {
    AnnexBRoundTrip(us, long);
    LengthPrefixRoundTrip(us);
  }

  // ---------- Header extraction ----------

  datatype Class = PacketData | Header | Sei

  function Classify(codec: Codec, first: byte): Class {
    var t := NalType(codec, first);
    match codec
    case Avc => if t == 7 || t == 8 then Header else if t == 6 then Sei else PacketData
    case Hevc => if t == 32 || t == 33 || t == 34 then Header else if t == 39 || t == 40 then Sei else PacketData
  }

  function Chunks(units: seq<Unit>): (r: seq<bytes>)
    ensures |r| == |units|
    decreases |units|
  {
    if units == [] then [] else [units[0].Chunk()] + Chunks(units[1..])
  }

  function ClassOf(codec: Codec, u: Unit): Class { Classify(codec, u.First()) }

  /** The units of one class, in order. */
  function Select(codec: Codec, units: seq<Unit>, c: Class): seq<Unit>
    decreases |units|
  {
    if units == [] then []
    else if ClassOf(codec, units[0]) == c then [units[0]] + Select(codec, units[1..], c)
    else Select(codec, units[1..], c)
  }

  /** The three outputs as they grow. */
  datatype Extracted = Extracted(packet: bytes, header: bytes, sei: bytes)

  function ExtractUnit(codec: Codec, acc: Extracted, u: Unit): Extracted {
    match ClassOf(codec, u)
    case Header => acc.(header := acc.header + u.Chunk())
    case Sei => acc.(sei := acc.sei + u.Chunk())
    case PacketData => acc.(packet := acc.packet + u.Chunk())
  }

  function ExtractUnits(codec: Codec, acc: Extracted, units: seq<Unit>): Extracted
    decreases |units|
  {
    if units == [] then acc else ExtractUnits(codec, ExtractUnit(codec, acc, units[0]), units[1..])
  }

  function Join(units: seq<Unit>): bytes { Flatten(Chunks(units)) }

  lemma JoinCons(acc: bytes, u: Unit, units: seq<Unit>)
    ensures acc + Join([u] + units) == (acc + u.Chunk()) + Join(units)
  {
    assert ([u] + units)[1..] == units;
    assert Chunks([u] + units)[1..] == Chunks(units);
  }

  /** Each output is the units of its class with their start codes, in order. */
  lemma {:induction false} ExtractUnitsMeans(codec: Codec, acc: Extracted, units: seq<Unit>)
    ensures var r := ExtractUnits(codec, acc, units);
      && r.packet == acc.packet + Join(Select(codec, units, PacketData))
      && r.header == acc.header + Join(Select(codec, units, Header))
      && r.sei == acc.sei + Join(Select(codec, units, Sei))
    decreases |units|
  {
    if units == [] {
    } else {
      var u, rest := units[0], units[1..];
      ExtractUnitsMeans(codec, ExtractUnit(codec, acc, u), rest);
      match ClassOf(codec, u)
      case PacketData => JoinCons(acc.packet, u, Select(codec, rest, PacketData));
      case Header => JoinCons(acc.header, u, Select(codec, rest, Header));
      case Sei => JoinCons(acc.sei, u, Select(codec, rest, Sei));
    }
  }

  /** One turn of the extraction's loop. */
  lemma ExtractTurn(codec: Codec, acc: Extracted, s: bytes, p: nat)
    requires p <= |s| && SkipZeros(s, p) < |s|
    ensures var start := SkipZeros(s, p);
      var end := FindStartCode(s, start);
      var next := match Classify(codec, s[start])
        case Header => acc.(header := acc.header + s[p..end])
        case Sei => acc.(sei := acc.sei + s[p..end])
        case PacketData => acc.(packet := acc.packet + s[p..end]);
      ExtractUnits(codec, acc, Units(s, p)) == ExtractUnits(codec, next, Units(s, end))
  {
    var start := SkipZeros(s, p);
    var end := FindStartCode(s, start);
    FirstByte(s, p, start);
    UnitsUnfold(s, p);
    assert s[p..start] + s[start..end] == s[p..end];
  }

  /** `obs_extract_avc_headers` and `obs_extract_hevc_headers` */
  method ExtractHeaders(codec: Codec, s: bytes, address: nat) returns (packet: bytes, header: bytes, sei: bytes)
    ensures packet == Join(Select(codec, UnitsOf(s), PacketData))
    ensures header == Join(Select(codec, UnitsOf(s), Header))
    ensures sei == Join(Select(codec, UnitsOf(s), Sei))
  {
    packet, header, sei := [], [], [];
    var nalStart := Find(s, 0, address % 4);
    var nalEnd: Option<nat> := None;
    ghost var all := ExtractUnits(codec, Extracted([], [], []), UnitsOf(s));
    ExtractUnitsMeans(codec, Extracted([], [], []), UnitsOf(s));
    while nalEnd != Some(|s|)
      invariant nalStart <= |s|
      invariant nalEnd.Some? ==> nalStart == nalEnd.value
      invariant ExtractUnits(codec, Extracted(packet, header, sei), Units(s, nalStart)) == all
      decreases |s| - nalStart, if nalEnd.None? then 1 else 0
    {
      var nalCodestart := nalStart;
      nalStart := SkipZeroBytes(s, nalStart);
      if nalStart == |s| {
        break;
      }
      ExtractTurn(codec, Extracted(packet, header, sei), s, nalCodestart);
      var kind := Classify(codec, s[nalStart]);
      var end := Find(s, nalStart, (address + nalStart) % 4);
      nalEnd := Some(end);
      if kind == Header {
        header := header + s[nalCodestart..end];
      } else if kind == Sei {
        sei := sei + s[nalCodestart..end];
      } else {
        packet := packet + s[nalCodestart..end];
      }
      nalStart := end;
    }
  }

  /** Taking the next chunk from the output its class names, over and over. */
  function Merge(classes: seq<Class>, packet: seq<bytes>, header: seq<bytes>, sei: seq<bytes>): Option<bytes>
    decreases |classes|
  {
    if classes == [] then (if packet == [] && header == [] && sei == [] then Some([]) else None)
    else
      var from := match classes[0] case PacketData => packet case Header => header case Sei => sei;
      if from == [] then None
      else
        var rest := match classes[0]
          case PacketData => Merge(classes[1..], packet[1..], header, sei)
          case Header => Merge(classes[1..], packet, header[1..], sei)
          case Sei => Merge(classes[1..], packet, header, sei[1..]);
        match rest case None => None case Some(bytes) => Some(from[0] + bytes)
  }

  function Classes(codec: Codec, units: seq<Unit>): (r: seq<Class>)
    ensures |r| == |units|
    decreases |units|
  {
    if units == [] then [] else [ClassOf(codec, units[0])] + Classes(codec, units[1..])
  }

  lemma {:induction false} MergeUndoesSelect(codec: Codec, units: seq<Unit>)
    ensures Merge(Classes(codec, units), Chunks(Select(codec, units, PacketData)),
                  Chunks(Select(codec, units, Header)), Chunks(Select(codec, units, Sei))) == Some(Join(units))
    decreases |units|
  {
    if units == [] {
    } else {
      var rest := units[1..];
      MergeUndoesSelect(codec, rest);
      assert Classes(codec, units)[1..] == Classes(codec, rest);
      ChunksSelected(codec, units, PacketData);
      ChunksSelected(codec, units, Header);
      ChunksSelected(codec, units, Sei);
      MergeFirst(Classes(codec, units), Chunks(Select(codec, rest, PacketData)), Chunks(Select(codec, rest, Header)),
                 Chunks(Select(codec, rest, Sei)), units[0].Chunk(), Join(rest));
      JoinCons([], units[0], rest);
      assert [units[0]] + rest == units;
      assert [] + Join(units) == Join(units) && [] + units[0].Chunk() == units[0].Chunk();
    }
  }

  lemma ChunksSelected(codec: Codec, units: seq<Unit>, c: Class)
    requires units != []
    ensures Chunks(Select(codec, units, c)) ==
      (if ClassOf(codec, units[0]) == c then [units[0].Chunk()] else []) + Chunks(Select(codec, units[1..], c))
  {
    var rest := Select(codec, units[1..], c);
    if ClassOf(codec, units[0]) == c {
      assert ([units[0]] + rest)[1..] == rest;
    } else {
      assert [] + Chunks(rest) == Chunks(rest);
    }
  }

  /** The first class tells which output the first chunk is on. */
  lemma MergeFirst(classes: seq<Class>, packet: seq<bytes>, header: seq<bytes>, sei: seq<bytes>, chunk: bytes,
                   all: bytes)
    requires classes != [] && Merge(classes[1..], packet, header, sei) == Some(all)
    ensures Merge(classes, (if PacketData == classes[0] then [chunk] else []) + packet,
                  (if Header == classes[0] then [chunk] else []) + header,
                  (if Sei == classes[0] then [chunk] else []) + sei) == Some(chunk + all)
  {
    assert [] + packet == packet && [] + header == header && [] + sei == sei;
    assert ([chunk] + packet)[1..] == packet && ([chunk] + header)[1..] == header && ([chunk] + sei)[1..] == sei;
  }

  ghost predicate AtStartCode(s: bytes, p: nat) {
    p < |s| && (IsStart(s, p) || (s[p] == 0 && IsStart(s, p + 1)))
  }

  lemma StartCodeSkipped(s: bytes, p: nat)
    requires AtStartCode(s, p)
    ensures SkipZeros(s, p) < |s|
  {
    var i := if IsStart(s, p) then p else p + 1;
    assert SkipZeros(s, p) == SkipZeros(s, i);
    assert SkipZeros(s, i) == SkipZeros(s, i + 1) == SkipZeros(s, i + 2) == i + 3;
  }

  lemma FoundStartCode(s: bytes, p: nat)
    requires p <= |s|
    ensures FindStartCode(s, p) == |s| || AtStartCode(s, FindStartCode(s, p))
  {
  }

  /** The units from a found start code on cover every byte up to the end. */
  lemma {:induction false} UnitsCover(s: bytes, p: nat)
    requires p == |s| || AtStartCode(s, p)
    ensures Join(Units(s, p)) == s[p..]
    decreases |s| - p
  {
    if p == |s| {
    } else {
      var start := SkipZeros(s, p);
      StartCodeSkipped(s, p);
      var end := FindStartCode(s, start);
      FoundStartCode(s, start);
      UnitsCover(s, end);
      UnitCovers(s, p, start, end, Units(s, end));
    }
  }

  lemma UnitCovers(s: bytes, p: nat, start: nat, end: nat, rest: seq<Unit>)
    requires p <= start <= end <= |s| && Join(rest) == s[end..]
    ensures Join([Unit(s[p..start], s[start..end])] + rest) == s[p..]
  {
    var u := Unit(s[p..start], s[start..end]);
    JoinCons([], u, rest);
    assert [] + Join([u] + rest) == Join([u] + rest);
    SliceInThree(s, p, start, end);
  }

  lemma SliceInThree(s: bytes, p: nat, m: nat, n: nat)
    requires p <= m <= n <= |s|
    ensures s[p..] == ([] + (s[p..m] + s[m..n])) + s[n..]
  {
  }

  /**
   Header extraction partitions the packet. Whatever the bytes are, every unit goes with its start code to exactly one
   of the three outputs, and merging the outputs back in the order of the units' classes gives the packet from its first
   start code on.
   */
  lemma ExtractionPartitions(codec: Codec, s: bytes)
    ensures var units := UnitsOf(s);
      Merge(Classes(codec, units), Chunks(Select(codec, units, PacketData)),
            Chunks(Select(codec, units, Header)), Chunks(Select(codec, units, Sei)))
        == Some(s[FindStartCode(s, 0)..])
  {
    MergeUndoesSelect(codec, UnitsOf(s));
    FoundStartCode(s, 0);
    UnitsCover(s, FindStartCode(s, 0));
  }
}
