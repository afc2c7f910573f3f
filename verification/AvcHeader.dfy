/**
 Building the AVC decoder configuration record from Annex B extradata (libobs/obs-avc.c), down to the chroma format and
 bit depths that it takes from the sequence parameter set.
 */
module AvcHeader {
  import opened Bytes
  import opened StartCode
  import opened NalUnits
  import opened SpsReader

  // ---------- Sequence parameter set fields ----------

  /** The chroma format and the two bit depths. */
  datatype HighParams = HighParams(chroma: byte, luma: byte, chromaDepth: byte)

  /** `get_sps_high_params` on the payload's bits: 24 bits and the identifier are skipped. */
  function ParamsOf(b: seq<bool>): HighParams {
    ChromaOn(Ue(BitsFrom(b, 24, 0).1).1)
  }

  /** The chroma format, behind which a flag is skipped in the 4:4:4 case. */
  function ChromaOn(b: seq<bool>): HighParams {
    var (chroma, rest) := Ue(b);
    DepthsOn(chroma, SkipFlag(chroma, rest))
  }

  function SkipFlag(chroma: byte, b: seq<bool>): seq<bool> {
    if chroma == 3 then BitsFrom(b, 1, 0).1 else b
  }

  function DepthsOn(chroma: byte, b: seq<bool>): HighParams {
    var (luma, rest) := Ue(b);
    HighParams(chroma, luma, Ue(rest).0)
  }

  lemma {:induction false} SkipBits(bits: seq<bool>, tail: seq<bool>, acc: byte)
    ensures BitsFrom(bits + tail, |bits|, acc).1 == tail
    decreases |bits|
  {
    if bits == [] {
      assert bits + tail == tail;
    } else {
      assert bits + tail == [bits[0]] + (bits[1..] + tail);
      FirstBit(bits[0], bits[1..] + tail);
      SkipBits(bits[1..], tail, ShiftIn(acc, Head(bits + tail)));
    }
  }

  /** One code read off the front of a longer string of fields. */
  lemma UeThenRest(v: nat, more: seq<bool>, tail: seq<bool>)
    requires Log2(v + 1) < 32
    ensures Ue((UeBits(v) + more) + tail) == (v % 256, more + tail)
    ensures v <= 255 ==> v % 256 == v
  {
    assert (UeBits(v) + more) + tail == UeBits(v) + (more + tail);
    UeRoundTrip(v, more + tail);
  }

  lemma SkipThenRest(bits: seq<bool>, more: seq<bool>, tail: seq<bool>)
    ensures BitsFrom((bits + more) + tail, |bits|, 0).1 == more + tail
  {
    assert (bits + more) + tail == bits + (more + tail);
    SkipBits(bits, more + tail, 0);
  }

  lemma SmallLog(v: nat)
    requires v <= 255
    ensures Log2(v + 1) < 32
  {
    if Log2(v + 1) >= 32 {
      PowGrows(Log2(v + 1));
    }
  }

  lemma {:induction false} PowGrows(n: nat)
    requires n >= 32
    ensures Pow2(n) > 256
    decreases n
  {
    if n == 32 {
      assert Pow2(32) == 2 * Pow2(31) && Pow2(31) == 2 * Pow2(30) && Pow2(30) == 2 * Pow2(29);
      assert Pow2(29) == 2 * Pow2(28) && Pow2(28) == 2 * Pow2(27) && Pow2(27) == 2 * Pow2(26);
      assert Pow2(26) == 2 * Pow2(25) && Pow2(25) == 2 * Pow2(24) && Pow2(24) == 2 * Pow2(23);
    } else {
      PowGrows(n - 1);
    }
  }

  ghost function DepthBits(luma: nat, chromaDepth: nat): seq<bool> { UeBits(luma) + UeBits(chromaDepth) }

  ghost function ChromaBits(chroma: nat, plane: bool, luma: nat, chromaDepth: nat): seq<bool> {
    UeBits(chroma) + (FlagBits(chroma, plane) + DepthBits(luma, chromaDepth))
  }

  ghost function FlagBits(chroma: nat, plane: bool): seq<bool> {
    if chroma == 3 then [plane] else []
  }

  /** The bits an encoder writes at the start of a sequence parameter set (section 7.3.2.1.1 of ITU-T H.264). */
  ghost function SpsBits(profile: seq<bool>, id: nat, chroma: nat, plane: bool, luma: nat, chromaDepth: nat)
    : seq<bool>
  {
    profile + (UeBits(id) + ChromaBits(chroma, plane, luma, chromaDepth))
  }

  lemma DepthsRead(chroma: byte, luma: byte, chromaDepth: byte, tail: seq<bool>)
    ensures DepthsOn(chroma, DepthBits(luma, chromaDepth) + tail) == HighParams(chroma, luma, chromaDepth)
  {
    SmallLog(luma);
    SmallLog(chromaDepth);
    UeThenRest(luma, UeBits(chromaDepth), tail);
    UeRoundTrip(chromaDepth, tail);
    DepthsOnIs(chroma, DepthBits(luma, chromaDepth) + tail, luma, UeBits(chromaDepth) + tail, chromaDepth, tail);
  }

  lemma DepthsOnIs(chroma: byte, b: seq<bool>, luma: byte, rest: seq<bool>, chromaDepth: byte, tail: seq<bool>)
    requires Ue(b) == (luma, rest) && Ue(rest) == (chromaDepth, tail)
    ensures DepthsOn(chroma, b) == HighParams(chroma, luma, chromaDepth)
  {
  }

  lemma FlagSkipped(chroma: byte, plane: bool, depths: seq<bool>, tail: seq<bool>)
    ensures SkipFlag(chroma, (FlagBits(chroma, plane) + depths) + tail) == depths + tail
  {
    if chroma == 3 {
      SkipThenRest([plane], depths, tail);
    } else {
      assert [] + depths == depths;
    }
  }

  lemma ChromaRead(chroma: byte, plane: bool, luma: byte, chromaDepth: byte, tail: seq<bool>)
    ensures ChromaOn(ChromaBits(chroma, plane, luma, chromaDepth) + tail) == HighParams(chroma, luma, chromaDepth)
  {
    var depths := DepthBits(luma, chromaDepth);
    var flag := FlagBits(chroma, plane);
    SmallLog(chroma);
    UeThenRest(chroma, flag + depths, tail);
    FlagSkipped(chroma, plane, depths, tail);
    DepthsRead(chroma, luma, chromaDepth, tail);
    ChromaOnIs((UeBits(chroma) + (flag + depths)) + tail, chroma, (flag + depths) + tail, depths + tail,
               HighParams(chroma, luma, chromaDepth));
  }

  lemma ChromaOnIs(b: seq<bool>, chroma: byte, rest: seq<bool>, depths: seq<bool>, r: HighParams)
    requires Ue(b) == (chroma, rest) && SkipFlag(chroma, rest) == depths && DepthsOn(chroma, depths) == r
    ensures ChromaOn(b) == r
  {
  }

  /** The fields an encoder wrote are the fields recovered, whatever comes after them. */
  lemma ParamsRoundTrip(profile: seq<bool>, id: nat, chroma: byte, plane: bool, luma: byte, chromaDepth: byte,
                        tail: seq<bool>)
    requires |profile| == 24 && Log2(id + 1) < 32
    ensures ParamsOf(SpsBits(profile, id, chroma, plane, luma, chromaDepth) + tail)
         == HighParams(chroma, luma, chromaDepth)
  {
    var more := ChromaBits(chroma, plane, luma, chromaDepth);
    SkipThenRest(profile, UeBits(id) + more, tail);
    UeThenRest(id, more, tail);
    ChromaRead(chroma, plane, luma, chromaDepth, tail);
  }

  lemma Appended(a: bytes, b: bytes, c: bytes)
    ensures a + (b + c) == a + b + c
  {
  }

  lemma UnescapeStep(s: bytes, i: nat, done: bytes)
    requires i + 2 < |s|
    ensures done + Unescape(s[i..]) ==
      if s[i] == 0 && s[i + 1] == 0 && s[i + 2] == 3
      then done + [s[i]] + [s[i + 1]] + Unescape(s[i + 3..])
      else done + [s[i]] + Unescape(s[i + 1..])
  {
    var rest := s[i..];
    assert rest[3..] == s[i + 3..] && rest[1..] == s[i + 1..];
    if s[i] == 0 && s[i + 1] == 0 && s[i + 2] == 3 {
      Appended(done, [0, 0], Unescape(s[i + 3..]));
      assert done + [0] + [0] == done + [0, 0];
    } else {
      Appended(done, [s[i]], Unescape(s[i + 1..]));
    }
  }

  /** The loop that takes the emulation prevention bytes out. */
  method ExtractRbsp(sps: bytes) returns (rbsp: bytes)
    ensures rbsp == Unescape(sps)
  {
    rbsp := [];
    var i := 0;
    ghost var all := Unescape(sps);
    assert sps[0..] == sps;
    while i + 2 < |sps|
      invariant 0 <= i <= |sps|
      invariant rbsp + Unescape(sps[i..]) == all
    {
      UnescapeStep(sps, i, rbsp);
      if sps[i] == 0 && sps[i + 1] == 0 && sps[i + 2] == 3 {
        rbsp := rbsp + [sps[i]];
        rbsp := rbsp + [sps[i + 1]];
        i := i + 3;
      } else {
        rbsp := rbsp + [sps[i]];
        i := i + 1;
      }
    }
    rbsp := CopyRest(sps, i, rbsp);
  }

  /** The loop that copies what is too short to hold another emulation prevention byte. */
  method CopyRest(sps: bytes, start: nat, done: bytes) returns (rbsp: bytes)
    requires start <= |sps|
    ensures rbsp == done + sps[start..]
  {
    rbsp := done;
    var i := start;
    while i < |sps|
      invariant start <= i <= |sps|
      invariant rbsp == done + sps[start..i]
    {
      rbsp := rbsp + [sps[i]];
      i := i + 1;
    }
  }

  method GetSpsHighParams(sps: bytes) returns (chroma: byte, luma: byte, chromaDepth: byte)
    ensures HighParams(chroma, luma, chromaDepth) == ParamsOf(Bits(Unescape(sps)))
  {
    var rbsp := ExtractRbsp(sps);
    var gb := new BitstreamReader(rbsp);
    var _ := gb.ReadBits(24);
    var _ := gb.GetUeGolomb();
    chroma := gb.GetUeGolomb();
    if chroma == 3 {
      var _ := gb.ReadBits(1);
    }
    luma := gb.GetUeGolomb();
    chromaDepth := gb.GetUeGolomb();
  }

  // ---------- The configuration record ----------

  const SPS: nat := 7
  const PPS: nat := 8

  /** The last unit of a type, which is the one whose pointer remains. */
  function LastOf(units: seq<Unit>, nalType: nat): Option<bytes>
    decreases |units|
  {
    if units == [] then None
    else
      var later := LastOf(units[1..], nalType);
      if later.Some? then later
      else if NalType(Avc, units[0].First()) == nalType then Some(units[0].payload)
      else None
  }

  method GetSpsPps(s: bytes, address: nat) returns (sps: Option<bytes>, pps: Option<bytes>)
    ensures sps == LastOf(UnitsOf(s), SPS) && pps == LastOf(UnitsOf(s), PPS)
  {
    sps, pps := None, None;
    var nalStart := Find(s, 0, address % 4);
    while true
      invariant nalStart <= |s|
      invariant LastOf(UnitsOf(s), SPS) == Later(sps, LastOf(Units(s, nalStart), SPS))
      invariant LastOf(UnitsOf(s), PPS) == Later(pps, LastOf(Units(s, nalStart), PPS))
      decreases |s| - nalStart
    {
      ghost var codeStart := nalStart;
      nalStart := SkipZeroBytes(s, nalStart);
      if nalStart == |s| {
        return;
      }
      var nalEnd := Find(s, nalStart, (address + nalStart) % 4);
      FirstByte(s, codeStart, nalStart);
      var t := NalType(Avc, s[nalStart]);
      if t == SPS {
        sps := Some(s[nalStart..nalEnd]);
      } else if t == PPS {
        pps := Some(s[nalStart..nalEnd]);
      }
      nalStart := nalEnd;
    }
  }

  function Later(before: Option<bytes>, later: Option<bytes>): Option<bytes> {
    if later.Some? then later else before
  }

  predicate HasStartCode(s: bytes)
    requires |s| >= 4
  {
    s[0] == 0 && s[1] == 0 && (s[2] == 1 || (s[2] == 0 && s[3] == 1))
  }

  predicate IsHighProfile(profile: byte) {
    profile == 100 || profile == 110 || profile == 122 || profile == 244
  }

  function Or(a: byte, b: byte): byte {
    var r := (a as bv8) | (b as bv8);
    r as int
  }

  /** The four bytes that the high profiles add (section 5.3.3.1.2 of ISO/IEC 14496-15). */
  function HighBytes(p: HighParams): bytes {
    [Or(0xfc, p.chroma), Or(0xf8, p.luma), Or(0xf8, p.chromaDepth), 0]
  }

  /** The record built from one sequence and one picture parameter set. */
  function AvcConfig(sps: bytes, pps: bytes): bytes
    requires |sps| >= 4
  {
    [1] + sps[1..4] + [0xff, 0xe1] + BigEndian16(|sps|) + sps + [1] + BigEndian16(|pps|) + pps
      + if IsHighProfile(sps[1]) then HighBytes(ParamsOf(Bits(Unescape(sps[1..])))) else []
  }

  /** The header for the parameter sets that were found. */
  function RecordOf(sps: Option<bytes>, pps: Option<bytes>): Option<bytes> {
    if sps.None? || pps.None? || |sps.value| < 4 then None else Some(AvcConfig(sps.value, pps.value))
  }

  /** Short data has no header, and data without start codes is one already. */
  function HeaderOf(s: bytes): Option<bytes> {
    if |s| <= 6 then None
    else if !HasStartCode(s) then Some(s)
    else RecordOf(LastOf(UnitsOf(s), SPS), LastOf(UnitsOf(s), PPS))
  }

  /** `obs_parse_avc_header`; a failure is no header. */
  method ParseAvcHeader(s: bytes, address: nat) returns (header: Option<bytes>)
    ensures header == HeaderOf(s)
  {
    if |s| <= 6 {
      return None;
    }
    if !HasStartCode(s) {
      return Some(s);
    }
    var sps, pps := GetSpsPps(s, address);
    if sps.None? || pps.None? || |sps.value| < 4 {
      return None;
    }
    var output := [1];
    output := output + sps.value[1..4];
    output := output + [0xff, 0xe1];
    output := output + BigEndian16(|sps.value|);
    output := output + sps.value;
    output := output + [1];
    output := output + BigEndian16(|pps.value|);
    output := output + pps.value;
    var profile := sps.value[1];
    if profile == 100 || profile == 110 || profile == 122 || profile == 244 {
      var chroma, luma, chromaDepth := GetSpsHighParams(sps.value[1..]);
      output := output + [Or(0xfc, chroma), Or(0xf8, luma), Or(0xf8, chromaDepth), 0];
    } else {
      assert output + [] == output;
    }
    return Some(output);
  }

  /** In the range the standard allows, the reserved bits are all that is added. */
  lemma ReservedBits(v: byte)
    ensures v <= 3 ==> Or(0xfc, v) == 0xfc + v
    ensures v <= 7 ==> Or(0xf8, v) == 0xf8 + v
  {
    match v
    case 0 => case 1 => case 2 => case 3 => case 4 => case 5 => case 6 => case 7 =>
    case _ =>
  }

  // ---------- Reading the record ----------

  /** Parameter sets with their lengths in front, and what follows them. */
  datatype Sets = Sets(list: seq<bytes>, rest: bytes)

  function ReadSets(count: nat, s: bytes): Option<Sets>
    decreases count
  {
    if count == 0 then Some(Sets([], s))
    else if |s| < 2 then None
    else
      var end := 2 + FromBigEndian16(s[..2]);
      if end > |s| then None
      else
        var others := ReadSets(count - 1, s[end..]);
        if others.None? then None else Some(Sets([s[2..end]] + others.value.list, others.value.rest))
  }

  /** The fields of an AVC decoder configuration record (section 5.2.4.1 of ISO/IEC 14496-15). */
  datatype AvcRecord = AvcRecord(
    version: byte, profile: byte, compatibility: byte, level: byte, lengthSize: nat,
    sps: seq<bytes>, pps: seq<bytes>, extension: bytes)

  /** Reads a record as that section lays it out, reserved bits included. */
  function ReadRecord(s: bytes): Option<AvcRecord> {
    if |s| < 6 || s[4] < 0xfc || s[5] < 0xe0 then None
    else
      var sps := ReadSets(s[5] - 0xe0, s[6..]);
      if sps.None? || sps.value.rest == [] then None
      else
        var pps := ReadSets(sps.value.rest[0], sps.value.rest[1..]);
        if pps.None? then None
        else Some(AvcRecord(s[0], s[1], s[2], s[3], s[4] - 0xfc + 1, sps.value.list, pps.value.list, pps.value.rest))
  }

  /** The length in front of a set is taken modulo 65536. */
  lemma ReadsOneSet(s: bytes, one: bytes, tail: bytes)
    requires s == BigEndian16(|one|) + (one + tail)
    ensures var k := |one| % 0x1_0000;
      ReadSets(1, s) == Some(Sets([(one + tail)[..k]], (one + tail)[k..]))
  {
    var k := |one| % 0x1_0000;
    BigEndian16RoundTrip(|one|);
    assert s[..2] == BigEndian16(|one|);
    assert s[2..2 + k] == (one + tail)[..k] && s[2 + k..] == (one + tail)[k..];
    var none: seq<bytes> := [];
    assert ReadSets(0, s[2 + k..]) == Some(Sets(none, s[2 + k..]));
    assert [s[2..2 + k]] + none == [s[2..2 + k]];
  }

  lemma ReadsWholeSet(s: bytes, one: bytes, tail: bytes)
    requires s == BigEndian16(|one|) + (one + tail) && |one| < 0x1_0000
    ensures ReadSets(1, s) == Some(Sets([one], tail))
  {
    ReadsOneSet(s, one, tail);
    assert (one + tail)[..|one|] == one && (one + tail)[|one|..] == tail;
  }

  /** What the high profiles add to a record. */
  function Extension(sps: bytes): bytes
    requires |sps| >= 4
  {
    if IsHighProfile(sps[1]) then HighBytes(ParamsOf(Bits(Unescape(sps[1..])))) else []
  }

  lemma ConfigParts(sps: bytes, pps: bytes)
    requires |sps| >= 4
    ensures var record := AvcConfig(sps, pps);
      && |record| >= 6 && record[..6] == [1, sps[1], sps[2], sps[3], 0xff, 0xe1]
      && record[6..] == BigEndian16(|sps|) + (sps + ([1] + (BigEndian16(|pps|) + (pps + Extension(sps)))))
  {
    var record := AvcConfig(sps, pps);
    var lengths := [1] + (BigEndian16(|pps|) + (pps + Extension(sps)));
    assert record == [1] + sps[1..4] + [0xff, 0xe1] + (BigEndian16(|sps|) + (sps + lengths));
  }

  lemma ReadsParts(record: bytes, sps: bytes, pps: bytes, extension: bytes, after: bytes)
    requires |sps| >= 4 && |sps| < 0x1_0000 && |pps| < 0x1_0000
    requires |record| >= 6 && record[..6] == [1, sps[1], sps[2], sps[3], 0xff, 0xe1]
    requires after == BigEndian16(|pps|) + (pps + extension)
    requires record[6..] == BigEndian16(|sps|) + (sps + ([1] + after))
    ensures ReadRecord(record) == Some(AvcRecord(1, sps[1], sps[2], sps[3], 4, [sps], [pps], extension))
  {
    ReadsWholeSet(record[6..], sps, [1] + after);
    ReadsWholeSet(after, pps, extension);
    assert ([1] + after)[1..] == after;
    assert forall i :: 0 <= i < 6 ==> record[i] == record[..6][i];
  }

  /**
   A reader of the record finds version 1, the profile, compatibility and level of the sequence parameter set, lengths
   of four bytes, just the two parameter sets, and four bytes more if and only if the profile is one of the four high
   ones.
   */
  lemma RecordReads(sps: bytes, pps: bytes)
    requires 4 <= |sps| < 0x1_0000 && |pps| < 0x1_0000
    ensures ReadRecord(AvcConfig(sps, pps)) ==
      Some(AvcRecord(1, sps[1], sps[2], sps[3], 4, [sps], [pps], Extension(sps)))
    ensures |Extension(sps)| == if sps[1] in {100, 110, 122, 244} then 4 else 0
  {
    ConfigParts(sps, pps);
    ReadsParts(AvcConfig(sps, pps), sps, pps, Extension(sps), BigEndian16(|pps|) + (pps + Extension(sps)));
  }

  /** Longer sets do not fit: their lengths are cut down to 16 bits, so that no reader finds them whole. */
  lemma LongSetIsCut(sps: bytes, pps: bytes)
    requires 4 <= |sps|
    ensures var r := ReadRecord(AvcConfig(sps, pps));
      r.Some? ==> |r.value.sps| == 1 && (r.value.sps[0] == sps <==> |sps| < 0x1_0000)
  {
    var record := AvcConfig(sps, pps);
    var tail := [1] + (BigEndian16(|pps|) + (pps + Extension(sps)));
    ConfigParts(sps, pps);
    assert record[5] == record[..6][5];
    ReadsOneSet(record[6..], sps, tail);
    if |sps| < 0x1_0000 {
      ReadsWholeSet(record[6..], sps, tail);
    }
  }

  /** Seven bytes or more that do not start like a start code are taken for a record, and a record is one: the header of
      a header is itself. */
  lemma HeaderIsFixed(s: bytes)
    ensures |s| <= 6 ==> HeaderOf(s) == None
    ensures |s| > 6 && s[0] != 0 ==> HeaderOf(s) == Some(s)
    ensures HeaderOf(s).Some? ==> HeaderOf(HeaderOf(s).value) == HeaderOf(s)
  {
    if |s| > 6 && HasStartCode(s) {
      var sps, pps := LastOf(UnitsOf(s), SPS), LastOf(UnitsOf(s), PPS);
      if sps.Some? && pps.Some? && |sps.value| >= 4 {
        RecordIsNoStream(AvcConfig(sps.value, pps.value), sps.value, pps.value);
      }
    }
  }

  lemma RecordIsNoStream(record: bytes, sps: bytes, pps: bytes)
    requires |sps| >= 4 && record == AvcConfig(sps, pps)
    ensures |record| > 6 && HeaderOf(record) == Some(record)
  {
    ConfigParts(sps, pps);
    assert record[0] == record[..6][0];
  }

  // ---------- From the encoder to the record ----------

  /** The last of some units that has a type. */
  function LastUnit(us: seq<bytes>, nalType: nat): Option<bytes>
    decreases |us|
  {
    if us == [] then None
    else
      var later := LastUnit(us[1..], nalType);
      if later.Some? then later
      else if us[0] != [] && NalType(Avc, us[0][0]) == nalType then Some(us[0])
      else None
  }

  lemma {:induction false} LastOfJoined(us: seq<bytes>, long: seq<bool>, nalType: nat)
    requires |long| == |us| && AllPlain(us)
    ensures LastOf(Joined(us, long), nalType) == LastUnit(us, nalType)
    decreases |us|
  {
    if us == [] {
    } else {
      LastOfJoined(us[1..], long[1..], nalType);
      assert Joined(us, long)[1..] == Joined(us[1..], long[1..]);
    }
  }

  /** In an Annex B stream of plain units, the last unit of each type is found. */
  lemma LastOfAnnexB(us: seq<bytes>, long: seq<bool>, nalType: nat)
    requires |long| == |us| && AllPlain(us)
    ensures LastOf(UnitsOf(AnnexB(us, long)), nalType) == LastUnit(us, nalType)
  {
    AnnexBRoundTrip(us, long);
    LastOfJoined(us, long, nalType);
  }

  lemma {:induction false} LastUnitFits(us: seq<bytes>, long: seq<bool>, nalType: nat)
    requires |long| == |us| && AllPlain(us) && LastUnit(us, nalType).Some?
    ensures |AnnexB(us, long)| >= |LastUnit(us, nalType).value| + 3 && |AnnexB(us, long)| >= 4
    ensures HasStartCode(AnnexB(us, long))
    decreases |us|
  {
    CodeStarts(long[0], us[0], AnnexB(us[1..], long[1..]), AnnexB(us, long));
    if LastUnit(us[1..], nalType).Some? {
      LastUnitFits(us[1..], long[1..], nalType);
    }
  }

  lemma CodeStarts(long: bool, u: bytes, rest: bytes, s: bytes)
    requires s == Code(long) + u + rest && u != []
    ensures |s| >= 4 && HasStartCode(s)
  {
  }

  lemma HeaderOfUnits(s: bytes, sps: Option<bytes>, pps: Option<bytes>)
    requires |s| >= 4 && HasStartCode(s)
    requires LastOf(UnitsOf(s), SPS) == sps && LastOf(UnitsOf(s), PPS) == pps
    requires sps.Some? ==> |s| >= |sps.value| + 3
    ensures HeaderOf(s) == RecordOf(sps, pps)
  {
  }

  lemma StreamFits(us: seq<bytes>, long: seq<bool>, s: bytes, sps: Option<bytes>)
    requires |long| == |us| > 0 && AllPlain(us) && s == AnnexB(us, long) && sps == LastUnit(us, SPS)
    ensures |s| >= 4 && HasStartCode(s)
    ensures sps.Some? ==> |s| >= |sps.value| + 3
  {
    CodeStarts(long[0], us[0], AnnexB(us[1..], long[1..]), s);
    if sps.Some? {
      LastUnitFits(us, long, SPS);
    }
  }

  lemma HeaderOfStream(us: seq<bytes>, long: seq<bool>, s: bytes, sps: Option<bytes>, pps: Option<bytes>)
    requires |long| == |us| && AllPlain(us) && s == AnnexB(us, long)
    requires sps == LastUnit(us, SPS) && pps == LastUnit(us, PPS)
    ensures HeaderOf(s) == RecordOf(sps, pps)
  {
    if us == [] {
      assert s == [] && sps == None;
    } else {
      StreamFits(us, long, s, sps);
      assert LastOf(UnitsOf(s), SPS) == sps && LastOf(UnitsOf(s), PPS) == pps by {
        LastOfAnnexB(us, long, SPS);
        LastOfAnnexB(us, long, PPS);
      }
      HeaderOfUnits(s, sps, pps);
    }
  }

  /** The header of Annex B extradata is the record of its last sequence and its last picture parameter set, if it has
      both. */
  lemma HeaderOfAnnexB(us: seq<bytes>, long: seq<bool>)
    requires |long| == |us| && AllPlain(us)
    ensures HeaderOf(AnnexB(us, long)) == RecordOf(LastUnit(us, SPS), LastUnit(us, PPS))
  {
    HeaderOfStream(us, long, AnnexB(us, long), LastUnit(us, SPS), LastUnit(us, PPS));
  }

  /** So a reader of the header built from Annex B extradata finds exactly these two sets in it. */
  lemma HeaderReads(us: seq<bytes>, long: seq<bool>, sps: bytes, pps: bytes)
    requires |long| == |us| && AllPlain(us)
    requires LastUnit(us, SPS) == Some(sps) && LastUnit(us, PPS) == Some(pps)
    requires 4 <= |sps| < 0x1_0000 && |pps| < 0x1_0000
    ensures var header := HeaderOf(AnnexB(us, long));
      && header.Some?
      && var r := ReadRecord(header.value);
         && r.Some? && (r.value.version, r.value.profile, r.value.level) == (1, sps[1], sps[3])
         && (r.value.sps, r.value.pps) == ([sps], [pps])
  {
    HeaderOfAnnexB(us, long);
    RecordReads(sps, pps);
  }

  /**
   The record carries what the encoder wrote. If a sequence parameter set is the escaped form of a payload that starts
   with a chroma format and two bit depths, the record ends with exactly these three values under their reserved bits.
   */
  lemma ConfigCarriesParams(sps: bytes, pps: bytes, nalHeader: byte, rbsp: bytes, profile: seq<bool>, id: nat,
                            chroma: byte, plane: bool, luma: byte, chromaDepth: byte, tail: seq<bool>)
    requires sps == [nalHeader] + Escape(0, rbsp) && |sps| >= 4 && IsHighProfile(sps[1])
    requires |profile| == 24 && Log2(id + 1) < 32
    requires Bits(rbsp) == SpsBits(profile, id, chroma, plane, luma, chromaDepth) + tail
    requires chroma <= 3 && luma <= 7 && chromaDepth <= 7
    ensures var record := AvcConfig(sps, pps);
      |record| >= 4 && record[|record| - 4..] == [0xfc + chroma, 0xf8 + luma, 0xf8 + chromaDepth, 0]
  {
    assert sps[1..] == Escape(0, rbsp);
    EmulationRoundTrip(rbsp);
    ParamsRoundTrip(profile, id, chroma, plane, luma, chromaDepth, tail);
    ReservedBits(chroma);
    ReservedBits(luma);
    ReservedBits(chromaDepth);
  }

  /** From Annex B extradata to the record: whatever units there are, and whatever start codes, the header that is built
      from them ends with the three values in the last sequence parameter set. */
  lemma RecordCarriesParams(us: seq<bytes>, long: seq<bool>, sps: bytes, nalHeader: byte, rbsp: bytes,
                            profile: seq<bool>, id: nat, chroma: byte, plane: bool, luma: byte, chromaDepth: byte,
                            tail: seq<bool>)
    requires |long| == |us| && AllPlain(us) && LastUnit(us, SPS) == Some(sps) && LastUnit(us, PPS).Some?
    requires sps == [nalHeader] + Escape(0, rbsp) && |sps| >= 4 && IsHighProfile(sps[1])
    requires |profile| == 24 && Log2(id + 1) < 32
    requires Bits(rbsp) == SpsBits(profile, id, chroma, plane, luma, chromaDepth) + tail
    requires chroma <= 3 && luma <= 7 && chromaDepth <= 7
    ensures var header := HeaderOf(AnnexB(us, long));
      && header.Some? && |header.value| >= 4
      && header.value[|header.value| - 4..] == [0xfc + chroma, 0xf8 + luma, 0xf8 + chromaDepth, 0]
  {
    HeaderOfAnnexB(us, long);
    ConfigCarriesParams(sps, LastUnit(us, PPS).value, nalHeader, rbsp, profile, id, chroma, plane, luma, chromaDepth,
                        tail);
  }

  /** Extradata of one parameter set of each kind: escaping makes the first a plain unit. */
  lemma TwoParameterSets(sps: bytes, pps: bytes, nalHeader: byte, rbsp: bytes)
    requires sps == [nalHeader] + Escape(0, rbsp) && NalType(Avc, nalHeader) == SPS
    requires rbsp != [] && rbsp[|rbsp| - 1] != 0
    requires Plain(pps) && NalType(Avc, pps[0]) == PPS
    ensures AllPlain([sps, pps]) && LastUnit([sps, pps], SPS) == Some(sps) && LastUnit([sps, pps], PPS) == Some(pps)
  {
    assert sps[0] == nalHeader;
    EscapedUnitIsPlain(nalHeader, rbsp);
    BothPlain(sps, pps);
    LastOfTwo(sps, pps, SPS);
    LastOfTwo(sps, pps, PPS);
  }

  lemma BothPlain(a: bytes, b: bytes)
    requires Plain(a) && Plain(b)
    ensures AllPlain([a, b])
  {
  }

  lemma LastOfTwo(a: bytes, b: bytes, nalType: nat)
    requires a != [] && b != []
    ensures LastUnit([a, b], nalType) ==
      if NalType(Avc, b[0]) == nalType then Some(b) else if NalType(Avc, a[0]) == nalType then Some(a) else None
  {
    var us, later := [a, b], [b];
    assert us[1..] == later && later[1..] == [] && LastUnit([], nalType) == None;
    assert LastUnit(later, nalType) == if NalType(Avc, b[0]) == nalType then Some(b) else None;
  }
}
