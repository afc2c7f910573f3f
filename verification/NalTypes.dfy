/**
 Packets by the types of their units: what extraction, priorities and the AVC header make of units whose types an
 encoder chose (Table 7-1 of ITU-T H.264 and of ITU-T H.265).
 */
module NalTypes {
  import opened Bytes
  import opened StartCode
  import opened NalUnits
  import opened AvcHeader

  /** A unit as an encoder makes it: its type, the reference indicator of AVC or the first bit of the layer of HEVC,
      what follows the first byte, and whether its start code has four bytes. */
  datatype Coded = Coded(nalType: nat, extra: nat, body: bytes, long: bool)

  predicate Fits(codec: Codec, u: Coded) {
    match codec
    case Avc => u.nalType < 32 && u.extra < 4
    case Hevc => u.nalType < 64 && u.extra < 2
  }

  /** The first byte (sections 7.3.1 of ITU-T H.264 and 7.3.1.2 of ITU-T H.265), then the body. */
  function Written(codec: Codec, u: Coded): bytes
    requires Fits(codec, u)
  {
    [match codec case Avc => u.extra * 32 + u.nalType case Hevc => u.nalType * 2 + u.extra] + u.body
  }

  ghost predicate Writable(codec: Codec, us: seq<Coded>) {
    forall i :: 0 <= i < |us| ==> Fits(codec, us[i]) && Plain(Written(codec, us[i]))
  }

  ghost function AllWritten(codec: Codec, us: seq<Coded>): (r: seq<bytes>)
    requires Writable(codec, us)
    ensures |r| == |us| && AllPlain(r)
    decreases |us|
  {
    if us == [] then [] else [Written(codec, us[0])] + AllWritten(codec, us[1..])
  }

  ghost function Longs(us: seq<Coded>): (r: seq<bool>)
    ensures |r| == |us|
    decreases |us|
  {
    if us == [] then [] else [us[0].long] + Longs(us[1..])
  }

  /** The Annex B stream of these units. */
  ghost function Stream(codec: Codec, us: seq<Coded>): bytes
    requires Writable(codec, us)
  {
    AnnexB(AllWritten(codec, us), Longs(us))
  }

  ghost function Read(codec: Codec, us: seq<Coded>): seq<Unit>
    requires Writable(codec, us)
  {
    Joined(AllWritten(codec, us), Longs(us))
  }

  /** The units of these types, in order. */
  function Only(us: seq<Coded>, types: set<nat>): seq<Coded>
    decreases |us|
  {
    if us == [] then []
    else if us[0].nalType in types then [us[0]] + Only(us[1..], types)
    else Only(us[1..], types)
  }

  lemma {:induction false} OnlyWritable(codec: Codec, us: seq<Coded>, types: set<nat>)
    requires Writable(codec, us)
    ensures Writable(codec, Only(us, types))
    decreases |us|
  {
    if us == [] {
    } else {
      OnlyWritable(codec, us[1..], types);
    }
  }

  /** The stream of the units of these types. */
  ghost function StreamOf(codec: Codec, us: seq<Coded>, types: set<nat>): bytes
    requires Writable(codec, us)
  {
    OnlyWritable(codec, us, types);
    Stream(codec, Only(us, types))
  }

  /** The type that is read from a unit is the one it was written with. */
  lemma TypeIsRead(codec: Codec, u: Coded)
    requires Fits(codec, u)
    ensures NalType(codec, Written(codec, u)[0]) == u.nalType
    ensures codec == Avc ==> Written(codec, u)[0] / 32 == u.extra
  {
  }

  lemma ReadUnfold(codec: Codec, us: seq<Coded>)
    requires Writable(codec, us) && us != []
    ensures Writable(codec, us[1..])
    ensures Read(codec, us) == [Unit(Code(us[0].long), Written(codec, us[0]))] + Read(codec, us[1..])
    ensures Stream(codec, us) == Code(us[0].long) + Written(codec, us[0]) + Stream(codec, us[1..])
  {
    assert AllWritten(codec, us)[1..] == AllWritten(codec, us[1..]);
    assert Longs(us)[1..] == Longs(us[1..]);
  }

  // ---------- Extraction ----------

  ghost predicate ClassIs(codec: Codec, us: seq<Coded>, c: Class, types: set<nat>)
    requires Writable(codec, us)
  {
    forall i :: 0 <= i < |us| ==> (Classify(codec, Written(codec, us[i])[0]) == c <==> us[i].nalType in types)
  }

  /** The units of a class, with their start codes, are the stream of the units of its types. */
  lemma {:induction false} SelectedByType(codec: Codec, us: seq<Coded>, c: Class, types: set<nat>)
    requires Writable(codec, us) && ClassIs(codec, us, c, types)
    ensures Join(Select(codec, Read(codec, us), c)) == StreamOf(codec, us, types)
    decreases |us|
  {
    if us == [] {
    } else {
      var u, rest := us[0], us[1..];
      ReadUnfold(codec, us);
      OnlyWritable(codec, rest, types);
      SelectedByType(codec, rest, c, types);
      var first := Unit(Code(u.long), Written(codec, u));
      assert ClassOf(codec, first) == Classify(codec, Written(codec, u)[0]);
      SelectCons(codec, first, Read(codec, rest), c);
      if u.nalType in types {
        OnlyWritable(codec, us, types);
        assert Only(us, types)[0] == u && Only(us, types)[1..] == Only(rest, types);
        ReadUnfold(codec, Only(us, types));
        JoinFirst(first, Select(codec, Read(codec, rest), c));
      }
    }
  }

  lemma SelectCons(codec: Codec, u: Unit, units: seq<Unit>, c: Class)
    ensures Select(codec, [u] + units, c) ==
      if ClassOf(codec, u) == c then [u] + Select(codec, units, c) else Select(codec, units, c)
  {
    assert ([u] + units)[1..] == units;
  }

  lemma JoinFirst(u: Unit, units: seq<Unit>)
    ensures Join([u] + units) == u.code + u.payload + Join(units)
  {
    JoinCons([], u, units);
    assert [] + Join([u] + units) == Join([u] + units);
    assert [] + u.Chunk() == u.Chunk();
  }

  function ParameterSets(codec: Codec): set<nat> {
    match codec
    case Avc => {7, 8}
    case Hevc => {32, 33, 34}
  }

  function SupplementalInformation(codec: Codec): set<nat> {
    match codec
    case Avc => {6}
    case Hevc => {39, 40}
  }

  function AllOthers(codec: Codec): set<nat> {
    set t: nat | t < 64 && t !in ParameterSets(codec) && t !in SupplementalInformation(codec)
  }

  lemma ClassByType(codec: Codec, u: Coded)
    requires Fits(codec, u)
    ensures var c := Classify(codec, Written(codec, u)[0]);
      && (c == Header <==> u.nalType in ParameterSets(codec))
      && (c == Sei <==> u.nalType in SupplementalInformation(codec))
      && (c == PacketData <==> u.nalType in AllOthers(codec))
  {
    TypeIsRead(codec, u);
  }

  lemma ClassesByType(codec: Codec, us: seq<Coded>)
    requires Writable(codec, us)
    ensures ClassIs(codec, us, Header, ParameterSets(codec))
    ensures ClassIs(codec, us, Sei, SupplementalInformation(codec))
    ensures ClassIs(codec, us, PacketData, AllOthers(codec))
  {
    forall i | 0 <= i < |us|
      ensures var c := Classify(codec, Written(codec, us[i])[0]);
        && (c == Header <==> us[i].nalType in ParameterSets(codec))
        && (c == Sei <==> us[i].nalType in SupplementalInformation(codec))
        && (c == PacketData <==> us[i].nalType in AllOthers(codec))
    {
      ClassByType(codec, us[i]);
    }
  }

  /**
   Extraction goes by the types of the encoder's units: the header output is the Annex B stream of the parameter sets,
   the second one that of the supplemental enhancement information, and the packet that of all other units.
   */
  lemma ExtractsByType(codec: Codec, us: seq<Coded>)
    requires Writable(codec, us)
    ensures var units := UnitsOf(Stream(codec, us));
      && Join(Select(codec, units, Header)) == StreamOf(codec, us, ParameterSets(codec))
      && Join(Select(codec, units, Sei)) == StreamOf(codec, us, SupplementalInformation(codec))
      && Join(Select(codec, units, PacketData)) == StreamOf(codec, us, AllOthers(codec))
  {
    AnnexBRoundTrip(AllWritten(codec, us), Longs(us));
    ClassesByType(codec, us);
    SelectedByType(codec, us, Header, ParameterSets(codec));
    SelectedByType(codec, us, Sei, SupplementalInformation(codec));
    SelectedByType(codec, us, PacketData, AllOthers(codec));
  }

  // ---------- Keyframes and priorities ----------

  function IntraTypes(codec: Codec): set<nat> {
    match codec
    case Avc => {5}
    case Hevc => {16, 17, 18, 19, 20, 21, 22, 23}
  }

  lemma {:induction false} FirstBytes(codec: Codec, us: seq<Coded>)
    requires Writable(codec, us)
    ensures |Read(codec, us)| == |us|
    ensures forall i :: 0 <= i < |us| ==> Read(codec, us)[i].First() == Written(codec, us[i])[0]
    decreases |us|
  {
    if us == [] {
    } else {
      ReadUnfold(codec, us);
      FirstBytes(codec, us[1..]);
    }
  }

  function SliceTypes(): set<nat> { {0, 1, 2, 3, 4, 5, 6, 7, 8, 9} }

  lemma PrioritiesRead(codec: Codec, u: Coded, first: byte)
    requires Fits(codec, u) && first == Written(codec, u)[0]
    ensures IsKeyframe(codec, first) <==> u.nalType in IntraTypes(codec)
    ensures codec == Hevc ==> (NalType(Hevc, first) <= 9 <==> u.nalType in SliceTypes())
    ensures codec == Avc ==> first / 32 == u.extra
  {
    TypeIsRead(codec, u);
  }

  lemma TypesRead(codec: Codec, us: seq<Coded>)
    requires Writable(codec, us)
    ensures var units := UnitsOf(Stream(codec, us));
      && |units| == |us|
      && forall i :: 0 <= i < |us| ==>
           && (IsKeyframe(codec, units[i].First()) <==> us[i].nalType in IntraTypes(codec))
           && (codec == Hevc ==> (NalType(Hevc, units[i].First()) <= 9 <==> us[i].nalType in SliceTypes()))
           && (codec == Avc ==> units[i].First() / 32 == us[i].extra)
  {
    AnnexBRoundTrip(AllWritten(codec, us), Longs(us));
    FirstBytes(codec, us);
    var units := Read(codec, us);
    forall i | 0 <= i < |us|
      ensures IsKeyframe(codec, units[i].First()) <==> us[i].nalType in IntraTypes(codec)
      ensures codec == Hevc ==> (NalType(Hevc, units[i].First()) <= 9 <==> us[i].nalType in SliceTypes())
      ensures codec == Avc ==> units[i].First() / 32 == us[i].extra
    {
      PrioritiesRead(codec, us[i], units[i].First());
    }
  }

  ghost predicate HasType(us: seq<Coded>, types: set<nat>) {
    exists i :: 0 <= i < |us| && us[i].nalType in types
  }

  /** A packet is a keyframe if and only if one of its units is an IDR slice of AVC, or a random access picture of
      HEVC. */
  lemma KeyframeByType(codec: Codec, us: seq<Coded>)
    requires Writable(codec, us)
    ensures AnyKeyframe(codec, UnitsOf(Stream(codec, us))) <==> HasType(us, IntraTypes(codec))
  {
    TypesRead(codec, us);
  }

  /** The priority of an AVC packet is the largest reference indicator of its units, if that exceeds what it was. */
  lemma AvcPriorityByType(us: seq<Coded>, priority: int)
    requires Writable(Avc, us)
    ensures var r := FoldPriority(Avc, UnitsOf(Stream(Avc, us)), priority);
      && priority <= r
      && (forall i :: 0 <= i < |us| ==> us[i].extra <= r)
      && (r == priority || exists i :: 0 <= i < |us| && r == us[i].extra)
  {
    TypesRead(Avc, us);
    AvcPriorityIsMaximum(UnitsOf(Stream(Avc, us)), priority);
  }

  /** That of an HEVC packet is 3 if it has a random access picture, and at least 2 if it has another slice. */
  lemma HevcPriorityByType(us: seq<Coded>, priority: int)
    requires Writable(Hevc, us) && priority <= 3
    ensures FoldPriority(Hevc, UnitsOf(Stream(Hevc, us)), priority) ==
      if HasType(us, IntraTypes(Hevc)) then 3
      else if HasType(us, SliceTypes()) && priority < 2 then 2
      else priority
  {
    TypesRead(Hevc, us);
    HevcPriorityByContent(UnitsOf(Stream(Hevc, us)), priority);
  }

  // ---------- The AVC header ----------

  /** The last of some units as it is written. */
  ghost function LastWritten(us: seq<Coded>): Option<bytes>
    requires Writable(Avc, us)
  {
    if us == [] then None else Some(Written(Avc, us[|us| - 1]))
  }

  lemma {:induction false} LastUnitIsLast(us: seq<Coded>, nalType: nat)
    requires Writable(Avc, us)
    ensures Writable(Avc, Only(us, {nalType}))
    ensures LastUnit(AllWritten(Avc, us), nalType) == LastWritten(Only(us, {nalType}))
    decreases |us|
  {
    OnlyWritable(Avc, us, {nalType});
    if us == [] {
    } else {
      LastUnitIsLast(us[1..], nalType);
      TypeIsRead(Avc, us[0]);
      assert AllWritten(Avc, us)[1..] == AllWritten(Avc, us[1..]);
    }
  }

  /** The parameter sets that are found are the last units of types 7 and 8. */
  lemma ParameterSetsByType(us: seq<Coded>)
    requires Writable(Avc, us)
    ensures Writable(Avc, Only(us, {7})) && Writable(Avc, Only(us, {8}))
    ensures LastOf(UnitsOf(Stream(Avc, us)), SPS) == LastWritten(Only(us, {7}))
    ensures LastOf(UnitsOf(Stream(Avc, us)), PPS) == LastWritten(Only(us, {8}))
  {
    LastOfAnnexB(AllWritten(Avc, us), Longs(us), SPS);
    LastOfAnnexB(AllWritten(Avc, us), Longs(us), PPS);
    LastUnitIsLast(us, 7);
    LastUnitIsLast(us, 8);
  }

  lemma {:induction false} LastUnitWritten(us: seq<Coded>, nalType: nat, types: set<nat>)
    requires Writable(Avc, us) && nalType in types
    ensures Writable(Avc, Only(us, types))
    ensures LastUnit(AllWritten(Avc, Only(us, types)), nalType) == LastUnit(AllWritten(Avc, us), nalType)
    decreases |us|
  {
    OnlyWritable(Avc, us, types);
    if us == [] {
    } else {
      var u, rest := us[0], us[1..];
      LastUnitWritten(rest, nalType, types);
      TypeIsRead(Avc, u);
      assert AllWritten(Avc, us)[1..] == AllWritten(Avc, rest);
      if u.nalType in types {
        var kept := Only(us, types);
        assert kept[0] == u && kept[1..] == Only(rest, types);
        assert AllWritten(Avc, kept)[1..] == AllWritten(Avc, Only(rest, types));
      }
    }
  }

  /** The record made of a packet's parameter sets is the one made of the headers extracted from it. */
  lemma HeaderFromExtraction(us: seq<Coded>)
    requires Writable(Avc, us)
    ensures var s := Stream(Avc, us);
      HeaderOf(Join(Select(Avc, UnitsOf(s), Header))) == HeaderOf(s)
  {
    var sets := ParameterSets(Avc);
    ExtractsByType(Avc, us);
    OnlyWritable(Avc, us, sets);
    HeaderOfAnnexB(AllWritten(Avc, us), Longs(us));
    HeaderOfAnnexB(AllWritten(Avc, Only(us, sets)), Longs(Only(us, sets)));
    LastUnitWritten(us, SPS, sets);
    LastUnitWritten(us, PPS, sets);
  }
}
