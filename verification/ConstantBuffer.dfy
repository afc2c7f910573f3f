/**
 Shader constants in 16-byte registers: the layout computed when a shader is built, and the buffer filled from the same
 layout before drawing (libobs-d3d11/d3d11-shader.cpp).
 */
module ConstantBuffer {
  import opened Bytes

  const REGISTER: nat := 16

  datatype ParamType = Bool | Int | Float | Int2 | Vec2 | Int3 | Vec3 | Int4 | Vec4 | Matrix4x4 | Texture

  /** The bytes a parameter takes in the constant buffer; none for a texture. */
  function SizeOf(t: ParamType, arrayCount: nat): nat {
    var size := match t
      case Bool => 4
      case Int => 4
      case Float => 4
      case Int2 => 8
      case Vec2 => 8
      case Int3 => 12
      case Vec3 => 12
      case Int4 => 16
      case Vec4 => 16
      case Matrix4x4 => 64
      case Texture => 0;
    if arrayCount > 0 then size * arrayCount else size
  }

  /** Rows and columns of four bytes each. */
  function Components(t: ParamType): nat {
    match t
    case Bool => 1
    case Int => 1
    case Float => 1
    case Int2 => 2
    case Vec2 => 2
    case Int3 => 3
    case Vec3 => 3
    case Int4 => 4
    case Vec4 => 4
    case Matrix4x4 => 4 * 4
    case Texture => 0
  }

  lemma SizeIsComponents(t: ParamType, arrayCount: nat)
    ensures SizeOf(t, arrayCount) == 4 * Components(t) * if arrayCount > 0 then arrayCount else 1
  {
  }

  // ---------- Layout ----------

  function NextRegister(end: nat): (r: nat)
    ensures end <= r < end + REGISTER && r % REGISTER == 0
  {
    (end + REGISTER - 1) / REGISTER * REGISTER
  }

  /** Where a parameter goes when the ones before it end at `end`. */
  function Place(end: nat, size: nat): (pos: nat)
    ensures end <= pos
  {
    if size > 0 && end % REGISTER != 0 && size + end > NextRegister(end) then NextRegister(end) else end
  }

  /** A parameter that fits in a register does not straddle two; a larger one starts on one. */
  lemma PlaceFits(end: nat, size: nat)
    requires size > 0
    ensures var pos := Place(end, size);
      && (size <= REGISTER ==> pos / REGISTER == (pos + size - 1) / REGISTER)
      && (size > REGISTER ==> pos % REGISTER == 0)
  {
  }

  function Positions(sizes: seq<nat>, end: nat): (r: seq<nat>)
    ensures |r| == |sizes|
    decreases |sizes|
  {
    if sizes == [] then [] else [Place(end, sizes[0])] + Positions(sizes[1..], Place(end, sizes[0]) + sizes[0])
  }

  function TotalSize(sizes: seq<nat>, end: nat): (r: nat)
    ensures r >= end
    decreases |sizes|
  {
    if sizes == [] then end else TotalSize(sizes[1..], Place(end, sizes[0]) + sizes[0])
  }

  lemma {:induction false} PositionInBounds(sizes: seq<nat>, end: nat, i: nat)
    requires i < |sizes|
    ensures end <= Positions(sizes, end)[i] && Positions(sizes, end)[i] + sizes[i] <= TotalSize(sizes, end)
    ensures Positions(sizes, end)[i] == Place(TotalSize(sizes[..i], end), sizes[i])
    decreases |sizes|
  {
    if i == 0 {
    } else {
      PositionInBounds(sizes[1..], Place(end, sizes[0]) + sizes[0], i - 1);
      assert sizes[..i][1..] == sizes[1..][..i - 1];
    }
  }

  lemma {:induction false} PositionsOrdered(sizes: seq<nat>, end: nat, i: nat, j: nat)
    requires i < j < |sizes|
    ensures Positions(sizes, end)[i] + sizes[i] <= Positions(sizes, end)[j]
    decreases |sizes|
  {
    var next := Place(end, sizes[0]) + sizes[0];
    if i == 0 {
      PositionInBounds(sizes[1..], next, j - 1);
    } else {
      PositionsOrdered(sizes[1..], next, i - 1, j - 1);
    }
  }

  /** Offsets are ordered and disjoint, nothing of at most a register's size straddles two, and anything larger starts
      on one. */
  lemma LayoutIsOrdered(sizes: seq<nat>)
    ensures var pos := Positions(sizes, 0);
      && (forall i :: 0 <= i < |sizes| ==> pos[i] + sizes[i] <= TotalSize(sizes, 0))
      && (forall i, j :: 0 <= i < j < |sizes| ==> pos[i] + sizes[i] <= pos[j])
      && (forall i :: 0 <= i < |sizes| && 0 < sizes[i] <= REGISTER ==>
            pos[i] / REGISTER == (pos[i] + sizes[i] - 1) / REGISTER)
      && (forall i :: 0 <= i < |sizes| && sizes[i] > REGISTER ==> pos[i] % REGISTER == 0)
  {
    var pos := Positions(sizes, 0);
    forall i, j | 0 <= i < j < |sizes|
      ensures pos[i] + sizes[i] <= pos[j]
    {
      PositionsOrdered(sizes, 0, i, j);
    }
    forall i | 0 <= i < |sizes|
      ensures pos[i] + sizes[i] <= TotalSize(sizes, 0)
      ensures 0 < sizes[i] <= REGISTER ==> pos[i] / REGISTER == (pos[i] + sizes[i] - 1) / REGISTER
      ensures sizes[i] > REGISTER ==> pos[i] % REGISTER == 0
    {
      PositionInBounds(sizes, 0, i);
      if sizes[i] > 0 {
        PlaceFits(TotalSize(sizes[..i], 0), sizes[i]);
      }
    }
  }

  /** Where a constant may lie: at the start of a register, or in what is left of one. */
  predicate MayLieAt(size: nat, p: nat) { p % REGISTER == 0 || p % REGISTER + size <= REGISTER }

  /** `p` is the first place at or behind `end` where a constant of this size may lie; one without a size lies right
      there. */
  predicate FirstPlace(size: nat, end: nat, p: nat) {
    if size == 0 then p == end
    else end <= p && MayLieAt(size, p) && forall q :: end <= q < p ==> !MayLieAt(size, q)
  }

  lemma PlaceIsFirst(end: nat, size: nat)
    ensures FirstPlace(size, end, Place(end, size))
  {
    if size > 0 {
      forall q | end <= q < Place(end, size)
        ensures !MayLieAt(size, q)
      {
      }
    }
  }

  lemma FirstPlaceIsUnique(size: nat, end: nat, p: nat, q: nat)
    requires FirstPlace(size, end, p) && FirstPlace(size, end, q)
    ensures p == q
  {
  }

  /** The packing rule: every constant lies at the first place behind the one before it where it may lie, and the
      buffer ends with the last one, at `total`. */
  ghost predicate Packed(sizes: seq<nat>, pos: seq<nat>, end: nat, total: nat)
    decreases |sizes|
  {
    && |pos| == |sizes|
    && if sizes == [] then total == end
       else FirstPlace(sizes[0], end, pos[0]) && Packed(sizes[1..], pos[1..], pos[0] + sizes[0], total)
  }

  /** The layout follows the packing rule, so that constants share a register wherever they fit. */
  lemma {:induction false} LayoutIsPacked(sizes: seq<nat>, end: nat)
    ensures Packed(sizes, Positions(sizes, end), end, TotalSize(sizes, end))
    decreases |sizes|
  {
    if sizes == [] {
    } else {
      PlaceIsFirst(end, sizes[0]);
      LayoutIsPacked(sizes[1..], Place(end, sizes[0]) + sizes[0]);
    }
  }

  /** No other layout does. */
  lemma {:induction false} PackedIsLayout(sizes: seq<nat>, pos: seq<nat>, end: nat, total: nat)
    requires Packed(sizes, pos, end, total)
    ensures pos == Positions(sizes, end) && total == TotalSize(sizes, end)
    decreases |sizes|
  {
    if sizes == [] {
    } else {
      PlaceIsFirst(end, sizes[0]);
      FirstPlaceIsUnique(sizes[0], end, pos[0], Place(end, sizes[0]));
      PackedIsLayout(sizes[1..], pos[1..], pos[0] + sizes[0], total);
      assert pos == [pos[0]] + pos[1..];
    }
  }

  /** Two numbers share a register, and a vector of four behind them gets one of its own. */
  lemma TwoNumbersAndAVector(number: nat, vector: nat)
    requires number == SizeOf(Float, 0) && vector == SizeOf(Vec4, 0)
    ensures Positions([number, number, vector], 0) == [0, 4, 16] && TotalSize([number, number, vector], 0) == 32
  {
    LayoutOfThree(number, number, vector);
  }

  lemma LayoutOfThree(a: nat, b: nat, c: nat)
    ensures var p := Place(0, a) + a;
      var q := Place(p, b) + b;
      && Positions([a, b, c], 0) == [Place(0, a), Place(p, b), Place(q, c)]
      && TotalSize([a, b, c], 0) == Place(q, c) + c
  {
    var p := Place(0, a) + a;
    var q := Place(p, b) + b;
    assert [a, b, c][1..] == [b, c] && [b, c][1..] == [c] && [c][1..] == [];
    assert Positions([c], q) == [Place(q, c)];
    assert Positions([b, c], p) == [Place(p, b)] + Positions([c], q);
    assert TotalSize([b, c], p) == TotalSize([c], q);
  }

  // ---------- Contents ----------

  ghost function Zeros(n: nat): (r: bytes)
    ensures |r| == n
    ensures forall i :: 0 <= i < n ==> r[i] == 0
  {
    seq(n, _ => 0)
  }

  /** `value` put at `pos`, with zeros up to there. */
  ghost function Put(data: bytes, pos: nat, value: bytes): bytes {
    (if pos > |data| then data + Zeros(pos - |data|) else data) + value
  }

  /** The buffer for these values, given what is in it already. */
  ghost function Image(values: seq<bytes>, pos: seq<nat>, data: bytes): bytes
    requires |values| == |pos|
    decreases |values|
  {
    if values == [] then data else Image(values[1..], pos[1..], Put(data, pos[0], values[0]))
  }

  ghost predicate Sized(values: seq<bytes>, sizes: seq<nat>) {
    |values| == |sizes| && forall i :: 0 <= i < |values| ==> |values[i]| == sizes[i]
  }

  /** The byte belongs to no parameter. */
  ghost predicate Uncovered(pos: seq<nat>, sizes: seq<nat>, k: nat)
    requires |pos| == |sizes|
  {
    forall i :: 0 <= i < |pos| ==> !(pos[i] <= k < pos[i] + sizes[i])
  }

  lemma {:induction false} ImageExtends(values: seq<bytes>, sizes: seq<nat>, data: bytes)
    requires Sized(values, sizes)
    ensures var image := Image(values, Positions(sizes, |data|), data);
      |image| == TotalSize(sizes, |data|) && data <= image
    decreases |values|
  {
    if values == [] {
    } else {
      var pos := Positions(sizes, |data|);
      var data' := Put(data, pos[0], values[0]);
      assert data <= data';
      assert pos[1..] == Positions(sizes[1..], |data'|);
      ImageExtends(values[1..], sizes[1..], data');
    }
  }

  lemma {:induction false} ImageHoldsValue(values: seq<bytes>, sizes: seq<nat>, data: bytes, i: nat)
    requires Sized(values, sizes) && i < |values|
    ensures var pos := Positions(sizes, |data|);
      var image := Image(values, pos, data);
      pos[i] + sizes[i] <= |image| && image[pos[i]..pos[i] + sizes[i]] == values[i]
    decreases |values|
  {
    var pos := Positions(sizes, |data|);
    var data' := Put(data, pos[0], values[0]);
    assert pos[1..] == Positions(sizes[1..], |data'|);
    if i == 0 {
      ImageExtends(values[1..], sizes[1..], data');
      assert data'[pos[0]..pos[0] + sizes[0]] == values[0];
    } else {
      ImageHoldsValue(values[1..], sizes[1..], data', i - 1);
    }
  }

  lemma {:induction false} ImageZeroElsewhere(values: seq<bytes>, sizes: seq<nat>, data: bytes, k: nat)
    requires Sized(values, sizes)
    requires |data| <= k < TotalSize(sizes, |data|)
    requires Uncovered(Positions(sizes, |data|), sizes, k)
    ensures k < |Image(values, Positions(sizes, |data|), data)|
    ensures Image(values, Positions(sizes, |data|), data)[k] == 0
    decreases |values|
  {
    var pos := Positions(sizes, |data|);
    var data' := Put(data, pos[0], values[0]);
    assert pos[1..] == Positions(sizes[1..], |data'|);
    ImageExtends(values[1..], sizes[1..], data');
    assert !(pos[0] <= k < pos[0] + sizes[0]);
    if k < |data'| {
      assert data'[k] == 0;
    } else {
      UncoveredRest(pos, sizes, k);
      ImageZeroElsewhere(values[1..], sizes[1..], data', k);
    }
  }

  lemma UncoveredRest(pos: seq<nat>, sizes: seq<nat>, k: nat)
    requires |pos| == |sizes| > 0 && Uncovered(pos, sizes, k)
    ensures Uncovered(pos[1..], sizes[1..], k)
  {
    forall i | 0 <= i < |pos| - 1
      ensures !(pos[1..][i] <= k < pos[1..][i] + sizes[1..][i])
    {
      assert !(pos[i + 1] <= k < pos[i + 1] + sizes[i + 1]);
    }
  }

  /** Layout and upload agree: the buffer has the computed size, holds every value at its place, and is zero
      elsewhere. */
  lemma ImageMatchesLayout(values: seq<bytes>, sizes: seq<nat>)
    requires Sized(values, sizes)
    ensures var pos := Positions(sizes, 0);
      var image := Image(values, pos, []);
      && |image| == TotalSize(sizes, 0)
      && (forall i :: 0 <= i < |values| ==>
            pos[i] + sizes[i] <= |image| && image[pos[i]..pos[i] + sizes[i]] == values[i])
      && (forall k :: 0 <= k < |image| && Uncovered(pos, sizes, k) ==> image[k] == 0)
  {
    var pos := Positions(sizes, 0);
    var image := Image(values, pos, []);
    ImageExtends(values, sizes, []);
    forall i | 0 <= i < |values|
      ensures pos[i] + sizes[i] <= |image| && image[pos[i]..pos[i] + sizes[i]] == values[i]
    {
      ImageHoldsValue(values, sizes, [], i);
    }
    forall k | 0 <= k < |image| && Uncovered(pos, sizes, k)
      ensures image[k] == 0
    {
      ImageZeroElsewhere(values, sizes, [], k);
    }
  }

  // ---------- The shader object ----------

  /** The fields of `struct gs_shader_param` that take part. */
  datatype Param = Param(
    kind: ParamType, arrayCount: nat, pos: nat, curValue: bytes, defaultValue: bytes, changed: bool)
  {
    function Size(): nat { SizeOf(kind, arrayCount) }

    /** What the parameter adds to the constant data; textures are bound elsewhere. */
    function Data(): bytes { if kind == Texture then [] else curValue }

    predicate Pending() { kind != Texture && changed }
  }

  function Sizes(params: seq<Param>): (r: seq<nat>)
    ensures |r| == |params|
  {
    seq(|params|, i requires 0 <= i < |params| => params[i].Size())
  }

  function Values(params: seq<Param>): (r: seq<bytes>)
    ensures |r| == |params|
  {
    seq(|params|, i requires 0 <= i < |params| => params[i].Data())
  }

  ghost predicate NonePending(params: seq<Param>) {
    forall i :: 0 <= i < |params| ==> !params[i].Pending()
  }

  /** Every value has its declared size. */
  ghost predicate AllSized(params: seq<Param>) { Sized(Values(params), Sizes(params)) }

  /** The buffer that belongs to the parameters' present values. */
  ghost function ImageOf(params: seq<Param>): bytes {
    Image(Values(params), Positions(Sizes(params), 0), [])
  }

  /** The constant buffer is up to date, unless a value is still to be uploaded or has the wrong size. */
  ghost predicate InSync(params: seq<Param>, gpu: bytes) {
    AllSized(params) && NonePending(params) ==> gpu == ImageOf(params)
  }

  /** The parameters carry the positions of the layout. */
  ghost predicate LaidOut(params: seq<Param>, constantSize: nat) {
    && constantSize == TotalSize(Sizes(params), 0)
    && forall i :: 0 <= i < |params| && params[i].kind != Texture ==> params[i].pos == Positions(Sizes(params), 0)[i]
  }

  /** The layout of the first `i` parameters is done, and they end at `end`. */
  ghost predicate LaidUpTo(params: seq<Param>, i: nat, end: nat)
    requires i <= |params|
  {
    var sizes := Sizes(params);
    && TotalSize(sizes[i..], end) == TotalSize(sizes, 0)
    && Positions(sizes, 0)[i..] == Positions(sizes[i..], end)
    && forall j :: 0 <= j < i && params[j].kind != Texture ==> params[j].pos == Positions(sizes, 0)[j]
  }

  lemma LaidStep(before: seq<Param>, after: seq<Param>, i: nat, end: nat, end': nat)
    requires i < |before| == |after| && LaidUpTo(before, i, end) && Sizes(after) == Sizes(before)
    requires after == before[i := before[i].(pos := after[i].pos)]
    requires end' == Place(end, after[i].Size()) + after[i].Size()
    requires after[i].kind != Texture ==> after[i].pos == Place(end, after[i].Size())
    ensures LaidUpTo(after, i + 1, end')
  {
    LayoutStep(Positions(Sizes(before), 0), Sizes(before), i, end);
  }

  class Shader {
    var params: seq<Param>
    var constantSize: nat

    /** What the last successful upload left in the constant buffer. */
    var gpu: bytes

    ghost predicate Valid()
      reads this
    {
      LaidOut(params, constantSize) && InSync(params, gpu)
    }

    /** A shader from freshly parsed parameters: the layout is computed, then the defaults are set. */
    constructor (parsed: seq<Param>)
      requires forall i :: 0 <= i < |parsed| ==> parsed[i].curValue == [] && !parsed[i].changed
      ensures Valid()
      ensures Sizes(params) == Sizes(parsed)
    {
      params, constantSize, gpu := parsed, 0, [];
      new;
      BuildConstantBuffer();
      SetDefaults();
    }

    method BuildConstantBuffer()
      requires constantSize == 0 && gpu == []
      requires forall i :: 0 <= i < |params| ==> params[i].curValue == []
      modifies this`params, this`constantSize
      ensures Valid()
      ensures Sizes(params) == old(Sizes(params))
    {
      ghost var parsed := params;
      var i := 0;
      assert Sizes(params)[0..] == Sizes(params);
      while i < |params|
        invariant 0 <= i <= |params| == |parsed|
        invariant Sizes(params) == Sizes(parsed)
        invariant forall j :: 0 <= j < |params| ==> params[j].curValue == []
        invariant LaidUpTo(params, i, constantSize)
      {
        ghost var before, end := params, constantSize;
        PlaceParam(i);
        LaidStep(before, params, i, end, constantSize);
        i := i + 1;
      }
      UnsetIsNotSized(params);
    }

    /** The body of the layout loop. */
    method PlaceParam(i: nat)
      requires i < |params|
      modifies this`params, this`constantSize
      ensures Sizes(params) == old(Sizes(params))
      ensures params == old(params)[i := old(params)[i].(pos := params[i].pos)]
      ensures constantSize == Place(old(constantSize), params[i].Size()) + params[i].Size()
      ensures params[i].kind != Texture ==> params[i].pos == Place(old(constantSize), params[i].Size())
    {
      if params[i].kind == Texture {
        return;
      }
      var size := params[i].Size();
      if size > 0 && constantSize % REGISTER != 0 {
        var alignMax := NextRegister(constantSize);
        if size + constantSize > alignMax {
          constantSize := alignMax;
        }
      }
      params := params[i := params[i].(pos := constantSize)];
      constantSize := constantSize + size;
    }

    method SetDefaults()
      requires Valid()
      modifies this`params
      ensures Valid()
      ensures Sizes(params) == old(Sizes(params))
    {
      var i := 0;
      while i < |params|
        invariant Valid()
        invariant Sizes(params) == old(Sizes(params))
      {
        if |params[i].defaultValue| > 0 {
          SetValue(i, params[i].defaultValue);
        }
        i := i + 1;
      }
    }

    /** `shader_setval_inline` */
    method SetValue(i: nat, data: bytes)
      requires Valid() && i < |params|
      modifies this`params
      ensures Valid()
      ensures params == old(params)[i := old(params)[i].(
        curValue := data, changed := old(params)[i].changed || old(params)[i].curValue != data)]
      ensures Sizes(params) == old(Sizes(params))
    {
      var param := params[i];
      var sizeChanged := |param.curValue| != |data|;
      if sizeChanged || param.curValue != data {
        params := params[i := param.(curValue := data, changed := true)];
      }
      SetKeepsSync(old(params), params, i, gpu);
    }

    /** `UpdateParam`: pads up to the parameter's place and adds its value. */
    method UpdateParam(i: nat, data: bytes) returns (r: bytes, thrown: bool, upload: bool)
      requires i < |params|
      modifies this`params
      ensures params ==
        old(params)[i := if thrown || !upload then old(params[i]) else old(params[i]).(changed := false)]
      ensures thrown == (params[i].kind != Texture && params[i].curValue == [])
      ensures !thrown ==> upload == old(params[i]).Pending()
      ensures !thrown ==> r == if params[i].kind == Texture then data else Put(data, params[i].pos, params[i].curValue)
    {
      r, thrown, upload := data, false, false;
      if params[i].kind != Texture {
        if |params[i].curValue| == 0 {
          return data, true, false;
        }
        if params[i].pos > |r| {
          r := r + seq(params[i].pos - |r|, _ => 0);
        }
        r := r + params[i].curValue;
        if params[i].changed {
          upload := true;
          params := params[i := params[i].(changed := false)];
        }
      }
    }

    /** The loop of `UploadParams`. */
    method Fill() returns (thrown: bool, constData: bytes, upload: bool)
      requires LaidOut(params, constantSize)
      modifies this`params
      ensures SameButFlags(old(params), params)
      ensures old(AllSized(params)) ==> !thrown && NonePending(params) && constData == ImageOf(old(params))
      ensures !thrown ==> upload == !old(NonePending(params))
    {
      constData, upload := [], false;
      ghost var was, sized := params, AllSized(params);
      var i := 0;
      FillStart(was);
      while i < |params|
        invariant 0 <= i <= |params| == |was|
        invariant FilledFlags(was, params, i)
        invariant sized ==> Filled(was, i, constData)
        invariant upload <==> !NonePending(was[..i])
      {
        ghost var before, data := params, constData;
        var stop, uploadNow;
        constData, stop, uploadNow := UpdateParam(i, constData);
        FillTurn(was, before, params, i, data, constData, stop, uploadNow);
        if stop {
          return true, constData, upload;
        }
        upload := upload || uploadNow;
        i := i + 1;
      }
      FillEnd(was, constData);
      assert was[..i] == was;
      return false, constData, upload;
    }

    /** `UploadParams`; the result tells whether an exception left it. Where the buffer cannot be mapped, the flags are
        cleared all the same, so that the next call does not upload either. */
    method UploadParams(mapSucceeds: bool) returns (thrown: bool)
      requires LaidOut(params, constantSize)
      modifies this`params, this`gpu
      ensures SameButFlags(old(params), params)
      ensures old(AllSized(params)) ==> NonePending(params) && thrown == (!mapSucceeds && !old(NonePending(params)))
      ensures old(AllSized(params)) ==>
        gpu == if mapSucceeds && !old(NonePending(params)) then ImageOf(old(params)) else old(gpu)
    {
      var constData, upload;
      ghost var was := params;
      thrown, constData, upload := Fill();
      ImageSize(was);
      if thrown || |constData| != constantSize {
        return true;
      }
      if upload {
        if !mapSucceeds {
          return true;
        }
        gpu := constData;
      }
      return false;
    }

    /** After an upload the buffer holds the parameters' present values, and so it does over any run of settings and
        uploads that starts with a new shader; unless the buffer could not be mapped while it was out of date. */
    method Upload(mapSucceeds: bool)
      requires Valid()
      modifies this`params, this`gpu
      ensures LaidOut(params, constantSize) && Values(params) == old(Values(params))
      ensures old(AllSized(params)) ==>
        ((gpu == ImageOf(params)) <==> (mapSucceeds || old(NonePending(params)) || old(gpu == ImageOf(params))))
      ensures mapSucceeds ==> Valid()
    {
      ghost var was := params;
      var thrown := UploadParams(mapSucceeds);
      SameData(was, params);
      ImageOfData(was, params);
    }
  }

  /** A number that was set, a draw whose map fails, and another one: the number is never uploaded. */
  method FailedMapLosesValue(shader: Shader)
    requires shader.params == [Param(Float, 0, 0, [1, 2, 3, 4], [], true)] && shader.constantSize == 4
    requires shader.gpu == [0, 0, 0, 0]
    modifies shader
    ensures ImageOf(shader.params) == [1, 2, 3, 4] && NonePending(shader.params)
    ensures shader.gpu == [0, 0, 0, 0]
  {
    OneNumber(shader.params);
    ghost var was := shader.params;
    var thrown := shader.UploadParams(false);
    SameData(was, shader.params);
    ghost var between := shader.params;
    var thrownAgain := shader.UploadParams(true);
    SameData(between, shader.params);
    ImageOfData(was, shader.params);
  }

  lemma OneNumber(params: seq<Param>)
    requires params == [Param(Float, 0, 0, [1, 2, 3, 4], [], true)]
    ensures LaidOut(params, 4) && AllSized(params) && ImageOf(params) == [1, 2, 3, 4]
  {
    assert Sizes(params) == [4] && Values(params) == [[1, 2, 3, 4]];
    assert Positions([4], 0) == [0] + Positions([4][1..], 4) && [4][1..] == [];
    ImageMatchesLayout(Values(params), Sizes(params));
    assert TotalSize([4], 0) == TotalSize([4][1..], 4) == 4;
    assert ImageOf(params)[0..4] == ImageOf(params);
  }

  /** The first `i` parameters have been read, and their flags cleared. */
  ghost predicate FilledFlags(was: seq<Param>, now: seq<Param>, i: nat)
    requires i <= |was| == |now|
  {
    && (forall j :: 0 <= j < i ==> now[j] == was[j].(changed := now[j].changed) && !now[j].Pending())
    && (forall j :: i <= j < |now| ==> now[j] == was[j])
  }

  /** The data is what the first `i` parameters leave, and the others fill it up to the image. */
  ghost predicate Filled(params: seq<Param>, i: nat, data: bytes)
    requires i <= |params|
  {
    var sizes := Sizes(params);
    var pos := Positions(sizes, 0);
    && TotalSize(sizes[i..], |data|) == TotalSize(sizes, 0)
    && pos[i..] == Positions(sizes[i..], |data|)
    && Image(Values(params)[i..], pos[i..], data) == ImageOf(params)
  }

  lemma FillStart(params: seq<Param>)
    ensures Filled(params, 0, [])
  {
    var sizes := Sizes(params);
    assert sizes[0..] == sizes && Positions(sizes, 0)[0..] == Positions(sizes, 0);
    assert Values(params)[0..] == Values(params);
  }

  /** One turn of the loop, given what `UpdateParam` did. */
  lemma FillTurn(was: seq<Param>, before: seq<Param>, after: seq<Param>, i: nat, data: bytes, r: bytes,
                 thrown: bool, uploadNow: bool)
    requires i < |was| == |before| && FilledFlags(was, before, i) && LaidOut(was, TotalSize(Sizes(was), 0))
    requires after == before[i := if thrown || !uploadNow then before[i] else before[i].(changed := false)]
    requires thrown == (after[i].kind != Texture && after[i].curValue == [])
    requires !thrown ==> uploadNow == before[i].Pending()
    requires !thrown ==> r == if after[i].kind == Texture then data else Put(data, after[i].pos, after[i].curValue)
    ensures !thrown ==> FilledFlags(was, after, i + 1)
    ensures AllSized(was) && Filled(was, i, data) ==> !thrown && Filled(was, i + 1, r)
    ensures !thrown ==> (!NonePending(was[..i + 1]) <==> !NonePending(was[..i]) || uploadNow)
    ensures SameButFlags(was, after)
  {
    FillStep(was, i, data);
    PendingStep(was, i);
  }

  lemma FillStep(params: seq<Param>, i: nat, data: bytes)
    requires i < |params|
    ensures AllSized(params) && Filled(params, i, data) && LaidOut(params, TotalSize(Sizes(params), 0)) ==>
      && (params[i].kind != Texture ==> params[i].curValue != [])
      && Filled(params, i + 1, if params[i].kind == Texture then data else Put(data, params[i].pos, params[i].curValue))
  {
    if AllSized(params) && Filled(params, i, data) && LaidOut(params, TotalSize(Sizes(params), 0)) {
      var sizes, vals := Sizes(params), Values(params);
      var pos := Positions(sizes, 0);
      LayoutStep(pos, sizes, i, |data|);
      assert |vals[i]| == sizes[i];
      assert vals[i..][0] == vals[i] && vals[i..][1..] == vals[i + 1..];
      assert pos[i..][0] == pos[i] && pos[i..][1..] == pos[i + 1..];
      assert Put(data, pos[i], vals[i]) ==
        if params[i].kind == Texture then data else Put(data, params[i].pos, params[i].curValue);
    }
  }

  lemma FillEnd(params: seq<Param>, data: bytes)
    ensures Filled(params, |params|, data) ==> data == ImageOf(params) && |data| == TotalSize(Sizes(params), 0)
  {
  }

  lemma PendingStep(params: seq<Param>, i: nat)
    requires i < |params|
    ensures NonePending(params[..i + 1]) <==> NonePending(params[..i]) && !params[i].Pending()
  {
    assert forall j :: 0 <= j < i ==> params[..i + 1][j] == params[..i][j];
    assert params[..i + 1][i] == params[i];
  }

  ghost predicate SameButFlags(before: seq<Param>, after: seq<Param>) {
    && |before| == |after|
    && forall i :: 0 <= i < |before| ==> after[i] == before[i].(changed := after[i].changed)
  }

  lemma ImageSize(params: seq<Param>)
    ensures AllSized(params) ==> |ImageOf(params)| == TotalSize(Sizes(params), 0)
  {
    if AllSized(params) {
      ImageExtends(Values(params), Sizes(params), []);
    }
  }

  /** Clearing flags changes neither sizes nor values nor places. */
  lemma SameData(before: seq<Param>, after: seq<Param>)
    requires SameButFlags(before, after)
    ensures Sizes(after) == Sizes(before) && Values(after) == Values(before)
  {
  }

  lemma ImageOfData(before: seq<Param>, after: seq<Param>)
    requires Sizes(after) == Sizes(before) && Values(after) == Values(before)
    ensures ImageOf(after) == ImageOf(before) && AllSized(after) == AllSized(before)
  {
  }

  lemma LayoutStep(pos: seq<nat>, sizes: seq<nat>, i: nat, end: nat)
    requires i < |sizes| == |pos|
    requires pos[i..] == Positions(sizes[i..], end)
    ensures pos[i] == Place(end, sizes[i])
    ensures pos[i + 1..] == Positions(sizes[i + 1..], Place(end, sizes[i]) + sizes[i])
    ensures TotalSize(sizes[i..], end) == TotalSize(sizes[i + 1..], Place(end, sizes[i]) + sizes[i])
  {
    SuffixStep(sizes, i, sizes[i..]);
    PositionsUnfold(sizes[i..], end);
    SuffixStep(pos, i, Positions(sizes[i..], end));
  }

  lemma SuffixStep(s: seq<nat>, i: nat, rest: seq<nat>)
    requires i < |s| && rest == s[i..]
    ensures rest[0] == s[i] && rest[1..] == s[i + 1..]
  {
  }

  lemma PositionsUnfold(sizes: seq<nat>, end: nat)
    requires sizes != []
    ensures var next := Place(end, sizes[0]) + sizes[0];
      && Positions(sizes, end)[0] == Place(end, sizes[0])
      && Positions(sizes, end)[1..] == Positions(sizes[1..], next)
      && TotalSize(sizes, end) == TotalSize(sizes[1..], next)
  {
  }

  /** Values that were never set are not sized, unless nothing takes up room at all. */
  lemma UnsetIsNotSized(params: seq<Param>)
    requires forall i :: 0 <= i < |params| ==> params[i].curValue == []
    ensures AllSized(params) ==> ImageOf(params) == []
  {
    if AllSized(params) {
      forall i | 0 <= i < |params|
        ensures Sizes(params)[i] == 0
      {
        assert |Values(params)[i]| == Sizes(params)[i];
      }
      NothingToPlace(Values(params), Sizes(params));
    }
  }

  lemma {:induction false} NothingToPlace(values: seq<bytes>, sizes: seq<nat>)
    requires Sized(values, sizes) && forall i :: 0 <= i < |sizes| ==> sizes[i] == 0
    ensures Image(values, Positions(sizes, 0), []) == []
    decreases |values|
  {
    if values == [] {
    } else {
      assert Positions(sizes, 0)[1..] == Positions(sizes[1..], 0);
      NothingToPlace(values[1..], sizes[1..]);
    }
  }

  lemma SetKeepsSync(before: seq<Param>, after: seq<Param>, i: nat, gpu: bytes)
    requires i < |before| == |after| && InSync(before, gpu)
    requires after == before || after == before[i := before[i].(curValue := after[i].curValue, changed := true)]
    ensures Sizes(after) == Sizes(before)
    ensures InSync(after, gpu)
  {
    if after != before {
      if after[i].kind == Texture {
        assert Values(after) == Values(before);
        assert NonePending(after) ==> NonePending(before) by {
          if NonePending(after) {
            assert forall j :: 0 <= j < |before| ==> after[j].Pending() == before[j].Pending();
          }
        }
      } else {
        assert after[i].Pending();
      }
    }
  }
}
