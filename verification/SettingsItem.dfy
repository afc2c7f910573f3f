/** The types of settings (`enum obs_data_type`, libobs/obs-data.h); integers and reals share one. */
module SettingsKinds {
  datatype Kind = String | Number | Boolean | Object | Array
}

/**
 The packed settings item of libobs/obs-data.c. One allocation holds the item's header, its name, the user value, the
 default value and the autoselect value, one behind the other; lengths are kept aside and bytes are moved in place.
 The item refines a record of three optional values.
 */
module SettingsItem {
  import opened Bytes
  import opened SettingsKinds

  const ALIGNMENT: nat := 32

  // ---------- The record the item stands for ----------

  datatype Slot = User | Default | Autoselect

  datatype Record = Record(user: Option<seq<byte>>, def: Option<seq<byte>>, auto: Option<seq<byte>>)
  {
    function Get(slot: Slot): Option<seq<byte>> {
      match slot
      case User => user
      case Default => def
      case Autoselect => auto
    }

    function With(slot: Slot, value: Option<seq<byte>>): Record {
      match slot
      case User => this.(user := value)
      case Default => this.(def := value)
      case Autoselect => this.(auto := value)
    }

    /** What a plain read yields: the user value, else the default, else the autoselect value. */
    function Effective(): Option<seq<byte>> {
      if user.Some? then user else if def.Some? then def else auto
    }
  }

  /** A value of size zero counts as no value. */
  function Value(data: seq<byte>): Option<seq<byte>> {
    if data == [] then None else Some(data)
  }

  /** The values of an item and the one type it has for all of them. */
  datatype Typed = Typed(values: Record, kind: Kind)

  datatype Op = Set(slot: Slot, data: seq<byte>, kind: Kind) | Unset(slot: Slot) | Clear

  function Target(op: Op): Slot {
    match op
    case Set(slot, _, _) => slot
    case Unset(slot) => slot
    case Clear => User
  }

  function NewValue(op: Op): Option<seq<byte>> {
    match op
    case Set(_, data, _) => Value(data)
    case Unset(_) => None
    case Clear => None
  }

  /** A default of another type than the item's is ignored. */
  predicate Takes(kind: Kind, op: Op) { op.Set? && op.slot == Default ==> op.kind == kind }

  function KindAfter(kind: Kind, op: Op): Kind { if op.Set? && Takes(kind, op) then op.kind else kind }

  function Apply(s: Typed, op: Op): Typed {
    if Takes(s.kind, op) then Typed(s.values.With(Target(op), NewValue(op)), KindAfter(s.kind, op)) else s
  }

  function Replay(s: Typed, ops: seq<Op>): Typed
    decreases |ops|
  {
    if ops == [] then s else Apply(Replay(s, ops[..|ops| - 1]), ops[|ops| - 1])
  }

  function KindAfterAll(kind: Kind, ops: seq<Op>): Kind
    decreases |ops|
  {
    if ops == [] then kind else KindAfter(KindAfterAll(kind, ops[..|ops| - 1]), ops[|ops| - 1])
  }

  /** The operations on one value that were not ignored. */
  function Touching(kind: Kind, ops: seq<Op>, slot: Slot): seq<Op>
    decreases |ops|
  {
    if ops == [] then []
    else
      var before, op := ops[..|ops| - 1], ops[|ops| - 1];
      var rest := Touching(kind, before, slot);
      if Target(op) == slot && Takes(KindAfterAll(kind, before), op) then rest + [op] else rest
  }

  lemma ReplayStep(s: Typed, ops: seq<Op>, i: nat)
    requires i < |ops|
    ensures Replay(s, ops[..i + 1]) == Apply(Replay(s, ops[..i]), ops[i])
  {
    assert ops[..i + 1][..i] == ops[..i];
  }

  /** What the last of them left. */
  function Left(s: Typed, ops: seq<Op>, slot: Slot): Option<seq<byte>> {
    var own := Touching(s.kind, ops, slot);
    if own == [] then s.values.Get(slot) else NewValue(own[|own| - 1])
  }

  /** Over whole runs each value depends on its own operations alone: it is what the last of them left. */
  lemma {:induction false} SlotsAreIndependent(s: Typed, ops: seq<Op>, slot: Slot)
    ensures Replay(s, ops).values.Get(slot) == Left(s, ops, slot)
    ensures Replay(s, ops).kind == KindAfterAll(s.kind, ops)
    decreases |ops|
  {
    if ops == [] {
    } else {
      SlotsAreIndependent(s, ops[..|ops| - 1], slot);
    }
  }

  /** A default of the item's type takes the place of the one before, one of another type changes nothing. */
  lemma OtherDefaultsIgnored(s: Typed, data: seq<byte>, kind: Kind)
    ensures var r := Apply(s, Set(Default, data, kind));
      && r.kind == s.kind && r.values.user == s.values.user && r.values.auto == s.values.auto
      && r.values.def == if kind == s.kind then Value(data) else s.values.def
  {
  }

  /** The values that were set for the user or selected automatically. */
  function Retyping(ops: seq<Op>): seq<Op>
    decreases |ops|
  {
    if ops == [] then []
    else
      var rest, op := Retyping(ops[..|ops| - 1]), ops[|ops| - 1];
      if op.Set? && op.slot != Default then rest + [op] else rest
  }

  /** Over whole runs the last of these gives the item its type; no default ever does. */
  lemma {:induction false} TypeOverRuns(s: Typed, ops: seq<Op>)
    ensures var own := Retyping(ops);
      && (own == [] ==> Replay(s, ops).kind == s.kind)
      && (own != [] ==> own[|own| - 1].Set? && Replay(s, ops).kind == own[|own| - 1].kind)
    decreases |ops|
  {
    if ops == [] {
    } else {
      TypeOverRuns(s, ops[..|ops| - 1]);
    }
  }

  function EffectiveAfter(s: Typed, ops: seq<Op>): Option<seq<byte>> {
    if Left(s, ops, User).Some? then Left(s, ops, User)
    else if Left(s, ops, Default).Some? then Left(s, ops, Default)
    else Left(s, ops, Autoselect)
  }

  lemma AllSettled(s: Typed, ops: seq<Op>)
    ensures forall slot :: Replay(s, ops).values.Get(slot) == Left(s, ops, slot)
    ensures Replay(s, ops).values.Effective() == EffectiveAfter(s, ops)
    ensures Replay(s, ops).kind == KindAfterAll(s.kind, ops)
  {
    var values := Replay(s, ops).values;
    SlotsAreIndependent(s, ops, User);
    SlotsAreIndependent(s, ops, Default);
    SlotsAreIndependent(s, ops, Autoselect);
    assert values.Get(User) == values.user && values.Get(Default) == values.def;
    assert values.Get(Autoselect) == values.auto;
  }

  // ---------- Sizes ----------

  function AlignUp(size: nat): (r: nat)
    ensures size <= r < size + ALIGNMENT
    ensures r % ALIGNMENT == 0
    ensures size % ALIGNMENT == 0 ==> r == size
  {
    (size + ALIGNMENT - 1) / ALIGNMENT * ALIGNMENT
  }

  lemma AlignZero()
    ensures AlignUp(0) == 0
  {
  }

  /** `get_name_align_size`: pads the name so that what follows header and name is aligned. */
  function NameAlignSize(headerSize: nat, nameSize: nat): (r: nat)
    ensures r >= nameSize
    ensures (headerSize + r) % ALIGNMENT == 0
  {
    AlignUp(headerSize + nameSize) - headerSize
  }

  // ---------- Bytes in memory ----------

  /** `s` with `data` written over it from position `at` on. */
  function Splice(s: seq<byte>, at: nat, data: seq<byte>): (r: seq<byte>)
    requires at + |data| <= |s|
    ensures |r| == |s|
  {
    s[..at] + data + s[at + |data|..]
  }

  /** Writing changes only the bytes written, and those read back as written. */
  lemma SpliceSlice(s: seq<byte>, at: nat, data: seq<byte>, a: nat, b: nat)
    requires at + |data| <= |s| && a <= b <= |s|
    ensures b <= at || at + |data| <= a ==> Splice(s, at, data)[a..b] == s[a..b]
    ensures at <= a && b <= at + |data| ==> Splice(s, at, data)[a..b] == data[a - at..b - at]
  {
    var r := Splice(s, at, data);
    assert forall i :: 0 <= i < |s| ==> r[i] == if at <= i < at + |data| then data[i - at] else s[i];
  }

  // ---------- The layout of the packed item ----------

  /** The length and size fields of `struct obs_data_item`. */
  datatype Layout = Layout(
    headerSize: nat, nameSize: nat, nameLen: nat,
    dataLen: nat, dataSize: nat, defaultLen: nat, defaultSize: nat, autoselectSize: nat)
  {
    function DataPtr(): nat { headerSize + nameLen }
    function DefaultPtr(): nat { DataPtr() + dataLen }
    function AutoselectPtr(): nat { DefaultPtr() + defaultLen }
    function TotalSize(): nat { AutoselectPtr() + autoselectSize }

    /** A region's length is its size, or its size rounded up; rounded up it must be whenever something lies behind
        it. */
    predicate Ok() {
      && nameLen == NameAlignSize(headerSize, nameSize)
      && (dataLen == dataSize || dataLen == AlignUp(dataSize))
      && (defaultLen == defaultSize || defaultLen == AlignUp(defaultSize))
      && (defaultSize > 0 || autoselectSize > 0 ==> dataLen == AlignUp(dataSize))
      && (autoselectSize > 0 ==> defaultLen == AlignUp(defaultSize))
    }

    predicate Fits(bytes: seq<byte>) {
      nameSize <= nameLen && dataSize <= dataLen && defaultSize <= defaultLen && TotalSize() <= |bytes|
    }

    /** The name and the three values found in memory. */
    function Name(bytes: seq<byte>): seq<byte>
      requires Fits(bytes)
    {
      bytes[headerSize..headerSize + nameSize]
    }

    function View(bytes: seq<byte>): Record
      requires Fits(bytes)
    {
      Record(Value(bytes[DataPtr()..DataPtr() + dataSize]),
             Value(bytes[DefaultPtr()..DefaultPtr() + defaultSize]),
             Value(bytes[AutoselectPtr()..AutoselectPtr() + autoselectSize]))
    }
  }

  /** A well-formed layout over `bytes` that hold the given name and values. */
  ghost predicate Holds(l: Layout, bytes: seq<byte>, name: seq<byte>, r: Record) {
    l.Ok() && l.Fits(bytes) && l.Name(bytes) == name && l.View(bytes) == r
  }

  /** The regions lie in order, in bounds and aligned. */
  lemma RegionsAligned(l: Layout)
    requires l.Ok()
    ensures l.headerSize + l.nameSize <= l.DataPtr()
    ensures l.DataPtr() + l.dataSize <= l.DefaultPtr() && l.DefaultPtr() + l.defaultSize <= l.AutoselectPtr()
    ensures l.DataPtr() % ALIGNMENT == 0
    ensures l.defaultSize > 0 ==> l.DefaultPtr() % ALIGNMENT == 0
    ensures l.autoselectSize > 0 ==> l.AutoselectPtr() % ALIGNMENT == 0
  {
    var data, default := l.DataPtr(), l.DefaultPtr();
    assert data % ALIGNMENT == 0;
    if l.defaultSize > 0 || l.autoselectSize > 0 {
      SumAligned(data, l.dataLen);
    }
    if l.autoselectSize > 0 {
      SumAligned(default, l.defaultLen);
    }
  }

  lemma SumAligned(a: nat, b: nat)
    requires a % ALIGNMENT == 0 && b % ALIGNMENT == 0
    ensures (a + b) % ALIGNMENT == 0
  {
  }

  /** A region takes up room exactly when it holds a value, so the lengths tell as much as the sizes. */
  lemma LengthsTellSizes(l: Layout)
    requires l.Ok()
    ensures l.dataLen == 0 <==> l.dataSize == 0
    ensures l.defaultLen + l.autoselectSize > 0 <==> l.defaultSize > 0 || l.autoselectSize > 0
  {
    AlignZero();
  }

  /** The layouts after setting a value, as `obs_data_item_setdata`, `obs_data_item_set_default_data` and
      `obs_data_item_set_autoselect_data` compute them. */
  function WithSize(l: Layout, slot: Slot, size: nat): Layout {
    match slot
    case User => l.(
      dataSize := size, dataLen := if l.defaultSize > 0 || l.autoselectSize > 0 then AlignUp(size) else size)
    case Default => l.(
      defaultSize := size, defaultLen := if l.autoselectSize > 0 then AlignUp(size) else size,
      dataLen := if l.dataSize > 0 then AlignUp(l.dataSize) else 0)
    case Autoselect => l.(
      autoselectSize := size,
      dataLen := if l.dataSize > 0 then AlignUp(l.dataSize) else 0,
      defaultLen := if l.defaultSize > 0 then AlignUp(l.defaultSize) else 0)
  }

  /** Setting a value keeps the alignment invariant; and a value that lies before the one being set never moves, because
      its length was rounded up already or nothing was stored behind it. */
  lemma WithSizeOk(l: Layout, slot: Slot, size: nat)
    requires l.Ok()
    ensures var l' := WithSize(l, slot, size);
      && l'.Ok()
      && (slot == Default && (l.defaultSize > 0 || l.autoselectSize > 0) ==> l'.DefaultPtr() == l.DefaultPtr())
      && (slot == Autoselect && l.defaultSize > 0 ==> l'.DefaultPtr() == l.DefaultPtr())
      && (slot == Autoselect && l.autoselectSize > 0 ==> l'.AutoselectPtr() == l.AutoselectPtr())
  {
    AlignZero();
  }

  // ---------- What the byte moves do to the values ----------

  /** A block that was moved is found again at its new place. */
  lemma MovedSlice(bytes: seq<byte>, dst: nat, src: nat, len: nat, a: nat, n: nat)
    requires dst + len <= |bytes| && src + len <= |bytes|
    requires a + n <= len
    ensures Splice(bytes, dst, bytes[src..src + len])[dst + a..dst + a + n] == bytes[src + a..src + a + n]
  {
    SpliceSlice(bytes, dst, bytes[src..src + len], dst + a, dst + a + n);
  }

  function MovedIf(cond: bool, bytes: seq<byte>, dst: nat, src: nat, len: nat): (r: seq<byte>)
    requires cond ==> dst + len <= |bytes| && src + len <= |bytes|
    ensures |r| == |bytes|
  {
    if cond then Splice(bytes, dst, bytes[src..src + len]) else bytes
  }

  /** The two raw steps that end every setter: a block moved if there is one, then a value written. */
  function Rewritten(bytes: seq<byte>, cond: bool, dst: nat, src: nat, len: nat, at: nat, data: seq<byte>)
    : (r: seq<byte>)
    requires cond ==> dst + len <= |bytes| && src + len <= |bytes|
    requires at + |data| <= |bytes|
    ensures |r| == |bytes|
  {
    Splice(MovedIf(cond, bytes, dst, src, len), at, data)
  }

  /** Everything behind the user value moved along with a change of that value's length: the values there and the name
      are the same. */
  lemma BehindUserMoved(l: Layout, l': Layout, bytes: seq<byte>, behind: bool, dst: nat, src: nat, len: nat)
    requires l.Fits(bytes) && l'.Fits(bytes)
    requires l' == l.(dataLen := l'.dataLen, dataSize := l'.dataSize)
    requires behind == (l.defaultSize > 0 || l.autoselectSize > 0)
    requires dst == l'.DefaultPtr() && src == l.DefaultPtr() && len == l.defaultLen + l.autoselectSize
    ensures var moved := MovedIf(behind, bytes, dst, src, len);
      && l'.View(moved).def == l.View(bytes).def
      && l'.View(moved).auto == l.View(bytes).auto
      && l'.Name(moved) == l.Name(bytes)
  {
    if behind {
      MovedSlice(bytes, dst, src, len, 0, l.defaultSize);
      MovedSlice(bytes, dst, src, len, l.defaultLen, l.autoselectSize);
      SpliceSlice(bytes, dst, bytes[src..src + len], l.headerSize, l.headerSize + l.nameSize);
    }
  }

  /** The same for the autoselect value behind the default value; what lies before is not touched. */
  lemma AutoselectMoved(l: Layout, l': Layout, bytes: seq<byte>, behind: bool, dst: nat, src: nat)
    requires l.Fits(bytes) && l'.Fits(bytes)
    requires l' == l.(dataLen := l'.dataLen, defaultLen := l'.defaultLen, defaultSize := l'.defaultSize)
    requires behind == (l.autoselectSize > 0)
    requires dst == l'.AutoselectPtr() && src == l.AutoselectPtr()
    ensures var moved := MovedIf(behind, bytes, dst, src, l.autoselectSize);
      && l'.View(moved).user == l.View(bytes).user
      && l'.View(moved).auto == l.View(bytes).auto
      && l'.Name(moved) == l.Name(bytes)
  {
    if behind {
      var len := l.autoselectSize;
      MovedSlice(bytes, dst, src, len, 0, len);
      SpliceSlice(bytes, dst, bytes[src..src + len], l.headerSize, l.headerSize + l.nameSize);
      SpliceSlice(bytes, dst, bytes[src..src + len], l.DataPtr(), l.DataPtr() + l.dataSize);
    }
  }

  /** A larger allocation with the same beginning holds the same values. */
  lemma GrownView(l: Layout, bytes: seq<byte>, grown: seq<byte>)
    requires l.Fits(bytes) && bytes <= grown
    ensures l.Fits(grown) && l.View(grown) == l.View(bytes) && l.Name(grown) == l.Name(bytes)
  {
    assert forall a, b :: 0 <= a <= b <= |bytes| ==> grown[a..b] == bytes[a..b];
  }

  /** The place of a value. */
  function Start(l: Layout, slot: Slot): nat {
    match slot
    case User => l.DataPtr()
    case Default => l.DefaultPtr()
    case Autoselect => l.AutoselectPtr()
  }

  function Size(l: Layout, slot: Slot): nat {
    match slot
    case User => l.dataSize
    case Default => l.defaultSize
    case Autoselect => l.autoselectSize
  }

  lemma ValueAt(l: Layout, bytes: seq<byte>, slot: Slot)
    requires l.Fits(bytes)
    ensures Start(l, slot) + Size(l, slot) <= |bytes|
    ensures l.View(bytes).Get(slot) == Value(bytes[Start(l, slot)..Start(l, slot) + Size(l, slot)])
  {
  }

  lemma RegionsApart(l: Layout, slot: Slot, other: Slot)
    requires l.dataSize <= l.dataLen && l.defaultSize <= l.defaultLen && other != slot
    ensures Start(l, slot) + Size(l, slot) <= Start(l, other) || Start(l, other) + Size(l, other) <= Start(l, slot)
  {
  }

  lemma OtherValueKept(l: Layout, bytes: seq<byte>, slot: Slot, data: seq<byte>, other: Slot)
    requires l.Fits(bytes) && Size(l, slot) == |data| && other != slot
    ensures Start(l, slot) + |data| <= |bytes|
    ensures l.View(Splice(bytes, Start(l, slot), data)).Get(other) == l.View(bytes).Get(other)
  {
    ValueAt(l, bytes, slot);
    ValueAt(l, bytes, other);
    ValueAt(l, Splice(bytes, Start(l, slot), data), other);
    RegionsApart(l, slot, other);
    SpliceSlice(bytes, Start(l, slot), data, Start(l, other), Start(l, other) + Size(l, other));
  }

  /** Writing one value leaves the name and the two other values alone. */
  lemma ValueWritten(l: Layout, bytes: seq<byte>, slot: Slot, at: nat, data: seq<byte>)
    requires l.Fits(bytes)
    requires Size(l, slot) == |data| && at == Start(l, slot)
    ensures at + |data| <= |bytes|
    ensures l.View(Splice(bytes, at, data)) == l.View(bytes).With(slot, Value(data))
    ensures l.Name(Splice(bytes, at, data)) == l.Name(bytes)
  {
    SpliceSlice(bytes, at, data, at, at + |data|);
    SpliceSlice(bytes, at, data, l.headerSize, l.headerSize + l.nameSize);
    var written := l.View(Splice(bytes, at, data));
    assert written.Get(slot) == Value(data);
    OtherValueKept(l, bytes, slot, data, if slot == User then Default else User);
    OtherValueKept(l, bytes, slot, data, if slot == Autoselect then Default else Autoselect);
  }

  /** `obs_data_item_setdata` on the bytes: everything behind the user value moved, then the value written. */
  lemma UserSet(l: Layout, bytes: seq<byte>, grown: seq<byte>, name: seq<byte>, r: Record,
                behind: bool, dst: nat, src: nat, len: nat, at: nat, data: seq<byte>)
    requires Holds(l, bytes, name, r) && bytes <= grown
    requires WithSize(l, User, |data|).TotalSize() <= |grown|
    requires behind == (l.defaultSize > 0 || l.autoselectSize > 0)
    requires dst == WithSize(l, User, |data|).DefaultPtr() && src == l.DefaultPtr()
    requires len == l.defaultLen + l.autoselectSize && at == l.DataPtr()
    ensures dst + len <= |grown| && src + len <= |grown| && at + |data| <= |grown|
    ensures Holds(WithSize(l, User, |data|), Rewritten(grown, behind, dst, src, len, at, data), name,
                  r.(user := Value(data)))
  {
    var l' := WithSize(l, User, |data|);
    WithSizeOk(l, User, |data|);
    GrownView(l, bytes, grown);
    BehindUserMoved(l, l', grown, behind, dst, src, len);
    ValueWritten(l', MovedIf(behind, grown, dst, src, len), User, at, data);
  }

  /** `obs_data_item_set_default_data` on the bytes: the autoselect value moved, then the default written. */
  lemma DefaultSet(l: Layout, bytes: seq<byte>, grown: seq<byte>, name: seq<byte>, r: Record,
                   behind: bool, dst: nat, src: nat, at: nat, data: seq<byte>)
    requires Holds(l, bytes, name, r) && bytes <= grown
    requires WithSize(l, Default, |data|).TotalSize() <= |grown|
    requires behind == (l.autoselectSize > 0)
    requires dst == WithSize(l, Default, |data|).AutoselectPtr() && src == l.AutoselectPtr()
    requires at == WithSize(l, Default, |data|).DefaultPtr()
    ensures dst + l.autoselectSize <= |grown| && src + l.autoselectSize <= |grown| && at + |data| <= |grown|
    ensures Holds(WithSize(l, Default, |data|), Rewritten(grown, behind, dst, src, l.autoselectSize, at, data), name,
                  r.(def := Value(data)))
  {
    var l' := WithSize(l, Default, |data|);
    WithSizeOk(l, Default, |data|);
    GrownView(l, bytes, grown);
    AutoselectMoved(l, l', grown, behind, dst, src);
    ValueWritten(l', MovedIf(behind, grown, dst, src, l.autoselectSize), Default, at, data);
  }

  /** `obs_data_item_set_autoselect_data` on the bytes: nothing moves, the value is written. */
  lemma AutoselectSet(l: Layout, bytes: seq<byte>, grown: seq<byte>, name: seq<byte>, r: Record, at: nat,
                      data: seq<byte>)
    requires Holds(l, bytes, name, r) && bytes <= grown
    requires WithSize(l, Autoselect, |data|).TotalSize() <= |grown|
    requires at == WithSize(l, Autoselect, |data|).AutoselectPtr()
    ensures at + |data| <= |grown|
    ensures Holds(WithSize(l, Autoselect, |data|), Rewritten(grown, false, 0, 0, 0, at, data), name,
                  r.(auto := Value(data)))
  {
    WithSizeOk(l, Autoselect, |data|);
    GrownView(l, bytes, grown);
    AutoselectSized(l, grown, |data|);
    ValueWritten(WithSize(l, Autoselect, |data|), grown, Autoselect, at, data);
  }

  lemma AutoselectSized(l: Layout, bytes: seq<byte>, size: nat)
    requires l.Ok() && l.Fits(bytes) && WithSize(l, Autoselect, size).TotalSize() <= |bytes|
    ensures WithSize(l, Autoselect, size).Fits(bytes)
    ensures var l' := WithSize(l, Autoselect, size);
      l'.View(bytes).user == l.View(bytes).user && l'.View(bytes).def == l.View(bytes).def
      && l'.Name(bytes) == l.Name(bytes)
  {
    WithSizeOk(l, Autoselect, size);
    AlignZero();
  }

  /** `obs_data_item_unset_user_value` and `clear_item` on the bytes. */
  lemma UserUnset(l: Layout, bytes: seq<byte>, name: seq<byte>, r: Record, behind: bool, dst: nat, src: nat, len: nat)
    requires Holds(l, bytes, name, r)
    requires behind == (l.defaultSize > 0 || l.autoselectSize > 0)
    requires dst == l.DataPtr() && src == l.DefaultPtr() && len == l.defaultLen + l.autoselectSize
    ensures Holds(l.(dataLen := 0, dataSize := 0), MovedIf(behind, bytes, dst, src, len), name, r.(user := None))
  {
    var l' := l.(dataLen := 0, dataSize := 0);
    AlignZero();
    BehindUserMoved(l, l', bytes, behind, dst, src, len);
  }

  /** `obs_data_item_unset_default_value` on the bytes. */
  lemma DefaultUnset(l: Layout, bytes: seq<byte>, name: seq<byte>, r: Record, behind: bool, dst: nat, src: nat)
    requires Holds(l, bytes, name, r)
    requires behind == (l.autoselectSize > 0)
    requires dst == l.DefaultPtr() && src == l.AutoselectPtr()
    ensures Holds(l.(defaultLen := 0, defaultSize := 0), MovedIf(behind, bytes, dst, src, l.autoselectSize), name,
                  r.(def := None))
  {
    var l' := l.(defaultLen := 0, defaultSize := 0);
    AlignZero();
    AutoselectMoved(l, l', bytes, behind, dst, src);
  }

  /** `obs_data_item_unset_autoselect_value` on the bytes: nothing moves. */
  lemma AutoselectUnset(l: Layout, bytes: seq<byte>, name: seq<byte>, r: Record)
    requires Holds(l, bytes, name, r)
    ensures Holds(l.(autoselectSize := 0), bytes, name, r.(auto := None))
  {
  }

  lemma NothingElse(l: Layout, bytes: seq<byte>, slot: Slot)
    requires l.Fits(bytes)
    requires slot == User || l.dataSize == 0
    requires slot == Default || l.defaultSize == 0
    requires slot == Autoselect || l.autoselectSize == 0
    ensures forall v :: l.View(bytes).With(slot, v) == Record(None, None, None).With(slot, v)
  {
  }

  /** A new item: the name and its terminator, then the one value. */
  lemma Created(empty: Layout, slot: Slot, blank: seq<byte>, nameAt: nat, dataAt: nat, name: seq<byte>, data: seq<byte>)
    requires empty == Layout(nameAt, |name|, NameAlignSize(nameAt, |name|), 0, 0, 0, 0, 0)
    requires dataAt == empty.DataPtr() && |blank| == dataAt + |data|
    ensures Holds(WithSize(empty, slot, |data|), Splice(Splice(blank, nameAt, name), dataAt, data), name,
                  Record(None, None, None).With(slot, Value(data)))
  {
    var l := WithSize(empty, slot, |data|);
    AlignZero();
    WithSizeOk(empty, slot, |data|);
    var named := Splice(blank, nameAt, name);
    SpliceSlice(blank, nameAt, name, nameAt, nameAt + |name|);
    NothingElse(l, named, slot);
    ValueWritten(l, named, slot, dataAt, data);
  }

  // ---------- The packed item ----------

  class Item {
    const headerSize: nat
    const name: seq<byte>
    var kind: Kind
    var mem: array<byte>
    var capacity: nat
    var nameLen: nat
    var dataLen: nat
    var dataSize: nat
    var defaultLen: nat
    var defaultSize: nat
    var autoselectSize: nat

    function Sizes(): Layout
      reads this
    {
      Layout(headerSize, |name| + 1, nameLen, dataLen, dataSize, defaultLen, defaultSize, autoselectSize)
    }

    ghost predicate Valid()
      reads this, mem
    {
      && capacity == mem.Length
      && Sizes().Fits(mem[..])
      && Holds(Sizes(), mem[..], name + [0], Sizes().View(mem[..]))
    }

    /** The record this item stands for. */
    ghost function View(): Record
      reads this, mem
      requires Valid()
    {
      Sizes().View(mem[..])
    }

    ghost function State(): Typed
      reads this, mem
      requires Valid()
    {
      Typed(View(), kind)
    }

    lemma HoldsView()
      requires Valid()
      ensures Holds(Sizes(), mem[..], name + [0], View())
    {
    }

    lemma ViewHeld(r: Record)
      requires capacity == mem.Length && Holds(Sizes(), mem[..], name + [0], r)
      ensures Valid() && View() == r
    {
    }

    // ----- Raw memory -----

    method MemMove(dst: nat, src: nat, len: nat)
      requires dst + len <= mem.Length && src + len <= mem.Length
      modifies mem
      ensures mem[..] == Splice(old(mem[..]), dst, old(mem[..])[src..src + len])
    {
      forall i | 0 <= i < len {
        mem[dst + i] := mem[src + i];
      }
    }

    method MemCpy(dst: nat, data: seq<byte>)
      requires dst + |data| <= mem.Length
      modifies mem
      ensures mem[..] == Splice(old(mem[..]), dst, data)
    {
      forall i | 0 <= i < |data| {
        mem[dst + i] := data[i];
      }
    }

    method MoveAndWrite(cond: bool, dst: nat, src: nat, len: nat, at: nat, data: seq<byte>)
      requires cond ==> dst + len <= mem.Length && src + len <= mem.Length
      requires at + |data| <= mem.Length
      modifies mem
      ensures mem[..] == Rewritten(old(mem[..]), cond, dst, src, len, at, data)
    {
      if cond {
        MemMove(dst, src, len);
      }
      if |data| > 0 {
        MemCpy(at, data);
      }
    }

    /** The end of every setter; `r` is what the item is to hold. */
    method Store(cond: bool, dst: nat, src: nat, len: nat, at: nat, data: seq<byte>, ghost r: Record)
      requires cond ==> dst + len <= mem.Length && src + len <= mem.Length
      requires at + |data| <= mem.Length && capacity == mem.Length
      requires Holds(Sizes(), Rewritten(mem[..], cond, dst, src, len, at, data), name + [0], r)
      modifies mem
      ensures Valid() && View() == r
    {
      MoveAndWrite(cond, dst, src, len, at, data);
      ViewHeld(r);
    }

    /** `obs_data_item_ensure_capacity`: grows the allocation when the new total size asks for it; nothing is lost. */
    method EnsureCapacity()
      requires capacity == mem.Length
      modifies this`mem, this`capacity
      ensures capacity == mem.Length && Sizes().TotalSize() <= capacity
      ensures mem == old(mem) || fresh(mem)
      ensures old(mem[..]) <= mem[..]
      ensures Sizes() == old(Sizes())
    {
      var newSize := Sizes().TotalSize();
      if capacity >= newSize {
        return;
      }
      var grown := new byte[newSize](_ => 0);
      forall i | 0 <= i < mem.Length {
        grown[i] := mem[i];
      }
      assert mem[..] <= grown[..];
      mem := grown;
      capacity := newSize;
    }

    // ----- Creation -----

    constructor (headerSize: nat, name: seq<byte>, slot: Slot, data: seq<byte>, kind: Kind)
      ensures Valid() && fresh(mem)
      ensures State() == Typed(Record(None, None, None).With(slot, Value(data)), kind)
      ensures this.name == name
    {
      this.headerSize := headerSize;
      this.name := name;
      this.kind := kind;
      var nameSize := NameAlignSize(headerSize, |name| + 1);
      var totalSize := nameSize + headerSize + |data|;
      nameLen := nameSize;
      capacity := totalSize;
      dataLen, dataSize, defaultLen, defaultSize, autoselectSize := 0, 0, 0, 0, 0;
      match slot {
        case User => dataLen, dataSize := |data|, |data|;
        case Default => defaultLen, defaultSize := |data|, |data|;
        case Autoselect => autoselectSize := |data|;
      }
      mem := new byte[totalSize](_ => 0);
      new;
      FillNew(Layout(headerSize, |name| + 1, nameLen, 0, 0, 0, 0, 0), slot, name + [0], data);
    }

    method CopyBoth(nameAt: nat, named: seq<byte>, dataAt: nat, data: seq<byte>)
      requires nameAt + |named| <= mem.Length && dataAt + |data| <= mem.Length
      modifies mem
      ensures mem[..] == Splice(Splice(old(mem[..]), nameAt, named), dataAt, data)
    {
      MemCpy(nameAt, named);
      MemCpy(dataAt, data);
    }

    method FillNew(ghost l: Layout, ghost slot: Slot, named: seq<byte>, data: seq<byte>)
      requires named == name + [0]
      requires l == Layout(headerSize, |name| + 1, NameAlignSize(headerSize, |name| + 1), 0, 0, 0, 0, 0)
      requires Sizes() == WithSize(l, slot, |data|) && capacity == mem.Length == l.DataPtr() + |data|
      modifies mem
      ensures Valid() && View() == Record(None, None, None).With(slot, Value(data))
    {
      ghost var blank := mem[..];
      CopyBoth(headerSize, named, headerSize + nameLen, data);
      Created(l, slot, blank, headerSize, headerSize + nameLen, named, data);
      ViewHeld(Record(None, None, None).With(slot, Value(data)));
    }

    // ----- Setting values -----

    /** The lengths for a user value of this size, and room for it. */
    method ResizeUser(size: nat)
      requires capacity == mem.Length
      modifies this`dataSize, this`dataLen, this`mem, this`capacity
      ensures capacity == mem.Length && Sizes().TotalSize() <= capacity
      ensures mem == old(mem) || fresh(mem)
      ensures old(mem[..]) <= mem[..]
      ensures Sizes() == WithSize(old(Sizes()), User, size)
    {
      dataSize := size;
      dataLen := if defaultSize > 0 || autoselectSize > 0 then AlignUp(size) else size;
      EnsureCapacity();
    }

    /** `obs_data_item_setdata` */
    method SetData(data: seq<byte>, kind: Kind)
      requires Valid()
      modifies this, mem
      ensures Valid() && (mem == old(mem) || fresh(mem))
      ensures State() == Typed(old(View()).(user := Value(data)), kind)
    {
      ghost var l, bytes, r := Sizes(), mem[..], View();
      HoldsView();
      var oldDefaultPos := Sizes().DefaultPtr();
      this.kind := kind;
      ResizeUser(|data|);
      var behind, dst := defaultSize > 0 || autoselectSize > 0, Sizes().DefaultPtr();
      var len, at := defaultLen + autoselectSize, Sizes().DataPtr();
      UserSet(l, bytes, mem[..], name + [0], r, behind, dst, oldDefaultPos, len, at, data);
      Store(behind, dst, oldDefaultPos, len, at, data, r.(user := Value(data)));
    }

    method ResizeDefault(size: nat)
      requires capacity == mem.Length
      modifies this`defaultSize, this`defaultLen, this`dataLen, this`mem, this`capacity
      ensures capacity == mem.Length && Sizes().TotalSize() <= capacity
      ensures mem == old(mem) || fresh(mem)
      ensures old(mem[..]) <= mem[..]
      ensures Sizes() == WithSize(old(Sizes()), Default, size)
    {
      defaultSize := size;
      defaultLen := if autoselectSize > 0 then AlignUp(size) else size;
      dataLen := if dataSize > 0 then AlignUp(dataSize) else 0;
      EnsureCapacity();
    }

    /** `obs_data_item_set_default_data` */
    method SetDefaultData(data: seq<byte>, kind: Kind)
      requires Valid()
      modifies this, mem
      ensures Valid() && (mem == old(mem) || fresh(mem))
      ensures State() == Typed(old(View()).(def := Value(data)), kind)
    {
      ghost var l, bytes, r := Sizes(), mem[..], View();
      HoldsView();
      var oldAutoselectPos := Sizes().AutoselectPtr();
      this.kind := kind;
      ResizeDefault(|data|);
      var behind, dst, at := autoselectSize > 0, Sizes().AutoselectPtr(), Sizes().DefaultPtr();
      DefaultSet(l, bytes, mem[..], name + [0], r, behind, dst, oldAutoselectPos, at, data);
      Store(behind, dst, oldAutoselectPos, autoselectSize, at, data, r.(def := Value(data)));
    }

    method ResizeAutoselect(size: nat)
      requires capacity == mem.Length
      modifies this`autoselectSize, this`dataLen, this`defaultLen, this`mem, this`capacity
      ensures capacity == mem.Length && Sizes().TotalSize() <= capacity
      ensures mem == old(mem) || fresh(mem)
      ensures old(mem[..]) <= mem[..]
      ensures Sizes() == WithSize(old(Sizes()), Autoselect, size)
    {
      autoselectSize := size;
      dataLen := if dataSize > 0 then AlignUp(dataSize) else 0;
      defaultLen := if defaultSize > 0 then AlignUp(defaultSize) else 0;
      EnsureCapacity();
    }

    /** `obs_data_item_set_autoselect_data` */
    method SetAutoselectData(data: seq<byte>, kind: Kind)
      requires Valid()
      modifies this, mem
      ensures Valid() && (mem == old(mem) || fresh(mem))
      ensures State() == Typed(old(View()).(auto := Value(data)), kind)
    {
      ghost var l, bytes, r := Sizes(), mem[..], View();
      HoldsView();
      this.kind := kind;
      ResizeAutoselect(|data|);
      var at := Sizes().AutoselectPtr();
      assert at + |data| <= mem.Length && Holds(Sizes(), Rewritten(mem[..], false, 0, 0, 0, at, data), name + [0],
                                                r.(auto := Value(data))) by {
        AutoselectSet(l, bytes, mem[..], name + [0], r, at, data);
      }
      Store(false, 0, 0, 0, at, data, r.(auto := Value(data)));
    }

    // ----- Removing values -----

    method MoveData(cond: bool, dst: nat, src: nat, len: nat)
      requires cond ==> dst + len <= mem.Length && src + len <= mem.Length
      modifies mem
      ensures mem[..] == MovedIf(cond, old(mem[..]), dst, src, len)
      ensures Sizes() == old(Sizes())
    {
      if cond {
        MemMove(dst, src, len);
      }
    }

    method EmptyUser()
      modifies this`dataSize, this`dataLen
      ensures Sizes() == old(Sizes()).(dataLen := 0, dataSize := 0)
    {
      dataSize := 0;
      dataLen := 0;
    }

    /** `obs_data_item_unset_user_value` */
    method UnsetUserValue()
      requires Valid()
      modifies this, mem
      ensures Valid() && mem == old(mem)
      ensures State() == old(State()).(values := old(View()).(user := None))
    {
      if dataSize == 0 {
        assert View().user == None;
        return;
      }
      RemoveUser(Sizes().DefaultPtr());
    }

    /** What lies behind the user value closes up. */
    method RemoveUser(oldNonUserData: nat)
      requires Valid() && oldNonUserData == Sizes().DefaultPtr()
      modifies this`dataSize, this`dataLen, mem
      ensures Valid() && View() == old(View()).(user := None)
    {
      ghost var l, r := Sizes(), View();
      HoldsView();
      EmptyUser();
      var behind, dst := defaultSize > 0 || autoselectSize > 0, Sizes().DefaultPtr();
      var len := defaultLen + autoselectSize;
      UserUnset(l, mem[..], name + [0], r, behind, dst, oldNonUserData, len);
      MoveData(behind, dst, oldNonUserData, len);
      ViewHeld(r.(user := None));
    }

    /** `obs_data_item_unset_default_value` */
    method UnsetDefaultValue()
      requires Valid()
      modifies this, mem
      ensures Valid() && mem == old(mem)
      ensures State() == old(State()).(values := old(View()).(def := None))
    {
      if defaultSize == 0 {
        assert View().def == None;
        return;
      }
      RemoveDefault(Sizes().AutoselectPtr());
    }

    method RemoveDefault(oldAutoselectData: nat)
      requires Valid() && oldAutoselectData == Sizes().AutoselectPtr()
      modifies this`defaultSize, this`defaultLen, mem
      ensures Valid() && View() == old(View()).(def := None)
    {
      ghost var l, r := Sizes(), View();
      HoldsView();
      defaultSize := 0;
      defaultLen := 0;
      assert Sizes() == l.(defaultLen := 0, defaultSize := 0);
      var behind, dst := autoselectSize > 0, Sizes().AutoselectPtr();
      DefaultUnset(l, mem[..], name + [0], r, behind, dst, oldAutoselectData);
      MoveData(behind, dst, oldAutoselectData, autoselectSize);
      ViewHeld(r.(def := None));
    }

    /** `obs_data_item_unset_autoselect_value` */
    method UnsetAutoselectValue()
      requires Valid()
      modifies this
      ensures Valid() && mem == old(mem)
      ensures State() == old(State()).(values := old(View()).(auto := None))
    {
      ghost var l, r := Sizes(), View();
      HoldsView();
      if autoselectSize == 0 {
        assert r.auto == None;
        return;
      }
      AutoselectUnset(l, mem[..], name + [0], r);
      autoselectSize := 0;
      assert Sizes() == l.(autoselectSize := 0);
      ViewHeld(r.(auto := None));
    }

    /** `clear_item`, which tells by the region's length and not by the value's size whether there is a user value. */
    method ClearItem()
      requires Valid()
      modifies this, mem
      ensures Valid() && mem == old(mem)
      ensures State() == old(State()).(values := old(View()).(user := None))
    {
      LengthsTellSizes(Sizes());
      if dataLen == 0 {
        assert View().user == None;
        return;
      }
      CloseGap(Sizes().DataPtr());
    }

    method CloseGap(ptr: nat)
      requires Valid() && ptr == Sizes().DataPtr()
      modifies this`dataSize, this`dataLen, mem
      ensures Valid() && View() == old(View()).(user := None)
    {
      ghost var l, r := Sizes(), View();
      HoldsView();
      LengthsTellSizes(l);
      var size := defaultLen + autoselectSize;
      var behind, src := size > 0, ptr + dataLen;
      UserUnset(l, mem[..], name + [0], r, behind, ptr, src, size);
      MoveData(behind, ptr, src, size);
      EmptyUser();
      ViewHeld(r.(user := None));
    }

    // ----- Reading -----

    /** `get_item_data`: where a plain read finds its value, if there is any. */
    method GetItemData() returns (ptr: Option<nat>)
      requires Valid()
      ensures ptr.None? <==> View().Effective().None?
      ensures ptr.Some? ==> var value := View().Effective().value;
        ptr.value + |value| <= mem.Length && mem[..][ptr.value..ptr.value + |value|] == value
        && ptr.value % ALIGNMENT == 0
    {
      AlignZero();
      if dataSize == 0 && defaultSize == 0 && autoselectSize == 0 {
        return None;
      }
      RegionsAligned(Sizes());
      return Some(Sizes().DataPtr());
    }

    /** `set_item_def`: a default of another type is ignored. */
    method SetItemDef(data: seq<byte>, kind: Kind)
      requires Valid()
      modifies this, mem
      ensures Valid() && (mem == old(mem) || fresh(mem))
      ensures State() == if kind == old(this.kind) then Typed(old(View()).(def := Value(data)), kind) else old(State())
    {
      if this.kind == kind {
        SetDefaultData(data, kind);
      }
    }

    /** Any of the operations an item goes through between its creation and its end. */
    method Perform(op: Op)
      requires Valid()
      modifies this, mem
      ensures Valid() && (mem == old(mem) || fresh(mem))
      ensures State() == Apply(old(State()), op)
    {
      match op
      case Set(slot, data, kind) => PerformSet(slot, data, kind);
      case Unset(User) => UnsetUserValue();
      case Unset(Default) => UnsetDefaultValue();
      case Unset(Autoselect) => UnsetAutoselectValue();
      case Clear => ClearItem();
    }

    method PerformSet(slot: Slot, data: seq<byte>, kind: Kind)
      requires Valid()
      modifies this, mem
      ensures Valid() && (mem == old(mem) || fresh(mem))
      ensures State() == Apply(old(State()), Set(slot, data, kind))
    {
      match slot
      case User => SetData(data, kind);
      case Default => SetItemDef(data, kind);
      case Autoselect => SetAutoselectData(data, kind);
    }

    method Run(ops: seq<Op>)
      requires Valid()
      modifies this, mem
      ensures Valid() && (mem == old(mem) || fresh(mem))
      ensures State() == Replay(old(State()), ops)
    {
      ghost var s := State();
      for i := 0 to |ops|
        invariant Valid() && (mem == old(mem) || fresh(mem))
        invariant State() == Replay(s, ops[..i])
      {
        ReplayStep(s, ops, i);
        Perform(ops[i]);
      }
      assert ops[..|ops|] == ops;
    }

    /** After any run of them, with all the byte moves on the way, each of the three values is what the last operation
        on it left, and a plain read finds the first of the three that is there. */
    method PerformAll(ops: seq<Op>)
      requires Valid()
      modifies this, mem
      ensures Valid() && (mem == old(mem) || fresh(mem))
      ensures forall slot :: View().Get(slot) == Left(old(State()), ops, slot)
      ensures View().Effective() == EffectiveAfter(old(State()), ops)
      ensures kind == KindAfterAll(old(kind), ops)
    {
      AllSettled(State(), ops);
      Run(ops);
    }
  }
}
