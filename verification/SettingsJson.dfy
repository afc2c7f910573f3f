/**
 Settings objects as trees: reading them from JSON, writing them to JSON, and applying one to another
 (libobs/obs-data.c). A nested object is a value here, as it is right after it was stored.
 */
module SettingsJson {
  import opened Bytes
  import opened SettingsKinds

  // ---------- Settings and JSON ----------

  datatype Value = Str(s: string) | Int(i: int) | Real(r: real) | Bool(b: bool) | Obj(d: Data) | Arr(ds: seq<Data>)

  function KindOf(v: Value): Kind {
    match v
    case Str(_) => String
    case Int(_) => Number
    case Real(_) => Number
    case Bool(_) => Boolean
    case Obj(_) => Object
    case Arr(_) => Array
  }

  /** The three values of an item, which has one type for all of them; see `SettingsItem` for how they share one
      buffer. */
  datatype Item = Item(user: Option<Value>, def: Option<Value>, autoselect: Option<Value>, kind: Kind)

  /** What a typed read of one of the three values yields: nothing, so that the caller gets an empty string, zero, false
      or no object; the value; or its bytes taken for another type. */
  datatype Reading = Nothing | Got(v: Value) | Misread(v: Value)

  function Read(kind: Kind, item: Kind, slot: Option<Value>): Reading {
    if item != kind || slot.None? then Nothing
    else if KindOf(slot.value) == kind then Got(slot.value)
    else Misread(slot.value)
  }

  datatype Entry = Entry(name: string, item: Item)

  /** The items in the order in which they were added. */
  datatype Data = Data(items: seq<Entry>)

  datatype Json =
    | JNull | JBool(b: bool) | JInt(i: int) | JReal(r: real) | JStr(s: string)
    | JArr(elems: seq<Json>) | JObj(members: seq<Member>)

  datatype Member = Member(name: string, json: Json)

  const EMPTY := Data([])

  /** The index of an item's name. */
  function Find(items: seq<Entry>, name: string): (r: Option<nat>)
    ensures r.Some? ==> r.value < |items| && items[r.value].name == name
    ensures r.Some? ==> forall i :: 0 <= i < r.value ==> items[i].name != name
    ensures r.None? ==> forall i :: 0 <= i < |items| ==> items[i].name != name
    decreases |items|
  {
    if items == [] then None
    else if items[0].name == name then Some(0)
    else
      assert forall i :: 1 <= i < |items| ==> items[i] == items[1..][i - 1];
      match Find(items[1..], name)
      case Some(i) => Some(i + 1)
      case None => None
  }

  /** A new item with a user value. */
  function UserItem(v: Value): Item { Item(Some(v), None, None, KindOf(v)) }

  /** `set_item`: gives an item a user value and that value's type, adding the item if there is none of that name. */
  function SetUser(d: Data, name: string, v: Value): Data {
    match Find(d.items, name)
    case None => Data(d.items + [Entry(name, UserItem(v))])
    case Some(i) => Data(d.items[i := Entry(name, d.items[i].item.(user := Some(v), kind := KindOf(v)))])
  }

  // ---------- From JSON ----------

  /** `obs_data_add_json_object_data`, into a new object. */
  function FromMembers(ms: seq<Member>): Data
    decreases ms
  {
    if ms == [] then EMPTY
    else
      var m := ms[|ms| - 1];
      AddItem(FromMembers(ms[..|ms| - 1]), m.name, ValueOf(m.json))
  }

  /** `obs_data_add_json_item`, for the value the item gets. */
  function AddItem(d: Data, name: string, v: Option<Value>): Data {
    if v.None? then d else SetUser(d, name, v.value)
  }

  /** The value of a JSON item; `null` has none. */
  function ValueOf(j: Json): Option<Value>
    decreases j
  {
    match j
    case JNull => None
    case JBool(b) => Some(Bool(b))
    case JInt(i) => Some(Int(i))
    case JReal(r) => Some(Real(r))
    case JStr(s) => Some(Str(s))
    case JArr(elems) => Some(Arr(Objects(elems)))
    case JObj(ms) => Some(Obj(FromMembers(ms)))
  }

  /** `obs_data_add_json_array`: elements that are no objects are left out. */
  function Objects(elems: seq<Json>): seq<Data>
    decreases elems
  {
    if elems == [] then []
    else
      var e := elems[|elems| - 1];
      var rest := Objects(elems[..|elems| - 1]);
      if e.JObj? then rest + [FromMembers(e.members)] else rest
  }

  // ---------- To JSON ----------

  /** `obs_data_to_json`, without defaults. */
  function ToJson(d: Data): Json
    decreases d
  {
    JObj(Members(d.items))
  }

  function Members(items: seq<Entry>): seq<Member>
    decreases items
  {
    if items == [] then []
    else
      var e := items[|items| - 1];
      var rest := Members(items[..|items| - 1]);
      match e.item.user
      case None => rest
      case Some(v) => rest + [Member(e.name, JsonOf(v))]
  }

  function JsonOf(v: Value): Json
    decreases v
  {
    match v
    case Str(s) => JStr(s)
    case Int(i) => JInt(i)
    case Real(r) => JReal(r)
    case Bool(b) => JBool(b)
    case Obj(d) => ToJson(d)
    case Arr(ds) => JArr(ToJsons(ds))
  }

  function ToJsons(ds: seq<Data>): seq<Json>
    decreases ds
  {
    if ds == [] then [] else ToJsons(ds[..|ds| - 1]) + [ToJson(ds[|ds| - 1])]
  }

  // ---------- Well-formed trees ----------

  ghost predicate Distinct(items: seq<Entry>) {
    forall i, j :: 0 <= i < j < |items| ==> items[i].name != items[j].name
  }

  /** In every object that is reached through user values, names are distinct and user values have their items'
      types. */
  ghost predicate WfData(d: Data)
    decreases d
  {
    WfItems(d.items)
  }

  ghost predicate WfItems(items: seq<Entry>)
    decreases items
  {
    Distinct(items) &&
    forall i :: 0 <= i < |items| ==> (items[i].item.user.Some? ==>
      WfValue(items[i].item.user.value) && items[i].item.kind == KindOf(items[i].item.user.value))
  }

  ghost predicate WfValue(v: Value)
    decreases v
  {
    match v
    case Obj(d) => WfData(d)
    case Arr(ds) => forall i :: 0 <= i < |ds| ==> WfData(ds[i])
    case _ => true
  }

  ghost predicate DistinctMembers(ms: seq<Member>) {
    forall i, j :: 0 <= i < j < |ms| ==> ms[i].name != ms[j].name
  }

  /** No object has two members of one name. */
  ghost predicate WfJson(j: Json)
    decreases j
  {
    match j
    case JArr(elems) => forall i :: 0 <= i < |elems| ==> WfJson(elems[i])
    case JObj(ms) => WfMembers(ms)
    case _ => true
  }

  ghost predicate WfMembers(ms: seq<Member>)
    decreases ms
  {
    DistinctMembers(ms) && forall i :: 0 <= i < |ms| ==> WfJson(ms[i].json)
  }

  lemma WfItemsPrefix(items: seq<Entry>, n: nat)
    requires WfItems(items) && n <= |items|
    ensures WfItems(items[..n])
  {
    assert forall i :: 0 <= i < n ==> items[..n][i] == items[i];
  }

  lemma WfMembersPrefix(ms: seq<Member>, n: nat)
    requires WfMembers(ms) && n <= |ms|
    ensures WfMembers(ms[..n])
  {
    assert forall i :: 0 <= i < n ==> ms[..n][i] == ms[i];
  }

  // ---------- User values only ----------

  /** The object with its user values alone, at every depth. */
  function UserOnly(d: Data): Data
    decreases d
  {
    Data(UserItems(d.items))
  }

  function UserItems(items: seq<Entry>): seq<Entry>
    decreases items
  {
    if items == [] then []
    else
      var e := items[|items| - 1];
      var rest := UserItems(items[..|items| - 1]);
      match e.item.user
      case None => rest
      case Some(v) => rest + [Entry(e.name, UserItem(Stripped(v)))]
  }

  function Stripped(v: Value): Value
    decreases v
  {
    match v
    case Obj(d) => Obj(UserOnly(d))
    case Arr(ds) => Arr(StrippedAll(ds))
    case _ => v
  }

  function StrippedAll(ds: seq<Data>): seq<Data>
    decreases ds
  {
    if ds == [] then [] else StrippedAll(ds[..|ds| - 1]) + [UserOnly(ds[|ds| - 1])]
  }

  /** Every name that is kept was there before. */
  lemma {:induction false} UserItemsNames(items: seq<Entry>, k: nat) returns (i: nat)
    requires k < |UserItems(items)|
    ensures i < |items| && items[i].name == UserItems(items)[k].name
    decreases |items|
  {
    var n := |items| - 1;
    if k < |UserItems(items[..n])| {
      i := UserItemsNames(items[..n], k);
      assert items[..n][i] == items[i];
    } else {
      i := n;
    }
  }

  lemma NewNameAppends(d: Data, name: string, v: Value)
    requires forall i :: 0 <= i < |d.items| ==> d.items[i].name != name
    ensures SetUser(d, name, v) == Data(d.items + [Entry(name, UserItem(v))])
  {
  }

  /** Appending to the kept items never meets a name twice. */
  lemma UserItemsFresh(items: seq<Entry>)
    requires Distinct(items) && items != []
    ensures var n := |items| - 1;
      forall k :: 0 <= k < |UserItems(items[..n])| ==> UserItems(items[..n])[k].name != items[n].name
  {
    var n := |items| - 1;
    forall k | 0 <= k < |UserItems(items[..n])|
      ensures UserItems(items[..n])[k].name != items[n].name
    {
      var i := UserItemsNames(items[..n], k);
      assert items[..n][i] == items[i];
    }
  }

  // ---------- Settings to JSON and back ----------

  /** Rebuilding settings from their JSON restores exactly their user values, at every depth. */
  lemma {:induction false} SettingsRoundTrip(items: seq<Entry>)
    requires WfItems(items)
    ensures FromMembers(Members(items)) == Data(UserItems(items))
    decreases items
  {
    if items == [] {
    } else {
      var n := |items| - 1;
      WfItemsPrefix(items, n);
      SettingsRoundTrip(items[..n]);
      if items[n].item.user.Some? {
        var v := items[n].item.user.value;
        ValueRoundTrip(v);
        UserItemsFresh(items);
        MemberRead(Members(items[..n]), Data(UserItems(items[..n])), Member(items[n].name, JsonOf(v)), Stripped(v));
      }
    }
  }

  /** One more member gives one more item, if its name is new. */
  lemma MemberRead(ms: seq<Member>, d: Data, m: Member, v: Value)
    requires FromMembers(ms) == d && ValueOf(m.json) == Some(v)
    requires forall k :: 0 <= k < |d.items| ==> d.items[k].name != m.name
    ensures FromMembers(ms + [m]) == Data(d.items + [Entry(m.name, UserItem(v))])
  {
    assert (ms + [m])[..|ms|] == ms && (ms + [m])[|ms|] == m;
    NewNameAppends(d, m.name, v);
  }

  lemma {:induction false} ValueRoundTrip(v: Value)
    requires WfValue(v)
    ensures ValueOf(JsonOf(v)) == Some(Stripped(v))
    decreases v
  {
    match v
    case Obj(d) => SettingsRoundTrip(d.items);
    case Arr(ds) => ArrayRoundTrip(ds);
    case _ =>
  }

  lemma {:induction false} ArrayRoundTrip(ds: seq<Data>)
    requires forall i :: 0 <= i < |ds| ==> WfData(ds[i])
    ensures Objects(ToJsons(ds)) == StrippedAll(ds)
    decreases ds
  {
    if ds == [] {
    } else {
      var n := |ds| - 1;
      ArrayRoundTrip(ds[..n]);
      SettingsRoundTrip(ds[n].items);
      var js := ToJsons(ds[..n]);
      assert ToJsons(ds) == js + [ToJson(ds[n])];
      assert (js + [ToJson(ds[n])])[..|js|] == js && (js + [ToJson(ds[n])])[|js|] == ToJson(ds[n]);
    }
  }

  // ---------- JSON to settings and back ----------

  /** The JSON without nulls, and without array elements that are no objects. */
  function Normal(j: Json): Json
    decreases j
  {
    match j
    case JArr(elems) => JArr(NormalElems(elems))
    case JObj(ms) => JObj(NormalMembers(ms))
    case _ => j
  }

  function NormalElems(elems: seq<Json>): seq<Json>
    decreases elems
  {
    if elems == [] then []
    else
      var e := elems[|elems| - 1];
      var rest := NormalElems(elems[..|elems| - 1]);
      if e.JObj? then rest + [Normal(e)] else rest
  }

  function NormalMembers(ms: seq<Member>): seq<Member>
    decreases ms
  {
    if ms == [] then []
    else
      var m := ms[|ms| - 1];
      var rest := NormalMembers(ms[..|ms| - 1]);
      if m.json.JNull? then rest else rest + [Member(m.name, Normal(m.json))]
  }

  /** The items that are built have the members' names. */
  lemma {:induction false} FromMembersNames(ms: seq<Member>, k: nat) returns (i: nat)
    requires DistinctMembers(ms) && k < |FromMembers(ms).items|
    ensures i < |ms| && ms[i].name == FromMembers(ms).items[k].name
    decreases |ms|
  {
    var n := |ms| - 1;
    var d := FromMembers(ms[..n]);
    if k < |d.items| {
      i := FromMembersNames(ms[..n], k);
      assert ms[..n][i] == ms[i];
    } else {
      i := n;
    }
  }

  lemma FromMembersFresh(ms: seq<Member>)
    requires DistinctMembers(ms) && ms != []
    ensures var n := |ms| - 1;
      forall k :: 0 <= k < |FromMembers(ms[..n]).items| ==> FromMembers(ms[..n]).items[k].name != ms[n].name
  {
    var n := |ms| - 1;
    forall k | 0 <= k < |FromMembers(ms[..n]).items|
      ensures FromMembers(ms[..n]).items[k].name != ms[n].name
    {
      var i := FromMembersNames(ms[..n], k);
      assert ms[..n][i] == ms[i];
    }
  }

  /** Writing settings that were read from JSON gives that JSON back, normalised. */
  lemma {:induction false} JsonRoundTrip(ms: seq<Member>)
    requires WfMembers(ms)
    ensures Members(FromMembers(ms).items) == NormalMembers(ms)
    decreases ms
  {
    if ms == [] {
    } else {
      var n := |ms| - 1;
      var m := ms[n];
      WfMembersPrefix(ms, n);
      JsonRoundTrip(ms[..n]);
      if !m.json.JNull? {
        JsonValueRoundTrip(m.json);
        FromMembersFresh(ms);
        var d, v := FromMembers(ms[..n]), ValueOf(m.json).value;
        NewNameAppends(d, m.name, v);
        var e := Entry(m.name, UserItem(v));
        assert (d.items + [e])[..|d.items|] == d.items && (d.items + [e])[|d.items|] == e;
      }
    }
  }

  lemma {:induction false} JsonValueRoundTrip(j: Json)
    requires WfJson(j) && !j.JNull?
    ensures JsonOf(ValueOf(j).value) == Normal(j)
    decreases j
  {
    match j
    case JArr(elems) => ElemsRoundTrip(elems);
    case JObj(ms) => JsonRoundTrip(ms);
    case _ =>
  }

  lemma {:induction false} ElemsRoundTrip(elems: seq<Json>)
    requires forall i :: 0 <= i < |elems| ==> WfJson(elems[i])
    ensures ToJsons(Objects(elems)) == NormalElems(elems)
    decreases elems
  {
    if elems == [] {
    } else {
      var n := |elems| - 1;
      ElemsRoundTrip(elems[..n]);
      var e, ds := elems[n], Objects(elems[..n]);
      if e.JObj? {
        JsonRoundTrip(e.members);
        var d := FromMembers(e.members);
        assert (ds + [d])[..|ds|] == ds && (ds + [d])[|ds|] == d;
      }
    }
  }

  /** Normalising once is enough. */
  lemma {:induction false} NormalIsFixed(j: Json)
    ensures Normal(Normal(j)) == Normal(j)
    decreases j
  {
    match j
    case JArr(elems) => NormalElemsFixed(elems);
    case JObj(ms) => NormalMembersFixed(ms);
    case _ =>
  }

  lemma {:induction false} NormalElemsFixed(elems: seq<Json>)
    ensures NormalElems(NormalElems(elems)) == NormalElems(elems)
    decreases elems
  {
    if elems == [] {
    } else {
      var n := |elems| - 1;
      NormalElemsFixed(elems[..n]);
      var es, e := NormalElems(elems[..n]), elems[n];
      if e.JObj? {
        NormalIsFixed(e);
        assert (es + [Normal(e)])[..|es|] == es && (es + [Normal(e)])[|es|] == Normal(e);
      }
    }
  }

  lemma {:induction false} NormalMembersFixed(ms: seq<Member>)
    ensures NormalMembers(NormalMembers(ms)) == NormalMembers(ms)
    decreases ms
  {
    if ms == [] {
    } else {
      var n := |ms| - 1;
      NormalMembersFixed(ms[..n]);
      var ns, m := NormalMembers(ms[..n]), ms[n];
      if !m.json.JNull? {
        NormalIsFixed(m.json);
        var m' := Member(m.name, Normal(m.json));
        assert (ns + [m'])[..|ns|] == ns && (ns + [m'])[|ns|] == m';
      }
    }
  }

  // ---------- Applying settings ----------

  /** `obs_data_apply`: every user value of `a` is copied into `t`. */
  function Apply(t: Data, a: Data): Data
    decreases a
  {
    ApplyItems(t, a.items)
  }

  function ApplyItems(t: Data, items: seq<Entry>): Data
    decreases items
  {
    if items == [] then t
    else
      var e := items[|items| - 1];
      var d := ApplyItems(t, items[..|items| - 1]);
      match e.item.user
      case None => d
      case Some(v) => SetUser(d, e.name, Copy(v))
  }

  /** The copy that `copy_obj` and `copy_array` make: a new object for every object. */
  function Copy(v: Value): Value
    decreases v
  {
    match v
    case Obj(d) => Obj(Apply(EMPTY, d))
    case Arr(ds) => Arr(Copies(ds))
    case _ => v
  }

  function Copies(ds: seq<Data>): seq<Data>
    decreases ds
  {
    if ds == [] then [] else Copies(ds[..|ds| - 1]) + [Apply(EMPTY, ds[|ds| - 1])]
  }

  function User(d: Data, name: string): Option<Value> {
    match Find(d.items, name) case None => None case Some(i) => d.items[i].item.user
  }

  /** What an application has to leave alone: the default and the autoselect value. */
  function Others(d: Data, name: string): (Option<Value>, Option<Value>) {
    match Find(d.items, name)
    case None => (None, None)
    case Some(i) => (d.items[i].item.def, d.items[i].item.autoselect)
  }

  function KindAt(d: Data, name: string): Option<Kind> {
    match Find(d.items, name) case None => None case Some(i) => Some(d.items[i].item.kind)
  }

  /** `obs_data_get_default_string` and its like: the default value read as a value of the given type. */
  function DefaultRead(d: Data, name: string, kind: Kind): Reading {
    match Find(d.items, name)
    case None => Nothing
    case Some(i) => Read(kind, d.items[i].item.kind, d.items[i].item.def)
  }

  function AutoselectRead(d: Data, name: string, kind: Kind): Reading {
    match Find(d.items, name)
    case None => Nothing
    case Some(i) => Read(kind, d.items[i].item.kind, d.items[i].item.autoselect)
  }

  // ----- Copies -----

  /** Copying an object keeps its user values, and nothing else. */
  lemma {:induction false} ApplyToEmpty(items: seq<Entry>)
    requires WfItems(items)
    ensures ApplyItems(EMPTY, items) == Data(UserItems(items))
    decreases items
  {
    if items == [] {
    } else {
      var n := |items| - 1;
      var e := items[n];
      WfItemsPrefix(items, n);
      ApplyToEmpty(items[..n]);
      if e.item.user.Some? {
        CopyIsStripped(e.item.user.value);
        UserItemsFresh(items);
        NewNameAppends(Data(UserItems(items[..n])), e.name, Copy(e.item.user.value));
      }
    }
  }

  lemma {:induction false} CopyIsStripped(v: Value)
    requires WfValue(v)
    ensures Copy(v) == Stripped(v)
    decreases v
  {
    match v
    case Obj(d) => ApplyToEmpty(d.items);
    case Arr(ds) => CopiesAreStripped(ds);
    case _ =>
  }

  lemma {:induction false} CopiesAreStripped(ds: seq<Data>)
    requires forall i :: 0 <= i < |ds| ==> WfData(ds[i])
    ensures Copies(ds) == StrippedAll(ds)
    decreases ds
  {
    if ds == [] {
    } else {
      CopiesAreStripped(ds[..|ds| - 1]);
      ApplyToEmpty(ds[|ds| - 1].items);
    }
  }

  lemma WfItemsAppend(items: seq<Entry>, e: Entry)
    requires WfItems(items) && (forall i :: 0 <= i < |items| ==> items[i].name != e.name)
    requires e.item.user.Some? ==> WfValue(e.item.user.value) && e.item.kind == KindOf(e.item.user.value)
    ensures WfItems(items + [e])
  {
  }

  lemma LastUserItem(rest: seq<Entry>, e: Entry)
    requires e.item.user.Some?
    ensures UserItems(rest + [e]) ==
      UserItems(rest) + [Entry(e.name, UserItem(Stripped(e.item.user.value)))]
  {
    assert (rest + [e])[..|rest|] == rest && (rest + [e])[|rest|] == e;
  }

  lemma {:induction false} UserItemsTwice(items: seq<Entry>)
    requires WfItems(items)
    ensures UserItems(UserItems(items)) == UserItems(items) && WfItems(UserItems(items))
    decreases items
  {
    if items == [] {
    } else {
      var n := |items| - 1;
      var e := items[n];
      WfItemsPrefix(items, n);
      UserItemsTwice(items[..n]);
      if e.item.user.Some? {
        StrippedTwice(e.item.user.value);
        var rest := UserItems(items[..n]);
        var e' := Entry(e.name, UserItem(Stripped(e.item.user.value)));
        UserItemsFresh(items);
        LastUserItem(rest, e');
        WfItemsAppend(rest, e');
      }
    }
  }

  lemma {:induction false} StrippedTwice(v: Value)
    requires WfValue(v)
    ensures Stripped(Stripped(v)) == Stripped(v) && WfValue(Stripped(v))
    decreases v
  {
    match v
    case Obj(d) => UserItemsTwice(d.items);
    case Arr(ds) => StrippedAllTwice(ds);
    case _ =>
  }

  lemma {:induction false} StrippedAllTwice(ds: seq<Data>)
    requires forall i :: 0 <= i < |ds| ==> WfData(ds[i])
    ensures StrippedAll(StrippedAll(ds)) == StrippedAll(ds)
    ensures forall i :: 0 <= i < |StrippedAll(ds)| ==> WfData(StrippedAll(ds)[i])
    decreases ds
  {
    if ds == [] {
    } else {
      var n := |ds| - 1;
      StrippedAllTwice(ds[..n]);
      UserItemsTwice(ds[n].items);
      StrippedLast(StrippedAll(ds[..n]), UserOnly(ds[n]));
    }
  }

  lemma StrippedLast(rest: seq<Data>, last: Data)
    requires StrippedAll(rest) == rest && UserOnly(last) == last && WfData(last)
    requires forall i :: 0 <= i < |rest| ==> WfData(rest[i])
    ensures StrippedAll(rest + [last]) == rest + [last]
    ensures forall i :: 0 <= i < |rest + [last]| ==> WfData((rest + [last])[i])
  {
    assert (rest + [last])[..|rest|] == rest && (rest + [last])[|rest|] == last;
  }

  lemma CopyTwice(v: Value)
    requires WfValue(v)
    ensures Copy(Copy(v)) == Copy(v)
  {
    CopyIsStripped(v);
    StrippedTwice(v);
    CopyIsStripped(Stripped(v));
  }

  // ----- Override -----

  lemma SetUserLookup(d: Data, name: string, v: Value, n: string)
    ensures User(SetUser(d, name, v), n) == if n == name then Some(v) else User(d, n)
    ensures Others(SetUser(d, name, v), n) == Others(d, n)
    ensures KindAt(SetUser(d, name, v), n) == if n == name then Some(KindOf(v)) else KindAt(d, n)
  {
    var d' := SetUser(d, name, v);
    var was, now := Find(d.items, n), Find(d'.items, n);
    assert forall i :: 0 <= i < |d.items| ==> d'.items[i].name == d.items[i].name;
    if was.Some? {
      assert d'.items[was.value].name == n;
      assert now == was;
    } else if n == name {
      assert d'.items[|d.items|].name == n;
      assert now == Some(|d.items|);
    }
  }

  lemma SetUserDistinct(d: Data, name: string, v: Value)
    requires Distinct(d.items)
    ensures Distinct(SetUser(d, name, v).items)
  {
  }

  lemma LastLookup(items: seq<Entry>, n: string)
    requires Distinct(items) && items != []
    ensures var last := items[|items| - 1];
      User(Data(items), n) == if n == last.name then last.item.user else User(Data(items[..|items| - 1]), n)
    ensures n == items[|items| - 1].name ==> User(Data(items[..|items| - 1]), n) == None
  {
    var k := |items| - 1;
    assert forall i :: 0 <= i < k ==> items[..k][i] == items[i];
  }

  /** The value and the type that an applied value leaves. */
  function Overridden(v: Option<Value>, was: Option<Value>): Option<Value> {
    if v.Some? then Some(Copy(v.value)) else was
  }

  function Retyped(v: Option<Value>, was: Option<Kind>): Option<Kind> {
    if v.Some? then Some(KindOf(v.value)) else was
  }

  /** Applying overrides: the user values of the applied settings win, by deep copies, and give the items their types;
      the others stay. The defaults and autoselect values themselves stay too; how they read is `ReadsKept`. */
  lemma {:induction false} ApplyOverrides(t: Data, items: seq<Entry>, n: string)
    requires Distinct(items)
    ensures User(ApplyItems(t, items), n) == Overridden(User(Data(items), n), User(t, n))
    ensures Others(ApplyItems(t, items), n) == Others(t, n)
    ensures KindAt(ApplyItems(t, items), n) == Retyped(User(Data(items), n), KindAt(t, n))
    decreases |items|
  {
    if items == [] {
    } else {
      var k := |items| - 1;
      var before := ApplyItems(t, items[..k]);
      ApplyOverrides(t, items[..k], n);
      LastLookup(items, n);
      LastApplied(before, items[k], n);
      assert ApplyItems(t, items) == ApplyLast(before, items[k]);
    }
  }

  function ApplyLast(d: Data, e: Entry): Data {
    if e.item.user.Some? then SetUser(d, e.name, Copy(e.item.user.value)) else d
  }

  lemma LastApplied(d: Data, e: Entry, n: string)
    ensures var v := if n == e.name then e.item.user else None;
      && User(ApplyLast(d, e), n) == Overridden(v, User(d, n))
      && Others(ApplyLast(d, e), n) == Others(d, n)
      && KindAt(ApplyLast(d, e), n) == Retyped(v, KindAt(d, n))
  {
    if e.item.user.Some? {
      SetUserLookup(d, e.name, Copy(e.item.user.value), n);
    }
  }

  /** Defaults and autoselect values read as before if and only if no applied value has another type than the item, or
      the item has neither. */
  lemma ReadsKept(t: Data, items: seq<Entry>, n: string)
    requires Distinct(items)
    ensures
      (forall k :: DefaultRead(ApplyItems(t, items), n, k) == DefaultRead(t, n, k) &&
        AutoselectRead(ApplyItems(t, items), n, k) == AutoselectRead(t, n, k))
      <==>
      var v := User(Data(items), n);
      v == None || KindAt(t, n) == Some(KindOf(v.value)) || Others(t, n) == (None, None)
  {
    ApplyOverrides(t, items, n);
    var v, now := User(Data(items), n), ApplyItems(t, items);
    if v.Some? && KindAt(t, n) != Some(KindOf(v.value)) && Others(t, n) != (None, None) {
      var was := KindAt(t, n).value;
      assert DefaultRead(now, n, was) == AutoselectRead(now, n, was) == Nothing;
      assert DefaultRead(t, n, was) != Nothing || AutoselectRead(t, n, was) != Nothing;
    } else {
      assert KindAt(now, n) == KindAt(t, n) || Others(t, n) == (None, None);
    }
  }

  /** The default 5, once "abc" was applied to the item: read as a number it is gone, read as a string it is misread. */
  lemma DefaultRetyped(t: Data, a: Data)
    requires t == Data([Entry("x", Item(None, Some(Int(5)), None, Number))])
    requires a == Data([Entry("x", UserItem(Str("abc")))])
    ensures DefaultRead(t, "x", Number) == Got(Int(5)) && DefaultRead(t, "x", String) == Nothing
    ensures DefaultRead(Apply(t, a), "x", Number) == Nothing
    ensures DefaultRead(Apply(t, a), "x", String) == Misread(Int(5))
  {
    ApplyOverrides(t, a.items, "x");
    assert Find(t.items, "x") == Some(0) && Find(a.items, "x") == Some(0);
    assert KindAt(Apply(t, a), "x") == Some(String) && Others(Apply(t, a), "x") == (Some(Int(5)), None);
  }

  /** Integers and reals are of one type, so the default 5 still reads when 2.5 was applied. */
  lemma NumbersShareType(t: Data, a: Data)
    requires t == Data([Entry("x", Item(None, Some(Int(5)), None, Number))])
    requires a == Data([Entry("x", UserItem(Real(2.5)))])
    ensures DefaultRead(Apply(t, a), "x", Number) == Got(Int(5)) && User(Apply(t, a), "x") == Some(Real(2.5))
  {
    ApplyOverrides(t, a.items, "x");
    assert Find(t.items, "x") == Some(0) && Find(a.items, "x") == Some(0);
    assert KindAt(Apply(t, a), "x") == Some(Number) && Others(Apply(t, a), "x") == (Some(Int(5)), None);
  }

  lemma {:induction false} ApplyDistinct(t: Data, items: seq<Entry>)
    requires Distinct(t.items)
    ensures Distinct(ApplyItems(t, items).items)
    decreases |items|
  {
    if items == [] {
    } else {
      var k := |items| - 1;
      ApplyDistinct(t, items[..k]);
      if items[k].item.user.Some? {
        SetUserDistinct(ApplyItems(t, items[..k]), items[k].name, Copy(items[k].item.user.value));
      }
    }
  }

  // ----- Types stay right -----

  lemma SetUserWf(d: Data, name: string, v: Value)
    requires WfData(d) && WfValue(v)
    ensures WfData(SetUser(d, name, v))
  {
    SetUserDistinct(d, name, v);
  }

  /** Applying keeps names distinct and user values typed. */
  lemma {:induction false} ApplyKeepsWf(t: Data, items: seq<Entry>)
    requires WfData(t) && WfItems(items)
    ensures WfData(ApplyItems(t, items))
    decreases |items|
  {
    if items == [] {
    } else {
      var k := |items| - 1;
      WfItemsPrefix(items, k);
      ApplyKeepsWf(t, items[..k]);
      if items[k].item.user.Some? {
        var v := items[k].item.user.value;
        CopyIsStripped(v);
        StrippedTwice(v);
        SetUserWf(ApplyItems(t, items[..k]), items[k].name, Copy(v));
      }
    }
  }

  /** And so does reading JSON, whatever its members' names. */
  lemma {:induction false} FromMembersWf(ms: seq<Member>)
    ensures WfData(FromMembers(ms))
    decreases ms
  {
    if ms == [] {
      assert FromMembers(ms).items == [];
    } else {
      var m := ms[|ms| - 1];
      FromMembersWf(ms[..|ms| - 1]);
      ValueOfWf(m.json);
      if !m.json.JNull? {
        SetUserWf(FromMembers(ms[..|ms| - 1]), m.name, ValueOf(m.json).value);
      }
    }
  }

  /** The last member of a name that is not null. */
  function LastOf(ms: seq<Member>, name: string): Option<Json>
    decreases |ms|
  {
    if ms == [] then None
    else
      var m := ms[|ms| - 1];
      if m.name == name && !m.json.JNull? then Some(m.json) else LastOf(ms[..|ms| - 1], name)
  }

  /** Of members with one name the last one counts that is not null; what is read has no other values. */
  lemma {:induction false} LastMemberWins(ms: seq<Member>, name: string)
    ensures var last := LastOf(ms, name);
      && User(FromMembers(ms), name) == (if last.Some? then ValueOf(last.value) else None)
      && Others(FromMembers(ms), name) == (None, None)
      && (last.Some? ==> !last.value.JNull? && ValueOf(last.value).Some?)
    decreases |ms|
  {
    if ms == [] {
    } else {
      var m, before := ms[|ms| - 1], FromMembers(ms[..|ms| - 1]);
      LastMemberWins(ms[..|ms| - 1], name);
      if !m.json.JNull? {
        SetUserLookup(before, m.name, ValueOf(m.json).value, name);
      }
    }
  }

  lemma {:induction false} ValueOfWf(j: Json)
    ensures ValueOf(j).Some? ==> WfValue(ValueOf(j).value)
    decreases j
  {
    match j
    case JArr(elems) => ObjectsWf(elems);
    case JObj(ms) => FromMembersWf(ms);
    case _ =>
  }

  lemma {:induction false} ObjectsWf(elems: seq<Json>)
    ensures forall i :: 0 <= i < |Objects(elems)| ==> WfData(Objects(elems)[i])
    decreases elems
  {
    if elems == [] {
    } else {
      ObjectsWf(elems[..|elems| - 1]);
      if elems[|elems| - 1].JObj? {
        FromMembersWf(elems[|elems| - 1].members);
      }
    }
  }

  lemma SetUserAgain(d: Data, name: string, v: Value)
    requires User(d, name) == Some(v) && KindAt(d, name) == Some(KindOf(v))
    ensures SetUser(d, name, v) == d
  {
  }

  /** Applying the entry would change nothing. */
  predicate Present(d: Data, e: Entry) {
    e.item.user.Some? ==>
      User(d, e.name) == Some(Copy(e.item.user.value)) && KindAt(d, e.name) == Some(KindOf(e.item.user.value))
  }

  lemma {:induction false} ApplyPresent(d: Data, items: seq<Entry>)
    requires forall i :: 0 <= i < |items| ==> Present(d, items[i])
    ensures ApplyItems(d, items) == d
    decreases |items|
  {
    if items == [] {
    } else {
      var k := |items| - 1;
      ApplyPresent(d, items[..k]);
      assert Present(d, items[k]);
      if items[k].item.user.Some? {
        SetUserAgain(d, items[k].name, Copy(items[k].item.user.value));
      }
    }
  }

  /** Applying the same settings again changes nothing. */
  lemma ApplyIdempotent(t: Data, a: Data)
    requires Distinct(a.items)
    ensures Apply(Apply(t, a), a) == Apply(t, a)
  {
    forall i | 0 <= i < |a.items|
      ensures Present(Apply(t, a), a.items[i])
    {
      ApplyOverrides(t, a.items, a.items[i].name);
      assert Find(a.items, a.items[i].name) == Some(i);
    }
    ApplyPresent(Apply(t, a), a.items);
  }

  /** Applying is associative, name by name. */
  lemma ApplyAssociative(t: Data, a: Data, b: Data, n: string)
    requires WfData(a) && WfData(b)
    ensures User(Apply(Apply(t, a), b), n) == User(Apply(t, Apply(a, b)), n)
    ensures Others(Apply(Apply(t, a), b), n) == Others(Apply(t, Apply(a, b)), n)
    ensures KindAt(Apply(Apply(t, a), b), n) == KindAt(Apply(t, Apply(a, b)), n)
  {
    ApplyOverrides(Apply(t, a), b.items, n);
    ApplyOverrides(t, a.items, n);
    ApplyOverrides(a, b.items, n);
    ApplyDistinct(a, b.items);
    ApplyOverrides(t, Apply(a, b).items, n);
    if User(b, n).Some? {
      CopyTwice(User(b, n).value);
    }
  }

  // ---------- The settings object ----------

  /** `struct obs_data` */
  class Settings {
    var items: seq<Entry>

    function View(): Data
      reads this
    {
      Data(items)
    }

    constructor ()
      ensures View() == EMPTY
    {
      items := [];
    }

    method SetItem(name: string, v: Value)
      modifies this
      ensures View() == SetUser(old(View()), name, v)
    {
      assert items[0..] == items;
      for i := 0 to |items|
        invariant items == old(items) && forall j :: 0 <= j < i ==> items[j].name != name
      {
        if items[i].name == name {
          assert Find(items, name) == Some(i);
          items := items[i := Entry(name, items[i].item.(user := Some(v), kind := KindOf(v)))];
          return;
        }
      }
      assert Find(items, name) == None;
      items := items + [Entry(name, UserItem(v))];
    }

    method AddJsonObjectData(ms: seq<Member>)
      requires View() == EMPTY
      modifies this
      ensures View() == FromMembers(ms)
      decreases ms, 1
    {
      for i := 0 to |ms|
        invariant View() == FromMembers(ms[..i])
      {
        AddJsonItem(ms[i].name, ms[i].json);
        assert ms[..i + 1][..i] == ms[..i];
      }
      assert ms[..|ms|] == ms;
    }

    method AddJsonItem(key: string, json: Json)
      modifies this
      ensures View() == AddItem(old(View()), key, ValueOf(json))
      decreases json, 0
    {
      match json
      case JObj(ms) =>
        var sub := new Settings();
        sub.AddJsonObjectData(ms);
        SetItem(key, Obj(sub.View()));
      case JArr(elems) =>
        var objects := ReadJsonArray(elems);
        SetItem(key, Arr(objects));
      case JStr(s) => SetItem(key, Str(s));
      case JInt(i) => SetItem(key, Int(i));
      case JReal(r) => SetItem(key, Real(r));
      case JBool(b) => SetItem(key, Bool(b));
      case JNull =>
    }

    /** The loop of `obs_data_add_json_array`. */
    static method ReadJsonArray(elems: seq<Json>) returns (objects: seq<Data>)
      ensures objects == Objects(elems)
      decreases elems, 1
    {
      objects := [];
      for i := 0 to |elems|
        invariant objects == Objects(elems[..i])
      {
        assert elems[..i + 1][..i] == elems[..i];
        if elems[i].JObj? {
          var item := new Settings();
          item.AddJsonObjectData(elems[i].members);
          objects := objects + [item.View()];
        }
      }
      assert elems[..|elems|] == elems;
    }

    /** `obs_data_to_json`, without defaults. */
    static method WriteJson(d: Data) returns (json: Json)
      requires WfData(d)
      ensures json == ToJson(d)
      decreases d
    {
      var ms: seq<Member> := [];
      for i := 0 to |d.items|
        invariant ms == Members(d.items[..i])
      {
        assert d.items[..i + 1][..i] == d.items[..i];
        var e := d.items[i];
        if e.item.user.Some? {
          var j := WriteValue(e.item.user.value);
          ms := ms + [Member(e.name, j)];
        }
      }
      assert d.items[..|d.items|] == d.items;
      json := JObj(ms);
    }

    static method WriteValue(v: Value) returns (json: Json)
      requires WfValue(v)
      ensures json == JsonOf(v)
      decreases v
    {
      match v
      case Str(s) => json := JStr(s);
      case Int(i) => json := JInt(i);
      case Real(r) => json := JReal(r);
      case Bool(b) => json := JBool(b);
      case Obj(d) => json := WriteJson(d);
      case Arr(ds) =>
        var js: seq<Json> := [];
        for i := 0 to |ds|
          invariant js == ToJsons(ds[..i])
        {
          assert ds[..i + 1][..i] == ds[..i];
          var j := WriteJson(ds[i]);
          js := js + [j];
        }
        assert ds[..|ds|] == ds;
        json := JArr(js);
    }

    /** `obs_data_apply`, for settings other than these. */
    method ApplyData(a: Data)
      requires WfData(a)
      modifies this
      ensures View() == Apply(old(View()), a)
      decreases a
    {
      for i := 0 to |a.items|
        invariant View() == ApplyItems(old(View()), a.items[..i])
      {
        assert a.items[..i + 1][..i] == a.items[..i];
        var e := a.items[i];
        if e.item.user.Some? {
          var copy := CopyValue(e.item.user.value);
          SetItem(e.name, copy);
        }
      }
      assert a.items[..|a.items|] == a.items;
    }

    /** `copy_obj` and `copy_array` */
    static method CopyValue(v: Value) returns (copy: Value)
      requires WfValue(v)
      ensures copy == Copy(v)
      decreases v
    {
      match v
      case Obj(d) =>
        var newObj := new Settings();
        newObj.ApplyData(d);
        copy := Obj(newObj.View());
      case Arr(ds) =>
        var newArray: seq<Data> := [];
        for i := 0 to |ds|
          invariant newArray == Copies(ds[..i])
        {
          assert ds[..i + 1][..i] == ds[..i];
          var newObj := new Settings();
          newObj.ApplyData(ds[i]);
          newArray := newArray + [newObj.View()];
        }
        assert ds[..|ds|] == ds;
        copy := Arr(newArray);
      case _ => copy := v;
    }

    method ApplySettings(other: Settings)
      requires WfData(other.View())
      modifies this
      ensures View() == if other == this then old(View()) else Apply(old(View()), old(other.View()))
    {
      if other == this {
        return;
      }
      ApplyData(other.View());
    }
  }
}
