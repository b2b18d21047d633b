/** The meaning of the (de)serialisers that wsrpcgen generates from a schema, over resolved types. */
module Codec {
  import opened Ucl

  // ------------------------------------------------------------------------ schemas

  datatype Base = BoolType | IntType | StringType | Named(name: string)
  datatype TypeRef = TypeRef(list: bool, base: Base)
  datatype Field = Field(id: string, typ: TypeRef)

  /** An enumerator; an empty `str` stands for none given. */
  datatype Entry = Entry(id: string, str: string, explicitValue: Option<int>)

  datatype Def = Struct(fields: seq<Field>) | Enum(entries: seq<Entry>)

  /** Definitions by fully qualified name; a struct may refer to itself through a list. */
  type Schema = map<string, Def>

  /** What C++ asks of a struct: no two members of the same name. */
  ghost predicate DistinctIds(fields: seq<Field>) {
    forall i, j :: 0 <= i < j < |fields| ==> fields[i].id != fields[j].id
  }

  ghost predicate WellFormed(sch: Schema) {
    forall n :: n in sch && sch[n].Struct? ==> DistinctIds(sch[n].fields)
  }

  // ------------------------------------------------------------------------ values

  /** An enum variable starts out as `kMax`, which is no enumerator. */
  datatype Val =
    | VBool(b: bool)
    | VInt(n: int)
    | VStr(s: string)
    | VEnum(v: int)
    | VStruct(members: seq<Val>)
    | VList(els: seq<Val>)

  predicate HasBase(sch: Schema, t: Base, v: Val)
    decreases v, 0
  {
    match t
    case BoolType => v.VBool?
    case IntType => v.VInt? && IsInt32(v.n)
    case StringType => v.VStr?
    case Named(n) =>
      && n in sch
      && match sch[n]
         case Enum(entries) => v.VEnum? && exists i :: 0 <= i <= |entries| && ValueAt(entries, i) == v.v
         case Struct(fields) => v.VStruct? && |v.members| == |fields| && forall i :: 0 <= i < |fields| ==> HasType(sch, fields[i].typ, v.members[i])
  }

  predicate HasType(sch: Schema, t: TypeRef, v: Val)
    decreases v, 1
  {
    if t.list then v.VList? && forall i :: 0 <= i < |v.els| ==> HasBase(sch, t.base, v.els[i])
    else HasBase(sch, t.base, v)
  }

  // ------------------------------------------------------------------------ enums

  /** The value C++ gives to the i-th enumerator; for i past the end, that of the implicit `kMax`. */
  function ValueAt(entries: seq<Entry>, i: nat): int
    requires i <= |entries|
  {
    if i < |entries| && entries[i].explicitValue.Some? then entries[i].explicitValue.value
    else if i == 0 then 0
    else ValueAt(entries, i - 1) + 1
  }

  function KMax(entries: seq<Entry>): int { ValueAt(entries, |entries|) }

  function StringAt(e: Entry): string { CString(if e.str != [] then e.str else e.id) }

  /** `toPSz`: index of the first enumerator with this value. */
  function IndexOfValue(entries: seq<Entry>, v: int, from: nat): (k: nat)
    requires from <= |entries|
    ensures from <= k <= |entries|
    ensures k < |entries| ==> ValueAt(entries, k) == v
    ensures forall i :: from <= i < k ==> ValueAt(entries, i) != v
    decreases |entries| - from
  {
    if from == |entries| || ValueAt(entries, from) == v then from else IndexOfValue(entries, v, from + 1)
  }

  /** `fromPSz`: index of the first enumerator with this string. */
  function IndexOfString(entries: seq<Entry>, s: string, from: nat): (k: nat)
    requires from <= |entries|
    ensures from <= k <= |entries|
    ensures k < |entries| ==> StringAt(entries[k]) == s
    ensures forall i :: from <= i < k ==> StringAt(entries[i]) != s
    decreases |entries| - from
  {
    if from == |entries| || StringAt(entries[from]) == s then from else IndexOfString(entries, s, from + 1)
  }

  /** For a value that is no enumerator `toPSz` returns a null pointer, of which no object is made. */
  function SerialiseEnum(entries: seq<Entry>, v: int): Option<Obj> {
    var k := IndexOfValue(entries, v, 0);
    if k < |entries| then Some(Str(StringAt(entries[k]))) else None
  }

  function DeserialiseEnum(entries: seq<Entry>, u: Obj): Option<Val> {
    if !u.Str? then None
    else
      var v := ValueAt(entries, IndexOfString(entries, CString(u.s), 0));
      if v == KMax(entries) then None else Some(VEnum(v))
  }

  // ------------------------------------------------------------------------ generated code

  /** `x.serialise()` or `wsRPCSerialise<type>`; none stands for a null pointer. */
  function SerialiseBase(sch: Schema, t: Base, v: Val): Option<Obj>
    requires HasBase(sch, t, v)
    decreases v, 0
  {
    match t
    case BoolType => Some(Bool(v.b))
    case IntType => Some(Int(v.n))
    case StringType => Some(Str(CString(v.s)))
    case Named(n) =>
      match sch[n]
      case Enum(entries) => SerialiseEnum(entries, v.v)
      case Struct(fields) => Some(Object(SerialiseFields(sch, fields, v.members)))
  }

  /** `ucl_object_insert_key` inserts nothing for a null pointer. */
  function SerialiseFields(sch: Schema, fields: seq<Field>, vs: seq<Val>): seq<(string, Obj)>
    requires |fields| == |vs| && forall i :: 0 <= i < |fields| ==> HasType(sch, fields[i].typ, vs[i])
    decreases vs
  {
    if fields == [] then []
    else
      assert forall i :: 0 <= i < |fields[1..]| ==> fields[1..][i] == fields[i + 1] && vs[1..][i] == vs[i + 1];
      var o := Serialise(sch, fields[0].typ, vs[0]);
      (if o.Some? then [(fields[0].id, o.value)] else []) + SerialiseFields(sch, fields[1..], vs[1..])
  }

  /** `genSerialiseInto`. */
  function Serialise(sch: Schema, t: TypeRef, v: Val): Option<Obj>
    requires HasType(sch, t, v)
    decreases v, 1
  {
    if t.list then Some(Array(SerialiseAll(sch, t.base, v.els))) else SerialiseBase(sch, t.base, v)
  }

  /** Nor does `ucl_array_append` append anything for it. */
  function SerialiseAll(sch: Schema, t: Base, vs: seq<Val>): seq<Obj>
    requires forall i :: 0 <= i < |vs| ==> HasBase(sch, t, vs[i])
    decreases vs
  {
    if vs == [] then []
    else
      assert forall i :: 0 <= i < |vs[1..]| ==> vs[1..][i] == vs[i + 1];
      var o := SerialiseBase(sch, t, vs[0]);
      (if o.Some? then [o.value] else []) + SerialiseAll(sch, t, vs[1..])
  }

  /** `T::deserialise` or `wsRPCDeserialise<type>`. */
  function DeserialiseBase(sch: Schema, t: Base, u: Obj): Option<Val>
    decreases u, 1, 0
  {
    match t
    case BoolType => if u.Bool? then Some(VBool(u.b)) else None
    case IntType => if u.Int? then Some(VInt(ToInt32(u.n))) else None
    case StringType => if u.Str? then Some(VStr(CString(u.s))) else None
    case Named(n) =>
      if n !in sch then None
      else match sch[n]
        case Enum(entries) => DeserialiseEnum(entries, u)
        case Struct(fields) =>
          if !u.Object? then None
          else
            var r := DeserialiseFields(sch, fields, u);
            if r.Some? then Some(VStruct(r.value)) else None
  }

  function DeserialiseFields(sch: Schema, fields: seq<Field>, u: Obj): (r: Option<seq<Val>>)
    ensures r.Some? ==> |r.value| == |fields|
    decreases u, 0, |fields|
  {
    if fields == [] then Some([])
    else
      var m := Lookup(u, fields[0].id);
      if m.None? then None
      else
        var v := Deserialise(sch, fields[0].typ, m.value);
        var vs := DeserialiseFields(sch, fields[1..], u);
        if v.Some? && vs.Some? then Some([v.value] + vs.value) else None
  }

  /** `genDeserialiseInto`: a list is filled from whatever `ucl_iterate_object` yields. */
  function Deserialise(sch: Schema, t: TypeRef, u: Obj): Option<Val>
    decreases u, 3, 0
  {
    if t.list then
      var r := DeserialiseAll(sch, t.base, Elements(u), u);
      if r.Some? then Some(VList(r.value)) else None
    else DeserialiseBase(sch, t.base, u)
  }

  function DeserialiseAll(sch: Schema, t: Base, us: seq<Obj>, within: Obj): (r: Option<seq<Val>>)
    requires forall e :: e in us ==> e == within || e < within
    ensures r.Some? ==> |r.value| == |us|
    decreases within, 2, |us|
  {
    if us == [] then Some([])
    else
      assert us[0] in us && forall e :: e in us[1..] ==> e in us;
      var v := DeserialiseBase(sch, t, us[0]);
      var vs := DeserialiseAll(sch, t, us[1..], within);
      if v.Some? && vs.Some? then Some([v.value] + vs.value) else None
  }

  // ------------------------------------------------------------------------ when a value survives the wire

  /** The enumerator that is written is the one that is read: no earlier one has the same string, and
      the value is not that of `kMax`. */
  ghost predicate EnumFaithful(entries: seq<Entry>, v: int) {
    var k := IndexOfValue(entries, v, 0);
    && v != KMax(entries)
    && k < |entries| && forall j :: 0 <= j < k ==> StringAt(entries[j]) != StringAt(entries[k])
  }

  ghost predicate TransparentBase(sch: Schema, t: Base, v: Val)
    requires HasBase(sch, t, v)
    decreases v, 0
  {
    match t
    case BoolType => true
    case IntType => true
    case StringType => NulFree(v.s)
    case Named(n) =>
      match sch[n]
      case Enum(entries) => EnumFaithful(entries, v.v)
      case Struct(fields) => forall i :: 0 <= i < |fields| ==> Transparent(sch, fields[i].typ, v.members[i])
  }

  /** A caller can check this on the value: strings hold no NUL, enumerators are faithful. */
  ghost predicate Transparent(sch: Schema, t: TypeRef, v: Val)
    requires HasType(sch, t, v)
    decreases v, 1
  {
    if t.list then forall i :: 0 <= i < |v.els| ==> TransparentBase(sch, t.base, v.els[i])
    else TransparentBase(sch, t.base, v)
  }

  // ------------------------------------------------------------------------ reading back

  /** Deserialising what may not be there. */
  function Back(sch: Schema, t: TypeRef, o: Option<Obj>): Option<Val> {
    if o.Some? then Deserialise(sch, t, o.value) else None
  }

  function BaseBack(sch: Schema, t: Base, o: Option<Obj>): Option<Val> {
    if o.Some? then DeserialiseBase(sch, t, o.value) else None
  }

  lemma EnumRoundTripIff(entries: seq<Entry>, v: int)
    ensures var o := SerialiseEnum(entries, v);
      (o.Some? && DeserialiseEnum(entries, o.value) == Some(VEnum(v))) <==> EnumFaithful(entries, v)
  {
    var k := IndexOfValue(entries, v, 0);
    if k < |entries| {
      var s := StringAt(entries[k]);
      CStringFacts(if entries[k].str != [] then entries[k].str else entries[k].id);
      var j := IndexOfString(entries, s, 0);
      assert j <= k;
      assert j < k ==> ValueAt(entries, j) != v;
    }
  }

  lemma {:induction false} AbsentNotStored(sch: Schema, fields: seq<Field>, vs: seq<Val>, key: string)
    requires |fields| == |vs| && forall i :: 0 <= i < |fields| ==> HasType(sch, fields[i].typ, vs[i])
    requires forall i :: 0 <= i < |fields| ==> fields[i].id != key
    ensures LookupField(SerialiseFields(sch, fields, vs), key) == None
    decreases |fields|
  {
    if fields != [] {
      var fs, ws := fields[1..], vs[1..];
      assert forall i :: 0 <= i < |fs| ==> fs[i] == fields[i + 1] && ws[i] == vs[i + 1];
      AbsentNotStored(sch, fs, ws, key);
      StoredFirst(sch, fields, vs, key);
      hide SerialiseFields, Serialise;
    }
  }

  /** The first member, if there is an object for it, comes first. */
  lemma StoredFirst(sch: Schema, fields: seq<Field>, vs: seq<Val>, key: string)
    requires fields != [] && |fields| == |vs| && forall i :: 0 <= i < |fields| ==> HasType(sch, fields[i].typ, vs[i])
    requires |fields[1..]| == |vs[1..]| && forall i :: 0 <= i < |fields[1..]| ==> HasType(sch, fields[1..][i].typ, vs[1..][i])
    ensures LookupField(SerialiseFields(sch, fields, vs), key) ==
      if fields[0].id == key && Serialise(sch, fields[0].typ, vs[0]).Some? then Serialise(sch, fields[0].typ, vs[0])
      else LookupField(SerialiseFields(sch, fields[1..], vs[1..]), key)
  {
    var o, more := Serialise(sch, fields[0].typ, vs[0]), SerialiseFields(sch, fields[1..], vs[1..]);
    assert SerialiseFields(sch, fields, vs) == (if o.Some? then [(fields[0].id, o.value)] else []) + more;
    hide SerialiseFields, Serialise;
    if o.Some? {
      var all := [(fields[0].id, o.value)] + more;
      assert all[1..] == more;
    } else {
      assert [] + more == more;
    }
  }

  /** Looking a member up finds the object that was made of it, or nothing if none was. */
  lemma {:induction false} LookupStored(sch: Schema, fields: seq<Field>, vs: seq<Val>, i: nat)
    requires |fields| == |vs| && forall j :: 0 <= j < |fields| ==> HasType(sch, fields[j].typ, vs[j])
    requires DistinctIds(fields) && i < |fields|
    ensures LookupField(SerialiseFields(sch, fields, vs), fields[i].id) == Serialise(sch, fields[i].typ, vs[i])
    decreases |fields|
  {
    var fs, ws := fields[1..], vs[1..];
    assert forall j :: 0 <= j < |fs| ==> fs[j] == fields[j + 1] && ws[j] == vs[j + 1];
    StoredFirst(sch, fields, vs, fields[i].id);
    hide SerialiseFields, Serialise;
    if i == 0 {
      AbsentNotStored(sch, fs, ws, fields[0].id);
    } else {
      LookupStored(sch, fs, ws, i - 1);
    }
  }

  ghost predicate EachReadBack(sch: Schema, fields: seq<Field>, vs: seq<Val>, us: seq<Option<Obj>>)
    requires |fields| == |vs| == |us|
  {
    forall i :: 0 <= i < |fields| ==> Back(sch, fields[i].typ, us[i]) == Some(vs[i])
  }

  lemma EachReadBackStep(sch: Schema, fields: seq<Field>, vs: seq<Val>, us: seq<Option<Obj>>)
    requires |fields| == |vs| == |us| > 0
    ensures EachReadBack(sch, fields, vs, us) <==>
      Back(sch, fields[0].typ, us[0]) == Some(vs[0]) && EachReadBack(sch, fields[1..], vs[1..], us[1..])
  {
    hide Back;
    var fs, ws, os := fields[1..], vs[1..], us[1..];
    assert forall i :: 0 <= i < |fs| ==> fs[i] == fields[i + 1] && ws[i] == vs[i + 1] && os[i] == us[i + 1];
    assert forall i :: 0 < i < |fields| ==> fields[i] == fs[i - 1] && vs[i] == ws[i - 1] && us[i] == os[i - 1];
  }

  lemma ConsEquals(x: Val, xs: seq<Val>, vs: seq<Val>)
    requires vs != []
    ensures [x] + xs == vs <==> x == vs[0] && xs == vs[1..]
  {
    assert ([x] + xs)[1..] == xs && vs == [vs[0]] + vs[1..];
  }

  /** Members are read back one by one; the whole is read back exactly when each of them is. */
  lemma {:induction false} FieldsReadBack(sch: Schema, fields: seq<Field>, vs: seq<Val>, u: Obj, us: seq<Option<Obj>>)
    requires |fields| == |vs| == |us|
    requires forall i :: 0 <= i < |fields| ==> Lookup(u, fields[i].id) == us[i]
    ensures DeserialiseFields(sch, fields, u) == Some(vs) <==> EachReadBack(sch, fields, vs, us)
    decreases |fields|
  {
    hide Deserialise, Lookup;
    if fields == [] {
      assert vs == [];
    } else {
      hide EachReadBack;
      assert forall i :: 0 <= i < |fields[1..]| ==> fields[1..][i] == fields[i + 1] && us[1..][i] == us[i + 1];
      FieldsReadBack(sch, fields[1..], vs[1..], u, us[1..]);
      EachReadBackStep(sch, fields, vs, us);
      var d, ds := Back(sch, fields[0].typ, us[0]), DeserialiseFields(sch, fields[1..], u);
      if d.Some? && ds.Some? { ConsEquals(d.value, ds.value, vs); }
    }
  }

  /** At most one object is made of each element. */
  lemma {:induction false} NoMoreObjects(sch: Schema, t: Base, vs: seq<Val>)
    requires forall i :: 0 <= i < |vs| ==> HasBase(sch, t, vs[i])
    ensures |SerialiseAll(sch, t, vs)| <= |vs|
    decreases |vs|
  {
    if vs != [] {
      assert forall i :: 0 <= i < |vs[1..]| ==> vs[1..][i] == vs[i + 1];
      NoMoreObjects(sch, t, vs[1..]);
      hide SerialiseBase;
    }
  }

  /** Deserialising what was serialised yields the value exactly when the value is transparent:
      for every schema, recursive ones included, and every value of every type in it. */
  lemma {:induction false} RoundTripIff(sch: Schema, t: TypeRef, v: Val)
    requires WellFormed(sch) && HasType(sch, t, v)
    ensures Back(sch, t, Serialise(sch, t, v)) == Some(v) <==> Transparent(sch, t, v)
    decreases v, 2
  {
    if t.list {
      var us := SerialiseAll(sch, t.base, v.els);
      ElementsRoundTripIff(sch, t.base, v.els, Array(us));
    } else {
      BaseRoundTripIff(sch, t.base, v);
    }
  }

  /** A list is read back exactly when each of its elements is; one of which no object was made is missing. */
  lemma {:induction false} ElementsRoundTripIff(sch: Schema, t: Base, vs: seq<Val>, within: Obj)
    requires WellFormed(sch) && forall i :: 0 <= i < |vs| ==> HasBase(sch, t, vs[i])
    requires forall e :: e in SerialiseAll(sch, t, vs) ==> e == within || e < within
    ensures DeserialiseAll(sch, t, SerialiseAll(sch, t, vs), within) == Some(vs) <==>
      forall i :: 0 <= i < |vs| ==> TransparentBase(sch, t, vs[i])
    decreases vs, 0
  {
    if vs != [] {
      var ws, o := vs[1..], SerialiseBase(sch, t, vs[0]);
      assert forall i :: 0 <= i < |ws| ==> ws[i] == vs[i + 1];
      assert forall i :: 0 < i < |vs| ==> vs[i] == ws[i - 1];
      var us, more := SerialiseAll(sch, t, vs), SerialiseAll(sch, t, ws);
      assert us == (if o.Some? then [o.value] else []) + more;
      assert (forall e :: e in more ==> e in us) && (o.Some? ==> us[0] == o.value && o.value in us);
      NoMoreObjects(sch, t, ws);
      BaseRoundTripIff(sch, t, vs[0]);
      ElementsRoundTripIff(sch, t, ws, within);
      AllTransparentStep(sch, t, vs);
      hide SerialiseAll, SerialiseBase, DeserialiseAll, BaseBack, TransparentBase;
      ElementStep(sch, t, vs, o, more, within);
    }
  }

  lemma ElementStep(sch: Schema, t: Base, vs: seq<Val>, o: Option<Obj>, more: seq<Obj>, within: Obj)
    requires |more| < |vs| && (forall e :: e in more ==> e == within || e < within) && (o.Some? ==> o.value == within || o.value < within)
    ensures var us := (if o.Some? then [o.value] else []) + more;
      && (forall e :: e in us ==> e == within || e < within)
      && (DeserialiseAll(sch, t, us, within) == Some(vs) <==>
           BaseBack(sch, t, o) == Some(vs[0]) && DeserialiseAll(sch, t, more, within) == Some(vs[1..]))
  {
    hide DeserialiseBase;
    if o.Some? {
      var us := [o.value] + more;
      assert us[1..] == more;
      var d, ds := DeserialiseBase(sch, t, o.value), DeserialiseAll(sch, t, more, within);
      if d.Some? && ds.Some? { ConsEquals(d.value, ds.value, vs); }
    } else {
      assert [] + more == more;
    }
  }

  lemma AllTransparentStep(sch: Schema, t: Base, vs: seq<Val>)
    requires vs != [] && (forall i :: 0 <= i < |vs| ==> HasBase(sch, t, vs[i])) && forall i :: 0 <= i < |vs[1..]| ==> HasBase(sch, t, vs[1..][i])
    ensures (forall i :: 0 <= i < |vs| ==> TransparentBase(sch, t, vs[i])) <==>
      TransparentBase(sch, t, vs[0]) && forall i :: 0 <= i < |vs[1..]| ==> TransparentBase(sch, t, vs[1..][i])
  {
    hide TransparentBase;
    assert forall i :: 0 < i < |vs| ==> vs[i] == vs[1..][i - 1];
  }

  lemma {:induction false} BaseRoundTripIff(sch: Schema, t: Base, v: Val)
    requires WellFormed(sch) && HasBase(sch, t, v)
    ensures BaseBack(sch, t, SerialiseBase(sch, t, v)) == Some(v) <==> TransparentBase(sch, t, v)
    decreases v, 1
  {
    match t
    case BoolType =>
    case IntType =>
    case StringType => CStringFacts(v.s);
    case Named(n) =>
      match sch[n]
      case Enum(entries) => EnumRoundTripIff(entries, v.v);
      case Struct(fields) => StructRoundTripIff(sch, n, v);
  }

  lemma {:induction false} StructRoundTripIff(sch: Schema, n: string, v: Val)
    requires WellFormed(sch) && HasBase(sch, Named(n), v) && sch[n].Struct?
    ensures BaseBack(sch, Named(n), SerialiseBase(sch, Named(n), v)) == Some(v) <==> TransparentBase(sch, Named(n), v)
    decreases v, 0
  {
    var fields := sch[n].fields;
    var u := Object(SerialiseFields(sch, fields, v.members));
    var us := seq(|fields|, i requires 0 <= i < |fields| => Serialise(sch, fields[i].typ, v.members[i]));
    forall i | 0 <= i < |fields|
      ensures Lookup(u, fields[i].id) == us[i]
      ensures Back(sch, fields[i].typ, us[i]) == Some(v.members[i]) <==> Transparent(sch, fields[i].typ, v.members[i])
    {
      LookupStored(sch, fields, v.members, i);
      RoundTripIff(sch, fields[i].typ, v.members[i]);
    }
    FieldsReadBack(sch, fields, v.members, u, us);
  }

  // ------------------------------------------------------------------------ what is read has its type

  /** Which objects each builtin type is read from, and what is read. */
  lemma BuiltinsRead(sch: Schema, u: Obj)
    ensures forall x :: DeserialiseBase(sch, BoolType, u) == Some(x) <==> u.Bool? && x == VBool(u.b)
    ensures forall x :: DeserialiseBase(sch, IntType, u) == Some(x) <==>
      u.Int? && x.VInt? && IsInt32(x.n) && (x.n - u.n) % TWO32 == 0
    ensures forall x :: DeserialiseBase(sch, StringType, u) == Some(x) <==> u.Str? && x.VStr? && x.s == CString(u.s)
  {
    forall x: Val | u.Int? && x.VInt? && IsInt32(x.n) && (x.n - u.n) % TWO32 == 0 ensures x == VInt(ToInt32(u.n)) {
      SameInt32(x.n, ToInt32(u.n), u.n);
    }
    hide ToInt32;
  }

  /** `v` is the value of the first enumerator that has this string. */
  ghost predicate IsFirstWith(entries: seq<Entry>, s: string, v: int) {
    exists k :: 0 <= k < |entries| && v == ValueAt(entries, k) && StringAt(entries[k]) == s && forall j :: 0 <= j < k ==> StringAt(entries[j]) != s
  }

  /** A struct is read from objects only, and an enum from strings only: a string of the enum is read as the
      first enumerator that has it, unless that one's value is `kMax`. */
  lemma NamedRead(sch: Schema, n: string, u: Obj, x: Val)
    requires DeserialiseBase(sch, Named(n), u) == Some(x)
    ensures n in sch
    ensures sch[n].Struct? ==> u.Object? && x.VStruct? && |x.members| == |sch[n].fields|
    ensures sch[n].Enum? ==> u.Str? && x.VEnum? && x.v != KMax(sch[n].entries) && IsFirstWith(sch[n].entries, CString(u.s), x.v)
  {
    if sch[n].Enum? { var k := IndexOfString(sch[n].entries, CString(u.s), 0); }
  }

  /** A list is read from the elements of an array, the members of an object, or anything else as its one element. */
  lemma ListRead(sch: Schema, t: Base, u: Obj, vs: seq<Val>)
    ensures var us := match u case Array(els) => els case Object(fields) => Members(fields) case _ => [u];
      Deserialise(sch, TypeRef(true, t), u) == Some(VList(vs)) <==>
        |vs| == |us| && forall i :: 0 <= i < |us| ==> DeserialiseBase(sch, t, us[i]) == Some(vs[i])
  {
    EachReadFrom(sch, t, Elements(u), vs, u);
  }

  lemma {:induction false} EachReadFrom(sch: Schema, t: Base, us: seq<Obj>, vs: seq<Val>, within: Obj)
    requires forall e :: e in us ==> e == within || e < within
    ensures DeserialiseAll(sch, t, us, within) == Some(vs) <==>
      |vs| == |us| && forall i :: 0 <= i < |us| ==> DeserialiseBase(sch, t, us[i]) == Some(vs[i])
    decreases |us|
  {
    hide DeserialiseBase;
    if us != [] && vs != [] {
      var os, ws := us[1..], vs[1..];
      assert forall e :: e in os ==> e in us;
      assert forall i :: 0 <= i < |os| ==> os[i] == us[i + 1];
      assert forall i :: 0 < i < |us| ==> us[i] == os[i - 1];
      assert forall i :: 0 < i < |vs| ==> vs[i] == ws[i - 1];
      assert forall i :: 0 <= i < |ws| ==> ws[i] == vs[i + 1];
      EachReadFrom(sch, t, os, ws, within);
      var d, ds := DeserialiseBase(sch, t, us[0]), DeserialiseAll(sch, t, os, within);
      if d.Some? && ds.Some? { ConsEquals(d.value, ds.value, vs); }
    }
  }

  /** Two `int`s that agree with a number modulo 2^32 are equal. */
  lemma SameInt32(a: int, b: int, n: int)
    requires IsInt32(a) && IsInt32(b) && (a - n) % TWO32 == 0 && (b - n) % TWO32 == 0
    ensures a == b
  {
  }

  ghost predicate AllHaveBase(sch: Schema, t: Base, vs: seq<Val>) {
    forall i :: 0 <= i < |vs| ==> HasBase(sch, t, vs[i])
  }

  lemma AllHaveBaseCons(sch: Schema, t: Base, v: Val, vs: seq<Val>)
    requires HasBase(sch, t, v) && AllHaveBase(sch, t, vs)
    ensures AllHaveBase(sch, t, [v] + vs)
  {
    var all := [v] + vs;
    forall i | 0 <= i < |all| ensures HasBase(sch, t, all[i]) {
      if i > 0 { assert all[i] == vs[i - 1]; }
    }
  }

  /** Whatever the peer sent, a value that is read has the declared type. */
  lemma {:induction false} ReadHasType(sch: Schema, t: TypeRef, u: Obj)
    ensures var r := Deserialise(sch, t, u); r.Some? ==> HasType(sch, t, r.value)
    decreases u, 3, 0
  {
    if t.list {
      ElementsHaveType(sch, t.base, Elements(u), u);
      var r := DeserialiseAll(sch, t.base, Elements(u), u);
      if r.Some? { assert AllHaveBase(sch, t.base, r.value); }
    } else {
      ReadHasBase(sch, t.base, u);
    }
  }

  lemma {:induction false} ElementsHaveType(sch: Schema, t: Base, us: seq<Obj>, within: Obj)
    requires forall e :: e in us ==> e == within || e < within
    ensures DeserialiseAll(sch, t, us, within).Some? ==> AllHaveBase(sch, t, DeserialiseAll(sch, t, us, within).value)
    decreases within, 2, |us|
  {
    if us != [] {
      assert us[0] in us && forall e :: e in us[1..] ==> e in us;
      ReadHasBase(sch, t, us[0]);
      ElementsHaveType(sch, t, us[1..], within);
      var v, vs := DeserialiseBase(sch, t, us[0]), DeserialiseAll(sch, t, us[1..], within);
      hide DeserialiseBase, AllHaveBase;
      if v.Some? && vs.Some? { AllHaveBaseCons(sch, t, v.value, vs.value); }
    }
  }

  lemma {:induction false} ReadHasBase(sch: Schema, t: Base, u: Obj)
    ensures var r := DeserialiseBase(sch, t, u); r.Some? ==> HasBase(sch, t, r.value)
    decreases u, 1, 0
  {
    if t.Named? && t.name in sch {
      match sch[t.name]
      case Enum(entries) =>
        if u.Str? {
          var k := IndexOfString(entries, CString(u.s), 0);
          assert ValueAt(entries, k) == ValueAt(entries, k);
        }
      case Struct(fields) => if u.Object? { FieldsHaveType(sch, fields, u); }
    }
  }

  lemma {:induction false} FieldsHaveType(sch: Schema, fields: seq<Field>, u: Obj)
    ensures var r := DeserialiseFields(sch, fields, u);
      r.Some? ==> forall i :: 0 <= i < |fields| ==> HasType(sch, fields[i].typ, r.value[i])
    decreases u, 0, |fields|
  {
    if fields != [] {
      var m := Lookup(u, fields[0].id);
      if m.Some? {
        ReadHasType(sch, fields[0].typ, m.value);
        FieldsHaveType(sch, fields[1..], u);
        assert forall i :: 0 < i < |fields| ==> fields[i] == fields[1..][i - 1];
        hide HasType, Deserialise;
      }
    }
  }

  // ------------------------------------------------------------------------ values that do not survive

  /** No object is made of an enum variable left at its first value, unless an enumerator has that value,
      and nothing is read back in either case. */
  lemma UnsetEnumIsLost(entries: seq<Entry>)
    ensures SerialiseEnum(entries, KMax(entries)).None? <==> forall i :: 0 <= i < |entries| ==> ValueAt(entries, i) != KMax(entries)
    ensures var o := SerialiseEnum(entries, KMax(entries)); o.Some? ==> DeserialiseEnum(entries, o.value) != Some(VEnum(KMax(entries)))
  {
    var k := IndexOfValue(entries, KMax(entries), 0);
    assert k < |entries| ==> ValueAt(entries, k) == KMax(entries);
    EnumRoundTripIff(entries, KMax(entries));
  }

  /** Enumerators a = 1 and b = 0: `kMax` is 1 as well, and `a` is refused. */
  lemma KMaxIsLost()
    ensures var entries := [Entry("a", "", Some(1)), Entry("b", "", Some(0))];
      && KMax(entries) == ValueAt(entries, 0) == 1
      && SerialiseEnum(entries, 1) == Some(Str("a")) && DeserialiseEnum(entries, Str("a")) == None
  {
    var entries := [Entry("a", "", Some(1)), Entry("b", "", Some(0))];
    assert ValueAt(entries, 1) == 0 && ValueAt(entries, 2) == ValueAt(entries, 1) + 1;
    assert CString("a") == "a" by { assert "a"[1..] == ""; }
    assert IndexOfValue(entries, 1, 0) == 0 && IndexOfString(entries, "a", 0) == 0;
  }

  /** Two enumerators with one string: the second is read back as the first. */
  lemma SharedStringIsMistaken()
    ensures var entries := [Entry("a", "x", None), Entry("b", "x", None)]; var o := SerialiseEnum(entries, 1);
      o.Some? && DeserialiseEnum(entries, o.value) == Some(VEnum(0))
  {
    var entries := [Entry("a", "x", None), Entry("b", "x", None)];
    assert ValueAt(entries, 0) == 0 && ValueAt(entries, 1) == 1 && ValueAt(entries, 2) == 2;
    assert CString("x") == "x" by { assert "x"[1..] == ""; }
    assert IndexOfValue(entries, 1, 0) == 1 && IndexOfString(entries, "x", 0) == 0;
  }

  /** Every string is cut at its first NUL. */
  lemma NulCutsString(sch: Schema, s: string)
    ensures var t := TypeRef(false, StringType); Back(sch, t, Serialise(sch, t, VStr(s))) == Some(VStr(CString(s)))
    ensures CString("a\0b") == "a"
  {
    CStringFacts(s);
    var t := TypeRef(false, StringType);
    assert Serialise(sch, t, VStr(s)) == Some(Str(CString(s)));
    assert Deserialise(sch, t, Str(CString(s))) == Some(VStr(CString(CString(s))));
    var x := "a\0b";
    assert x[1..][0] == '\0' && CString(x[1..]) == [];
  }
}
