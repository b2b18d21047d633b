/** UCL objects as trees: the values that WSRPC messages, parameters and results are made of.
    Parsing and emitting UCL text belongs to libucl and is not part of the model. */
module Ucl {
  datatype Option<+T> = None | Some(value: T)

  datatype Obj =
    | Null
    | Bool(b: bool)
    | Int(n: int)
    | Str(s: string)
    | Array(els: seq<Obj>)
    | Object(fields: seq<(string, Obj)>)

  /** `ucl_object_lookup`: the first member with this key, nothing for a non-object. */
  function Lookup(o: Obj, key: string): (r: Option<Obj>)
    ensures r.Some? ==> r.value < o
  {
    if o.Object? then LookupField(o.fields, key) else None
  }

  function LookupField(fields: seq<(string, Obj)>, key: string): (r: Option<Obj>)
    ensures r.Some? ==> (key, r.value) in fields
    ensures r.None? ==> forall f :: f in fields ==> f.0 != key
  {
    if fields == [] then None
    else if fields[0].0 == key then Some(fields[0].1)
    else LookupField(fields[1..], key)
  }

  /** The value `ucl_iterate_object` walks over: array elements, object members, or the object itself. */
  function Elements(o: Obj): (es: seq<Obj>)
    ensures forall e :: e in es ==> e == o || e < o
  {
    match o
    case Array(els) => els
    case Object(fields) => Members(fields)
    case _ => [o]
  }

  function Members(fields: seq<(string, Obj)>): (es: seq<Obj>)
    ensures |es| == |fields|
    ensures forall i :: 0 <= i < |es| ==> es[i] == fields[i].1
  {
    seq(|fields|, i requires 0 <= i < |fields| => fields[i].1)
  }

  const TWO32 := 0x1_0000_0000
  const TWO31 := 0x8000_0000

  predicate IsInt32(n: int) { -TWO31 <= n < TWO31 }

  /** Conversion of a 64-bit UCL integer to a C `int`. */
  function ToInt32(n: int): (r: int)
    ensures IsInt32(r) && (r - n) % TWO32 == 0
    ensures IsInt32(n) ==> r == n
  {
    var m := n % TWO32;
    if m < TWO31 then m else m - TWO32
  }

  /** `ucl_object_toint` followed by conversion to `int`; 0 for a missing object or one that is no integer. */
  function ToInt(o: Option<Obj>): (r: int)
  {
    if o.Some? && o.value.Int? then ToInt32(o.value.n) else 0
  }

  /** A `char *` ends at the first NUL. */
  function CString(s: string): string {
    if s == [] || s[0] == '\0' then [] else [s[0]] + CString(s[1..])
  }

  predicate NulFree(s: string) { '\0' !in s }

  lemma {:induction false} CStringFacts(s: string)
    ensures NulFree(CString(s)) && CString(CString(s)) == CString(s)
    ensures CString(s) == s <==> NulFree(s)
  {
    if s != [] && s[0] != '\0' {
      CStringFacts(s[1..]);
      assert s == [s[0]] + s[1..];
      assert CString(s)[1..] == CString(s[1..]);
    }
  }

  lemma Regroup<T>(a: seq<T>, b: seq<T>, c: seq<T>)
    ensures a + (b + c) == (a + b) + c
  {
  }
}
