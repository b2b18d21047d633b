/** wsrpcgen's scopes: lookup of identifiers, printing of qualified names, and resolving them again. */
module Scope {
  import opened Ucl

  /** A type definition and the definitions nested in it. */
  datatype Def = Def(name: string, types: seq<Def>)

  /** A translation unit. Programs are scopes too, but are kept apart from the types. */
  datatype Unit = Unit(types: seq<Def>, programs: seq<Def>, imports: seq<Unit>)

  /** Where a definition stands: positions from the outermost scope inwards, types before programs. */
  type Path = seq<nat>

  function Outer(p: Path): Path
    requires p != []
  {
    p[..|p| - 1]
  }

  function Last(p: Path): nat
    requires p != []
  {
    p[|p| - 1]
  }

  predicate IsPath(u: Unit, p: Path)
    decreases |p|, 0
  {
    p == [] || (IsPath(u, Outer(p)) && Last(p) < |Inside(u, Outer(p))|)
  }

  /** The definitions directly inside the scope at `p`. */
  function Inside(u: Unit, p: Path): seq<Def>
    requires IsPath(u, p)
    decreases |p|, 2
  {
    if p == [] then u.types + u.programs else DefAt(u, p).types
  }

  function DefAt(u: Unit, p: Path): Def
    requires p != [] && IsPath(u, p)
    decreases |p|, 1
  {
    Inside(u, Outer(p))[Last(p)]
  }

  /** The `types` list of the scope at `p`: for the unit, without its programs. */
  function Types(u: Unit, p: Path): (ts: seq<Def>)
    requires IsPath(u, p)
    ensures |ts| <= |Inside(u, p)| && ts == Inside(u, p)[..|ts|]
  {
    if p == [] then u.types else Inside(u, p)
  }

  // ------------------------------------------------------------------------ lookup

  /** A definition in a unit or one of its imports. */
  datatype Loc = Loc(imports: seq<nat>, path: Path)

  predicate IsImport(u: Unit, ks: seq<nat>)
    decreases |ks|
  {
    ks == [] || (ks[0] < |u.imports| && IsImport(u.imports[ks[0]], ks[1..]))
  }

  function UnitAt(u: Unit, ks: seq<nat>): Unit
    requires IsImport(u, ks)
    decreases |ks|
  {
    if ks == [] then u else UnitAt(u.imports[ks[0]], ks[1..])
  }

  predicate IsLoc(u: Unit, l: Loc) { IsImport(u, l.imports) && IsPath(UnitAt(u, l.imports), l.path) }

  function IndexOf(ds: seq<Def>, id: string): (k: nat)
    ensures k <= |ds| && (k < |ds| ==> ds[k].name == id) && forall j :: 0 <= j < k ==> ds[j].name != id
  {
    if ds == [] || ds[0].name == id then 0 else 1 + IndexOf(ds[1..], id)
  }

  /** `TrlUnit::lookupIdentifier`. */
  function UnitLookup(u: Unit, id: string): Option<Loc>
    decreases u
  {
    var k := IndexOf(u.types, id);
    if k < |u.types| then Some(Loc([], [k])) else ImportsLookup(u.imports, id, 0)
  }

  /** Its loop over the imports; the first of `us` is import number `n`. */
  function ImportsLookup(us: seq<Unit>, id: string, n: nat): Option<Loc>
    decreases us
  {
    if us == [] then None
    else
      var r := UnitLookup(us[0], id);
      if r.Some? then Some(Loc([n] + r.value.imports, r.value.path)) else ImportsLookup(us[1..], id, n + 1)
  }

  /** `Scope::lookupIdentifier`, from the scope at `p`. */
  function Lookup(u: Unit, p: Path, id: string): Option<Loc>
    requires IsPath(u, p)
    decreases |p|
  {
    if p == [] then UnitLookup(u, id)
    else
      var k := IndexOf(Types(u, p), id);
      if k < |Types(u, p)| then Some(Loc([], p + [k])) else Lookup(u, Outer(p), id)
  }

  /** Lookup from a scope that may be in an import. */
  function LookupFrom(u: Unit, at: Loc, id: string): Option<Loc>
    requires IsLoc(u, at)
  {
    var r := Lookup(UnitAt(u, at.imports), at.path, id);
    if r.Some? then Some(Loc(at.imports + r.value.imports, r.value.path)) else None
  }

  lemma InsideIsPath(u: Unit, p: Path, k: nat)
    requires IsPath(u, p) && k < |Inside(u, p)|
    ensures IsPath(u, p + [k]) && DefAt(u, p + [k]) == Inside(u, p)[k]
  {
    assert Outer(p + [k]) == p;
  }

  lemma {:induction false} UnitLookupIsLoc(u: Unit, id: string)
    ensures UnitLookup(u, id).Some? ==> IsLoc(u, UnitLookup(u, id).value) && UnitLookup(u, id).value.path != []
    decreases u
  {
    var k := IndexOf(u.types, id);
    if k < |u.types| {
      InsideIsPath(u, [], k);
      assert [] + [k] == [k];
    } else {
      assert u.imports[0..] == u.imports;
      ImportsLookupIsLoc(u, u.imports, id, 0);
    }
  }

  lemma {:induction false} ImportsLookupIsLoc(u: Unit, us: seq<Unit>, id: string, n: nat)
    requires n <= |u.imports| && us == u.imports[n..]
    ensures var r := ImportsLookup(us, id, n); r.Some? ==> IsLoc(u, r.value) && r.value.path != []
    decreases us
  {
    if us != [] {
      UnitLookupIsLoc(us[0], id);
      var r := UnitLookup(us[0], id);
      if r.Some? {
        var ks := [n] + r.value.imports;
        assert ks[0] == n && ks[1..] == r.value.imports && us[0] == u.imports[n];
      } else {
        ImportsLookupIsLoc(u, us[1..], id, n + 1);
      }
    }
  }

  lemma {:induction false} LookupIsLoc(u: Unit, p: Path, id: string)
    requires IsPath(u, p)
    ensures Lookup(u, p, id).Some? ==> IsLoc(u, Lookup(u, p, id).value)
    decreases |p|
  {
    if p == [] {
      UnitLookupIsLoc(u, id);
    } else if IndexOf(Types(u, p), id) < |Types(u, p)| {
      InsideIsPath(u, p, IndexOf(Types(u, p), id));
    } else {
      LookupIsLoc(u, Outer(p), id);
    }
  }

  lemma {:induction false} UnitAtAppend(u: Unit, ks: seq<nat>, js: seq<nat>)
    requires IsImport(u, ks) && IsImport(UnitAt(u, ks), js)
    ensures IsImport(u, ks + js) && UnitAt(u, ks + js) == UnitAt(UnitAt(u, ks), js)
    decreases |ks|
  {
    if ks == [] {
      assert ks + js == js;
    } else {
      UnitAtAppend(u.imports[ks[0]], ks[1..], js);
      assert (ks + js)[1..] == ks[1..] + js;
    }
  }

  /** What is found can be looked into. */
  lemma LookupFromIsLoc(u: Unit, at: Loc, id: string)
    requires IsLoc(u, at)
    ensures LookupFrom(u, at, id).Some? ==> IsLoc(u, LookupFrom(u, at, id).value)
  {
    var v := UnitAt(u, at.imports);
    LookupIsLoc(v, at.path, id);
    var r := Lookup(v, at.path, id);
    if r.Some? { UnitAtAppend(u, at.imports, r.value.imports); }
    hide Lookup;
  }

  /** The loop of `TypeRef::synthInScope` over the parts of a name: the first is looked up from the
      reference's scope, each further one from the definition found so far. */
  function Resolve(u: Unit, at: Loc, parts: seq<string>): Option<Loc>
    requires IsLoc(u, at)
    decreases |parts|
  {
    if parts == [] then None
    else
      var d := LookupFrom(u, at, parts[0]);
      LookupFromIsLoc(u, at, parts[0]);
      if d.None? || |parts| == 1 then d else Resolve(u, d.value, parts[1..])
  }

  // ------------------------------------------------------------------------ names as text

  /** `find_first_not_of("::", ...)` passes over single colons too. */
  function SkipColons(s: string): (r: string)
    ensures |r| <= |s| && (r != [] ==> r[0] != ':')
  {
    if s != [] && s[0] == ':' then SkipColons(s[1..]) else s
  }

  /** Up to the next "::", or all of it. */
  function Part(s: string): (r: string)
    ensures |r| <= |s| && (s != [] && s[0] != ':' ==> r != [])
  {
    if |s| < 2 then s
    else if s[0] == ':' && s[1] == ':' then []
    else [s[0]] + Part(s[1..])
  }

  /** What is passed over is colons, and all of them. */
  lemma {:induction false} SkipColonsFacts(s: string)
    ensures var r := SkipColons(s); r == s[|s| - |r|..] && forall i :: 0 <= i < |s| - |r| ==> s[i] == ':'
  {
    if s != [] && s[0] == ':' { SkipColonsFacts(s[1..]); }
  }

  /** A part is a prefix, and ends at a separator or at the end. */
  lemma {:induction false} PartFacts(s: string)
    ensures var r := Part(s);
      r == s[..|r|] && (|r| < |s| ==> |r| + 1 < |s| && s[|r|] == ':' && s[|r| + 1] == ':')
  {
    if |s| >= 2 && !(s[0] == ':' && s[1] == ':') {
      PartFacts(s[1..]);
      var r := Part(s[1..]);
      assert Part(s) == [s[0]] + r;
      hide Part;
    }
  }

  function Split(s: string): seq<string>
    decreases |s|
  {
    var t := SkipColons(s);
    if t == [] then [] else [Part(t)] + Split(t[|Part(t)|..])
  }

  /** `fullyQualifiedPrefix`. */
  ghost function QualifiedPrefix(u: Unit, p: Path): string
    requires IsPath(u, p)
    decreases |p|
  {
    if p == [] then "" else QualifiedPrefix(u, Outer(p)) + DefAt(u, p).name + "::"
  }

  /** `fullyQualifiedName`. */
  ghost function QualifiedName(u: Unit, p: Path): string
    requires p != [] && IsPath(u, p)
  {
    QualifiedPrefix(u, Outer(p)) + DefAt(u, p).name
  }

  // ------------------------------------------------------------------------ splitting undoes printing

  ghost function Names(u: Unit, p: Path): (ns: seq<string>)
    requires IsPath(u, p)
    ensures |ns| == |p|
    decreases |p|
  {
    if p == [] then [] else Names(u, Outer(p)) + [DefAt(u, p).name]
  }

  predicate Plain(name: string) { name != [] && ':' !in name }

  ghost predicate AllPlain(ns: seq<string>) { forall n :: n in ns ==> Plain(n) }

  lemma {:induction false} PartOfName(name: string, rest: string)
    requires ':' !in name
    ensures Part(name) == name && Part(name + "::" + rest) == name
  {
    if name == [] {
      assert name + "::" + rest == "::" + rest;
    } else {
      PartOfName(name[1..], rest);
      var s := name + "::" + rest;
      assert s[0] == name[0] && s[1..] == name[1..] + "::" + rest && name == [name[0]] + name[1..];
    }
  }

  lemma SplitSkips(s: string)
    ensures Split([':'] + s) == Split(s)
  {
    assert ([':'] + s)[1..] == s;
    assert SkipColons([':'] + s) == SkipColons(s);
  }

  lemma SplitSkipsBoth(s: string)
    ensures Split("::" + s) == Split(s)
  {
    SplitSkips(s);
    SplitSkips([':'] + s);
    hide Split;
    assert "::" + s == [':'] + ([':'] + s);
  }

  /** The first name comes off. */
  lemma SplitFirst(name: string, rest: string)
    requires Plain(name)
    ensures Split(name + "::" + rest) == [name] + Split(rest)
  {
    var s := name + "::" + rest;
    assert s[0] == name[0] && s[|name|..] == "::" + rest;
    PartOfName(name, rest);
    assert SkipColons(s) == s;
    assert Split(s) == [Part(s)] + Split(s[|Part(s)|..]);
    hide Split, Part, SkipColons;
    SplitSkipsBoth(rest);
  }

  lemma SplitName(name: string)
    requires Plain(name)
    ensures Split(name) == [name]
  {
    PartOfName(name, "");
    assert SkipColons(name) == name && name[|name|..] == [] && Split([]) == [];
  }

  /** Names joined by "::" with one more text after them. */
  function Joined(ns: seq<string>, last: string): string {
    if ns == [] then last else ns[0] + "::" + Joined(ns[1..], last)
  }

  lemma PlainTail(ns: seq<string>)
    requires ns != [] && AllPlain(ns)
    ensures Plain(ns[0]) && AllPlain(ns[1..])
  {
    hide Plain;
    assert ns[0] in ns && forall n :: n in ns[1..] ==> n in ns;
  }

  lemma ConsSnoc(ns: seq<string>, last: string)
    requires ns != []
    ensures [ns[0]] + (ns[1..] + [last]) == ns + [last]
  {
  }

  lemma {:induction false} SplitJoined(ns: seq<string>, last: string)
    requires AllPlain(ns) && Plain(last)
    ensures Split(Joined(ns, last)) == ns + [last]
  {
    if ns == [] {
      SplitName(last);
      hide Split;
    } else {
      PlainTail(ns);
      hide Split, Plain, AllPlain;
      SplitJoined(ns[1..], last);
      SplitFirst(ns[0], Joined(ns[1..], last));
      ConsSnoc(ns, last);
    }
  }

  lemma {:induction false} JoinedSnoc(ns: seq<string>, name: string, last: string)
    ensures Joined(ns + [name], last) == Joined(ns, name + "::" + last)
  {
    if ns == [] {
      assert ns + [name] == [name] && [name][1..] == [];
    } else {
      JoinedSnoc(ns[1..], name, last);
      assert (ns + [name])[1..] == ns[1..] + [name];
    }
  }

  lemma {:induction false} PrefixIsJoined(u: Unit, p: Path, last: string)
    requires IsPath(u, p)
    ensures QualifiedPrefix(u, p) + last == Joined(Names(u, p), last)
    decreases |p|
  {
    if p != [] {
      var name := DefAt(u, p).name;
      PrefixIsJoined(u, Outer(p), name + "::" + last);
      JoinedSnoc(Names(u, Outer(p)), name, last);
      assert QualifiedPrefix(u, Outer(p)) + name + "::" + last == QualifiedPrefix(u, Outer(p)) + (name + "::" + last);
      hide Joined, DefAt;
    }
  }

  /** Splitting the printed name gives the names of the scopes that enclose the definition, and its own. */
  lemma SplitQualifiedName(u: Unit, p: Path)
    requires p != [] && IsPath(u, p) && AllPlain(Names(u, p))
    ensures Split(QualifiedName(u, p)) == Names(u, p)
  {
    var ns, name := Names(u, Outer(p)), DefAt(u, p).name;
    assert forall n :: n in ns ==> n in Names(u, p);
    assert Names(u, p)[|ns|] == name;
    PrefixIsJoined(u, Outer(p), name);
    SplitJoined(ns, name);
    hide Split, Joined, QualifiedPrefix, DefAt;
  }

  // ------------------------------------------------------------------------ resolving undoes printing

  /** Every scope on the way is a type, and the first of its name where it stands. */
  ghost predicate FirstNamed(u: Unit, p: Path)
    requires IsPath(u, p)
    decreases |p|
  {
    p != [] ==>
      && FirstNamed(u, Outer(p))
      && Last(p) < |Types(u, Outer(p))|
      && forall j :: 0 <= j < Last(p) ==> Types(u, Outer(p))[j].name != DefAt(u, p).name
  }

  lemma FoundIsFirstNamed(u: Unit, p: Path, id: string)
    requires IsPath(u, p) && FirstNamed(u, p) && IndexOf(Types(u, p), id) < |Types(u, p)|
    ensures var q := p + [IndexOf(Types(u, p), id)]; IsPath(u, q) && FirstNamed(u, q)
  {
    var k := IndexOf(Types(u, p), id);
    InsideIsPath(u, p, k);
    assert Outer(p + [k]) == p;
    assert Types(u, p)[k] == Inside(u, p)[k];
    hide Inside, IndexOf, Types;
  }

  ghost predicate Reachable(u: Unit, l: Loc) {
    IsLoc(u, l) && FirstNamed(UnitAt(u, l.imports), l.path)
  }

  lemma {:induction false} UnitLookupReaches(u: Unit, id: string)
    ensures UnitLookup(u, id).Some? ==> Reachable(u, UnitLookup(u, id).value)
    decreases u
  {
    if IndexOf(u.types, id) < |u.types| {
      FoundIsFirstNamed(u, [], id);
      assert [] + [IndexOf(u.types, id)] == [IndexOf(u.types, id)];
    } else {
      assert u.imports[0..] == u.imports;
      ImportsLookupReaches(u, u.imports, id, 0);
    }
  }

  lemma {:induction false} ImportsLookupReaches(u: Unit, us: seq<Unit>, id: string, n: nat)
    requires n <= |u.imports| && us == u.imports[n..]
    ensures ImportsLookup(us, id, n).Some? ==> Reachable(u, ImportsLookup(us, id, n).value)
    decreases us
  {
    if us != [] {
      UnitLookupReaches(us[0], id);
      var r := UnitLookup(us[0], id);
      if r.Some? {
        var ks := [n] + r.value.imports;
        assert ks[0] == n && ks[1..] == r.value.imports && us[0] == u.imports[n];
      } else {
        ImportsLookupReaches(u, us[1..], id, n + 1);
      }
    }
  }

  lemma {:induction false} LookupReaches(u: Unit, p: Path, id: string)
    requires IsPath(u, p) && FirstNamed(u, p)
    ensures Lookup(u, p, id).Some? ==> Reachable(u, Lookup(u, p, id).value)
    decreases |p|
  {
    if p == [] {
      UnitLookupReaches(u, id);
    } else if IndexOf(Types(u, p), id) < |Types(u, p)| {
      FoundIsFirstNamed(u, p, id);
    } else {
      LookupReaches(u, Outer(p), id);
    }
  }

  lemma LookupFromReaches(u: Unit, at: Loc, id: string)
    requires Reachable(u, at)
    ensures LookupFrom(u, at, id).Some? ==> Reachable(u, LookupFrom(u, at, id).value)
  {
    var v := UnitAt(u, at.imports);
    LookupReaches(v, at.path, id);
    var r := Lookup(v, at.path, id);
    if r.Some? { UnitAtAppend(u, at.imports, r.value.imports); }
    hide Lookup, FirstNamed;
  }

  lemma {:induction false} ResolveReaches(u: Unit, at: Loc, parts: seq<string>)
    requires Reachable(u, at)
    ensures Resolve(u, at, parts).Some? ==> Reachable(u, Resolve(u, at, parts).value)
    decreases |parts|
  {
    if parts != [] {
      LookupFromReaches(u, at, parts[0]);
      var d := LookupFrom(u, at, parts[0]);
      hide LookupFrom, FirstNamed;
      if d.Some? && |parts| > 1 { ResolveReaches(u, d.value, parts[1..]); }
    }
  }

  const ROOT := Loc([], [])

  /** Each name leads one scope further in. */
  lemma LookupInside(u: Unit, p: Path)
    requires p != [] && IsPath(u, p) && FirstNamed(u, p)
    ensures IsLoc(u, Loc([], Outer(p))) && LookupFrom(u, Loc([], Outer(p)), DefAt(u, p).name) == Some(Loc([], p))
  {
    var ts := Types(u, Outer(p));
    assert ts[Last(p)] == DefAt(u, p);
    assert IndexOf(ts, DefAt(u, p).name) == Last(p);
    assert Outer(p) + [Last(p)] == p;
    assert [] + Loc([], p).imports == [];
  }

  lemma {:induction false} ResolveSnoc(u: Unit, at: Loc, parts: seq<string>, last: string)
    requires Reachable(u, at) && parts != []
    ensures var d := Resolve(u, at, parts);
      d.Some? ==> IsLoc(u, d.value) && Resolve(u, at, parts + [last]) == LookupFrom(u, d.value, last)
    decreases |parts|
  {
    var d := LookupFrom(u, at, parts[0]);
    LookupFromReaches(u, at, parts[0]);
    hide LookupFrom, FirstNamed;
    assert (parts + [last])[1..] == parts[1..] + [last];
    if d.Some? {
      if |parts| == 1 {
        assert parts[1..] + [last] == [last];
      } else {
        ResolveSnoc(u, d.value, parts[1..], last);
      }
    }
  }

  lemma {:induction false} NamesResolve(u: Unit, p: Path)
    requires p != [] && IsPath(u, p) && FirstNamed(u, p)
    ensures Resolve(u, ROOT, Names(u, p)) == Some(Loc([], p))
    decreases |p|
  {
    LookupInside(u, p);
    var name := DefAt(u, p).name;
    if Outer(p) == [] {
      assert Names(u, Outer(p)) == [] && Names(u, p) == [name];
    } else {
      NamesResolve(u, Outer(p));
      ResolveSnoc(u, ROOT, Names(u, Outer(p)), name);
      hide Resolve, LookupFrom, FirstNamed, DefAt;
    }
  }

  lemma ReachableHere(u: Unit, p: Path)
    ensures Reachable(u, Loc([], p)) <==> IsPath(u, p) && FirstNamed(u, p)
  {
    hide IsPath, FirstNamed;
  }

  /** Printing a definition's name, splitting it and resolving the parts from the unit yields that very
      definition if and only if each scope on the way is a type (not a program) and no sibling before it
      has its name. */
  lemma PrintThenResolveIff(u: Unit, p: Path)
    requires p != [] && IsPath(u, p) && AllPlain(Names(u, p))
    ensures Resolve(u, ROOT, Split(QualifiedName(u, p))) == Some(Loc([], p)) <==> FirstNamed(u, p)
  {
    SplitQualifiedName(u, p);
    ReachableHere(u, []);
    ReachableHere(u, p);
    assert Reachable(u, ROOT);
    hide Split, QualifiedName, Resolve, Names, FirstNamed, AllPlain, IsPath, Reachable;
    ResolveReaches(u, ROOT, Names(u, p));
    if FirstNamed(u, p) { NamesResolve(u, p); }
  }

  /** A type inside a program, here T in P, is not found under the name that is printed for it. */
  lemma ProgramTypeNotFound(u: Unit, p: Path)
    requires u == Unit([], [Def("P", [Def("T", [])])], []) && p == [0, 0]
    ensures IsPath(u, p) && Names(u, p) == ["P", "T"] && Resolve(u, ROOT, Split(QualifiedName(u, p))) != Some(Loc([], p))
  {
    assert Outer(p) == [0] && Outer([0]) == [];
    assert IsPath(u, []) && Inside(u, []) == [Def("P", [Def("T", [])])];
    assert IsPath(u, [0]) && DefAt(u, [0]) == Def("P", [Def("T", [])]) && Inside(u, [0]) == [Def("T", [])];
    assert IsPath(u, p) && DefAt(u, p) == Def("T", []);
    assert Names(u, []) == [] && Names(u, [0]) == ["P"] && Names(u, p) == ["P", "T"];
    assert Plain("P") && Plain("T") && AllPlain(Names(u, p));
    assert !FirstNamed(u, [0]);
    hide Resolve, Split, IsPath, Inside, DefAt, QualifiedName, Names;
    PrintThenResolveIff(u, p);
  }

  /** Where sibling names are unique, every definition that is not part of a program is found. */
  lemma {:induction false} UniqueNamesAreFirst(u: Unit, p: Path)
    requires p != [] && IsPath(u, p) && p[0] < |u.types|
    requires forall q, i, j :: IsPath(u, q) && 0 <= i < j < |Inside(u, q)| ==> Inside(u, q)[i].name != Inside(u, q)[j].name
    ensures FirstNamed(u, p)
    decreases |p|
  {
    if Outer(p) != [] { UniqueNamesAreFirst(u, Outer(p)); }
    var ins := Inside(u, Outer(p));
    assert forall j :: 0 <= j < Last(p) ==> ins[j].name != ins[Last(p)].name;
  }

  /** A name with a part that its scope does not declare is not refused: the part is looked for further
      out, and a definition of the unit is found that the name does not denote. */
  lemma QualifiedNameFallsBack(u: Unit, p: Path, id: string)
    requires p != [] && IsPath(u, p) && FirstNamed(u, p) && IndexOf(u.types, id) < |u.types|
    requires forall n :: 0 < n <= |p| ==> !Declares(u, p, n, id)
    ensures Resolve(u, ROOT, Names(u, p) + [id]) == Some(Loc([], [IndexOf(u.types, id)]))
  {
    NamesResolve(u, p);
    assert Reachable(u, ROOT);
    ResolveSnoc(u, ROOT, Names(u, p), id);
    assert Declares(u, p, 0, id) by { assert p[..0] == []; }
    LookupIsInnermost(u, p, id, 0);
    assert Types(u, p[..0]) == u.types && p[..0] + [IndexOf(u.types, id)] == [IndexOf(u.types, id)];
    assert UnitAt(u, []) == u && [] + ROOT.imports == [];
    hide Resolve, FirstNamed, Names, Lookup, IndexOf;
  }

  // ------------------------------------------------------------------------ unqualified lookup

  lemma {:induction false} EnclosingIsPath(u: Unit, p: Path, n: nat)
    requires IsPath(u, p) && n <= |p|
    ensures IsPath(u, p[..n])
    decreases |p|
  {
    if n == |p| {
      assert p[..n] == p;
    } else {
      EnclosingIsPath(u, Outer(p), n);
      assert Outer(p)[..n] == p[..n];
    }
  }

  /** The n-th scope on the way to `p` declares this name. */
  ghost predicate Declares(u: Unit, p: Path, n: nat, id: string)
    requires IsPath(u, p) && n <= |p|
  {
    EnclosingIsPath(u, p, n);
    IndexOf(Types(u, p[..n]), id) < |Types(u, p[..n])|
  }

  lemma DeclaresOuter(u: Unit, p: Path, n: nat, id: string)
    requires p != [] && IsPath(u, p) && n < |p|
    ensures Declares(u, p, n, id) <==> Declares(u, Outer(p), n, id)
  {
    assert Outer(p)[..n] == p[..n];
  }

  /** A name means the declaration in the innermost enclosing scope that has one. */
  lemma {:induction false} LookupIsInnermost(u: Unit, p: Path, id: string, n: nat)
    requires IsPath(u, p) && n <= |p| && Declares(u, p, n, id)
    requires forall m :: n < m <= |p| ==> !Declares(u, p, m, id)
    ensures IsPath(u, p[..n]) && Lookup(u, p, id) == Some(Loc([], p[..n] + [IndexOf(Types(u, p[..n]), id)]))
    decreases |p|
  {
    EnclosingIsPath(u, p, n);
    if n == |p| {
      assert p[..n] == p;
      assert p == [] ==> p + [IndexOf(Types(u, p), id)] == [IndexOf(Types(u, p), id)];
    } else {
      assert !Declares(u, p, |p|, id) && p[..|p|] == p;
      forall m | n <= m < |p| ensures Declares(u, p, m, id) <==> Declares(u, Outer(p), m, id) { DeclaresOuter(u, p, m, id); }
      assert Outer(p)[..n] == p[..n];
      LookupIsInnermost(u, Outer(p), id, n);
    }
  }

  /** If no enclosing scope has one, it is looked for in the imports. */
  lemma {:induction false} LookupThenImports(u: Unit, p: Path, id: string)
    requires IsPath(u, p) && forall n :: 0 <= n <= |p| ==> !Declares(u, p, n, id)
    ensures Lookup(u, p, id) == ImportsLookup(u.imports, id, 0)
    decreases |p|
  {
    assert !Declares(u, p, |p|, id) && p[..|p|] == p;
    if p != [] {
      forall n | 0 <= n < |p| ensures !Declares(u, Outer(p), n, id) { DeclaresOuter(u, p, n, id); }
      LookupThenImports(u, Outer(p), id);
    }
  }

  function Prefixed(n: nat, kss: seq<seq<nat>>): (r: seq<seq<nat>>)
    ensures |r| == |kss| && forall i :: 0 <= i < |r| ==> r[i] == [n] + kss[i]
  {
    seq(|kss|, i requires 0 <= i < |kss| => [n] + kss[i])
  }

  /** The imports below some units, depth first and in order. */
  function DepthFirst(us: seq<Unit>, n: nat): seq<seq<nat>>
    decreases us
  {
    if us == [] then []
    else Prefixed(n, [[]] + DepthFirst(us[0].imports, 0)) + DepthFirst(us[1..], n + 1)
  }

  ghost predicate AllImports(u: Unit, kss: seq<seq<nat>>) {
    forall i :: 0 <= i < |kss| ==> IsImport(u, kss[i])
  }

  /** The first of these units that declares a type of this name. */
  ghost function FirstOf(u: Unit, kss: seq<seq<nat>>, id: string): Option<Loc>
    requires AllImports(u, kss)
    decreases |kss|
  {
    if kss == [] then None
    else
      assert forall i :: 0 <= i < |kss[1..]| ==> kss[1..][i] == kss[i + 1];
      var ts := UnitAt(u, kss[0]).types;
      if IndexOf(ts, id) < |ts| then Some(Loc(kss[0], [IndexOf(ts, id)])) else FirstOf(u, kss[1..], id)
  }

  lemma {:induction false} FirstOfConcat(u: Unit, a: seq<seq<nat>>, b: seq<seq<nat>>, id: string)
    requires AllImports(u, a) && AllImports(u, b)
    ensures AllImports(u, a + b)
    ensures FirstOf(u, a + b, id) == if FirstOf(u, a, id).Some? then FirstOf(u, a, id) else FirstOf(u, b, id)
    decreases |a|
  {
    if a == [] {
      assert a + b == b;
    } else {
      assert forall i :: 0 <= i < |a[1..]| ==> a[1..][i] == a[i + 1];
      FirstOfConcat(u, a[1..], b, id);
      assert (a + b)[1..] == a[1..] + b;
    }
  }

  lemma {:induction false} FirstOfPrefixed(u: Unit, n: nat, kss: seq<seq<nat>>, id: string)
    requires n < |u.imports| && AllImports(u.imports[n], kss)
    ensures AllImports(u, Prefixed(n, kss))
    ensures var r := FirstOf(u.imports[n], kss, id);
      FirstOf(u, Prefixed(n, kss), id) == if r.Some? then Some(Loc([n] + r.value.imports, r.value.path)) else None
    decreases |kss|
  {
    var ps := Prefixed(n, kss);
    forall i | 0 <= i < |ps| ensures IsImport(u, ps[i]) && UnitAt(u, ps[i]) == UnitAt(u.imports[n], kss[i]) {
      assert ps[i][1..] == kss[i];
    }
    if kss != [] {
      assert forall i :: 0 <= i < |kss[1..]| ==> kss[1..][i] == kss[i + 1];
      FirstOfPrefixed(u, n, kss[1..], id);
      assert ps[1..] == Prefixed(n, kss[1..]);
      hide IndexOf, Prefixed;
    }
  }

  /** The imports are searched depth first, in order. */
  lemma {:induction false} ImportsDepthFirst(u: Unit, us: seq<Unit>, id: string, n: nat)
    requires n <= |u.imports| && us == u.imports[n..]
    ensures AllImports(u, DepthFirst(us, n)) && ImportsLookup(us, id, n) == FirstOf(u, DepthFirst(us, n), id)
    decreases us
  {
    if us != [] {
      var v := us[0];
      assert v == u.imports[n] && v.imports[0..] == v.imports;
      ImportsDepthFirst(v, v.imports, id, 0);
      var below := DepthFirst(v.imports, 0);
      UnitBeforeImports(v, below, id);
      FirstOfPrefixed(u, n, [[]] + below, id);
      ImportsDepthFirst(u, us[1..], id, n + 1);
      FirstOfConcat(u, Prefixed(n, [[]] + below), DepthFirst(us[1..], n + 1), id);
      hide FirstOf, Prefixed, AllImports, IndexOf;
    }
  }

  /** A unit's own types come before those of its imports. */
  lemma UnitBeforeImports(v: Unit, below: seq<seq<nat>>, id: string)
    requires AllImports(v, below)
    ensures AllImports(v, [[]] + below)
    ensures FirstOf(v, [[]] + below, id) ==
      if IndexOf(v.types, id) < |v.types| then Some(Loc([], [IndexOf(v.types, id)])) else FirstOf(v, below, id)
  {
    var all := [[]] + below;
    assert all[1..] == below && all[0] == [];
    assert forall i :: 0 < i < |all| ==> all[i] == below[i - 1];
  }

  // ------------------------------------------------------------------------ the code

  /** `find_first_not_of`. */
  method FindFirstNotColon(s: string, from: nat) returns (k: nat)
    requires from <= |s|
    ensures from <= k <= |s| && SkipColons(s[from..]) == s[k..]
  {
    k := from;
    while k < |s| && s[k] == ':'
      invariant from <= k <= |s| && SkipColons(s[from..]) == SkipColons(s[k..])
    {
      assert s[k..][1..] == s[k + 1..];
      k := k + 1;
    }
  }

  predicate SeparatorAt(s: string, j: nat) { j + 1 < |s| && s[j] == ':' && s[j + 1] == ':' }

  lemma {:induction false} PartUpTo(s: string, from: nat, k: nat)
    requires from <= k <= |s| && (k == |s| || SeparatorAt(s, k))
    requires forall j :: from <= j < k ==> !SeparatorAt(s, j)
    ensures Part(s[from..]) == s[from..k]
    decreases k - from
  {
    var t := s[from..];
    if from < k {
      PartUpTo(s, from + 1, k);
      assert !SeparatorAt(s, from) && t[0] == s[from] && t[1..] == s[from + 1..];
      assert Part(t) == [t[0]] + Part(t[1..]);
      hide Part;
      assert s[from..k] == [s[from]] + s[from + 1..k];
    }
  }

  /** `find` of the separator. */
  method FindSeparator(s: string, from: nat) returns (k: nat)
    requires from <= |s|
    ensures from <= k <= |s| && Part(s[from..]) == s[from..k]
  {
    k := from;
    while k < |s| && !SeparatorAt(s, k)
      invariant from <= k <= |s| && forall j :: from <= j < k ==> !SeparatorAt(s, j)
    {
      k := k + 1;
    }
    PartUpTo(s, from, k);
  }

  /** Resolving the parts from the i-th on. */
  ghost function ResolveFrom(u: Unit, at: Loc, parts: seq<string>, i: nat): Option<Loc>
    requires IsLoc(u, at) && i <= |parts|
  {
    Resolve(u, at, parts[i..])
  }

  lemma ResolveWhole(u: Unit, at: Loc, parts: seq<string>)
    requires IsLoc(u, at)
    ensures ResolveFrom(u, at, parts, 0) == Resolve(u, at, parts)
    ensures parts == [] ==> Resolve(u, at, parts) == None
  {
    assert parts[0..] == parts;
  }

  /** One turn of the loop below. */
  lemma ResolveStep(u: Unit, at: Loc, parts: seq<string>, i: nat)
    requires IsLoc(u, at) && i < |parts|
    ensures var d := LookupFrom(u, at, parts[i]);
      && (d.Some? ==> IsLoc(u, d.value))
      && ResolveFrom(u, at, parts, i) == if d.None? || i + 1 == |parts| then d else ResolveFrom(u, d.value, parts, i + 1)
  {
    LookupFromIsLoc(u, at, parts[i]);
    assert parts[i..][1..] == parts[i + 1..];
    hide LookupFrom, IsLoc;
  }

  /** The loop of `TypeRef::synthInScope` over the parts, which ends when one is not found. */
  method ResolveParts(u: Unit, at: Loc, parts: seq<string>) returns (def: Option<Loc>)
    requires IsLoc(u, at)
    ensures def == Resolve(u, at, parts)
  {
    ResolveWhole(u, at, parts);
    hide Resolve, ResolveFrom, LookupFrom, IsLoc;
    def := None;
    var scope, i := at, 0;
    while i < |parts|
      invariant 0 <= i <= |parts| && IsLoc(u, scope)
      invariant i > 0 ==> def == Some(scope)
      invariant i == 0 ==> scope == at && def == None
      invariant i < |parts| ==> ResolveFrom(u, scope, parts, i) == Resolve(u, at, parts)
      invariant 0 < i == |parts| ==> def == Resolve(u, at, parts)
    {
      ResolveStep(u, scope, parts, i);
      def := LookupFrom(u, scope, parts[i]);
      if def.None? { return; }
      scope, i := def.value, i + 1;
    }
  }

  /** `TypeRef::synthInScope`: the name is split, then its parts are resolved one after the other. */
  method SynthInScope(u: Unit, at: Loc, typ: string) returns (def: Option<Loc>)
    requires IsLoc(u, at)
    ensures def == Resolve(u, at, Split(typ))
  {
    var parts := SplitParts(typ);
    hide Resolve, Split, IsLoc;
    def := ResolveParts(u, at, parts);
  }

  lemma SplitSkipped(s: string, t: string)
    requires SkipColons(s) == t
    ensures Split(s) == Split(t) && SkipColons(t) == t
  {
    assert SkipColons(t) == t;
  }

  lemma SplitOnce(s: string, start: nat, end: nat)
    requires start < |s| && SkipColons(s[start..]) == s[start..] && start <= end <= |s| && Part(s[start..]) == s[start..end]
    ensures start < end && Split(s[start..]) == [s[start..end]] + Split(s[end..])
  {
    assert s[start..][|s[start..end]|..] == s[end..];
  }

  /** The loop that fills `parts`. */
  method SplitParts(s: string) returns (parts: seq<string>)
    ensures parts == Split(s)
  {
    parts := [];
    var start := FindFirstNotColon(s, 0);
    assert s[0..] == s;
    SplitSkipped(s, s[start..]);
    while start < |s|
      invariant 0 <= start <= |s| && SkipColons(s[start..]) == s[start..]
      invariant parts + Split(s[start..]) == Split(s)
    {
      var end := FindSeparator(s, start);
      SplitOnce(s, start, end);
      var next := FindFirstNotColon(s, end);
      SplitSkipped(s[end..], s[next..]);
      hide Split, SkipColons, Part;
      Regroup(parts, [s[start..end]], Split(s[next..]));
      parts, start := parts + [s[start..end]], next;
    }
    assert s[start..] == [] && Split([]) == [];
  }
}
