/** The server dispatcher and the client call that wsrpcgen generates for a program. */
module Stubs {
  import opened Ucl
  import opened Codec
  import opened Completions
  import opened Rpc
  import NestedRpc

  datatype Method = Method(name: string, args: seq<Field>, ret: Option<TypeRef>)
  /** `num` is the version number as the `int` that `implFunName` takes. */
  datatype Version = Version(num: int, methods: seq<Method>)
  type Program = seq<Version>

  // ------------------------------------------------------------------------ names

  function Digits(n: nat): string {
    if n < 10 then ["0123456789"[n]] else Digits(n / 10) + ["0123456789"[n % 10]]
  }

  /** `toStr`. */
  function Decimal(n: int): string {
    if n < 0 then "-" + Digits(-n) else Digits(n)
  }

  /** `implFunName`: the name on the wire. */
  function WireName(name: string, version: int): string {
    name + "_v" + Decimal(version)
  }

  lemma {:induction false} DigitsFacts(n: nat)
    ensures |Digits(n)| > 0 && forall c :: c in Digits(n) ==> '0' <= c <= '9'
  {
    if n >= 10 { DigitsFacts(n / 10); }
  }

  lemma DigitsStep(n: nat)
    requires n >= 10
    ensures |Digits(n)| > 1 && Digits(n)[..|Digits(n)| - 1] == Digits(n / 10)
    ensures Digits(n)[|Digits(n)| - 1] == "0123456789"[n % 10]
  {
    DigitsFacts(n / 10);
  }

  lemma DigitInjective(m: nat, n: nat)
    requires m < 10 && n < 10 && "0123456789"[m] == "0123456789"[n]
    ensures m == n
  {
  }

  lemma {:induction false} DigitsInjective(m: nat, n: nat)
    requires Digits(m) == Digits(n)
    ensures m == n
  {
    if m >= 10 { DigitsStep(m); }
    if n >= 10 { DigitsStep(n); }
    if m < 10 {
      assert |Digits(m)| == 1;
      DigitInjective(m, n);
    } else {
      assert n < 10 ==> |Digits(n)| == 1;
      hide Digits;
      DigitsInjective(m / 10, n / 10);
      DigitInjective(m % 10, n % 10);
    }
  }

  lemma DecimalInjective(m: int, n: int)
    requires Decimal(m) == Decimal(n)
    ensures m == n
  {
    DigitsFacts(if m < 0 then -m else m);
    DigitsFacts(if n < 0 then -n else n);
    assert (m < 0) == (Decimal(m)[0] == '-') by { if m >= 0 { assert Decimal(m)[0] in Digits(m); } }
    assert (n < 0) == (Decimal(n)[0] == '-') by { if n >= 0 { assert Decimal(n)[0] in Digits(n); } }
    if m < 0 {
      assert Decimal(m)[1..] == Digits(-m) && Decimal(n)[1..] == Digits(-n);
      DigitsInjective(-m, -n);
    } else {
      DigitsInjective(m, n);
    }
  }

  lemma DecimalHasNoV(n: int)
    ensures 'v' !in Decimal(n)
  {
    DigitsFacts(if n < 0 then -n else n);
  }

  /** A tail without 'v' is no longer than one that starts right after a 'v'. */
  lemma TailNoLonger(a: string, x: string, b: string, y: string)
    requires a + "v" + x == b + "v" + y && 'v' !in y
    ensures |y| <= |x|
  {
    var s := a + "v" + x;
    forall k | |b| < k < |s| ensures s[k] != 'v' {
      assert s[k] == y[k - |b| - 1];
    }
    assert s[|a|] == 'v';
  }

  lemma TailAfterLastV(a: string, x: string, b: string, y: string)
    requires a + "v" + x == b + "v" + y && 'v' !in x && 'v' !in y
    ensures a == b && x == y
  {
    TailNoLonger(a, x, b, y);
    TailNoLonger(b, y, a, x);
    var s := a + "v" + x;
    assert |a| == |b|;
    assert a == s[..|a|] && b == (b + "v" + y)[..|b|];
    assert x == s[|a| + 1..] && y == (b + "v" + y)[|b| + 1..];
  }

  /** Different methods, or the same method in different versions, have different names on the wire. */
  lemma WireNameInjective(n1: string, v1: int, n2: string, v2: int)
    ensures WireName(n1, v1) == WireName(n2, v2) <==> n1 == n2 && v1 == v2
  {
    if WireName(n1, v1) == WireName(n2, v2) {
      DecimalHasNoV(v1);
      DecimalHasNoV(v2);
      assert WireName(n1, v1) == (n1 + "_") + "v" + Decimal(v1);
      assert WireName(n2, v2) == (n2 + "_") + "v" + Decimal(v2);
      TailAfterLastV(n1 + "_", Decimal(v1), n2 + "_", Decimal(v2));
      DecimalInjective(v1, v2);
      assert n1 == (n1 + "_")[..|n1|] && n2 == (n2 + "_")[..|n2|];
    }
  }

  /** The number that a string of digits stands for. */
  function NumberOf(s: string): int {
    if s == [] then 0 else 10 * NumberOf(s[..|s| - 1]) + (s[|s| - 1] as int - '0' as int)
  }

  lemma DigitStandsFor(n: nat)
    requires n < 10
    ensures "0123456789"[n] as int - '0' as int == n
  {
  }

  /** The version is written in decimal. */
  lemma {:induction false} DigitsStandFor(n: nat)
    ensures NumberOf(Digits(n)) == n && (n > 0 ==> Digits(n)[0] != '0')
  {
    DigitStandsFor(n % 10);
    var s := Digits(n);
    if n < 10 {
      assert s[..0] == [] && NumberOf([]) == 0 && NumberOf(s) == 10 * NumberOf(s[..0]) + (s[0] as int - '0' as int);
    } else {
      DigitsFacts(n / 10);
      DigitsStandFor(n / 10);
      assert s[..|s| - 1] == Digits(n / 10) && s[|s| - 1] == "0123456789"[n % 10] && s[0] == Digits(n / 10)[0];
      hide Digits;
      assert NumberOf(s) == 10 * NumberOf(s[..|s| - 1]) + (s[|s| - 1] as int - '0' as int);
    }
  }

  predicate WritesNumber(digits: string, n: nat) {
    digits != [] && (forall c :: c in digits ==> '0' <= c <= '9') && NumberOf(digits) == n && (n > 0 ==> digits[0] != '0')
  }

  /** On the wire a method is its name, "_v" and the version's digits. */
  lemma WireNameIs(name: string, version: nat)
    ensures exists digits :: WireName(name, version) == name + "_v" + digits && WritesNumber(digits, version)
  {
    DigitsFacts(version);
    DigitsStandFor(version);
    var digits := Digits(version);
    assert WireName(name, version) == name + "_v" + digits;
  }

  // ------------------------------------------------------------------------ the server's case for one method

  /** What an implementation does: it fails with an error, or succeeds with a return value and,
      if it chooses, a result object of its own. */
  datatype Outcome = Fails(err: Error) | Succeeds(rval: Val, result: Option<Obj>)

  /** Implementations by wire name. */
  type Impl = (string, seq<Val>) -> Outcome

  /** Where argument deserialisation leads: on to the call, or to `end` with `succeeded` as it stands. */
  datatype Parsed = Go(vals: seq<Val>) | Stop(succeeded: bool)

  /** The argument loop of `genServerImplCase`. A list leaves `succeeded` alone unless an element fails. */
  function ParseArgs(sch: Schema, args: seq<Field>, params: Option<Obj>, succeeded: bool): Parsed {
    if args == [] then Go([])
    else
      var o := if params.Some? then Lookup(params.value, args[0].id) else None;
      if o.None? then Stop(succeeded)
      else
        var v := Deserialise(sch, args[0].typ, o.value);
        var now := if args[0].typ.list then succeeded && v.Some? else v.Some?;
        if !now || v.None? then Stop(false)
        else
          var rest := ParseArgs(sch, args[1..], params, now);
          if rest.Go? then Go([v.value] + rest.vals) else rest
  }

  /** The call and what follows it. A return value is a C++ value of the declared type. */
  function Invoke(sch: Schema, m: Method, version: int, impl: Impl, vals: seq<Val>): Handled {
    match impl(WireName(m.name, version), vals)
    case Fails(e) => Failed(e)
    case Succeeds(rval, result) =>
      if result.None? && m.ret.Some? && HasType(sch, m.ret.value, rval) then Done(Serialise(sch, m.ret.value, rval))
      else Done(result)
  }

  function Conclude(sch: Schema, m: Method, version: int, impl: Impl, p: Parsed): Handled {
    match p
    case Go(vals) => Invoke(sch, m, version, impl, vals)
    case Stop(succeeded) => if succeeded then Done(None) else Failed(INVALID_PARAMS)
  }

  /** `genServerImplCase`. */
  function HandleCase(sch: Schema, m: Method, version: int, impl: Impl, params: Option<Obj>): Handled {
    Conclude(sch, m, version, impl, ParseArgs(sch, m.args, params, false))
  }

  // ------------------------------------------------------------------------ when the case is right

  function Given(args: seq<Field>, params: Option<Obj>, i: nat): Option<Obj>
    requires i < |args|
  {
    if params.Some? then Lookup(params.value, args[i].id) else None
  }

  predicate Usable(sch: Schema, args: seq<Field>, params: Option<Obj>, i: nat)
    requires i < |args|
  {
    Back(sch, args[i].typ, Given(args, params, i)).Some?
  }

  predicate AllUsable(sch: Schema, args: seq<Field>, params: Option<Obj>) {
    forall i :: 0 <= i < |args| ==> Usable(sch, args, params, i)
  }

  function Values(sch: Schema, args: seq<Field>, params: Option<Obj>): (vs: seq<Val>)
    requires AllUsable(sch, args, params)
    ensures |vs| == |args|
    ensures forall i :: 0 <= i < |args| ==> Usable(sch, args, params, i) && Back(sch, args[i].typ, Given(args, params, i)) == Some(vs[i])
  {
    seq(|args|, i requires 0 <= i < |args| && Usable(sch, args, params, i) => Back(sch, args[i].typ, Given(args, params, i)).value)
  }

  /** What the design asks for: call with all the values, or report invalid parameters. */
  function IntendedParse(sch: Schema, args: seq<Field>, params: Option<Obj>): Parsed {
    if AllUsable(sch, args, params) then Go(Values(sch, args, params)) else Stop(false)
  }

  /** The first argument that cannot be used is one that is missing. */
  ghost predicate FirstProblemIsMissing(sch: Schema, args: seq<Field>, params: Option<Obj>) {
    exists k :: 0 <= k < |args| && Given(args, params, k).None? && forall j :: 0 <= j < k ==> Usable(sch, args, params, j)
  }

  lemma GivenShift(sch: Schema, args: seq<Field>, params: Option<Obj>)
    requires args != []
    ensures forall i :: 0 <= i < |args[1..]| ==>
      Given(args[1..], params, i) == Given(args, params, i + 1) && Usable(sch, args[1..], params, i) == Usable(sch, args, params, i + 1)
  {
    hide Back;
    assert forall i :: 0 <= i < |args[1..]| ==> args[1..][i] == args[i + 1];
  }

  lemma AllUsableShift(sch: Schema, args: seq<Field>, params: Option<Obj>)
    requires args != []
    ensures AllUsable(sch, args, params) <==> Usable(sch, args, params, 0) && AllUsable(sch, args[1..], params)
  {
    GivenShift(sch, args, params);
    hide Usable, Given;
    if Usable(sch, args, params, 0) && AllUsable(sch, args[1..], params) {
      forall i | 0 <= i < |args| ensures Usable(sch, args, params, i) {
        if i > 0 { assert Usable(sch, args[1..], params, i - 1); }
      }
    }
  }

  lemma MissingShift(sch: Schema, args: seq<Field>, params: Option<Obj>)
    requires args != []
    ensures FirstProblemIsMissing(sch, args, params) <==>
      Given(args, params, 0).None? || (Usable(sch, args, params, 0) && FirstProblemIsMissing(sch, args[1..], params))
  {
    GivenShift(sch, args, params);
    hide Usable, Given;
    var rest := args[1..];
    if FirstProblemIsMissing(sch, args, params) {
      var k :| 0 <= k < |args| && Given(args, params, k).None? && forall j :: 0 <= j < k ==> Usable(sch, args, params, j);
      if k > 0 {
        assert Given(rest, params, k - 1).None? && forall j :: 0 <= j < k - 1 ==> Usable(sch, rest, params, j);
      }
    }
    if Usable(sch, args, params, 0) && FirstProblemIsMissing(sch, rest, params) {
      var k :| 0 <= k < |rest| && Given(rest, params, k).None? && forall j :: 0 <= j < k ==> Usable(sch, rest, params, j);
      forall j | 0 <= j < k + 1 ensures Usable(sch, args, params, j) {
        if j > 0 { assert Usable(sch, rest, params, j - 1); }
      }
      assert Given(args, params, k + 1).None?;
    }
  }

  lemma ValuesShift(sch: Schema, args: seq<Field>, params: Option<Obj>)
    requires args != [] && AllUsable(sch, args, params) && AllUsable(sch, args[1..], params)
    ensures Back(sch, args[0].typ, Given(args, params, 0)).Some?
    ensures Values(sch, args, params) == [Back(sch, args[0].typ, Given(args, params, 0)).value] + Values(sch, args[1..], params)
  {
    GivenShift(sch, args, params);
    hide Back, Given, AllUsable, Usable;
    var vs, rest := Values(sch, args, params), Values(sch, args[1..], params);
    hide Values;
    forall i | 0 <= i < |rest| ensures vs[i + 1] == rest[i] {
      assert args[1..][i] == args[i + 1];
    }
  }

  lemma UsableShift(sch: Schema, args: seq<Field>, params: Option<Obj>)
    requires args != []
    ensures AllUsable(sch, args, params) <==> Usable(sch, args, params, 0) && AllUsable(sch, args[1..], params)
    ensures FirstProblemIsMissing(sch, args, params) <==>
      Given(args, params, 0).None? || (Usable(sch, args, params, 0) && FirstProblemIsMissing(sch, args[1..], params))
  {
    AllUsableShift(sch, args, params);
    MissingShift(sch, args, params);
  }

  /** Once an argument has been accepted, `succeeded` is true, and a missing argument leaves it so. */
  lemma {:induction false} ParseAfterFirst(sch: Schema, args: seq<Field>, params: Option<Obj>)
    ensures ParseArgs(sch, args, params, true) ==
      if AllUsable(sch, args, params) then Go(Values(sch, args, params)) else Stop(FirstProblemIsMissing(sch, args, params))
    decreases |args|
  {
    if args == [] {
      assert Values(sch, args, params) == [];
    } else {
      UsableShift(sch, args, params);
      ParseAfterFirst(sch, args[1..], params);
      if AllUsable(sch, args, params) { ValuesShift(sch, args, params); }
      hide Deserialise, FirstProblemIsMissing, AllUsable, Values;
    }
  }

  /** The implementation is called exactly when every argument is there and deserialises and the first
      one is not a list, and then on exactly those values. Otherwise `succeeded`, which decides between
      an empty success and error -32602, is true exactly when a later argument is the first problem and
      it is missing. */
  lemma CaseRunsIff(sch: Schema, args: seq<Field>, params: Option<Obj>)
    ensures var p := ParseArgs(sch, args, params, false);
      && (p.Go? <==> AllUsable(sch, args, params) && (args == [] || !args[0].typ.list))
      && (p.Go? ==> p.vals == Values(sch, args, params))
      && (p.Stop? ==> (p.succeeded <==>
            args != [] && !args[0].typ.list && Given(args, params, 0).Some? && FirstProblemIsMissing(sch, args, params)))
  {
    if args == [] {
      assert AllUsable(sch, args, params) && Values(sch, args, params) == [];
    } else {
      UsableShift(sch, args, params);
      ParseAfterFirst(sch, args[1..], params);
      if AllUsable(sch, args, params) { ValuesShift(sch, args, params); }
      hide Deserialise, FirstProblemIsMissing, AllUsable, Values;
    }
  }

  lemma MissingIsUnusable(sch: Schema, args: seq<Field>, params: Option<Obj>)
    requires FirstProblemIsMissing(sch, args, params)
    ensures !AllUsable(sch, args, params)
  {
    var k :| 0 <= k < |args| && Given(args, params, k).None?;
    assert !Usable(sch, args, params, k);
  }

  /** The generated case does what the design asks exactly when: for a first parameter that is a list,
      some argument cannot be used (it is rejected in any case); otherwise, the first argument that
      cannot be used, if any, is not a later one that is missing. */
  lemma CaseAsIntendedIff(sch: Schema, args: seq<Field>, params: Option<Obj>)
    ensures ParseArgs(sch, args, params, false) == IntendedParse(sch, args, params) <==>
      (args == [] ||
       if args[0].typ.list then !AllUsable(sch, args, params)
       else Given(args, params, 0).None? || !FirstProblemIsMissing(sch, args, params))
  {
    CaseRunsIff(sch, args, params);
    if FirstProblemIsMissing(sch, args, params) { MissingIsUnusable(sch, args, params); }
    hide ParseArgs, FirstProblemIsMissing, AllUsable, Given;
  }

  /** A method whose first parameter is a list cannot be called at all. */
  lemma ListFirstIsAlwaysRejected(sch: Schema, m: Method, version: int, impl: Impl, params: Option<Obj>)
    requires m.args != [] && m.args[0].typ.list
    ensures HandleCase(sch, m, version, impl, params) == Failed(INVALID_PARAMS) && INVALID_PARAMS.code == -32602
  {
    CaseRunsIff(sch, m.args, params);
    hide ParseArgs;
  }

  /** A call whose second argument is missing is answered with an empty success, and the
      implementation does not run. */
  lemma MissingLaterArgumentSucceeds(sch: Schema, version: int, impl: Impl)
    ensures var int_ := TypeRef(false, IntType);
      HandleCase(sch, Method("f", [Field("a", int_), Field("b", int_)], None), version, impl, Some(Object([("a", Int(1))]))) == Done(None)
  {
    var int_ := TypeRef(false, IntType);
    var args := [Field("a", int_), Field("b", int_)];
    var fields := [("a", Int(1))];
    var params := Some(Object(fields));
    assert LookupField(fields, "a") == Some(Int(1));
    assert LookupField(fields, "b") == None by { assert fields[1..] == []; assert "a"[0] != "b"[0]; }
    assert Given(args, params, 0).Some? && Given(args, params, 1).None? && Usable(sch, args, params, 0);
    assert FirstProblemIsMissing(sch, args, params);
    MissingIsUnusable(sch, args, params);
    CaseRunsIff(sch, args, params);
    hide ParseArgs;
  }

  // ------------------------------------------------------------------------ choosing the case

  datatype Target = Target(m: Method, version: int)

  function InMethods(ms: seq<Method>, version: int, name: string): Option<Target> {
    if ms == [] then None
    else if name == WireName(ms[0].name, version) then Some(Target(ms[0], version))
    else InMethods(ms[1..], version, name)
  }

  /** What `genServer` emits into `handleReq`: an `if` for each method, whose body goes to the end, and after
      those of each version an `else` that returns -1. */
  datatype Stmt = If(t: Target) | ElseReturn

  function EmitMethods(ms: seq<Method>, version: int): seq<Stmt> {
    if ms == [] then [] else [If(Target(ms[0], version))] + EmitMethods(ms[1..], version)
  }

  /** `genServerImplCases`. */
  function EmitVersion(v: Version): seq<Stmt> { EmitMethods(v.methods, v.num) + [ElseReturn] }

  function Emit(prog: Program): seq<Stmt> {
    if prog == [] then [] else EmitVersion(prog[0]) + Emit(prog[1..])
  }

  /** Where the emitted code leads: into a case, to `return -1`, or past the last statement. */
  datatype Flow = Reaches(t: Target) | Returns | FallsThrough

  /** Running it: an `else` belongs to the `if` before it, which was not taken if control gets there. */
  function Exec(stmts: seq<Stmt>, name: string): Flow {
    if stmts == [] then FallsThrough
    else match stmts[0]
      case If(t) => if name == WireName(t.m.name, t.version) then Reaches(t) else Exec(stmts[1..], name)
      case ElseReturn => Returns
  }

  /** The method whose case is reached. */
  function WrittenTarget(prog: Program, name: string): Option<Target> {
    var flow := Exec(Emit(prog), name);
    if flow.Reaches? then Some(flow.t) else None
  }

  lemma {:induction false} ExecVersion(ms: seq<Method>, version: int, more: seq<Stmt>, name: string)
    ensures Exec(EmitMethods(ms, version) + [ElseReturn] + more, name) ==
      match InMethods(ms, version, name)
      case Some(t) => Reaches(t)
      case None => Returns
  {
    var stmts := EmitMethods(ms, version) + [ElseReturn] + more;
    if ms == [] {
      assert stmts[0] == ElseReturn;
    } else {
      assert stmts[0] == If(Target(ms[0], version));
      assert stmts[1..] == EmitMethods(ms[1..], version) + [ElseReturn] + more;
      ExecVersion(ms[1..], version, more, name);
    }
  }

  /** The emitted code never gets past the first version. */
  lemma EmittedIsFirstVersion(prog: Program, name: string)
    ensures Exec(Emit(prog), name) ==
      if prog == [] then FallsThrough
      else match InMethods(prog[0].methods, prog[0].num, name)
        case Some(t) => Reaches(t)
        case None => Returns
  {
    if prog != [] { ExecVersion(prog[0].methods, prog[0].num, Emit(prog[1..]), name); }
    hide Exec, InMethods, EmitMethods;
  }

  lemma {:induction false} EmitMethodsAppend(ms: seq<Method>, m: Method, version: int)
    ensures EmitMethods(ms + [m], version) == EmitMethods(ms, version) + [If(Target(m, version))]
  {
    if ms == [] {
      assert ms + [m] == [m] && [m][1..] == [];
    } else {
      assert (ms + [m])[1..] == ms[1..] + [m];
      EmitMethodsAppend(ms[1..], m, version);
    }
  }

  lemma {:induction false} EmitAppend(prog: Program, v: Version)
    ensures Emit(prog + [v]) == Emit(prog) + EmitVersion(v)
  {
    if prog == [] {
      assert prog + [v] == [v] && [v][1..] == [];
      assert Emit([v]) == EmitVersion(v) + Emit([]);
    } else {
      assert (prog + [v])[1..] == prog[1..] + [v];
      EmitAppend(prog[1..], v);
      hide EmitVersion;
      Regroup(EmitVersion(prog[0]), Emit(prog[1..]), EmitVersion(v));
    }
  }

  /** The generator's loops over versions and methods, appending to its output. */
  method GenServer(prog: Program) returns (out: seq<Stmt>)
    ensures out == Emit(prog)
  {
    out := [];
    assert prog[..0] == [];
    for i := 0 to |prog|
      invariant out == Emit(prog[..i])
    {
      EmitAppend(prog[..i], prog[i]);
      assert prog[..i + 1] == prog[..i] + [prog[i]];
      var cases := GenCases(prog[i]);
      out := out + cases;
    }
    assert prog[..|prog|] == prog;
  }

  method GenCases(v: Version) returns (out: seq<Stmt>)
    ensures out == EmitVersion(v)
  {
    out := [];
    assert v.methods[..0] == [];
    for i := 0 to |v.methods|
      invariant out == EmitMethods(v.methods[..i], v.num)
    {
      EmitMethodsAppend(v.methods[..i], v.methods[i], v.num);
      assert v.methods[..i + 1] == v.methods[..i] + [v.methods[i]];
      out := out + [If(Target(v.methods[i], v.num))];
    }
    assert v.methods[..|v.methods|] == v.methods;
    out := out + [ElseReturn];
  }

  /** What is meant: a method of any version. */
  function IntendedTarget(prog: Program, name: string): Option<Target> {
    if prog == [] then None
    else if InMethods(prog[0].methods, prog[0].num, name).Some? then InMethods(prog[0].methods, prog[0].num, name)
    else IntendedTarget(prog[1..], name)
  }

  /** The generated `handleReq`; with no version at all it falls through with no error set. */
  function HandleReq(sch: Schema, prog: Program, impl: Impl, r: Req): Handled {
    match Exec(Emit(prog), r.name)
    case FallsThrough => Failed(Error(SUCCESS, ""))
    case Returns => Declined
    case Reaches(t) => HandleCase(sch, t.m, t.version, impl, r.params)
  }

  ghost predicate Offers(v: Version, name: string) {
    exists i :: 0 <= i < |v.methods| && WireName(v.methods[i].name, v.num) == name
  }

  lemma {:induction false} FoundIffOffered(ms: seq<Method>, version: int, name: string)
    ensures InMethods(ms, version, name).Some? <==> Offers(Version(version, ms), name)
  {
    var v := Version(version, ms);
    if ms == [] {
    } else if name == WireName(ms[0].name, version) {
      assert WireName(v.methods[0].name, v.num) == name;
    } else {
      FoundIffOffered(ms[1..], version, name);
      var w := Version(version, ms[1..]);
      if Offers(w, name) {
        var i :| 0 <= i < |w.methods| && WireName(w.methods[i].name, w.num) == name;
        assert v.methods[i + 1] == w.methods[i];
      }
      if Offers(v, name) {
        var i :| 0 <= i < |v.methods| && WireName(v.methods[i].name, v.num) == name;
        assert w.methods[i - 1] == v.methods[i];
      }
    }
  }

  lemma {:induction false} IntendedIffOffered(prog: Program, name: string)
    ensures IntendedTarget(prog, name).Some? <==> exists k :: 0 <= k < |prog| && Offers(prog[k], name)
  {
    if prog != [] {
      FoundIffOffered(prog[0].methods, prog[0].num, name);
      assert prog[0] == Version(prog[0].num, prog[0].methods);
      IntendedIffOffered(prog[1..], name);
      assert forall k :: 0 < k < |prog| ==> prog[k] == prog[1..][k - 1];
      assert forall k :: 0 <= k < |prog[1..]| ==> prog[1..][k] == prog[k + 1];
      hide Offers, InMethods;
    }
  }

  /** The handler declines exactly when the first version does not offer the method. */
  lemma DeclinesIff(sch: Schema, prog: Program, impl: Impl, r: Req)
    ensures HandleReq(sch, prog, impl, r).Declined? <==> prog != [] && !Offers(prog[0], r.name)
  {
    EmittedIsFirstVersion(prog, r.name);
    if prog != [] {
      FoundIffOffered(prog[0].methods, prog[0].num, r.name);
      assert prog[0] == Version(prog[0].num, prog[0].methods);
    }
    hide Offers, InMethods, ParseArgs, Exec, Emit;
  }

  /** It finds the method that is meant exactly when the first version offers it or no version does. */
  lemma DispatchAsIntendedIff(prog: Program, name: string)
    requires prog != []
    ensures WrittenTarget(prog, name) == IntendedTarget(prog, name) <==>
      Offers(prog[0], name) || forall k :: 0 <= k < |prog| ==> !Offers(prog[k], name)
  {
    FoundIffOffered(prog[0].methods, prog[0].num, name);
    assert prog[0] == Version(prog[0].num, prog[0].methods);
    IntendedIffOffered(prog, name);
    EmittedIsFirstVersion(prog, name);
    hide Offers, InMethods, Exec, Emit;
  }

  /** No method of a later version, numbered differently from the first, is ever found. */
  lemma LaterVersionUnreachable(prog: Program, k: nat, i: nat)
    requires 0 < k < |prog| && prog[k].num != prog[0].num && i < |prog[k].methods|
    ensures var name := WireName(prog[k].methods[i].name, prog[k].num);
      WrittenTarget(prog, name).None? && IntendedTarget(prog, name).Some?
  {
    var name := WireName(prog[k].methods[i].name, prog[k].num);
    FoundIffOffered(prog[0].methods, prog[0].num, name);
    assert prog[0] == Version(prog[0].num, prog[0].methods);
    forall j | 0 <= j < |prog[0].methods| ensures WireName(prog[0].methods[j].name, prog[0].num) != name {
      WireNameInjective(prog[0].methods[j].name, prog[0].num, prog[k].methods[i].name, prog[k].num);
    }
    assert Offers(prog[k], name);
    IntendedIffOffered(prog, name);
    EmittedIsFirstVersion(prog, name);
    hide InMethods, WireName, Exec, Emit;
  }

  ghost predicate DistinctMethods(ms: seq<Method>) {
    forall i, j :: 0 <= i < j < |ms| ==> ms[i].name != ms[j].name
  }

  /** Among methods of distinct names, a wire name leads to the method it was made from. */
  lemma {:induction false} MethodFound(ms: seq<Method>, version: int, i: nat)
    requires DistinctMethods(ms) && i < |ms|
    ensures InMethods(ms, version, WireName(ms[i].name, version)) == Some(Target(ms[i], version))
  {
    WireNameInjective(ms[0].name, version, ms[i].name, version);
    if i > 0 {
      assert ms[0].name != ms[i].name;
      assert ms[1..][i - 1] == ms[i];
      MethodFound(ms[1..], version, i - 1);
    }
  }

  // ------------------------------------------------------------------------ the client's call

  const LOCAL_FAILURE := Error(-32501, "Local deserialisation failure.")

  /** What a synchronous stub gives its caller: the error it returns, and the value in `*rval` if the
      result deserialised. */
  datatype CallResult = CallResult(err: Error, rval: Option<Val>)

  /** The message a call sends. */
  function CallMessage(sch: Schema, m: Method, version: int, vals: seq<Val>, id: int): Obj
    requires |vals| == |m.args| && forall i :: 0 <= i < |vals| ==> HasType(sch, m.args[i].typ, vals[i])
  {
    Request(WireName(m.name, version), Object(SerialiseFields(sch, m.args, vals)), id)
  }

  predicate ResultUnusable(sch: Schema, m: Method, c: Completion) {
    m.ret.Some? && c.result.Some? && Deserialise(sch, m.ret.value, c.result.value).None?
  }

  /** The end of `genClientCallImpl`: the completion's error overwrites the local one. */
  function Concluded(sch: Schema, m: Method, c: Completion): CallResult {
    CallResult(c.err, if m.ret.Some? && c.result.Some? then Deserialise(sch, m.ret.value, c.result.value) else None)
  }

  /** The statements that follow `sendMessage` in the stub; `waited` is what `wait` returned. */
  method StubTail(sch: Schema, m: Method, waited: bool, comp: Completion) returns (r: CallResult)
    ensures r == if waited then Concluded(sch, m, comp) else CallResult(comp.err, None)
  {
    var werr, rval := Error(SUCCESS, ""), None;
    if waited {
      if m.ret.Some? && comp.result.Some? {
        rval := Deserialise(sch, m.ret.value, comp.result.value);
        if rval.None? { werr := LOCAL_FAILURE; }
      }
    }
    werr := comp.err;
    return CallResult(werr, rval);
  }

  /** What the stub gives its caller after a wait that ended like this. */
  function StubResult(sch: Schema, m: Method, o: NestedRpc.Outcome): CallResult {
    if o.ok then Concluded(sch, m, o.comp) else CallResult(o.comp.err, None)
  }

  /** What callers see of the code's waits: the reply if the wait read it itself; and else a timeout, even if
      the reply had arrived. After a malformed message the timeout comes with the value of a reply that was
      taken from the queue before, if there was one. */
  lemma StubAfterWait(sch: Schema, m: Method, es: seq<NestedRpc.Event>, o: NestedRpc.Outcome)
    requires NestedRpc.Possible(NestedRpc.AsWritten, NestedRpc.INITIAL, es)
    requires o in NestedRpc.Run(NestedRpc.AsWritten, NestedRpc.INITIAL, es).outcomes
    ensures match o.how
      case OwnReply => o.taken != [] && StubResult(sch, m, o) == Concluded(sch, m, NestedRpc.Completed(o.taken))
      case FromQueue => o.ok
      case NoReply => StubResult(sch, m, o) == CallResult(TIMEOUT, None) && TIMEOUT.code == -32500
      case BadMessage =>
        StubResult(sch, m, o) == CallResult(TIMEOUT, Concluded(sch, m, NestedRpc.Completed(o.taken)).rval)
  {
    NestedRpc.WrittenEndings(es, o);
    hide NestedRpc.Run, NestedRpc.Completed, Deserialise;
  }

  /** What is meant: a result that does not deserialise is a local failure. */
  function IntendedConclusion(sch: Schema, m: Method, c: Completion): CallResult {
    if ResultUnusable(sch, m, c) then CallResult(LOCAL_FAILURE, None) else Concluded(sch, m, c)
  }

  /** For a reply the stub does what is meant exactly when the method returns nothing or its result
      deserialises; otherwise the caller sees success without a value. */
  lemma LocalFailureIsLost(sch: Schema, m: Method, id: int, result: Option<Obj>)
    ensures var c := CompleteWith(ReplyTo(id, result)); var sent := if result.Some? then result.value else Null;
      && (Concluded(sch, m, c) == IntendedConclusion(sch, m, c) <==> m.ret.None? || Deserialise(sch, m.ret.value, sent).Some?)
      && Concluded(sch, m, c) == CallResult(Error(SUCCESS, ""), if m.ret.Some? then Deserialise(sch, m.ret.value, sent) else None)
  {
    ReplyIsResponse(id, result);
    hide Deserialise, LookupField, ReplyTo;
  }
}
