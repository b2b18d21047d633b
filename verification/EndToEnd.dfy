/** A generated client call from end to end: serialise, frame, receive, parse, classify, dispatch,
    deserialise, call, and all the way back. */
module EndToEnd {
  import opened Ucl
  import opened Codec
  import opened Completions
  import opened Rpc
  import opened Stubs
  import Framing
  import NestedRpc

  // ------------------------------------------------------------------------ the request is understood

  lemma LookupFirst(f: (string, Obj), more: seq<(string, Obj)>, key: string)
    ensures LookupField([f] + more, key) == if f.0 == key then Some(f.1) else LookupField(more, key)
  {
    assert ([f] + more)[1..] == more;
  }

  lemma RequestNamesDiffer()
    ensures "id" != "jsonrpc" && "id" != "method" && "id" != "params"
    ensures "error" != "jsonrpc" && "error" != "method" && "error" != "params" && "error" != "id"
    ensures "result" != "jsonrpc" && "result" != "method" && "result" != "params" && "result" != "id"
    ensures "method" != "jsonrpc" && "params" != "jsonrpc" && "params" != "method"
  {
    assert |"id"| == 2 && |"error"| == 5 && |"result"| == 6 && |"jsonrpc"| == 7 && |"method"| == 6 && |"params"| == 6;
    assert "result"[0] == 'r' && "method"[0] == 'm' && "params"[0] == 'p';
  }

  lemma LookupAmongFour(a: (string, Obj), b: (string, Obj), c: (string, Obj), d: (string, Obj), key: string)
    ensures LookupField([a, b, c, d], key) ==
      if a.0 == key then Some(a.1) else if b.0 == key then Some(b.1)
      else if c.0 == key then Some(c.1) else if d.0 == key then Some(d.1) else None
  {
    assert [a, b, c, d] == [a] + [b, c, d];
    LookupFirst(a, [b, c, d], key);
    LookupAmongThree(b, c, d, key);
    hide LookupField;
  }

  /** What `sendMessage` builds is a request, not a response, and carries its name, parameters and id. */
  lemma RequestIsRequest(name: string, params: Obj, id: int)
    requires params.Object?
    ensures var o := Request(name, params, id);
      && ResponseId(o) == 0 && IsRequest(o) && IdIsInteger(o)
      && RequestOf(o) == Req(ToInt32(id), CString(name), Some(params))
  {
    var a, b, c, d := ("jsonrpc", Str("2.0")), ("method", Str(CString(name))), ("params", params), ("id", Int(id));
    RequestNamesDiffer();
    LookupAmongFour(a, b, c, d, "id");
    LookupAmongFour(a, b, c, d, "error");
    LookupAmongFour(a, b, c, d, "result");
    LookupAmongFour(a, b, c, d, "method");
    LookupAmongFour(a, b, c, d, "params");
    CStringFacts(name);
    hide LookupField, CString;
  }

  lemma WireNameNulFree(name: string, version: int)
    requires NulFree(name)
    ensures CString(WireName(name, version)) == WireName(name, version)
  {
    DigitsFacts(if version < 0 then -version else version);
    CStringFacts(WireName(name, version));
  }

  // ------------------------------------------------------------------------ the arguments arrive

  ghost predicate Typed(sch: Schema, args: seq<Field>, vals: seq<Val>) {
    |vals| == |args| && forall i :: 0 <= i < |vals| ==> HasType(sch, args[i].typ, vals[i])
  }

  ghost predicate AllTransparent(sch: Schema, args: seq<Field>, vals: seq<Val>)
    requires Typed(sch, args, vals)
  {
    forall i :: 0 <= i < |vals| ==> Transparent(sch, args[i].typ, vals[i])
  }

  lemma ArgumentGiven(sch: Schema, args: seq<Field>, vals: seq<Val>, i: nat)
    requires DistinctIds(args) && Typed(sch, args, vals) && i < |args|
    ensures Given(args, Some(Object(SerialiseFields(sch, args, vals))), i) == Serialise(sch, args[i].typ, vals[i])
  {
    LookupStored(sch, args, vals, i);
    hide LookupField, Serialise, SerialiseFields;
  }

  /** The implementation is called on exactly the caller's arguments if and only if the first parameter is
      not a list and every argument is transparent. */
  lemma ArgumentsArriveIff(sch: Schema, args: seq<Field>, vals: seq<Val>)
    requires WellFormed(sch) && DistinctIds(args) && Typed(sch, args, vals)
    ensures ParseArgs(sch, args, Some(Object(SerialiseFields(sch, args, vals))), false) == Go(vals) <==>
      (args == [] || !args[0].typ.list) && AllTransparent(sch, args, vals)
  {
    var params := Some(Object(SerialiseFields(sch, args, vals)));
    forall i | 0 <= i < |args|
      ensures Back(sch, args[i].typ, Given(args, params, i)) == Some(vals[i]) <==> Transparent(sch, args[i].typ, vals[i])
    {
      ArgumentGiven(sch, args, vals, i);
      RoundTripIff(sch, args[i].typ, vals[i]);
    }
    CaseRunsIff(sch, args, params);
    hide Given, Deserialise, Serialise, SerialiseFields, Transparent, ParseArgs, FirstProblemIsMissing;
    if AllTransparent(sch, args, vals) {
      assert AllUsable(sch, args, params);
      assert Values(sch, args, params) == vals;
    } else if AllUsable(sch, args, params) {
      var i :| 0 <= i < |vals| && !Transparent(sch, args[i].typ, vals[i]);
      assert Usable(sch, args, params, i);
      assert Values(sch, args, params)[i] != vals[i];
    }
  }

  // ------------------------------------------------------------------------ the result comes back

  /** What the caller of a stub should see when the implementation ends like this. An implementation may set
      the result object itself; one that does not deserialise is a failure of the call. */
  function Expected(sch: Schema, m: Method, out: Stubs.Outcome): CallResult {
    match out
    case Fails(e) => CallResult(e, None)
    case Succeeds(rval, result) =>
      if m.ret.None? then CallResult(Error(SUCCESS, ""), None)
      else if result.None? then CallResult(Error(SUCCESS, ""), Some(rval))
      else if Deserialise(sch, m.ret.value, result.value).Some? then CallResult(Error(SUCCESS, ""), Deserialise(sch, m.ret.value, result.value))
      else CallResult(LOCAL_FAILURE, None)
  }

  /** An error code is a C `int` and its message a C string; a returned value has the declared type. */
  ghost predicate WellBehaved(sch: Schema, m: Method, out: Stubs.Outcome) {
    match out
    case Fails(e) => IsInt32(e.code) && NulFree(e.message)
    case Succeeds(rval, result) => result.None? && m.ret.Some? ==> HasType(sch, m.ret.value, rval)
  }

  /** The value returned survives the wire; a result object that was set deserialises. */
  ghost predicate ReturnArrives(sch: Schema, m: Method, out: Stubs.Outcome)
    requires WellBehaved(sch, m, out)
  {
    out.Succeeds? && m.ret.Some? ==>
      if out.result.None? then Transparent(sch, m.ret.value, out.rval)
      else Deserialise(sch, m.ret.value, out.result.value).Some?
  }

  lemma ErrorReadBack(e: Error)
    requires IsInt32(e.code) && NulFree(e.message)
    ensures ToError(Some(Object([("code", Int(e.code)), ("message", Str(CString(e.message)))]))) == e
  {
    var a, b := ("code", Int(e.code)), ("message", Str(CString(e.message)));
    assert "code" != "message" by { assert |"code"| != |"message"|; }
    assert [a, b] == [a] + [b] && [b] == [b] + [];
    LookupFirst(a, [b], "code");
    LookupFirst(a, [b], "message");
    LookupFirst(b, [], "message");
    CStringFacts(e.message);
    hide LookupField, CString;
  }

  /** The message that answers a call whose case is `Invoke`d. */
  function AnswerOf(sch: Schema, m: Method, version: int, impl: Impl, vals: seq<Val>, id: int): Obj {
    match Invoke(sch, m, version, impl, vals)
    case Declined => Null
    case Failed(e) => ErrorTo(id, e)
    case Done(result) => ReplyTo(id, result)
  }

  /** A value of which no object is made is replied to with null, from which nothing is read. */
  lemma NullIsNoValue(sch: Schema, t: TypeRef, v: Val)
    requires HasType(sch, t, v) && Serialise(sch, t, v).None?
    ensures Deserialise(sch, t, Null) == None
  {
  }

  lemma FailureComesBack(sch: Schema, m: Method, id: int, e: Error)
    requires IsInt32(id) && IsInt32(e.code) && NulFree(e.message)
    ensures ResponseId(ErrorTo(id, e)) == id && Concluded(sch, m, CompleteWith(ErrorTo(id, e))) == CallResult(e, None)
  {
    ErrorIsResponse(id, e);
    ErrorReadBack(e);
    hide ErrorTo, ToError, LookupField, Deserialise;
  }

  lemma SuccessComesBackIff(sch: Schema, m: Method, id: int, rval: Val, result: Option<Obj>, sent: Option<Obj>)
    requires WellFormed(sch) && IsInt32(id) && (result.None? && m.ret.Some? ==> HasType(sch, m.ret.value, rval))
    requires sent == if result.None? && m.ret.Some? then Serialise(sch, m.ret.value, rval) else result
    ensures ResponseId(ReplyTo(id, sent)) == id
    ensures Concluded(sch, m, CompleteWith(ReplyTo(id, sent))) == Expected(sch, m, Succeeds(rval, result)) <==>
      ReturnArrives(sch, m, Succeeds(rval, result))
  {
    ReplyIsResponse(id, sent);
    LocalFailureIsLost(sch, m, id, sent);
    if result.None? && m.ret.Some? {
      RoundTripIff(sch, m.ret.value, rval);
      if sent.None? { NullIsNoValue(sch, m.ret.value, rval); }
    }
    hide ReplyTo, CompleteWith, Concluded, Deserialise, Serialise, Transparent, HasType, ResponseId;
  }

  /** The stub concludes as it should exactly when a value that is returned is transparent, and a result
      object that was set deserialises. */
  lemma ResultComesBackIff(sch: Schema, m: Method, version: int, impl: Impl, vals: seq<Val>, id: int)
    requires WellFormed(sch) && IsInt32(id)
    requires WellBehaved(sch, m, impl(WireName(m.name, version), vals))
    ensures var o := AnswerOf(sch, m, version, impl, vals, id); var out := impl(WireName(m.name, version), vals);
      && ResponseId(o) == id
      && (Concluded(sch, m, CompleteWith(o)) == Expected(sch, m, out) <==> ReturnArrives(sch, m, out))
  {
    match impl(WireName(m.name, version), vals)
    case Fails(e) => FailureComesBack(sch, m, id, e); hide ErrorTo, CompleteWith, Concluded;
    case Succeeds(rval, result) =>
      var sent := if result.None? && m.ret.Some? then Serialise(sch, m.ret.value, rval) else result;
      SuccessComesBackIff(sch, m, id, rval, result, sent);
      hide ReplyTo, CompleteWith, Concluded, Deserialise, Serialise, Transparent, ResponseId;
  }

  // ------------------------------------------------------------------------ one call

  /** A client's call to a method of a single-version program. */
  datatype Invocation = Invocation(m: Method, vals: seq<Val>, id: int)

  /** A single-version program with distinct method names, offered by the provider at `at`. */
  datatype Server = Server(sch: Schema, version: Version, impl: Impl, providers: seq<Provider>, at: nat)

  ghost predicate Serves(s: Server) {
    && WellFormed(s.sch) && DistinctMethods(s.version.methods)
    && s.at < |s.providers|
    && forall r :: s.providers[s.at](r) == HandleReq(s.sch, [s.version], s.impl, r)
  }

  /** A server whose only provider is the generated one. */
  function Alone(sch: Schema, version: Version, impl: Impl): Server {
    Server(sch, version, impl, [(r: Req) => HandleReq(sch, [version], impl, r)], 0)
  }

  lemma AloneServes(sch: Schema, version: Version, impl: Impl)
    requires WellFormed(sch) && DistinctMethods(version.methods)
    ensures Serves(Alone(sch, version, impl))
  {
  }

  /** Method and arguments fit the schema, the id is fresh enough to be nonzero, and no earlier provider
      takes the request. */
  ghost predicate Legal(s: Server, c: Invocation) {
    && c.m in s.version.methods && NulFree(c.m.name) && DistinctIds(c.m.args)
    && Typed(s.sch, c.m.args, c.vals) && IsInt32(c.id) && c.id != 0
    && (forall k :: 0 <= k < s.at && k < |s.providers| ==> s.providers[k](RequestFor(s, c)).Declined?)
    && WellBehaved(s.sch, c.m, s.impl(WireName(c.m.name, s.version.num), c.vals))
  }

  ghost function RequestFor(s: Server, c: Invocation): Req
    requires Typed(s.sch, c.m.args, c.vals)
  {
    Req(c.id, WireName(c.m.name, s.version.num), Some(Object(SerialiseFields(s.sch, c.m.args, c.vals))))
  }

  ghost function Sent(s: Server, c: Invocation): Obj
    requires Legal(s, c)
  {
    CallMessage(s.sch, c.m, s.version.num, c.vals, c.id)
  }

  /** The first parameter is no list, and all that is sent either way survives. */
  ghost predicate Clear(s: Server, c: Invocation)
    requires Legal(s, c)
  {
    && (c.m.args == [] || !c.m.args[0].typ.list)
    && AllTransparent(s.sch, c.m.args, c.vals)
    && ReturnArrives(s.sch, c.m, s.impl(WireName(c.m.name, s.version.num), c.vals))
  }

  ghost function Due(s: Server, c: Invocation): CallResult {
    Expected(s.sch, c.m, s.impl(WireName(c.m.name, s.version.num), c.vals))
  }

  /** The message sent is taken for the request that was meant. */
  lemma SentIsUnderstood(s: Server, c: Invocation)
    requires Legal(s, c)
    ensures ResponseId(Sent(s, c)) == 0 && IsRequest(Sent(s, c)) && IdIsInteger(Sent(s, c))
    ensures RequestOf(Sent(s, c)) == RequestFor(s, c)
  {
    WireNameNulFree(c.m.name, s.version.num);
    RequestIsRequest(WireName(c.m.name, s.version.num), Object(SerialiseFields(s.sch, c.m.args, c.vals)), c.id);
    hide WireName, CString, SerialiseFields, IsRequest, ResponseId, IdIsInteger, Request, WellBehaved;
  }

  /** It reaches the generated case of the method that was called. */
  lemma RequestReachesCase(s: Server, c: Invocation)
    requires Serves(s) && Legal(s, c)
    ensures Dispatch(s.providers, RequestFor(s, c)) ==
      HandleCase(s.sch, c.m, s.version.num, s.impl, Some(Object(SerialiseFields(s.sch, c.m.args, c.vals))))
  {
    var r := RequestFor(s, c);
    var i :| 0 <= i < |s.version.methods| && s.version.methods[i] == c.m;
    MethodFound(s.version.methods, s.version.num, i);
    EmittedIsFirstVersion([s.version], r.name);
    hide Exec, Emit;
    assert HandleReq(s.sch, [s.version], s.impl, r) == HandleCase(s.sch, c.m, s.version.num, s.impl, r.params);
    hide HandleReq, HandleCase, WireName, Dispatch, WellBehaved, SerialiseFields;
    CaseNeverDeclines(s.sch, c.m, s.version.num, s.impl, r.params);
    FirstAcceptingProvider(s.providers, r);
  }

  lemma CaseNeverDeclines(sch: Schema, m: Method, version: int, impl: Impl, params: Option<Obj>)
    ensures !HandleCase(sch, m, version, impl, params).Declined?
  {
    hide ParseArgs;
  }

  /** The server sends one message in answer, that of the generated case. */
  lemma ServerAnswers(s: Server, c: Invocation)
    requires Serves(s) && Legal(s, c)
    ensures Respond(s.providers, Sent(s, c)) ==
      Answer(HandleCase(s.sch, c.m, s.version.num, s.impl, Some(Object(SerialiseFields(s.sch, c.m.args, c.vals)))), c.id)
  {
    SentIsUnderstood(s, c);
    RequestReachesCase(s, c);
    hide Sent, ResponseId, IsRequest, IdIsInteger, Dispatch, HandleCase, Answer, SerialiseFields, WellBehaved;
  }

  lemma CaseInvokes(sch: Schema, m: Method, version: int, impl: Impl, params: Option<Obj>, vals: seq<Val>, id: int)
    requires ParseArgs(sch, m.args, params, false) == Go(vals) && id != 0
    ensures Answer(HandleCase(sch, m, version, impl, params), id) == [AnswerOf(sch, m, version, impl, vals, id)]
  {
    hide ParseArgs, HasType, Serialise, WireName;
  }

  /** A clear call is answered once, under its own id, and its caller sees exactly what the implementation
      returns on the caller's arguments. */
  lemma CallIsTransparent(s: Server, c: Invocation)
    requires Serves(s) && Legal(s, c) && Clear(s, c)
    ensures var out := Respond(s.providers, Sent(s, c));
      |out| == 1 && ResponseId(out[0]) == c.id && Concluded(s.sch, c.m, CompleteWith(out[0])) == Due(s, c)
  {
    ServerAnswers(s, c);
    ArgumentsArriveIff(s.sch, c.m.args, c.vals);
    hide Sent, Respond, Typed, HandleCase, SerialiseFields, WellBehaved, ParseArgs, AllTransparent, ReturnArrives, Concluded, CompleteWith, Expected, Serves, ResponseId, AnswerOf, Answer;
    ResultComesBackIff(s.sch, c.m, s.version.num, s.impl, c.vals, c.id);
    CaseInvokes(s.sch, c.m, s.version.num, s.impl, Some(Object(SerialiseFields(s.sch, c.m.args, c.vals))), c.vals, c.id);
  }

  lemma ErrorConcluded(sch: Schema, m: Method, id: int, e: Error)
    requires IsInt32(e.code) && NulFree(e.message)
    ensures Concluded(sch, m, CompleteWith(ErrorTo(id, e))) == CallResult(e, None)
  {
    ErrorIsResponse(id, e);
    ErrorReadBack(e);
    hide ErrorTo, ToError, LookupField, Deserialise;
  }

  lemma InvalidParamsIsPlain()
    ensures IsInt32(INVALID_PARAMS.code) && NulFree(INVALID_PARAMS.message)
  {
  }

  /** A call whose first parameter is a list is always refused, whatever its arguments. */
  lemma ListFirstCallIsRefused(s: Server, c: Invocation)
    requires Serves(s) && Legal(s, c) && c.m.args != [] && c.m.args[0].typ.list
    ensures var out := Respond(s.providers, Sent(s, c));
      |out| == 1 && Concluded(s.sch, c.m, CompleteWith(out[0])) == CallResult(INVALID_PARAMS, None)
  {
    ServerAnswers(s, c);
    ListFirstIsAlwaysRejected(s.sch, c.m, s.version.num, s.impl, Some(Object(SerialiseFields(s.sch, c.m.args, c.vals))));
    InvalidParamsIsPlain();
    hide Sent, Respond, HandleCase, SerialiseFields, WellBehaved, Concluded, CompleteWith, Serves, Typed, NulFree, IsInt32, ErrorTo;
    ErrorConcluded(s.sch, c.m, c.id, INVALID_PARAMS);
  }

  // ------------------------------------------------------------------------ a call that is not clear

  const GET := Method("get", [], Some(TypeRef(false, IntType)))

  /** A server whose method should return an integer and sets a string as its result. */
  function Careless(): Server {
    Alone(map[], Version(1, [GET]), (name: string, vals: seq<Val>) => Succeeds(VInt(0), Some(Str("x"))))
  }

  lemma CarelessCall(c: Invocation)
    requires c == Invocation(GET, [], 7)
    ensures Serves(Careless()) && Legal(Careless(), c) && !Clear(Careless(), c)
    ensures Due(Careless(), c) == CallResult(LOCAL_FAILURE, None)
  {
    var s := Careless();
    AloneServes(map[], Version(1, [GET]), s.impl);
    assert GET in s.version.methods;
    assert s.impl(WireName(GET.name, 1), []) == Succeeds(VInt(0), Some(Str("x")));
    assert Deserialise(map[], TypeRef(false, IntType), Str("x")) == None;
  }

  /** Its client is told that the call succeeded, and gets no value. */
  lemma WrongResultReportsSuccess()
    ensures var s, c := Careless(), Invocation(GET, [], 7);
      && Serves(s) && Legal(s, c) && Due(s, c).err == LOCAL_FAILURE
      && var out := Respond(s.providers, Sent(s, c));
         |out| == 1 && Concluded(s.sch, c.m, CompleteWith(out[0])) == CallResult(Error(SUCCESS, ""), None)
  {
    var s, c := Careless(), Invocation(GET, [], 7);
    CarelessCall(c);
    ServerAnswers(s, c);
    ArgumentsArriveIff(s.sch, [], []);
    var params := Some(Object(SerialiseFields(s.sch, c.m.args, c.vals)));
    assert ParseArgs(s.sch, c.m.args, params, false) == Go([]);
    CaseInvokes(s.sch, c.m, 1, s.impl, params, [], 7);
    assert AnswerOf(s.sch, c.m, 1, s.impl, [], 7) == ReplyTo(7, Some(Str("x")));
    LocalFailureIsLost(s.sch, c.m, 7, Some(Str("x")));
    assert Deserialise(s.sch, TypeRef(false, IntType), Str("x")) == None;
    hide Respond, Sent, HandleCase, Answer, AnswerOf, ReplyTo, CompleteWith, Concluded, ParseArgs, Serves, Legal;
  }

  // ------------------------------------------------------------------------ over the wire

  /** libucl's emitter and parser. */
  datatype Text = Text(emit: Obj -> Framing.Bytes, parse: Framing.Bytes -> Option<Obj>)

  /** The emitted text parses back and fits a frame. */
  ghost predicate Carried(t: Text, o: Obj) {
    t.parse(t.emit(o)) == Some(o) && |t.emit(o)| + 1 < TWO31 && 0 !in t.emit(o)
  }

  ghost predicate AllCarried(t: Text, os: seq<Obj>) {
    forall i :: 0 <= i < |os| ==> Carried(t, os[i])
  }

  function Emitted(t: Text, os: seq<Obj>): (texts: seq<Framing.Bytes>)
    ensures |texts| == |os| && forall i :: 0 <= i < |os| ==> texts[i] == t.emit(os[i])
  {
    seq(|os|, i requires 0 <= i < |os| => t.emit(os[i]))
  }

  /** `parseMessage` measures its text with `strlen`. */
  function TextIn(buf: Framing.Bytes): Framing.Bytes {
    if buf == [] || buf[0] == 0 then [] else [buf[0]] + TextIn(buf[1..])
  }

  function ParsedAll(t: Text, bufs: seq<Framing.Bytes>): (os: seq<Option<Obj>>)
    ensures |os| == |bufs| && forall i :: 0 <= i < |os| ==> os[i] == t.parse(TextIn(bufs[i]))
  {
    seq(|bufs|, i requires 0 <= i < |bufs| => t.parse(TextIn(bufs[i])))
  }

  /** A schedule of receives that takes everything off the wire; the code as written needs each body to
      come in one piece. */
  ghost predicate Drains(b: Framing.Build, texts: seq<Framing.Bytes>, cs: seq<Framing.Call>) {
    && Framing.Sendable(texts) && Framing.Possible(b, Framing.Begin(texts), cs)
    && var r := Framing.Run(b, Framing.Begin(texts), cs);
       r.wire == [] && (b.AsWritten? ==> forall i :: 0 <= i < |r.split| ==> r.split[i] == 1)
  }

  /** The objects a receiver parses. */
  ghost function Heard(t: Text, b: Framing.Build, os: seq<Obj>, cs: seq<Framing.Call>): seq<Option<Obj>>
    requires Drains(b, Emitted(t, os), cs)
  {
    ParsedAll(t, Framing.Run(b, Framing.Begin(Emitted(t, os)), cs).delivered)
  }

  lemma {:induction false} TextOfBody(text: Framing.Bytes)
    requires 0 !in text
    ensures TextIn(Framing.Body(text)) == text
  {
    if text != [] {
      TextOfBody(text[1..]);
      assert Framing.Body(text)[1..] == Framing.Body(text[1..]);
      assert text == [text[0]] + text[1..];
    } else {
      assert Framing.Body(text)[0] == 0;
    }
  }

  lemma BodiesArrive(b: Framing.Build, texts: seq<Framing.Bytes>, cs: seq<Framing.Call>)
    requires Drains(b, texts, cs)
    ensures Framing.Run(b, Framing.Begin(texts), cs).delivered == Framing.Bodies(texts)
  {
    match b
    case AsDocumented => Framing.FramingInverts(texts, cs);
    case AsWritten => Framing.WholeBodiesArrive(texts, cs);
  }

  /** What is heard is what was said, in order. */
  lemma MessagesArrive(t: Text, b: Framing.Build, os: seq<Obj>, cs: seq<Framing.Call>)
    requires AllCarried(t, os) && Drains(b, Emitted(t, os), cs)
    ensures |Heard(t, b, os, cs)| == |os| && forall i :: 0 <= i < |os| ==> Heard(t, b, os, cs)[i] == Some(os[i])
  {
    var texts := Emitted(t, os);
    BodiesArrive(b, texts, cs);
    hide Drains;
    forall i | 0 <= i < |os| ensures t.parse(TextIn(Framing.Bodies(texts)[i])) == Some(os[i]) {
      assert Carried(t, os[i]);
      TextOfBody(texts[i]);
    }
    hide TextIn, Framing.Body;
  }

  ghost predicate AllClear(s: Server, calls: seq<Invocation>) {
    forall i :: 0 <= i < |calls| ==> Legal(s, calls[i]) && Clear(s, calls[i])
  }

  ghost function Requests(s: Server, calls: seq<Invocation>): seq<Obj>
    requires AllClear(s, calls)
  {
    if calls == [] then [] else [Sent(s, calls[0])] + Requests(s, calls[1..])
  }

  /** This object gives the caller of `c` its due. */
  ghost predicate Answers(s: Server, c: Invocation, o: Obj) {
    ResponseId(o) == c.id && Concluded(s.sch, c.m, CompleteWith(o)) == Due(s, c)
  }

  lemma {:induction false} AllAnswered(s: Server, calls: seq<Invocation>)
    requires Serves(s) && AllClear(s, calls)
    ensures var out := RespondAll(s.providers, Requests(s, calls));
      |out| == |calls| && forall i :: 0 <= i < |calls| ==> Answers(s, calls[i], out[i])
    decreases |calls|
  {
    hide Legal, Clear, Serves, Respond, Sent, ResponseId, Concluded, CompleteWith, Due;
    if calls != [] {
      var rest := calls[1..];
      assert forall i :: 0 <= i < |rest| ==> rest[i] == calls[i + 1];
      AllAnswered(s, rest);
      CallIsTransparent(s, calls[0]);
      var requests := Requests(s, calls);
      assert requests[0] == Sent(s, calls[0]) && requests[1..] == Requests(s, rest);
      var first, more := Respond(s.providers, requests[0]), RespondAll(s.providers, requests[1..]);
      assert RespondAll(s.providers, requests) == first + more && |first| == 1;
      assert Answers(s, calls[0], first[0]);
      hide Answers, RespondAll, Requests;
      forall i | 0 <= i < |calls| ensures Answers(s, calls[i], (first + more)[i]) {
        if i > 0 { assert calls[i] == rest[i - 1] && (first + more)[i] == more[i - 1]; }
      }
    }
  }

  /** For every sequence of calls to a single-version program, sent down one connection and received in
      any pieces on both sides: the server parses exactly the requests that were built, and the client
      parses one response for each call, in order, under the call's id, from which the stub concludes
      exactly what the implementation returned on the caller's arguments. */
  lemma CallsAreTransparent(s: Server, t: Text, b: Framing.Build, calls: seq<Invocation>, up: seq<Framing.Call>, down: seq<Framing.Call>)
    requires Serves(s) && AllClear(s, calls)
    requires var requests := Requests(s, calls); var responses := RespondAll(s.providers, requests);
      && AllCarried(t, requests) && Drains(b, Emitted(t, requests), up)
      && AllCarried(t, responses) && Drains(b, Emitted(t, responses), down)
    ensures var requests := Requests(s, calls); var heard := Heard(t, b, requests, up);
      |heard| == |requests| && forall i :: 0 <= i < |heard| ==> heard[i] == Some(requests[i])
    ensures var responses := RespondAll(s.providers, Requests(s, calls)); var back := Heard(t, b, responses, down);
      |back| == |calls| && forall i :: 0 <= i < |calls| ==> back[i].Some? && Answers(s, calls[i], back[i].value)
  {
    hide Serves, AllClear, Answers, RespondAll, Requests, AllCarried, Drains, Heard, Emitted;
    MessagesArrive(t, b, Requests(s, calls), up);
    AllAnswered(s, calls);
    MessagesArrive(t, b, RespondAll(s.providers, Requests(s, calls)), down);
  }

  /** A response is what the wait for its id is waiting for: the wait ends, reports success, and its
      completion has been given that response. */
  lemma ResponseEndsWait(b: NestedRpc.Build, s: NestedRpc.State, o: Obj)
    requires NestedRpc.TopWaits(s) && ResponseId(o) == NestedRpc.Top(s).id != 0
    ensures var u := NestedRpc.OnMessage(b, s, Classify(o)); var id := ResponseId(o); var n := |s.outcomes|;
      && u.stack == s.stack[..|s.stack| - 1] && id in u.ended
      && |u.outcomes| == n + 1 && u.outcomes[n].id == id && u.outcomes[n].ok
      && u.outcomes[n].comp == Complete(NestedRpc.HeldBy(s.held, id), o)
  {
    var r := NestedRpc.Reply(ResponseId(o), o);
    var c := NestedRpc.HeldBy(s.held, ResponseId(o));
    assert NestedRpc.Objects([r]) == [o] && [o][..0] == [];
    assert CompleteEach(c, [o]) == Complete(CompleteEach(c, [o][..0]), o);
    hide ResponseId, NestedRpc.Matching, CompleteEach, NestedRpc.Objects, Complete;
  }

  /** The server's answer to this one call, as the client parses it. */
  ghost function AnswerHeard(s: Server, t: Text, b: Framing.Build, c: Invocation, down: seq<Framing.Call>): Option<Obj>
    requires AllClear(s, [c]) && Drains(b, Emitted(t, RespondAll(s.providers, Requests(s, [c]))), down)
  {
    var back := Heard(t, b, RespondAll(s.providers, Requests(s, [c])), down);
    if |back| == 1 then back[0] else None
  }

  /** The call can be made over this wire: everything said either way is received, in any pieces. */
  ghost predicate Wired(s: Server, t: Text, b: Framing.Build, c: Invocation, up: seq<Framing.Call>, down: seq<Framing.Call>) {
    && Serves(s) && AllClear(s, [c])
    && var requests := Requests(s, [c]); var responses := RespondAll(s.providers, requests);
       && AllCarried(t, requests) && Drains(b, Emitted(t, requests), up)
       && AllCarried(t, responses) && Drains(b, Emitted(t, responses), down)
  }

  lemma AnswerIsHeard(s: Server, t: Text, b: Framing.Build, c: Invocation, up: seq<Framing.Call>, down: seq<Framing.Call>)
    requires Wired(s, t, b, c, up, down)
    ensures var o := AnswerHeard(s, t, b, c, down);
      o.Some? && ResponseId(o.value) == c.id != 0 && Concluded(s.sch, c.m, CompleteWith(o.value)) == Due(s, c)
  {
    CallsAreTransparent(s, t, b, [c], up, down);
    var back := Heard(t, b, RespondAll(s.providers, Requests(s, [c])), down);
    assert Answers(s, c, back[0].value);
    assert Legal(s, c);
    assert c.id != 0;
    hide Serves, AllClear, RespondAll, Requests, AllCarried, Drains, Heard, Emitted, Concluded, CompleteWith, Due, Legal, ResponseId;
  }

  /** A synchronous call among any others: in every run of the client's transport, with requests, other
      replies, delegates and nested waits before, during and after it, if by the time its wait ends the one
      reply to its id is the server's answer, the wait reports success, and the stub gives its caller exactly
      what the implementation returned on the caller's arguments. In the documented build; in the code, if
      the wait read the answer itself. */
  lemma SynchronousCall(s: Server, t: Text, b: Framing.Build, c: Invocation, up: seq<Framing.Call>, down: seq<Framing.Call>,
                        nb: NestedRpc.Build, es: seq<NestedRpc.Event>, o: NestedRpc.Outcome)
    requires Wired(s, t, b, c, up, down)
    requires NestedRpc.Possible(nb, NestedRpc.INITIAL, es) && o in NestedRpc.Run(nb, NestedRpc.INITIAL, es).outcomes
    requires var back := AnswerHeard(s, t, b, c, down);
      o.id == c.id && back.Some? && o.arrived == [NestedRpc.Reply(c.id, back.value)]
    requires nb.AsDocumented? || o.how.OwnReply?
    ensures o.ok && StubResult(s.sch, c.m, o) == Due(s, c)
  {
    AnswerIsHeard(s, t, b, c, up, down);
    hide Wired, AnswerHeard, Concluded, Due, ResponseId, NestedRpc.Run, NestedRpc.Completed;
    match nb {
      case AsDocumented => NestedRpc.DocumentedBuildKeepsPromise(es, o);
      case AsWritten =>
        NestedRpc.WrittenEndings(es, o);
        NestedRpc.OnlyOneTaken(o.taken, o.arrived);
    }
    hide CompleteWith;
  }

  /** Such a run exists from every reachable state in which code runs: the call is sent, waited for and answered
      at once. In the documented build an unsolicited reply that is queued already would be taken instead. */
  lemma AnsweredAtOnce(s: Server, t: Text, b: Framing.Build, c: Invocation, up: seq<Framing.Call>, down: seq<Framing.Call>,
                       nb: NestedRpc.Build, st: NestedRpc.State)
    requires Wired(s, t, b, c, up, down)
    requires NestedRpc.Inv(nb, st) && !NestedRpc.TopWaits(st) && c.id !in st.issued
    requires nb.AsDocumented? ==> NestedRpc.Matching(st.received, c.id) == []
    ensures var back := AnswerHeard(s, t, b, c, down);
      && back.Some?
      && var es := [NestedRpc.Send(c.id, false), NestedRpc.Wait(c.id), NestedRpc.Hear(Classify(back.value))];
         && NestedRpc.Possible(nb, st, es)
         && var u := NestedRpc.Run(nb, st, es); var n := |st.outcomes|;
            && u.stack == st.stack && |u.outcomes| == n + 1 && u.outcomes[n].id == c.id
            && u.outcomes[n].ok && StubResult(s.sch, c.m, u.outcomes[n]) == Due(s, c)
  {
    AnswerIsHeard(s, t, b, c, up, down);
    var back := AnswerHeard(s, t, b, c, down);
    hide Wired, AnswerHeard, Concluded, Due, ResponseId;
    WaitForOne(nb, st, c.id, back.value);
    hide CompleteWith, NestedRpc.Run;
  }

  /** The wait of a call to whose completion nothing was given yet reads the response. */
  lemma WaitReads(nb: NestedRpc.Build, s: NestedRpc.State, id: int, o: Obj)
    requires NestedRpc.TopWaits(s) && NestedRpc.Top(s).id == id == ResponseId(o) != 0 && NestedRpc.HeldBy(s.held, id).result == None
    ensures NestedRpc.Enabled(s, NestedRpc.Hear(Classify(o)))
    ensures var u := NestedRpc.Apply(nb, s, NestedRpc.Hear(Classify(o))); var n := |s.outcomes|;
      && u.stack == s.stack[..|s.stack| - 1] && |u.outcomes| == n + 1
      && u.outcomes[n].id == id && u.outcomes[n].ok && u.outcomes[n].comp == CompleteWith(o)
  {
    var p := NestedRpc.Polled(s);
    assert NestedRpc.TopWaits(p) && NestedRpc.Top(p) == NestedRpc.Top(s) && p.stack == s.stack && p.outcomes == s.outcomes;
    assert NestedRpc.HeldBy(p.held, id).result == None;
    hide ResponseId;
    ResponseEndsWait(nb, p, o);
    assert NestedRpc.Apply(nb, s, NestedRpc.Hear(Classify(o))) == NestedRpc.OnMessage(nb, p, Classify(o));
    hide NestedRpc.Apply, NestedRpc.OnMessage, NestedRpc.Polled, NestedRpc.HeldBy, Classify;
  }

  /** A call is sent, waited for and answered. */
  lemma WaitForOne(nb: NestedRpc.Build, st: NestedRpc.State, id: int, o: Obj)
    requires NestedRpc.Inv(nb, st) && !NestedRpc.TopWaits(st) && id != 0 && id !in st.issued
    requires (nb.AsDocumented? ==> NestedRpc.Matching(st.received, id) == []) && ResponseId(o) == id
    ensures var es := [NestedRpc.Send(id, false), NestedRpc.Wait(id), NestedRpc.Hear(Classify(o))];
      && NestedRpc.Possible(nb, st, es)
      && var u := NestedRpc.Run(nb, st, es); var n := |st.outcomes|;
         && u.stack == st.stack && |u.outcomes| == n + 1
         && u.outcomes[n].id == id && u.outcomes[n].ok && u.outcomes[n].comp == CompleteWith(o)
  {
    var calling := [NestedRpc.Send(id, false), NestedRpc.Wait(id)];
    var s, m := NestedRpc.Called(st, id), NestedRpc.Hear(Classify(o));
    hide NestedRpc.Called, NestedRpc.Inv, NestedRpc.Matching, ResponseId, NestedRpc.HeldBy, CompleteWith;
    NestedRpc.SendAndWait(nb, st, id);
    assert NestedRpc.Scan(nb, s) == s || nb.AsWritten?;
    hide NestedRpc.Scan, NestedRpc.Possible, NestedRpc.Run, Classify;
    WaitReads(nb, s, id, o);
    hide NestedRpc.Apply, NestedRpc.Enabled;
    assert (st.stack + [NestedRpc.Waiting(id)])[..|st.stack|] == st.stack;
    NestedRpc.Extend(nb, st, calling, m);
    assert calling + [m] == [NestedRpc.Send(id, false), NestedRpc.Wait(id), m];
  }
}
