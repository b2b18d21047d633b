/** WSRPC messages: classification, dispatch to the first provider that accepts, and replies. */
module Rpc {
  import opened Ucl
  import opened Completions
  import NestedRpc

  const METHOD_NOT_FOUND := -32601
  const INVALID_PARAMETERS := -32602

  const NO_SUCH_METHOD := Error(METHOD_NOT_FOUND, "The method does not exist / is not available.")
  const INVALID_PARAMS := Error(INVALID_PARAMETERS, "Invalid method parameter(s).")

  // ------------------------------------------------------------------------ classification

  /** `uclObjIsRequest`. */
  predicate IsRequest(o: Obj) {
    && o.Object?
    && Lookup(o, "method").Some? && Lookup(o, "method").value.Str?
    && (Lookup(o, "params").Some? ==> Lookup(o, "params").value.Object?)
  }

  /** `uclObjIsResponseForId`: 0 when the object is no response. */
  function ResponseId(o: Obj): int {
    var id := Lookup(o, "id");
    if !o.Object? || id.None? || !id.value.Int? then 0
    else if Lookup(o, "error").Some? && Lookup(o, "result").Some? then 0
    else if Lookup(o, "error").Some? || Lookup(o, "result").Some? then ToInt(id)
    else 0
  }

  /** How the nested-call machine sees a message that arrived. */
  function Classify(o: Obj): NestedRpc.Message {
    if ResponseId(o) != 0 then NestedRpc.Response(NestedRpc.Reply(ResponseId(o), o))
    else if IsRequest(o) && IdIsInteger(o) then NestedRpc.Request(ToInt(Lookup(o, "id")))
    else NestedRpc.Junk
  }

  /** A request's id, if it has one, must be an integer; otherwise the request is dropped. */
  predicate IdIsInteger(o: Obj) {
    Lookup(o, "id").Some? ==> Lookup(o, "id").value.Int?
  }

  /** What a message is, in terms of its members. A response has an integer id that is not zero as an `int`, and
      exactly one of result and error. A request is not a response, is an object, and has a method that is a
      string, parameters that are an object if there are any, and an integer id if there is one; its number is
      that id, or 0. Everything else is neither. */
  lemma ClassifyIff(o: Obj, id: int)
    ensures Classify(o) == NestedRpc.Response(NestedRpc.Reply(id, o)) <==>
      && o.Object? && id != 0 && (exists n :: Lookup(o, "id") == Some(Int(n)) && id == ToInt32(n))
      && (Lookup(o, "result").None? <==> Lookup(o, "error").Some?)
    ensures Classify(o) == NestedRpc.Request(id) <==>
      && o.Object? && (exists s :: Lookup(o, "method") == Some(Str(s)))
      && (Lookup(o, "params").None? || exists fields :: Lookup(o, "params") == Some(Object(fields)))
      && ((Lookup(o, "id").None? && id == 0) || exists n :: Lookup(o, "id") == Some(Int(n)) && id == ToInt32(n))
      && (id == 0 || (Lookup(o, "result").None? <==> Lookup(o, "error").None?))
  {
    var m, ps, i := Lookup(o, "method"), Lookup(o, "params"), Lookup(o, "id");
    assert (exists s :: m == Some(Str(s))) <==> m.Some? && m.value.Str? by {
      if m.Some? && m.value.Str? { assert m == Some(Str(m.value.s)); }
    }
    assert (exists fields :: ps == Some(Object(fields))) <==> ps.Some? && ps.value.Object? by {
      if ps.Some? && ps.value.Object? { assert ps == Some(Object(ps.value.fields)); }
    }
    assert (exists n :: i == Some(Int(n)) && id == ToInt32(n)) <==> i.Some? && i.value.Int? && id == ToInt32(i.value.n) by {
      if i.Some? && i.value.Int? { assert i == Some(Int(i.value.n)); }
    }
    hide Lookup;
  }

  /** A request without parameters, with or without an id. */
  lemma PlainRequest(name: string, id: int)
    ensures Classify(Object([("method", Str(name)), ("id", Int(id))])) == NestedRpc.Request(ToInt32(id))
    ensures Classify(Object([("method", Str(name))])) == NestedRpc.Request(0)
  {
    var a, b := ("method", Str(name)), ("id", Int(id));
    assert "id" != "method" && "params" != "method" && "params" != "id" && "result" != "method" && "error" != "method" && "result" != "id" && "error" != "id" by {
      assert |"id"| == 2 && |"method"| == 6 && |"params"| == 6 && |"result"| == 6 && |"error"| == 5;
      assert "method"[0] == 'm' && "params"[0] == 'p' && "result"[0] == 'r';
    }
    forall key ensures LookupField([a, b], key) == if key == "method" then Some(a.1) else if key == "id" then Some(b.1) else None {
      assert [a, b][1..] == [b] && [b][1..] == [];
    }
    forall key ensures LookupField([a], key) == if key == "method" then Some(a.1) else None {
      assert [a][1..] == [];
    }
    hide LookupField;
  }

  // ------------------------------------------------------------------------ messages sent

  function Request(name: string, params: Obj, id: int): Obj {
    Object([("jsonrpc", Str("2.0")), ("method", Str(CString(name))), ("params", params), ("id", Int(id))])
  }

  function ReplyTo(id: int, result: Option<Obj>): Obj {
    Object([("jsonrpc", Str("2.0")), ("result", if result.Some? then result.value else Null), ("id", Int(id))])
  }

  function ErrorTo(id: int, e: Error): Obj {
    Object([("jsonrpc", Str("2.0")), ("error", Object([("code", Int(e.code)), ("message", Str(CString(e.message)))])), ("id", Int(id))])
  }

  // ------------------------------------------------------------------------ dispatch

  datatype Req = Req(id: int, name: string, params: Option<Obj>)

  /** What a provider's handler returns: -1, 1 with the error set, or 0 with the result set or not. */
  datatype Handled = Declined | Failed(err: Error) | Done(result: Option<Obj>)

  type Provider = Req -> Handled

  function RequestOf(o: Obj): Req
    requires IsRequest(o)
  {
    Req(ToInt(Lookup(o, "id")), CString(Lookup(o, "method").value.s), Lookup(o, "params"))
  }

  /** The first provider that does not decline. */
  function Dispatch(providers: seq<Provider>, r: Req): Handled {
    if providers == [] then Declined
    else if providers[0](r).Declined? then Dispatch(providers[1..], r)
    else providers[0](r)
  }

  function Answer(h: Handled, id: int): seq<Obj> {
    if id == 0 then []
    else match h
      case Declined => [ErrorTo(id, NO_SUCH_METHOD)]
      case Failed(e) => [ErrorTo(id, e)]
      case Done(result) => [ReplyTo(id, result)]
  }

  /** The messages `processMessage` sends for one inbound message. */
  function Respond(providers: seq<Provider>, o: Obj): seq<Obj> {
    if ResponseId(o) != 0 || !IsRequest(o) || !IdIsInteger(o) then []
    else Answer(Dispatch(providers, RequestOf(o)), RequestOf(o).id)
  }

  function RespondAll(providers: seq<Provider>, os: seq<Obj>): seq<Obj> {
    if os == [] then [] else Respond(providers, os[0]) + RespondAll(providers, os[1..])
  }

  // ------------------------------------------------------------------------ reply discipline

  /** A message that is owed a response: a request with a nonzero integer id. */
  predicate NeedsReply(o: Obj) {
    ResponseId(o) == 0 && IsRequest(o) && Lookup(o, "id").Some? && Lookup(o, "id").value.Int? && ToInt(Lookup(o, "id")) != 0
  }

  function Owed(os: seq<Obj>): seq<int> {
    if os == [] then []
    else (if NeedsReply(os[0]) then [ToInt(Lookup(os[0], "id"))] else []) + Owed(os[1..])
  }

  function IdsAnswered(out: seq<Obj>): (ids: seq<int>)
    ensures |ids| == |out| && forall i :: 0 <= i < |out| ==> ids[i] == ResponseId(out[i])
  {
    seq(|out|, i requires 0 <= i < |out| => ResponseId(out[i]))
  }

  lemma LookupAmongThree(a: (string, Obj), b: (string, Obj), c: (string, Obj), key: string)
    ensures LookupField([a, b, c], key) ==
      if a.0 == key then Some(a.1) else if b.0 == key then Some(b.1) else if c.0 == key then Some(c.1) else None
  {
    assert [a, b, c][1..] == [b, c] && [b, c][1..] == [c] && [c][1..] == [];
    assert LookupField([c], key) == if c.0 == key then Some(c.1) else None;
    assert LookupField([b, c], key) == if b.0 == key then Some(b.1) else LookupField([c], key);
  }

  /** The member names that tell messages apart are all different. */
  lemma NamesDiffer()
    ensures "id" != "error" && "id" != "result" && "id" != "jsonrpc" && "error" != "result"
    ensures "error" != "jsonrpc" && "result" != "jsonrpc"
  {
    assert |"id"| == 2 && |"error"| == 5 && |"result"| == 6 && |"jsonrpc"| == 7;
  }

  /** A reply is classified as the response to the id it carries. */
  lemma ReplyIsResponse(id: int, result: Option<Obj>)
    ensures var o := ReplyTo(id, result);
      && ResponseId(o) == ToInt32(id)
      && Lookup(o, "result") == Some(if result.Some? then result.value else Null)
      && Lookup(o, "error") == None
  {
    var a, b, c := ("jsonrpc", Str("2.0")), ("result", if result.Some? then result.value else Null), ("id", Int(id));
    NamesDiffer();
    LookupAmongThree(a, b, c, "id");
    LookupAmongThree(a, b, c, "result");
    LookupAmongThree(a, b, c, "error");
    hide LookupField;
  }

  /** So is an error. */
  lemma ErrorIsResponse(id: int, e: Error)
    ensures var o := ErrorTo(id, e);
      && ResponseId(o) == ToInt32(id)
      && Lookup(o, "error") == Some(Object([("code", Int(e.code)), ("message", Str(CString(e.message)))]))
      && Lookup(o, "result") == None
  {
    var a, b, c := ("jsonrpc", Str("2.0")), ("error", Object([("code", Int(e.code)), ("message", Str(CString(e.message)))])), ("id", Int(id));
    NamesDiffer();
    LookupAmongThree(a, b, c, "id");
    LookupAmongThree(a, b, c, "result");
    LookupAmongThree(a, b, c, "error");
    hide LookupField;
  }

  lemma AnswerIsResponse(h: Handled, id: int)
    requires IsInt32(id) && id != 0
    ensures |Answer(h, id)| == 1 && ResponseId(Answer(h, id)[0]) == id
  {
    match h
    case Declined => ErrorIsResponse(id, NO_SUCH_METHOD);
    case Failed(e) => ErrorIsResponse(id, e);
    case Done(result) => ReplyIsResponse(id, result);
  }

  lemma OneResponse(providers: seq<Provider>, o: Obj)
    ensures IdsAnswered(Respond(providers, o)) == if NeedsReply(o) then [ToInt(Lookup(o, "id"))] else []
  {
    if NeedsReply(o) {
      AnswerIsResponse(Dispatch(providers, RequestOf(o)), RequestOf(o).id);
      hide ResponseId, Answer, Dispatch;
    } else {
      hide ResponseId, Dispatch;
    }
  }

  /** For every stream of inbound messages and handlers that do not wait for replies themselves, the
      responses sent answer the requests that have a nonzero integer id, one each, in order, and nothing
      else is sent. `NestedRpc` has the order of answers for handlers that do wait. */
  lemma {:induction false} ReplyDiscipline(providers: seq<Provider>, os: seq<Obj>)
    ensures IdsAnswered(RespondAll(providers, os)) == Owed(os)
  {
    hide Respond, ResponseId, NeedsReply;
    if os != [] {
      ReplyDiscipline(providers, os[1..]);
      OneResponse(providers, os[0]);
      var a, b := Respond(providers, os[0]), RespondAll(providers, os[1..]);
      assert IdsAnswered(a + b) == IdsAnswered(a) + IdsAnswered(b);
    }
  }

  /** The answer comes from the first provider that does not decline, whatever the others would say;
      if all decline it is the method-not-found error. */
  lemma {:induction false} FirstAcceptingProvider(providers: seq<Provider>, r: Req)
    ensures Dispatch(providers, r).Declined? <==> forall i :: 0 <= i < |providers| ==> providers[i](r).Declined?
    ensures forall k ::
      (0 <= k < |providers| && !providers[k](r).Declined? && forall i :: 0 <= i < k ==> providers[i](r).Declined?) ==>
      Dispatch(providers, r) == providers[k](r)
  {
    if providers != [] {
      FirstAcceptingProvider(providers[1..], r);
      assert forall i :: 0 <= i < |providers[1..]| ==> providers[1..][i] == providers[i + 1];
      if providers[0](r).Declined? {
        forall k | 0 <= k < |providers| && !providers[k](r).Declined? && (forall i :: 0 <= i < k ==> providers[i](r).Declined?)
          ensures Dispatch(providers, r) == providers[k](r)
        {
          assert providers[1..][k - 1] == providers[k];
          assert forall i :: 0 <= i < k - 1 ==> providers[1..][i](r).Declined?;
        }
      }
    }
  }

  /** What a response says, read as its receiver reads it. */
  ghost predicate Carries(o: Obj, h: Handled) {
    match h
    case Declined => Lookup(o, "result").None? && Lookup(o, "error").Some? && ToInt(Lookup(Lookup(o, "error").value, "code")) == -32601
    case Failed(e) => Lookup(o, "result").None? && Lookup(o, "error") == Some(Object([("code", Int(e.code)), ("message", Str(CString(e.message)))]))
    case Done(result) => Lookup(o, "error").None? && Lookup(o, "result") == Some(if result.Some? then result.value else Null)
  }

  lemma AnswerCarries(h: Handled, id: int)
    requires id != 0
    ensures |Answer(h, id)| == 1 && Carries(Answer(h, id)[0], h)
  {
    match h
    case Declined =>
      ErrorIsResponse(id, NO_SUCH_METHOD);
      var e := [("code", Int(-32601)), ("message", Str(CString(NO_SUCH_METHOD.message)))];
      assert LookupField(e, "code") == Some(Int(-32601));
      hide CString, LookupField, ErrorTo;
    case Failed(e) => ErrorIsResponse(id, e); hide CString, LookupField, ErrorTo;
    case Done(result) => ReplyIsResponse(id, result); hide LookupField, ReplyTo;
  }

  /** The one response to a request carries the error or the result of the first provider that does not
      decline, and error -32601 if all of them do. */
  lemma ResponseCarriesFirstAnswer(providers: seq<Provider>, o: Obj, k: nat)
    requires NeedsReply(o) && k <= |providers|
    requires forall i :: 0 <= i < k ==> providers[i](RequestOf(o)).Declined?
    requires k < |providers| ==> !providers[k](RequestOf(o)).Declined?
    ensures var out := Respond(providers, o);
      |out| == 1 && Carries(out[0], if k < |providers| then providers[k](RequestOf(o)) else Declined)
  {
    var r := RequestOf(o);
    FirstAcceptingProvider(providers, r);
    AnswerCarries(Dispatch(providers, r), r.id);
    hide Dispatch, Answer, Carries, ResponseId;
  }
}
