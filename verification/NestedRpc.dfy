/** Nested synchronous RPC: a stack of `awaitReply` frames that share one `received` queue.

    The control stack alternates between frames that wait for a reply and frames that run
    application code (a request handler or a completion's delegate). The empty stack is the
    program's own event loop. What a handler does is left to the environment: any run of events
    that the stack permits is considered. */
module NestedRpc {
  import opened Ucl
  import opened Completions

  /** `AsWritten` is the code; `AsDocumented` is what the header promises of `awaitReply`:
      look at the queue before polling, return as soon as the reply is there, and report
      a malformed message as a failure. */
  datatype Build = AsWritten | AsDocumented

  datatype Reply = Reply(id: int, obj: Obj)

  datatype Message =
    | Response(reply: Reply)
    | Request(id: int)      // id 0: a notification
    | Junk                  // neither request nor response
    | Malformed             // does not parse

  datatype Frame =
    | Waiting(id: int)      // an `awaitReply` for this completion
    | Running(request: int, arrival: nat) // application code; a nonzero request is answered when it returns

  /** What made one `awaitReply` return. */
  datatype Ending = OwnReply | FromQueue | BadMessage | NoReply

  /** How one `awaitReply` ended: its return value and what its completion holds, next to the replies to its
      id read from the wire by then, those of them given to `completeWith`, and whether one was ever queued. */
  datatype Outcome = Outcome(id: int, how: Ending, ok: bool, comp: Completion, arrived: seq<Reply>, taken: seq<Reply>, wasQueued: bool)

  /** The k-th request with a nonzero id was read from the wire; it was answered. */
  datatype Mark = Asked(k: nat) | Answered(k: nat)

  datatype State = State(
    stack: seq<Frame>,
    received: seq<Reply>,        // the queue shared by all frames
    asyncs: set<int>,            // ids of completions with a delegate
    issued: set<int>,            // ids given out by `sendMessage`
    waited: set<int>,            // ids whose wait has begun
    ended: set<int>,             // ids whose wait has ended
    held: map<int, Completion>,  // what completions hold
    outcomes: seq<Outcome>,      // history: waits that ended
    heard: seq<Reply>,           // history: replies read from the wire
    queued: set<int>,            // history: ids of replies that were ever put in `received`
    completed: seq<Reply>,       // history: replies given to `completeWith`
    asked: seq<int>,             // history: nonzero request ids read from the wire
    log: seq<Mark>)              // history: when requests were read and answered

  const INITIAL := State([], [], {}, {}, {}, {}, map[], [], [], {}, [], [], [])

  datatype Event =
    | Send(id: int, delegate: bool)  // `sendMessage`
    | Wait(id: int)                  // `WSRPCCompletion::wait`
    | Hear(msg: Message)             // a whole message read from the socket
    | Return                         // application code returns to `processMessage`
    | GiveUp                         // timeout, hangup or poll error in the innermost wait

  function Top(s: State): Frame
    requires s.stack != []
  {
    s.stack[|s.stack| - 1]
  }

  function Pop(s: State): State
    requires s.stack != []
  {
    s.(stack := s.stack[..|s.stack| - 1])
  }

  function Push(s: State, f: Frame): State {
    s.(stack := s.stack + [f])
  }

  predicate TopWaits(s: State) { s.stack != [] && Top(s).Waiting? }

  predicate TopRuns(s: State) { s.stack != [] && Top(s).Running? }

  predicate Enabled(s: State, e: Event) {
    match e
    case Send(id, _) => !TopWaits(s) && id != 0 && id !in s.issued
    case Wait(id) => !TopWaits(s) && id in s.issued && id !in s.asyncs && id !in s.waited
    case Hear(_) => !TopRuns(s)
    case Return => TopRuns(s)
    case GiveUp => TopWaits(s)
  }

  function Matching(q: seq<Reply>, id: int): seq<Reply> {
    if q == [] then []
    else (if q[0].id == id then [q[0]] else []) + Matching(q[1..], id)
  }

  function Others(q: seq<Reply>, id: int): seq<Reply> {
    if q == [] then []
    else (if q[0].id != id then [q[0]] else []) + Others(q[1..], id)
  }

  /** What the completion of this id holds. */
  function HeldBy(held: map<int, Completion>, id: int): Completion {
    if id in held then held[id] else FRESH
  }

  function Objects(rs: seq<Reply>): (os: seq<Obj>)
    ensures |os| == |rs| && forall i :: 0 <= i < |os| ==> os[i] == rs[i].obj
  {
    seq(|rs|, i requires 0 <= i < |rs| => rs[i].obj)
  }

  /** What a completion holds that was given these replies. */
  function Completed(rs: seq<Reply>): Completion { CompleteEach(FRESH, Objects(rs)) }

  /** The value `awaitReply` returns: -1, which is true, for a malformed message. */
  predicate Verdict(b: Build, how: Ending) {
    how.OwnReply? || how.FromQueue? || (how.BadMessage? && b.AsWritten?)
  }

  /** What the wait for `id` reports if it ends now. */
  function Report(b: Build, s: State, id: int, how: Ending): Outcome {
    Outcome(id, how, Verdict(b, how), HeldBy(s.held, id), Matching(s.heard, id), Matching(s.completed, id), id in s.queued)
  }

  /** The innermost wait returns to its caller. */
  function Finish(b: Build, s: State, how: Ending): State
    requires TopWaits(s)
  {
    var id := Top(s).id;
    Pop(s).(outcomes := s.outcomes + [Report(b, s, id, how)], ended := s.ended + {id})
  }

  /** `completeWith` on the completion of this id, for each reply in turn. */
  function CompleteAll(s: State, id: int, rs: seq<Reply>): State
    requires rs != []
  {
    s.(completed := s.completed + rs, held := s.held[id := CompleteEach(HeldBy(s.held, id), Objects(rs))])
  }

  /** A reply read from the wire goes straight to its completion. */
  function Deliver(s: State, r: Reply): State {
    CompleteAll(s.(heard := s.heard + [r]), r.id, [r])
  }

  /** A reply read from the wire that nobody can take yet joins the queue. */
  function Enqueue(s: State, r: Reply): State {
    s.(heard := s.heard + [r], received := s.received + [r], queued := s.queued + {r.id})
  }

  /** The innermost wait takes its replies out of the queue. */
  function TakeMatching(s: State): State
    requires TopWaits(s) && Matching(s.received, Top(s).id) != []
  {
    var id := Top(s).id;
    CompleteAll(s, id, Matching(s.received, id)).(received := Others(s.received, id))
  }

  /** The scan of `received` after a message has been processed. */
  function Scan(b: Build, s: State): State {
    if !TopWaits(s) || Matching(s.received, Top(s).id) == [] then s
    else if b.AsDocumented? then Finish(b, TakeMatching(s), FromQueue)
    else TakeMatching(s)
  }

  /** `sendMessage` gives out a new id. */
  function Issue(s: State, id: int, delegate: bool): State {
    s.(issued := s.issued + {id}, asyncs := if delegate then s.asyncs + {id} else s.asyncs)
  }

  /** `awaitReply` is called. */
  function Enter(s: State, id: int): State {
    Push(s.(waited := s.waited + {id}), Waiting(id))
  }

  /** What a frame owes when it returns, as the number of a request: nothing for a wait, a delegate or a
      notification. */
  function Owed(f: Frame): seq<nat> {
    if f.Running? && f.request != 0 then [f.arrival] else []
  }

  /** A request's handler is called. */
  function Serve(s: State, id: int): State {
    if id == 0 then Push(s, Running(0, 0))
    else Push(s.(asked := s.asked + [id], log := s.log + [Asked(|s.asked|)]), Running(id, |s.asked|))
  }

  /** Application code returns; a request with a nonzero id is answered. */
  function Leave(s: State): State
    requires TopRuns(s)
  {
    var f := Top(s);
    if f.request == 0 then Pop(s) else Pop(s).(log := s.log + [Answered(f.arrival)])
  }

  /** What the innermost wait's poll does before anything is read: the timeout is written to its completion. */
  function Polled(s: State): State {
    if TopWaits(s) then s.(held := s.held[Top(s).id := HeldBy(s.held, Top(s).id).(err := TIMEOUT)]) else s
  }

  /** One message, read either by the event loop or by the innermost wait. */
  function OnMessage(b: Build, s: State, m: Message): State
    requires !TopRuns(s)
  {
    match m
    case Response(r) =>
      if TopWaits(s) && r.id == Top(s).id then Finish(b, Deliver(s, r), OwnReply)
      else if r.id in s.asyncs then Push(Deliver(s, r), Running(0, 0))
      else Scan(b, Enqueue(s, r))
    case Request(id) => Serve(s, id)
    case Junk => Scan(b, s)
    case Malformed => if TopWaits(s) then Finish(b, s, BadMessage) else s
  }

  function Apply(b: Build, s: State, e: Event): State
    requires Enabled(s, e)
  {
    match e
    case Send(id, delegate) => Issue(s, id, delegate)
    case Wait(id) => if b.AsDocumented? then Scan(b, Enter(s, id)) else Enter(s, id)
    case Hear(m) => OnMessage(b, Polled(s), m)
    case Return => Scan(b, Leave(s))
    case GiveUp => Finish(b, Polled(s), NoReply)
  }

  ghost predicate Possible(b: Build, s: State, es: seq<Event>)
    decreases es
  {
    es == [] || (Enabled(s, es[0]) && Possible(b, Apply(b, s, es[0]), es[1..]))
  }

  ghost function Run(b: Build, s: State, es: seq<Event>): State
    requires Possible(b, s, es)
    decreases es
  {
    if es == [] then s else Run(b, Apply(b, s, es[0]), es[1..])
  }

  // ------------------------------------------------------------------------ the invariant

  /** The requests being served, the innermost last. */
  function Serving(stack: seq<Frame>): seq<nat> {
    if stack == [] then [] else Serving(stack[..|stack| - 1]) + Owed(stack[|stack| - 1])
  }

  /** The log read as brackets: the requests that are open, the innermost last; none if an answer is not to
      the innermost open request. */
  function Open(log: seq<Mark>): Option<seq<nat>> {
    if log == [] then Some([])
    else
      var o, m := Open(log[..|log| - 1]), log[|log| - 1];
      if o.None? then None
      else match m
        case Asked(k) => Some(o.value + [k])
        case Answered(k) => if o.value != [] && o.value[|o.value| - 1] == k then Some(o.value[..|o.value| - 1]) else None
  }

  /** Requests in the order they were read. */
  function Asks(log: seq<Mark>): seq<nat> {
    if log == [] then [] else Asks(log[..|log| - 1]) + (if log[|log| - 1].Asked? then [log[|log| - 1].k] else [])
  }

  /** Requests in the order they were answered. */
  function Answers(log: seq<Mark>): seq<nat> {
    if log == [] then [] else Answers(log[..|log| - 1]) + (if log[|log| - 1].Answered? then [log[|log| - 1].k] else [])
  }

  function UpTo(n: nat): (r: seq<nat>)
    ensures |r| == n && forall i :: 0 <= i < n ==> r[i] == i
  {
    seq(n, i => i)
  }

  /** Nothing lost, nothing twice: a reply read from the wire is queued or was given to `completeWith`. */
  ghost predicate Conserved(s: State) {
    multiset(s.heard) == multiset(s.received) + multiset(s.completed)
  }

  /** `n` requests have been read, they open and close like brackets, and those open are being served. */
  ghost predicate Nested(log: seq<Mark>, stack: seq<Frame>, n: nat) {
    Open(log) == Some(Serving(stack)) && Asks(log) == UpTo(n)
  }

  /** A frame that owes an answer owes it to a request of its id. */
  ghost predicate Addressed(stack: seq<Frame>, asked: seq<int>) {
    forall i :: 0 <= i < |stack| && stack[i].Running? && stack[i].request != 0 ==>
      stack[i].arrival < |asked| && asked[stack[i].arrival] == stack[i].request
  }

  ghost predicate Bracketed(s: State) {
    Nested(s.log, s.stack, |s.asked|) && Addressed(s.stack, s.asked)
  }

  /** A wait on the stack has begun, has not ended and is the only one for its id;
      between two waits there is application code. */
  ghost predicate Shape(s: State) {
    && (forall i :: 0 <= i < |s.stack| && s.stack[i].Waiting? ==> s.stack[i].id in s.waited && s.stack[i].id !in s.ended)
    && (forall i, j :: 0 <= i < j < |s.stack| && s.stack[i].Waiting? && s.stack[j].Waiting? ==> s.stack[i].id != s.stack[j].id)
    && (forall i :: 0 < i < |s.stack| && s.stack[i].Waiting? ==> s.stack[i - 1].Running?)
    && s.ended <= s.waited
    && s.waited !! s.asyncs
    && s.waited + s.asyncs <= s.issued
  }

  /** Where the replies went that are not in the queue; `open` is an id about to be settled. */
  ghost predicate Accounted(b: Build, s: State, open: Option<int>) {
    && (forall r :: r in s.heard ==> r.id in s.queued || r.id in s.asyncs || r.id in s.ended || open == Some(r.id))
    && (forall id :: id in s.queued ==> Matching(s.heard, id) != [])
    && (forall r :: r in s.completed ==> r.id in s.waited || r.id in s.asyncs || open == Some(r.id))
    && (b.AsDocumented? ==> forall r :: r in s.completed ==> r.id in s.asyncs || r.id in s.ended || open == Some(r.id))
  }

  /** The result in a completion is what the replies given to it left there. */
  ghost predicate Recorded(held: map<int, Completion>, completed: seq<Reply>) {
    forall id :: HeldBy(held, id).result == Completed(Matching(completed, id)).result
  }

  /** The header's promise for one call: true is returned exactly when a reply arrived, and the completion
      then is completed: it holds exactly what the replies given to it say. */
  predicate KeepsPromise(o: Outcome) {
    && (o.ok <==> o.arrived != [])
    && (o.ok ==> o.taken != [] && o.comp == Completed(o.taken))
  }

  /** A reply that is itself the error that `awaitReply` writes after a poll. */
  predicate SaysTimeout(r: Reply) { CompleteWith(r.obj).err == TIMEOUT }

  /** When the code keeps the promise: always if the wait read its reply itself; on a timeout, if no reply
      was ever queued; on a malformed message never, but for a reply that says no more than the timeout. */
  predicate Lucky(o: Outcome) {
    match o.how
    case OwnReply => true
    case FromQueue => true
    case NoReply => !o.wasQueued
    case BadMessage => o.taken != [] && SaysTimeout(o.taken[|o.taken| - 1])
  }

  /** What each build achieves for one call. */
  predicate Good(b: Build, o: Outcome) {
    && multiset(o.taken) <= multiset(o.arrived)
    && o.comp.result == Completed(o.taken).result
    && (o.how.NoReply? || o.how.BadMessage? ==> o.comp.err == TIMEOUT)
    && o.ok == Verdict(b, o.how)
    && match b
       case AsDocumented => KeepsPromise(o)
       case AsWritten => KeepsPromise(o) <==> Lucky(o)
  }

  ghost predicate AllGood(b: Build, os: seq<Outcome>) { forall o :: o in os ==> Good(b, o) }

  ghost predicate CoreBut(b: Build, s: State, open: Option<int>) {
    && Conserved(s) && Bracketed(s) && Shape(s) && Accounted(b, s, open) && Recorded(s.held, s.completed)
    && AllGood(b, s.outcomes)
  }

  ghost predicate Core(b: Build, s: State) { CoreBut(b, s, None) }

  /** In the documented build the innermost wait has nothing waiting for it in the queue. */
  ghost predicate Settled(b: Build, s: State) {
    b.AsDocumented? && TopWaits(s) ==> Matching(s.received, Top(s).id) == []
  }

  ghost predicate Inv(b: Build, s: State) { Core(b, s) && Settled(b, s) }

  // ------------------------------------------------------------------------ queue lemmas

  lemma {:induction false} SplitQueue(q: seq<Reply>, id: int)
    ensures multiset(q) == multiset(Matching(q, id)) + multiset(Others(q, id))
    ensures forall r :: r in Matching(q, id) <==> r in q && r.id == id
    ensures forall r :: r in Others(q, id) <==> r in q && r.id != id
  {
    if q != [] {
      SplitQueue(q[1..], id);
      assert q == [q[0]] + q[1..];
    }
  }

  lemma {:induction false} MatchingAppend(q: seq<Reply>, r: Reply, id: int)
    ensures Matching(q + [r], id) == Matching(q, id) + (if r.id == id then [r] else [])
  {
    if q == [] {
      assert q + [r] == [r];
    } else {
      assert (q + [r])[1..] == q[1..] + [r];
      MatchingAppend(q[1..], r, id);
      var first := if q[0].id == id then [q[0]] else [];
      var last := if r.id == id then [r] else [];
      assert Matching(q + [r], id) == first + Matching(q[1..] + [r], id);
      assert Matching(q, id) == first + Matching(q[1..], id);
      hide Matching;
      Regroup(first, Matching(q[1..], id), last);
    }
  }

  lemma PushedThenPopped(s: State, f: Frame)
    ensures Top(Push(s, f)) == f && Pop(Push(s, f)) == s
  {
    assert Push(s, f).stack[..|s.stack|] == s.stack;
  }

  lemma InHeard(s: State, r: Reply)
    requires Conserved(s)
    ensures r in s.heard <==> r in s.received || r in s.completed
  {
    assert r in s.heard <==> r in multiset(s.heard);
  }

  lemma OpenIsWeaker(b: Build, s: State, id: int)
    requires Core(b, s)
    ensures CoreBut(b, s, Some(id))
  {
  }

  // ------------------------------------------------------------------------ brackets

  lemma LogAppend(log: seq<Mark>, m: Mark)
    requires Open(log).Some?
    ensures Asks(log + [m]) == Asks(log) + (if m.Asked? then [m.k] else [])
    ensures m.Asked? ==> Open(log + [m]) == Some(Open(log).value + [m.k])
    ensures m.Answered? && Open(log).value != [] && Open(log).value[|Open(log).value| - 1] == m.k ==>
      Open(log + [m]) == Some(Open(log).value[..|Open(log).value| - 1])
  {
    assert (log + [m])[..|log|] == log && (log + [m])[|log|] == m;
  }

  lemma ServingPush(stack: seq<Frame>, f: Frame)
    ensures Serving(stack + [f]) == Serving(stack) + Owed(f)
    ensures Owed(f) == [] ==> Serving(stack + [f]) == Serving(stack)
  {
    assert (stack + [f])[..|stack|] == stack && (stack + [f])[|stack|] == f;
  }

  lemma NestAsk(log: seq<Mark>, stack: seq<Frame>, n: nat, id: int)
    requires Nested(log, stack, n) && id != 0
    ensures Nested(log + [Asked(n)], stack + [Running(id, n)], n + 1)
  {
    ServingPush(stack, Running(id, n));
    LogAppend(log, Asked(n));
    assert UpTo(n + 1) == UpTo(n) + [n];
    hide Open, Asks, Serving, UpTo;
  }

  lemma NestAnswer(log: seq<Mark>, stack: seq<Frame>, f: Frame, n: nat)
    requires Nested(log, stack + [f], n) && f.Running? && f.request != 0
    ensures Nested(log + [Answered(f.arrival)], stack, n)
  {
    ServingPush(stack, f);
    LogAppend(log, Answered(f.arrival));
    var o := Serving(stack);
    hide Open, Asks, Serving, UpTo;
    assert (o + [f.arrival])[..|o|] == o;
  }

  lemma NestSilent(log: seq<Mark>, stack: seq<Frame>, f: Frame, n: nat)
    requires Owed(f) == []
    ensures Nested(log, stack + [f], n) <==> Nested(log, stack, n)
  {
    ServingPush(stack, f);
    hide Open, Asks, Serving;
  }

  lemma AddressedSilent(stack: seq<Frame>, f: Frame, asked: seq<int>)
    requires Owed(f) == []
    ensures Addressed(stack + [f], asked) <==> Addressed(stack, asked)
  {
    assert forall i :: 0 <= i < |stack| ==> (stack + [f])[i] == stack[i];
  }

  lemma AddressedAsk(stack: seq<Frame>, asked: seq<int>, id: int)
    requires Addressed(stack, asked)
    ensures Addressed(stack + [Running(id, |asked|)], asked + [id])
  {
  }

  lemma ServeBrackets(s: State, id: int)
    requires Bracketed(s)
    ensures Bracketed(Serve(s, id))
  {
    hide Nested, Addressed;
    if id == 0 {
      NestSilent(s.log, s.stack, Running(0, 0), |s.asked|);
      AddressedSilent(s.stack, Running(0, 0), s.asked);
    } else {
      NestAsk(s.log, s.stack, |s.asked|, id);
      AddressedAsk(s.stack, s.asked, id);
    }
  }

  lemma LeaveBrackets(s: State)
    requires Bracketed(s) && TopRuns(s)
    ensures Bracketed(Leave(s))
  {
    var f, below := Top(s), s.stack[..|s.stack| - 1];
    assert s.stack == below + [f];
    if f.request == 0 { NestSilent(s.log, below, f, |s.asked|); } else { NestAnswer(s.log, below, f, |s.asked|); }
    hide Nested;
  }

  /** A wait begins or ends: nothing changes for the requests. */
  lemma WaitBrackets(s: State, t: State, id: int)
    requires Bracketed(s) && t.asked == s.asked && t.log == s.log
    requires t.stack == s.stack || t.stack == s.stack + [Waiting(id)] || t.stack + [Waiting(id)] == s.stack
    ensures Bracketed(t)
  {
    hide Nested, Addressed;
    if t.stack == s.stack + [Waiting(id)] {
      NestSilent(s.log, s.stack, Waiting(id), |s.asked|);
      AddressedSilent(s.stack, Waiting(id), s.asked);
    } else if t.stack + [Waiting(id)] == s.stack {
      NestSilent(s.log, t.stack, Waiting(id), |s.asked|);
      AddressedSilent(t.stack, Waiting(id), s.asked);
    }
  }

  // ------------------------------------------------------------------------ what completions hold

  lemma {:induction false} MatchingConcat(a: seq<Reply>, rs: seq<Reply>, id: int)
    ensures Matching(a + rs, id) == Matching(a, id) + Matching(rs, id)
  {
    if rs == [] {
      assert a + rs == a;
    } else {
      var front, last := rs[..|rs| - 1], rs[|rs| - 1];
      MatchingConcat(a, front, id);
      MatchingAppend(a + front, last, id);
      MatchingAppend(front, last, id);
      assert a + rs == a + front + [last] && rs == front + [last];
      hide Matching;
    }
  }

  lemma {:induction false} AllMatch(rs: seq<Reply>, id: int, other: int)
    requires forall r :: r in rs ==> r.id == id
    ensures Matching(rs, other) == if other == id then rs else []
  {
    if rs != [] {
      assert rs[0] in rs && rs == [rs[0]] + rs[1..];
      AllMatch(rs[1..], id, other);
    }
  }

  lemma CompletedMore(a: seq<Reply>, rs: seq<Reply>)
    ensures Completed(a + rs) == CompleteEach(Completed(a), Objects(rs))
  {
    assert Objects(a + rs) == Objects(a) + Objects(rs);
    hide CompleteEach, Objects;
    CompleteMore(FRESH, Objects(a), Objects(rs));
  }

  lemma MatchingMore(a: seq<Reply>, rs: seq<Reply>, id: int, other: int)
    requires forall r :: r in rs ==> r.id == id
    ensures Matching(a + rs, other) == if other == id then Matching(a, id) + rs else Matching(a, other)
  {
    MatchingConcat(a, rs, other);
    AllMatch(rs, id, other);
    hide Matching;
    assert Matching(a, other) + [] == Matching(a, other);
  }

  lemma RecordedUpdate(held: map<int, Completion>, completed: seq<Reply>, id: int, c: Completion, more: seq<Reply>)
    requires Recorded(held, completed) && c.result == Completed(Matching(more, id)).result
    requires forall other :: other != id ==> Matching(more, other) == Matching(completed, other)
    ensures Recorded(held[id := c], more)
  {
    hide Matching, Completed;
  }

  /** Giving replies to a completion records them, and makes it hold exactly what they say. */
  lemma CompletingRecords(held: map<int, Completion>, completed: seq<Reply>, id: int, rs: seq<Reply>)
    requires Recorded(held, completed) && rs != [] && forall r :: r in rs ==> r.id == id
    ensures var c := CompleteEach(HeldBy(held, id), Objects(rs));
      && Recorded(held[id := c], completed + rs)
      && Matching(completed + rs, id) == Matching(completed, id) + rs
      && c == Completed(Matching(completed + rs, id))
  {
    var c, before := CompleteEach(HeldBy(held, id), Objects(rs)), Completed(Matching(completed, id));
    forall other ensures Matching(completed + rs, other) == if other == id then Matching(completed, id) + rs else Matching(completed, other) {
      MatchingMore(completed, rs, id, other);
    }
    CompletedMore(Matching(completed, id), rs);
    OnlyResultShows(HeldBy(held, id), before, Objects(rs));
    hide Matching, Completed, CompleteEach, HeldBy, Recorded;
    RecordedUpdate(held, completed, id, c, completed + rs);
  }

  lemma PollingRecords(held: map<int, Completion>, completed: seq<Reply>, id: int)
    requires Recorded(held, completed)
    ensures Recorded(held[id := HeldBy(held, id).(err := TIMEOUT)], completed)
  {
    hide Matching, Completed;
  }

  lemma {:induction false} MatchingCount(q: seq<Reply>, id: int, r: Reply)
    ensures multiset(Matching(q, id))[r] == if r.id == id then multiset(q)[r] else 0
  {
    if q != [] {
      MatchingCount(q[1..], id, r);
      assert q == [q[0]] + q[1..];
    }
  }

  /** What a completion was given had arrived. */
  lemma TakenArrived(s: State, id: int)
    requires Conserved(s)
    ensures multiset(Matching(s.completed, id)) <= multiset(Matching(s.heard, id))
  {
    forall r ensures multiset(Matching(s.completed, id))[r] <= multiset(Matching(s.heard, id))[r] {
      MatchingCount(s.completed, id, r);
      MatchingCount(s.heard, id, r);
    }
    hide Matching;
  }

  // ------------------------------------------------------------------------ every step keeps it

  lemma IssueKeeps(b: Build, s: State, id: int, delegate: bool)
    requires Core(b, s) && id !in s.issued && !TopWaits(s)
    ensures Inv(b, Issue(s, id, delegate))
  {
    WaitBrackets(s, Issue(s, id, delegate), id);
    hide Bracketed, AllGood, Matching, Recorded;
  }

  lemma EnterKeeps(b: Build, s: State, id: int)
    requires Core(b, s) && Enabled(s, Wait(id))
    ensures Core(b, Enter(s, id)) && (b.AsWritten? ==> Inv(b, Enter(s, id)))
  {
    PushedThenPopped(s.(waited := s.waited + {id}), Waiting(id));
    WaitBrackets(s, Enter(s, id), id);
    hide Bracketed, AllGood, Matching, Recorded;
  }

  lemma ServeShape(s: State, id: int)
    requires Shape(s)
    ensures Shape(Serve(s, id)) && TopRuns(Serve(s, id))
  {
  }

  lemma ServeAccounts(b: Build, s: State, id: int)
    requires Accounted(b, s, None) && Conserved(s)
    ensures Accounted(b, Serve(s, id), None) && Conserved(Serve(s, id)) && Serve(s, id).outcomes == s.outcomes
    ensures Serve(s, id).held == s.held && Serve(s, id).completed == s.completed
  {
    hide Matching;
  }

  lemma ServeKeeps(b: Build, s: State, id: int)
    requires Core(b, s)
    ensures Inv(b, Serve(s, id))
  {
    ServeBrackets(s, id);
    ServeShape(s, id);
    ServeAccounts(b, s, id);
    hide Bracketed, AllGood, Matching, Conserved, Accounted, Shape, Recorded, Serve;
  }

  lemma LeaveShape(s: State)
    requires Shape(s) && TopRuns(s)
    ensures Shape(Leave(s))
  {
    assert forall i :: 0 <= i < |s.stack| - 1 ==> Leave(s).stack[i] == s.stack[i];
  }

  lemma LeaveAccounts(b: Build, s: State)
    requires Accounted(b, s, None) && Conserved(s) && TopRuns(s)
    ensures Accounted(b, Leave(s), None) && Conserved(Leave(s)) && Leave(s).outcomes == s.outcomes
    ensures Leave(s).held == s.held && Leave(s).completed == s.completed
  {
    hide Matching;
  }

  lemma LeaveKeeps(b: Build, s: State)
    requires Core(b, s) && TopRuns(s)
    ensures Core(b, Leave(s))
  {
    LeaveBrackets(s);
    LeaveShape(s);
    LeaveAccounts(b, s);
    hide Bracketed, AllGood, Matching, Conserved, Accounted, Shape, Recorded, Leave;
  }

  lemma EnqueueAccounts(b: Build, s: State, r: Reply)
    requires Accounted(b, s, None)
    ensures Accounted(b, Enqueue(s, r), None)
  {
    forall id ensures Matching(s.heard + [r], id) == Matching(s.heard, id) + (if r.id == id then [r] else []) {
      MatchingAppend(s.heard, r, id);
    }
    hide Matching;
  }

  lemma EnqueueKeeps(b: Build, s: State, r: Reply)
    requires Core(b, s)
    ensures Core(b, Enqueue(s, r))
  {
    EnqueueAccounts(b, s, r);
    WaitBrackets(s, Enqueue(s, r), 0);
    hide AllGood, Bracketed, Accounted, Recorded;
  }

  lemma DeliverConserves(s: State, r: Reply)
    requires Conserved(s)
    ensures Conserved(Deliver(s, r))
  {
  }

  lemma DeliverAccounts(b: Build, s: State, r: Reply)
    requires Accounted(b, s, None)
    ensures Accounted(b, Deliver(s, r), Some(r.id))
    ensures r.id in s.asyncs ==> Accounted(b, Deliver(s, r), None)
  {
    forall id ensures Matching(s.heard + [r], id) == Matching(s.heard, id) + (if r.id == id then [r] else []) {
      MatchingAppend(s.heard, r, id);
    }
    hide Matching;
  }

  /** The completion then holds exactly what it was given. */
  lemma DeliverRecords(s: State, r: Reply)
    requires Recorded(s.held, s.completed)
    ensures var t := Deliver(s, r);
      && Recorded(t.held, t.completed)
      && Matching(t.completed, r.id) == Matching(s.completed, r.id) + [r]
      && HeldBy(t.held, r.id) == Completed(Matching(t.completed, r.id))
  {
    CompletingRecords(s.held, s.completed, r.id, [r]);
    hide Recorded, Matching, Completed, CompleteEach;
  }

  lemma DeliverKeeps(b: Build, s: State, r: Reply)
    requires Core(b, s)
    ensures CoreBut(b, Deliver(s, r), Some(r.id))
    ensures r.id in s.asyncs ==> Core(b, Deliver(s, r))
  {
    DeliverConserves(s, r);
    DeliverAccounts(b, s, r);
    DeliverRecords(s, r);
    WaitBrackets(s, Deliver(s, r), 0);
    hide AllGood, Conserved, Accounted, Bracketed, Recorded, CompleteEach, Objects, Matching;
  }

  lemma AsyncReplyKeeps(b: Build, s: State, r: Reply)
    requires Core(b, s) && r.id in s.asyncs
    ensures Inv(b, Push(Deliver(s, r), Running(0, 0)))
  {
    DeliverKeeps(b, s, r);
    ServeKeeps(b, Deliver(s, r), 0);
    assert Serve(Deliver(s, r), 0) == Push(Deliver(s, r), Running(0, 0));
    hide CoreBut;
  }

  lemma FinishShape(b: Build, s: State, how: Ending)
    requires TopWaits(s) && Shape(s)
    ensures Shape(Finish(b, s, how)) && !TopWaits(Finish(b, s, how))
  {
    hide Report;
    assert forall i :: 0 <= i < |s.stack| - 1 ==> Finish(b, s, how).stack[i] == s.stack[i];
  }

  lemma FinishAccounts(b: Build, s: State, how: Ending)
    requires TopWaits(s) && Top(s).id in s.waited && Accounted(b, s, Some(Top(s).id)) && Conserved(s)
    ensures Accounted(b, Finish(b, s, how), None) && Conserved(Finish(b, s, how))
  {
    hide Report, Matching;
  }

  lemma AllGoodAppend(b: Build, os: seq<Outcome>, o: Outcome)
    requires AllGood(b, os) && Good(b, o)
    ensures AllGood(b, os + [o])
  {
    hide Good;
  }

  lemma FinishFields(b: Build, s: State, how: Ending)
    requires TopWaits(s)
    ensures var t := Finish(b, s, how);
      && t.outcomes == s.outcomes + [Report(b, s, Top(s).id, how)] && t.stack + [Waiting(Top(s).id)] == s.stack
      && t.held == s.held && t.completed == s.completed && t.asked == s.asked && t.log == s.log
  {
    hide Report;
  }

  /** Once its outcome is good, a wait may end. */
  lemma FinishKeeps(b: Build, s: State, how: Ending)
    requires TopWaits(s) && CoreBut(b, s, Some(Top(s).id)) && Good(b, Report(b, s, Top(s).id, how))
    ensures Inv(b, Finish(b, s, how))
  {
    assert Top(s).id in s.waited by { hide Good, Report, Matching, Bracketed, Conserved, Accounted, Recorded, AllGood; }
    hide Good, Report, Matching, Bracketed, Conserved, Accounted, Shape, Recorded, Finish, AllGood;
    FinishFields(b, s, how);
    WaitBrackets(s, Finish(b, s, how), Top(s).id);
    FinishShape(b, s, how);
    FinishAccounts(b, s, how);
    AllGoodAppend(b, s.outcomes, Report(b, s, Top(s).id, how));
  }

  /** The replies to an id that is still waited for: all of them went through the queue. */
  lemma UnansweredUnlessQueued(b: Build, s: State, id: int)
    requires Core(b, s) && id in s.waited && id !in s.ended
    ensures id in s.queued <==> Matching(s.heard, id) != []
  {
    SplitQueue(s.heard, id);
    if Matching(s.heard, id) != [] {
      assert Matching(s.heard, id)[0] in s.heard;
    }
  }

  /** In the documented build nothing has arrived for a wait that finds nothing in the queue. */
  lemma NothingArrived(s: State, id: int)
    requires Conserved(s) && Accounted(AsDocumented, s, None) && Matching(s.received, id) == [] && id !in s.asyncs && id !in s.ended
    ensures Matching(s.heard, id) == []
  {
    SplitQueue(s.heard, id);
    SplitQueue(s.received, id);
    if Matching(s.heard, id) != [] {
      InHeard(s, Matching(s.heard, id)[0]);
      assert false;
    }
    hide Matching, Conserved;
  }

  lemma FailedOutcome(b: Build, o: Outcome)
    requires (o.how.NoReply? || o.how.BadMessage?) && o.ok == Verdict(b, o.how)
    requires o.comp == Completion(TIMEOUT, Completed(o.taken).result) && multiset(o.taken) <= multiset(o.arrived)
    requires (o.wasQueued <==> o.arrived != []) && (b.AsDocumented? ==> o.arrived == [])
    ensures Good(b, o)
  {
    if o.taken != [] {
      LastErrorStands(FRESH, Objects(o.taken));
      assert o.taken[0] in multiset(o.taken);
    }
    hide CompleteEach, CompleteWith;
  }

  lemma FailureIsGood(b: Build, s: State, how: Ending)
    requires Inv(b, s) && TopWaits(s) && (how.NoReply? || how.BadMessage?) && HeldBy(s.held, Top(s).id).err == TIMEOUT
    ensures Good(b, Report(b, s, Top(s).id, how))
  {
    var id := Top(s).id;
    UnansweredUnlessQueued(b, s, id);
    TakenArrived(s, id);
    if b.AsDocumented? { NothingArrived(s, id); }
    assert HeldBy(s.held, id).result == Completed(Matching(s.completed, id)).result;
    hide Matching, Conserved, Bracketed, Accounted, Recorded, Completed, Good, HeldBy;
    FailedOutcome(b, Report(b, s, id, how));
  }

  lemma TakeConserves(s: State)
    requires Conserved(s) && TopWaits(s) && Matching(s.received, Top(s).id) != []
    ensures Conserved(TakeMatching(s))
  {
    SplitQueue(s.received, Top(s).id);
    hide Matching, Others;
  }

  lemma TakeAccounts(b: Build, s: State)
    requires Accounted(b, s, None) && TopWaits(s) && Top(s).id in s.waited && Matching(s.received, Top(s).id) != []
    ensures Accounted(b, TakeMatching(s), Some(Top(s).id))
    ensures b.AsWritten? ==> Accounted(b, TakeMatching(s), None)
  {
    var rs := Matching(s.received, Top(s).id);
    SplitQueue(s.received, Top(s).id);
    assert rs[|rs| - 1] in rs;
    hide Matching, Others;
  }

  lemma TakeShape(s: State)
    requires Shape(s) && TopWaits(s) && Matching(s.received, Top(s).id) != []
    ensures Shape(TakeMatching(s)) && TakeMatching(s).outcomes == s.outcomes
  {
    hide Matching, Others;
  }

  lemma TakeKeeps(b: Build, s: State)
    requires Core(b, s) && TopWaits(s) && Matching(s.received, Top(s).id) != []
    ensures CoreBut(b, TakeMatching(s), Some(Top(s).id))
    ensures b.AsWritten? ==> Core(b, TakeMatching(s))
  {
    TakeConserves(s);
    TakeAccounts(b, s);
    TakeShape(s);
    TakeRecords(s);
    assert TakeMatching(s).stack == s.stack && TakeMatching(s).log == s.log && TakeMatching(s).asked == s.asked by { hide Matching, Others; }
    WaitBrackets(s, TakeMatching(s), 0);
    hide Matching, AllGood, Conserved, Accounted, Shape, Bracketed, Recorded, TakeMatching;
  }

  lemma TakeRecords(s: State)
    requires Recorded(s.held, s.completed) && TopWaits(s) && Matching(s.received, Top(s).id) != []
    ensures var t := TakeMatching(s); var id := Top(s).id;
      && Recorded(t.held, t.completed)
      && Matching(t.completed, id) == Matching(s.completed, id) + Matching(s.received, id)
      && HeldBy(t.held, id) == Completed(Matching(t.completed, id))
  {
    SplitQueue(s.received, Top(s).id);
    CompletingRecords(s.held, s.completed, Top(s).id, Matching(s.received, Top(s).id));
    hide Recorded, Matching, Completed, CompleteEach, Others;
  }

  /** A reply taken from the queue fulfils the promise. */
  lemma TakenIsGood(s: State)
    requires Conserved(s) && Recorded(s.held, s.completed) && TopWaits(s) && Matching(s.received, Top(s).id) != []
    ensures Good(AsDocumented, Report(AsDocumented, TakeMatching(s), Top(s).id, FromQueue))
  {
    var t, id := TakeMatching(s), Top(s).id;
    TakeRecords(s);
    TakeConserves(s);
    TakenArrived(t, id);
    hide Conserved, Recorded, Matching, Completed, TakeMatching, Good, HeldBy;
    CompletedOutcome(AsDocumented, Report(AsDocumented, t, id, FromQueue));
  }

  lemma CompletedOutcome(b: Build, o: Outcome)
    requires (o.how.OwnReply? || o.how.FromQueue?) && o.ok && o.taken != [] && o.comp == Completed(o.taken)
    requires multiset(o.taken) <= multiset(o.arrived)
    ensures Good(b, o)
  {
    assert o.taken[0] in multiset(o.taken);
    hide Completed;
  }

  lemma {:induction false} NoneLeft(q: seq<Reply>, id: int)
    ensures Matching(Others(q, id), id) == []
  {
    if q != [] {
      NoneLeft(q[1..], id);
      if q[0].id == id {
        assert Others(q, id) == Others(q[1..], id);
      } else {
        assert Others(q, id)[1..] == Others(q[1..], id);
      }
    }
  }

  lemma TakingSettles(b: Build, s: State)
    requires TopWaits(s) && Matching(s.received, Top(s).id) != []
    ensures Settled(b, TakeMatching(s))
  {
    NoneLeft(s.received, Top(s).id);
    hide Matching, Others;
  }

  lemma ScanKeeps(b: Build, s: State)
    requires Core(b, s)
    ensures Inv(b, Scan(b, s))
  {
    if TopWaits(s) && Matching(s.received, Top(s).id) != [] {
      TakeKeeps(b, s);
      TakingSettles(b, s);
      if b.AsDocumented? {
        TakenIsGood(s);
        FinishKeeps(b, TakeMatching(s), FromQueue);
      }
    }
    hide CoreBut, Finish, TakeMatching, Matching, Report, Good;
  }

  lemma OwnReplyIsGood(b: Build, s: State, r: Reply)
    requires Core(b, s) && TopWaits(s) && r.id == Top(s).id
    ensures Good(b, Report(b, Deliver(s, r), r.id, OwnReply))
  {
    var t := Deliver(s, r);
    DeliverConserves(s, r);
    DeliverRecords(s, r);
    TakenArrived(t, r.id);
    hide CoreBut, Conserved, Recorded, Matching, Completed, Deliver, Good, HeldBy;
    CompletedOutcome(b, Report(b, t, r.id, OwnReply));
  }

  lemma OwnReplyKeeps(b: Build, s: State, r: Reply)
    requires Core(b, s) && TopWaits(s) && r.id == Top(s).id
    ensures Inv(b, Finish(b, Deliver(s, r), OwnReply))
  {
    OwnReplyIsGood(b, s, r);
    DeliverKeeps(b, s, r);
    FinishKeeps(b, Deliver(s, r), OwnReply);
    hide CoreBut;
  }

  lemma PolledShape(s: State)
    requires Shape(s) && Conserved(s)
    ensures Shape(Polled(s)) && Conserved(Polled(s)) && Polled(s).outcomes == s.outcomes
    ensures Polled(s).stack == s.stack && Polled(s).asyncs == s.asyncs && Polled(s).received == s.received
    ensures Polled(s).log == s.log && Polled(s).asked == s.asked
  {
  }

  lemma PolledAccounts(b: Build, s: State)
    requires Accounted(b, s, None)
    ensures Accounted(b, Polled(s), None)
  {
    hide Matching;
  }

  lemma PolledRecords(s: State)
    requires Recorded(s.held, s.completed)
    ensures Recorded(Polled(s).held, Polled(s).completed)
    ensures TopWaits(s) ==> HeldBy(Polled(s).held, Top(s).id).err == TIMEOUT
  {
    if TopWaits(s) { PollingRecords(s.held, s.completed, Top(s).id); }
    hide Recorded;
  }

  lemma PolledKeeps(b: Build, s: State)
    requires Inv(b, s)
    ensures Inv(b, Polled(s)) && Polled(s).stack == s.stack && Polled(s).asyncs == s.asyncs
    ensures TopWaits(s) ==> HeldBy(Polled(s).held, Top(s).id).err == TIMEOUT
  {
    PolledShape(s);
    PolledAccounts(b, s);
    PolledRecords(s);
    WaitBrackets(s, Polled(s), 0);
    hide Bracketed, AllGood, Matching, Recorded, Accounted, Conserved, Shape, Polled, HeldBy;
  }

  lemma HearKeeps(b: Build, s: State, m: Message)
    requires Inv(b, s) && !TopRuns(s) && (TopWaits(s) ==> HeldBy(s.held, Top(s).id).err == TIMEOUT)
    ensures Inv(b, OnMessage(b, s, m))
  {
    hide CoreBut, Scan, Finish, Deliver, Enqueue, Report, Good, HeldBy;
    match m {
      case Response(r) =>
        if TopWaits(s) && r.id == Top(s).id {
          OwnReplyKeeps(b, s, r);
        } else if r.id in s.asyncs {
          AsyncReplyKeeps(b, s, r);
        } else {
          EnqueueKeeps(b, s, r);
          ScanKeeps(b, Enqueue(s, r));
        }
      case Request(id) => ServeKeeps(b, s, id);
      case Junk => ScanKeeps(b, s);
      case Malformed => if TopWaits(s) { FailureIsGood(b, s, BadMessage); OpenIsWeaker(b, s, Top(s).id); FinishKeeps(b, s, BadMessage); }
    }
  }

  lemma StepKeeps(b: Build, s: State, e: Event)
    requires Inv(b, s) && Enabled(s, e)
    ensures Inv(b, Apply(b, s, e))
  {
    PolledKeeps(b, s);
    hide CoreBut, Scan, Finish, Enter, Leave, Report, Good, Polled, OnMessage, HeldBy;
    match e {
      case Send(id, d) => IssueKeeps(b, s, id, d);
      case Wait(id) => EnterKeeps(b, s, id); ScanKeeps(b, Enter(s, id));
      case Hear(m) => HearKeeps(b, Polled(s), m);
      case Return => LeaveKeeps(b, s); ScanKeeps(b, Leave(s));
      case GiveUp =>
        var t := Polled(s);
        FailureIsGood(b, t, NoReply);
        OpenIsWeaker(b, t, Top(t).id);
        FinishKeeps(b, t, NoReply);
    }
  }

  // ------------------------------------------------------------------------ what the events say

  function RepliesOf(e: Event): seq<Reply> { if e.Hear? && e.msg.Response? then [e.msg.reply] else [] }
  function RequestsOf(e: Event): seq<int> { if e.Hear? && e.msg.Request? && e.msg.id != 0 then [e.msg.id] else [] }
  function DelegatesOf(e: Event): set<int> { if e.Send? && e.delegate then {e.id} else {} }

  /** The replies read from the wire, in order. */
  function Replies(es: seq<Event>): seq<Reply> {
    if es == [] then [] else RepliesOf(es[0]) + Replies(es[1..])
  }

  /** The nonzero ids of the requests read from the wire, in order. */
  function Requested(es: seq<Event>): seq<int> {
    if es == [] then [] else RequestsOf(es[0]) + Requested(es[1..])
  }

  /** The ids of the calls sent with a delegate. */
  function Delegated(es: seq<Event>): set<int> {
    if es == [] then {} else DelegatesOf(es[0]) + Delegated(es[1..])
  }

  /** Which event ends a wait in which way. */
  predicate EndedBy(e: Event, o: Outcome) {
    match o.how
    case OwnReply => RepliesOf(e) != [] && RepliesOf(e)[0].id == o.id
    case BadMessage => e == Hear(Malformed)
    case NoReply => e == GiveUp
    case FromQueue => e.Wait? || e.Hear? || e.Return?
  }

  /** One more outcome, of a wait that ended now: the replies that had arrived are those heard by now. */
  ghost predicate EndsWith(before: seq<Outcome>, t: State, o: Outcome) {
    t.outcomes == before + [o] && o.arrived == Matching(t.heard, o.id)
  }

  lemma FinishHears(b: Build, s: State, how: Ending)
    requires TopWaits(s)
    ensures var t := Finish(b, s, how);
      && t.heard == s.heard && t.asked == s.asked && t.asyncs == s.asyncs
      && EndsWith(s.outcomes, t, Report(b, s, Top(s).id, how)) && Report(b, s, Top(s).id, how).how == how && Report(b, s, Top(s).id, how).id == Top(s).id
  {
    hide Matching, HeldBy;
  }

  /** The scan hears nothing, and ends the wait or none. */
  lemma ScanHears(b: Build, s: State)
    ensures var t := Scan(b, s);
      && t.heard == s.heard && t.asked == s.asked && t.asyncs == s.asyncs
      && (t.outcomes == s.outcomes || exists o :: EndsWith(s.outcomes, t, o) && o.how.FromQueue?)
  {
    if TopWaits(s) && Matching(s.received, Top(s).id) != [] {
      var u := TakeMatching(s);
      assert u.heard == s.heard && u.asked == s.asked && u.asyncs == s.asyncs && u.outcomes == s.outcomes && TopWaits(u) by { hide Matching, Others, CompleteEach; }
      FinishHears(b, u, FromQueue);
      hide Finish, TakeMatching, Report, Matching;
    }
  }

  lemma PolledHears(s: State)
    ensures var t := Polled(s); t.heard == s.heard && t.asked == s.asked && t.asyncs == s.asyncs && t.outcomes == s.outcomes && t.stack == s.stack
  {
  }

  lemma MessageHears(b: Build, s: State, m: Message)
    requires !TopRuns(s)
    ensures var t, e := OnMessage(b, s, m), Hear(m);
      && t.heard == s.heard + RepliesOf(e) && t.asked == s.asked + RequestsOf(e) && t.asyncs == s.asyncs
      && (t.outcomes == s.outcomes || exists o :: EndsWith(s.outcomes, t, o) && EndedBy(e, o))
  {
    assert s.heard + [] == s.heard && s.asked + [] == s.asked;
    match m {
      case Response(r) =>
        if TopWaits(s) && r.id == Top(s).id {
          var u := Deliver(s, r);
          assert u.heard == s.heard + [r] && u.asked == s.asked && u.asyncs == s.asyncs && u.outcomes == s.outcomes && u.stack == s.stack by { hide CompleteEach; }
          FinishHears(b, u, OwnReply);
          hide Deliver, Finish, Report, Matching;
        } else if r.id in s.asyncs {
          hide CompleteEach, Matching;
        } else {
          ScanHears(b, Enqueue(s, r));
          hide Scan, Matching;
        }
      case Request(id) =>
      case Junk => ScanHears(b, s); hide Scan, Matching;
      case Malformed => if TopWaits(s) { FinishHears(b, s, BadMessage); hide Finish, Report, Matching; }
    }
  }

  /** Every event is recorded as what it says, and ends at most the wait it can end. */
  lemma StepHears(b: Build, s: State, e: Event)
    requires Enabled(s, e)
    ensures var t := Apply(b, s, e);
      && t.heard == s.heard + RepliesOf(e) && t.asked == s.asked + RequestsOf(e) && t.asyncs == s.asyncs + DelegatesOf(e)
      && (t.outcomes == s.outcomes || exists o :: EndsWith(s.outcomes, t, o) && EndedBy(e, o))
  {
    PolledHears(s);
    assert s.heard + [] == s.heard && s.asked + [] == s.asked && s.asyncs + {} == s.asyncs;
    match e {
      case Send(_, _) =>
      case Wait(id) => ScanHears(b, Enter(s, id)); hide Scan, Matching;
      case Hear(m) => MessageHears(b, Polled(s), m); hide OnMessage, Polled, Matching;
      case Return => ScanHears(b, Leave(s)); hide Scan, Matching;
      case GiveUp => FinishHears(b, Polled(s), NoReply); hide Finish, Polled, Report, Matching;
    }
  }

  /** Over every run the histories are what the events say: every reply and every request that was read is
      there, in order. */
  lemma {:induction false} EverythingIsHeard(b: Build, s: State, es: seq<Event>)
    requires Possible(b, s, es)
    ensures var t := Run(b, s, es);
      && t.heard == s.heard + Replies(es) && t.asked == s.asked + Requested(es) && t.asyncs == s.asyncs + Delegated(es)
      && s.outcomes <= t.outcomes
    decreases es
  {
    if es == [] {
      assert s.heard + [] == s.heard && s.asked + [] == s.asked;
    } else {
      StepHears(b, s, es[0]);
      hide Apply, Enabled, Matching;
      EverythingIsHeard(b, Apply(b, s, es[0]), es[1..]);
      Regroup(s.heard, RepliesOf(es[0]), Replies(es[1..]));
      Regroup(s.asked, RequestsOf(es[0]), Requested(es[1..]));
      hide RepliesOf, RequestsOf, DelegatesOf;
    }
  }

  /** The wait was ended by one of the events, and the replies to it that had arrived are those to its id among
      the replies read up to then. */
  ghost predicate EndedIn(before: seq<Reply>, es: seq<Event>, o: Outcome) {
    exists n :: 0 <= n < |es| && EndedBy(es[n], o) && o.arrived == Matching(before + Replies(es[..n + 1]), o.id)
  }

  lemma EndedLater(before: seq<Reply>, es: seq<Event>, o: Outcome)
    requires es != [] && EndedIn(before + RepliesOf(es[0]), es[1..], o)
    ensures EndedIn(before, es, o)
  {
    var rest := es[1..];
    var n :| 0 <= n < |rest| && EndedBy(rest[n], o) && o.arrived == Matching(before + RepliesOf(es[0]) + Replies(rest[..n + 1]), o.id);
    var upTo := es[..n + 2];
    assert upTo[0] == es[0] && upTo[1..] == rest[..n + 1] && es[n + 1] == rest[n];
    Regroup(before, RepliesOf(es[0]), Replies(rest[..n + 1]));
    assert Replies(upTo) == RepliesOf(es[0]) + Replies(upTo[1..]);
    hide Matching, EndedBy, Replies, RepliesOf;
  }

  lemma {:induction false} EachEndIsHeard(b: Build, s: State, es: seq<Event>, k: nat)
    requires Possible(b, s, es) && |s.outcomes| <= k < |Run(b, s, es).outcomes|
    ensures EndedIn(s.heard, es, Run(b, s, es).outcomes[k])
    decreases es
  {
    var t, o := Apply(b, s, es[0]), Run(b, s, es).outcomes[k];
    StepHears(b, s, es[0]);
    EverythingIsHeard(b, t, es[1..]);
    hide Apply, Enabled, Matching, EndedBy;
    if k < |t.outcomes| {
      assert o == t.outcomes[k] && EndedBy(es[0], o) && o.arrived == Matching(t.heard, o.id);
      assert es[..1] == [es[0]] && Replies([es[0]]) == RepliesOf(es[0]) by { assert [es[0]][1..] == []; }
    } else {
      EachEndIsHeard(b, t, es[1..], k);
      hide EndedIn, RepliesOf, RequestsOf, DelegatesOf;
      EndedLater(s.heard, es, o);
    }
  }

  lemma OutcomeIsHeard(b: Build, es: seq<Event>, o: Outcome)
    requires Possible(b, INITIAL, es) && o in Run(b, INITIAL, es).outcomes
    ensures EndedIn([], es, o)
  {
    var k :| 0 <= k < |Run(b, INITIAL, es).outcomes| && Run(b, INITIAL, es).outcomes[k] == o;
    EachEndIsHeard(b, INITIAL, es, k);
    hide Run, EndedIn;
  }

  lemma {:induction false} SentWithDelegate(es: seq<Event>, id: int)
    requires Send(id, true) in es
    ensures id in Delegated(es)
  {
    if es[0] != Send(id, true) { SentWithDelegate(es[1..], id); }
  }

  /** In every run, a reply to a call sent with a delegate goes to its completion as soon as it is read, and the
      delegate is called. */
  lemma DelegateGetsReply(b: Build, es: seq<Event>, r: Reply)
    requires Possible(b, INITIAL, es) && Send(r.id, true) in es && !TopRuns(Run(b, INITIAL, es))
    ensures var s := Run(b, INITIAL, es); var t := Apply(b, s, Hear(Response(r)));
      t.completed == s.completed + [r] && t.received == s.received && t.stack == s.stack + [Running(0, 0)]
  {
    var s := Run(b, INITIAL, es);
    EverythingIsHeard(b, INITIAL, es);
    SentWithDelegate(es, r.id);
    InitialInv(b);
    RunKeeps(b, INITIAL, es);
    assert r.id in s.asyncs && (TopWaits(s) ==> Top(s).id !in s.asyncs);
    hide Run, Inv, Apply, Enabled;
    DelegateStep(b, s, r);
  }

  lemma DelegateStep(b: Build, s: State, r: Reply)
    requires !TopRuns(s) && r.id in s.asyncs && (TopWaits(s) ==> Top(s).id != r.id)
    ensures var t := Apply(b, s, Hear(Response(r)));
      t.completed == s.completed + [r] && t.received == s.received && t.stack == s.stack + [Running(0, 0)]
  {
    PolledHears(s);
    assert Polled(s).completed == s.completed && Polled(s).received == s.received;
    hide Polled, CompleteEach, Objects, HeldBy;
  }

  /** A wait that reads its own reply or a malformed message, or gives up, ends there and then, and no other. */
  lemma WaitEnds(b: Build, s: State, e: Event)
    requires TopWaits(s) && (e == GiveUp || e == Hear(Malformed) || (RepliesOf(e) != [] && RepliesOf(e)[0].id == Top(s).id))
    ensures Enabled(s, e)
    ensures var t, id := Apply(b, s, e), Top(s).id; var n := |s.outcomes|;
      && t.stack == s.stack[..|s.stack| - 1] && t.ended == s.ended + {id}
      && |t.outcomes| == n + 1 && t.outcomes[..n] == s.outcomes && t.outcomes[n].id == id && EndedBy(e, t.outcomes[n])
  {
    PolledHears(s);
    assert Polled(s).ended == s.ended;
    hide Polled, Matching, CompleteEach, Objects, HeldBy;
  }

  /** A wait that begins is on top of what was running. */
  lemma WaitBegins(s: State, id: int)
    requires Enabled(s, Wait(id))
    ensures var t := Apply(AsWritten, s, Wait(id)); TopWaits(t) && Top(t).id == id && t.stack[..|s.stack|] == s.stack && |t.stack| == |s.stack| + 1
  {
  }

  /** A request's handler is called with its id, on top of whatever was running. */
  lemma RequestIsServed(b: Build, s: State, id: int)
    requires !TopRuns(s)
    ensures var t := Apply(b, s, Hear(Request(id)));
      TopRuns(t) && Top(t).request == id && t.stack[..|s.stack|] == s.stack && |t.stack| == |s.stack| + 1
  {
    PolledHears(s);
    hide Polled;
  }

  // ------------------------------------------------------------------------ whole runs

  lemma {:induction false} RunKeeps(b: Build, s: State, es: seq<Event>)
    requires Inv(b, s) && Possible(b, s, es)
    ensures Inv(b, Run(b, s, es))
    decreases es
  {
    hide Inv;
    if es != [] {
      StepKeeps(b, s, es[0]);
      RunKeeps(b, Apply(b, s, es[0]), es[1..]);
    }
  }

  /** In every run, of either build, each reply read from the wire is in exactly one place: still
      queued, or given to `completeWith`; each request is being served or has been answered once. */
  lemma NothingLostOrDuplicated(b: Build, es: seq<Event>)
    requires Possible(b, INITIAL, es)
    ensures var s := Run(b, INITIAL, es);
      && multiset(Replies(es)) == multiset(s.received) + multiset(s.completed)
      && multiset(s.heard) == multiset(s.received) + multiset(s.completed)
      && s.asked == Requested(es)
      && multiset(UpTo(|s.asked|)) == multiset(Answers(s.log)) + multiset(Serving(s.stack))
  {
    InitialInv(b);
    RunKeeps(b, INITIAL, es);
    EverythingIsHeard(b, INITIAL, es);
    assert [] + Replies(es) == Replies(es) && [] + Requested(es) == Requested(es);
    EachAskedOnce(Run(b, INITIAL, es).log);
    hide Open, Asks, Answers, Serving;
  }

  /** In the documented build every wait, however deeply nested, returns true exactly when a reply to its id
      had arrived, and its completion then holds exactly what the replies given to it say, all of which
      had arrived; with one reply, what that reply says. */
  lemma DocumentedBuildKeepsPromise(es: seq<Event>, o: Outcome)
    requires Possible(AsDocumented, INITIAL, es) && o in Run(AsDocumented, INITIAL, es).outcomes
    ensures o.ok <==> o.arrived != []
    ensures o.ok ==> o.taken != [] && multiset(o.taken) <= multiset(o.arrived) && o.comp == Completed(o.taken)
    ensures |o.arrived| == 1 ==> o.comp == CompleteWith(o.arrived[0].obj)
    ensures EndedIn([], es, o)
  {
    OutcomeIsHeard(AsDocumented, es, o);
    hide EndedIn;
    InitialInv(AsDocumented);
    RunKeeps(AsDocumented, INITIAL, es);
    assert Good(AsDocumented, o);
    if |o.arrived| == 1 { OnlyOneTaken(o.taken, o.arrived); }
    hide Run, Completed, CompleteWith;
  }

  lemma InitialInv(b: Build)
    ensures Inv(b, INITIAL)
  {
    assert Objects([]) == [];
  }

  lemma OnlyOneTaken(taken: seq<Reply>, arrived: seq<Reply>)
    requires |arrived| == 1 && taken != [] && multiset(taken) <= multiset(arrived)
    ensures taken == arrived && Completed(taken) == CompleteWith(arrived[0].obj)
  {
    assert multiset(arrived) == multiset(taken) + (multiset(arrived) - multiset(taken));
    assert |taken| == 1 && taken[0] in multiset(taken) && taken[0] in multiset(arrived);
    var o := [arrived[0].obj];
    assert Objects(taken) == o && o[..0] == [];
    assert CompleteEach(FRESH, o) == Complete(CompleteEach(FRESH, o[..0]), o[0]);
  }

  /** In every run of the code a wait keeps the promise exactly when it read its reply itself; or it gave up
      and no reply was ever queued. A wait cut short by a malformed message has had the timeout written over
      whatever its completion held, and keeps the promise only if its last reply was that very error. */
  lemma WrittenBuildKeepsPromiseIff(es: seq<Event>, o: Outcome)
    requires Possible(AsWritten, INITIAL, es) && o in Run(AsWritten, INITIAL, es).outcomes
    ensures KeepsPromise(o) <==>
      match o.how
      case OwnReply => true
      case FromQueue => true
      case NoReply => !o.wasQueued
      case BadMessage => o.taken != [] && CompleteWith(o.taken[|o.taken| - 1].obj).err == TIMEOUT
    ensures EndedIn([], es, o)
  {
    OutcomeIsHeard(AsWritten, es, o);
    hide EndedIn;
    InitialInv(AsWritten);
    RunKeeps(AsWritten, INITIAL, es);
    assert Good(AsWritten, o);
    hide Run, CompleteWith;
  }

  /** What the code leaves in the completion, by the way the wait ended: what the replies say if it read one
      itself, and else the timeout, next to the result of a reply taken from the queue before. */
  lemma WrittenEndings(es: seq<Event>, o: Outcome)
    requires Possible(AsWritten, INITIAL, es) && o in Run(AsWritten, INITIAL, es).outcomes
    ensures multiset(o.taken) <= multiset(o.arrived)
    ensures match o.how
      case OwnReply => o.ok && o.taken != [] && o.comp == Completed(o.taken)
      case FromQueue => o.ok
      case NoReply => !o.ok && o.comp == Completion(TIMEOUT, Completed(o.taken).result)
      case BadMessage => o.ok && o.comp == Completion(TIMEOUT, Completed(o.taken).result)
  {
    InitialInv(AsWritten);
    RunKeeps(AsWritten, INITIAL, es);
    assert Good(AsWritten, o);
    hide Run, Completed;
  }

  lemma TakingCompletes(s: State)
    requires TopWaits(s) && Matching(s.received, Top(s).id) != []
    ensures var t := TakeMatching(s); var id := Top(s).id;
      && HeldBy(t.held, id) == CompleteEach(HeldBy(s.held, id), Objects(Matching(s.received, id)))
      && Matching(t.received, id) == []
      && t.stack == s.stack
  {
    NoneLeft(s.received, Top(s).id);
    hide Matching, Others, CompleteEach, Objects;
  }

  lemma ScanCompletes(b: Build, s: State)
    requires TopWaits(s) && Matching(s.received, Top(s).id) != []
    ensures var t := Scan(b, s); var id := Top(s).id;
      && HeldBy(t.held, id) == CompleteEach(HeldBy(s.held, id), Objects(Matching(s.received, id)))
      && Matching(t.received, id) == []
      && (b.AsDocumented? ==> id in t.ended)
      && (b.AsWritten? ==> TopWaits(t) && Top(t).id == id)
  {
    TakingCompletes(s);
    hide Matching, TakeMatching, Report, CompleteEach, Objects, HeldBy;
  }

  /** When a handler returns to a wait whose reply is in the queue, that wait's completion gets it. */
  lemma UnwindingCompletesOuterWait(b: Build, s: State, id: int)
    requires TopRuns(s) && TopWaits(Leave(s)) && Top(Leave(s)).id == id
    requires Matching(s.received, id) != []
    ensures var t := Apply(b, s, Return);
      && HeldBy(t.held, id) == CompleteEach(HeldBy(s.held, id), Objects(Matching(s.received, id)))
      && Matching(t.received, id) == []
      && (b.AsDocumented? ==> id in t.ended)
      && (b.AsWritten? ==> TopWaits(t) && Top(t).id == id)
  {
    assert Leave(s).received == s.received && Leave(s).held == s.held;
    hide Matching, Scan, Leave, CompleteEach, Objects, HeldBy;
    ScanCompletes(b, Leave(s));
  }

  /** So does the wait that goes on after any message that is for no one else to handle: its replies are taken
      out of the queue and given to its completion. */
  lemma ScanAfterMessage(b: Build, s: State, m: Message)
    requires TopWaits(s) && (m == Junk || (m.Response? && m.reply.id != Top(s).id && m.reply.id !in s.asyncs))
    requires Matching(s.received, Top(s).id) != []
    ensures var t, id := Apply(b, s, Hear(m)), Top(s).id;
      && HeldBy(t.held, id) == CompleteEach(HeldBy(Polled(s).held, id), Objects(Matching(s.received, id)))
      && Matching(t.received, id) == []
      && (b.AsDocumented? ==> id in t.ended)
      && (b.AsWritten? ==> TopWaits(t) && Top(t).id == id)
  {
    PolledHears(s);
    var p, id := Polled(s), Top(s).id;
    assert p.received == s.received;
    hide Polled, Scan, CompleteEach, Objects, HeldBy;
    if m == Junk {
      ScanCompletes(b, p);
    } else {
      MatchingAppend(s.received, m.reply, id);
      assert Matching(s.received, id) + [] == Matching(s.received, id);
      ScanCompletes(b, Enqueue(p, m.reply));
    }
    hide Matching;
  }

  // ------------------------------------------------------------------------ the order of answers

  lemma AnswerStep(asks: seq<nat>, answers: seq<nat>, open: seq<nat>)
    requires open != [] && multiset(asks) == multiset(answers) + multiset(open)
    ensures multiset(asks) == multiset(answers + [open[|open| - 1]]) + multiset(open[..|open| - 1])
  {
    assert open == open[..|open| - 1] + [open[|open| - 1]];
  }

  lemma AskStep(asks: seq<nat>, answers: seq<nat>, open: seq<nat>, k: nat)
    requires multiset(asks) == multiset(answers) + multiset(open)
    ensures multiset(asks + [k]) == multiset(answers) + multiset(open + [k])
  {
  }

  /** What was asked is open or answered. */
  lemma {:induction false} EachAskedOnce(log: seq<Mark>)
    requires Open(log).Some?
    ensures multiset(Asks(log)) == multiset(Answers(log)) + multiset(Open(log).value)
  {
    if log != [] {
      var before := log[..|log| - 1];
      EachAskedOnce(before);
      var o, m := Open(before).value, log[|log| - 1];
      if m.Asked? {
        AskStep(Asks(before), Answers(before), o, m.k);
      } else {
        AnswerStep(Asks(before), Answers(before), o);
      }
    }
  }

  /** A request was read while another was being served. */
  predicate Overlaps(log: seq<Mark>) {
    log != [] && (Overlaps(log[..|log| - 1]) || (log[|log| - 1].Asked? && Open(log[..|log| - 1]) != Some([])))
  }

  predicate Increasing(s: seq<nat>) {
    forall i, j :: 0 <= i < j < |s| ==> s[i] < s[j]
  }

  /** Without overlap, answers follow arrivals, and at most one request is open. */
  lemma {:induction false} SerialLog(log: seq<Mark>)
    requires Open(log).Some? && !Overlaps(log)
    ensures |Open(log).value| <= 1 && Asks(log) == Answers(log) + Open(log).value
  {
    if log != [] {
      var before := log[..|log| - 1];
      SerialLog(before);
      var o, m := Open(before).value, log[|log| - 1];
      if m.Answered? { assert o == [m.k]; }
    }
  }

  /** An answer overtook a request that is open, or one answered later. */
  ghost predicate Overtaken(answers: seq<nat>, open: seq<nat>) {
    || |open| >= 2
    || (exists a, o :: 0 <= a < |answers| && 0 <= o < |open| && answers[a] > open[o])
    || !Increasing(answers)
  }

  lemma OvertakenByAsk(answers: seq<nat>, open: seq<nat>, k: nat)
    requires open != [] || Overtaken(answers, open)
    ensures Overtaken(answers, open + [k])
  {
    if open == [] && Increasing(answers) { assert false; }
  }

  lemma OvertakenByAnswer(answers: seq<nat>, open: seq<nat>)
    requires open != [] && Increasing(open) && Overtaken(answers, open)
    ensures Overtaken(answers + [open[|open| - 1]], open[..|open| - 1])
  {
    var k, rest := open[|open| - 1], open[..|open| - 1];
    var after := answers + [k];
    assert after[|answers|] == k;
    if |open| >= 2 {
      assert after[|answers|] > rest[0];
    } else if Increasing(answers) {
      var a, o :| 0 <= a < |answers| && 0 <= o < |open| && answers[a] > open[o];
      assert after[a] > after[|answers|];
    } else {
      var i, j :| 0 <= i < j < |answers| && answers[i] >= answers[j];
      assert after[i] >= after[j];
    }
  }

  /** What is open arrived in that order, and before anything still to come. */
  lemma {:induction false} OpenIncreases(log: seq<Mark>, n: nat)
    requires Open(log).Some? && Asks(log) == UpTo(n)
    ensures Increasing(Open(log).value) && forall i :: 0 <= i < |Open(log).value| ==> Open(log).value[i] < n
    decreases |log|
  {
    if log != [] {
      var before, m := log[..|log| - 1], log[|log| - 1];
      if m.Asked? {
        assert Asks(before) == UpTo(n)[..n - 1] == UpTo(n - 1);
        assert UpTo(n)[n - 1] == m.k;
        OpenIncreases(before, n - 1);
      } else {
        OpenIncreases(before, n);
      }
    }
  }

  lemma {:induction false} OverlapOvertakes(log: seq<Mark>, n: nat)
    requires Open(log).Some? && Asks(log) == UpTo(n) && Overlaps(log)
    ensures Overtaken(Answers(log), Open(log).value)
    decreases |log|
  {
    var before, m := log[..|log| - 1], log[|log| - 1];
    var o := Open(before).value;
    if m.Asked? {
      assert Asks(before) == UpTo(n)[..n - 1] == UpTo(n - 1);
      assert Answers(log) == Answers(before);
      if Overlaps(before) { OverlapOvertakes(before, n - 1); }
      OvertakenByAsk(Answers(before), o, m.k);
    } else {
      OverlapOvertakes(before, n);
      OpenIncreases(before, n);
      OvertakenByAnswer(Answers(before), o);
    }
  }

  /** In every run requests and answers are well nested: an answer is always to the request read last among
      those being served. */
  lemma AnswersAreNested(b: Build, es: seq<Event>)
    requires Possible(b, INITIAL, es)
    ensures var s := Run(b, INITIAL, es);
      && Open(s.log) == Some(Serving(s.stack)) && Asks(s.log) == UpTo(|s.asked|)
      && forall f :: f in s.stack && Owed(f) != [] ==> f.arrival < |s.asked| && s.asked[f.arrival] == f.request
  {
    InitialInv(b);
    RunKeeps(b, INITIAL, es);
  }

  /** Once no request is being served, the answers have been sent in the order of the requests exactly when
      no request was read while another was being served. */
  lemma ArrivalOrderIff(b: Build, es: seq<Event>)
    requires Possible(b, INITIAL, es) && Serving(Run(b, INITIAL, es).stack) == []
    ensures var s := Run(b, INITIAL, es); Answers(s.log) == UpTo(|s.asked|) <==> !Overlaps(s.log)
  {
    AnswersAreNested(b, es);
    var s := Run(b, INITIAL, es);
    if Overlaps(s.log) {
      OverlapOvertakes(s.log, |s.asked|);
      assert !Increasing(Answers(s.log));
    } else {
      SerialLog(s.log);
    }
    hide Open, Asks, Answers, Overlaps, Serving, Run;
  }

  // ------------------------------------------------------------------------ departures

  /** Two runs, one after the other. */
  lemma {:induction false} Join(b: Build, s: State, es: seq<Event>, fs: seq<Event>)
    requires Possible(b, s, es) && Possible(b, Run(b, s, es), fs)
    ensures Possible(b, s, es + fs) && Run(b, s, es + fs) == Run(b, Run(b, s, es), fs)
    decreases es
  {
    hide Apply, Enabled;
    if es == [] {
      assert es + fs == fs;
    } else {
      Join(b, Apply(b, s, es[0]), es[1..], fs);
      assert (es + fs)[1..] == es[1..] + fs;
    }
  }

  lemma One(b: Build, s: State, e: Event)
    requires Enabled(s, e)
    ensures Possible(b, s, [e]) && Run(b, s, [e]) == Apply(b, s, e)
  {
    assert [e][1..] == [];
  }

  lemma Extend(b: Build, s: State, es: seq<Event>, e: Event)
    requires Possible(b, s, es) && Enabled(Run(b, s, es), e)
    ensures Possible(b, s, es + [e]) && Run(b, s, es + [e]) == Apply(b, Run(b, s, es), e)
  {
    One(b, Run(b, s, es), e);
    Join(b, s, es, [e]);
  }

  const ONE := Reply(1, Object([("result", Bool(true))]))
  const TWO := Reply(2, Null)

  /** What the completion of a call holds once its wait has polled. */
  const UNANSWERED := Completion(TIMEOUT, None)

  /** The same after the reply `ONE` was taken from the queue and the wait has polled again. */
  const OVERWRITTEN := Completion(TIMEOUT, Some(Bool(true)))

  /** Call 1 waits; request 7 arrives; its handler makes call 2 and waits. */
  const NESTED := State([Waiting(1), Running(7, 0), Waiting(2)], [], {}, {1, 2}, {1, 2}, {}, map[1 := UNANSWERED], [], [], {}, [],
                        [7], [Asked(0)])

  const OUTER := State([Waiting(1)], [], {}, {1}, {1}, {}, map[], [], [], {}, [], [], [])

  lemma ReachOuter()
    ensures Possible(AsWritten, INITIAL, [Send(1, false), Wait(1)])
    ensures Run(AsWritten, INITIAL, [Send(1, false), Wait(1)]) == OUTER
  {
    One(AsWritten, INITIAL, Send(1, false));
    Extend(AsWritten, INITIAL, [Send(1, false)], Wait(1));
  }

  lemma ReachNested()
    ensures Possible(AsWritten, OUTER, [Hear(Request(7)), Send(2, false), Wait(2)])
    ensures Run(AsWritten, OUTER, [Hear(Request(7)), Send(2, false), Wait(2)]) == NESTED
  {
    var s := OUTER.(stack := [Waiting(1), Running(7, 0)], asked := [7], log := [Asked(0)], held := map[1 := UNANSWERED]);
    assert Apply(AsWritten, OUTER, Hear(Request(7))) == s;
    One(AsWritten, OUTER, Hear(Request(7)));
    var t := s.(issued := {1, 2});
    assert Apply(AsWritten, s, Send(2, false)) == t;
    assert Enabled(t, Wait(2)) && Apply(AsWritten, t, Wait(2)) == NESTED;
    hide Apply, Enabled;
    Extend(AsWritten, OUTER, [Hear(Request(7))], Send(2, false));
    Extend(AsWritten, OUTER, [Hear(Request(7)), Send(2, false)], Wait(2));
  }

  lemma InnerReadsOuter()
    ensures Enabled(NESTED, Hear(Response(ONE))) && Apply(AsWritten, NESTED, Hear(Response(ONE))) == Enqueue(Polled(NESTED), ONE)
  {
    MatchingAppend([], ONE, 2);
    assert [] + [ONE] == [ONE];
  }

  /** What is needed of a state in which a handler returns to the wait for call 1, whose reply is queued. */
  ghost predicate Unwinding(s: State) {
    && s.stack == [Waiting(1), Running(7, 0)] && s.received == [ONE] && s.heard == [ONE, TWO] && s.queued == {1}
    && HeldBy(s.held, 1) == UNANSWERED && s.completed == [TWO]
  }

  /** The inner wait reads the outer call's reply, then its own. */
  lemma InnerWaitReadsBoth() returns (s: State)
    ensures var es := [Hear(Response(ONE)), Hear(Response(TWO))];
      Possible(AsWritten, NESTED, es) && s == Run(AsWritten, NESTED, es) && Unwinding(s)
  {
    InnerReadsOuter();
    var s1 := Enqueue(Polled(NESTED), ONE);
    assert s1.received == [ONE] && s1.heard == [ONE] && s1.stack == NESTED.stack && s1.queued == {1} && s1.completed == [];
    assert HeldBy(s1.held, 1) == UNANSWERED;
    hide Enqueue, Report, CompleteEach;
    assert Enabled(s1, Hear(Response(TWO)));
    s := Finish(AsWritten, Deliver(Polled(s1), TWO), OwnReply);
    assert Apply(AsWritten, s1, Hear(Response(TWO))) == s;
    hide Apply, Enabled;
    One(AsWritten, NESTED, Hear(Response(ONE)));
    Extend(AsWritten, NESTED, [Hear(Response(ONE))], Hear(Response(TWO)));
  }

  lemma ResultOfOne()
    ensures CompleteWith(ONE.obj) == Completion(Error(SUCCESS, ""), Some(Bool(true)))
    ensures forall c: Completion :: CompleteEach(c, Objects([ONE])) == CompleteWith(ONE.obj)
  {
    assert Lookup(ONE.obj, "result") == Some(Bool(true));
    assert Objects([ONE]) == [ONE.obj] && [ONE.obj][..0] == [];
    forall c: Completion ensures CompleteEach(c, Objects([ONE])) == CompleteWith(ONE.obj) {
      assert CompleteEach(c, [ONE.obj]) == Complete(c, ONE.obj);
    }
  }

  /** The outer wait after that: its completion holds the reply. */
  ghost predicate HasReply(t: State) {
    && t.stack == [Waiting(1)] && t.heard == [ONE, TWO] && t.queued == {1} && t.completed == [TWO, ONE]
    && HeldBy(t.held, 1) == Completion(Error(SUCCESS, ""), Some(Bool(true)))
  }

  /** The outer wait finds its reply in the queue and completes with it, and goes on waiting. */
  lemma OuterWaitFindsReply(s: State) returns (t: State)
    requires Unwinding(s)
    ensures Enabled(s, Return) && t == Apply(AsWritten, s, Return)
    ensures HasReply(t)
  {
    MatchingAppend([], ONE, 1);
    assert [] + [ONE] == [ONE] && [TWO] + [ONE] == [TWO, ONE];
    assert Leave(s).stack == [Waiting(1)];
    ResultOfOne();
    hide CompleteEach, Objects, CompleteWith;
    t := TakeMatching(Leave(s));
  }

  lemma ReportAfterPoll(t: State, how: Ending)
    requires HasReply(t)
    ensures Report(AsWritten, Polled(t), 1, how) == Outcome(1, how, Verdict(AsWritten, how), OVERWRITTEN, [ONE], [ONE], true)
  {
    MatchingAppend([], ONE, 1);
    MatchingAppend([], TWO, 1);
    MatchingAppend([ONE], TWO, 1);
    MatchingAppend([TWO], ONE, 1);
    assert [] + [ONE] == [ONE] && [] + [TWO] == [TWO] && [ONE] + [TWO] == [ONE, TWO] && [TWO] + [ONE] == [TWO, ONE];
    hide Matching;
    assert HeldBy(Polled(t).held, 1) == OVERWRITTEN;
  }

  /** Its next poll writes the timeout over that, whatever comes of it. */
  lemma OuterWaitIsOverwritten(t: State)
    requires HasReply(t)
    ensures Enabled(t, GiveUp) && Enabled(t, Hear(Malformed))
    ensures Outcome(1, NoReply, false, OVERWRITTEN, [ONE], [ONE], true) in Apply(AsWritten, t, GiveUp).outcomes
    ensures Outcome(1, BadMessage, true, OVERWRITTEN, [ONE], [ONE], true) in Apply(AsWritten, t, Hear(Malformed)).outcomes
  {
    var p, n := Polled(t), |t.outcomes|;
    ReportAfterPoll(t, NoReply);
    ReportAfterPoll(t, BadMessage);
    hide Report, HeldBy;
    assert Apply(AsWritten, t, GiveUp).outcomes[n] == Report(AsWritten, p, 1, NoReply);
    assert Apply(AsWritten, t, Hear(Malformed)).outcomes[n] == Report(AsWritten, p, 1, BadMessage);
  }

  /** A run that leads to two nested waits, of which the inner one reads both replies and ends. */
  lemma ReachUnwinding() returns (es: seq<Event>, s: State)
    ensures Possible(AsWritten, INITIAL, es) && s == Run(AsWritten, INITIAL, es) && Unwinding(s)
  {
    hide Apply, Enabled, Unwinding;
    ReachOuter();
    ReachNested();
    es := [Send(1, false), Wait(1)] + [Hear(Request(7)), Send(2, false), Wait(2)];
    Join(AsWritten, INITIAL, [Send(1, false), Wait(1)], [Hear(Request(7)), Send(2, false), Wait(2)]);
    s := InnerWaitReadsBoth();
    Join(AsWritten, INITIAL, es, [Hear(Response(ONE)), Hear(Response(TWO))]);
    es := es + [Hear(Response(ONE)), Hear(Response(TWO))];
  }

  /** A reachable nest of two waits in which the outer call's reply arrives, is given to its completion, and
      is reported missing, with the timeout for an error. */
  lemma NestedReplyIsReportedMissing()
    ensures exists es ::
      && Possible(AsWritten, INITIAL, es)
      && Outcome(1, NoReply, false, OVERWRITTEN, [ONE], [ONE], true) in Run(AsWritten, INITIAL, es).outcomes
  {
    hide Apply, Enabled;
    var es, s := ReachUnwinding();
    var t := OuterWaitFindsReply(s);
    OuterWaitIsOverwritten(t);
    Extend(AsWritten, INITIAL, es, Return);
    Extend(AsWritten, INITIAL, es + [Return], GiveUp);
  }

  /** The same nest cut short by a malformed message: success is reported, with the timeout for an error. */
  lemma NestedReplyIsOverwritten()
    ensures exists es ::
      && Possible(AsWritten, INITIAL, es)
      && Outcome(1, BadMessage, true, OVERWRITTEN, [ONE], [ONE], true) in Run(AsWritten, INITIAL, es).outcomes
  {
    hide Apply, Enabled;
    var es, s := ReachUnwinding();
    var t := OuterWaitFindsReply(s);
    OuterWaitIsOverwritten(t);
    Extend(AsWritten, INITIAL, es, Return);
    Extend(AsWritten, INITIAL, es + [Return], Hear(Malformed));
  }

  /** Request 7 arrives; its handler makes call 1 and waits. */
  const BUSY := INITIAL.(stack := [Running(7, 0), Waiting(1)], asked := [7], log := [Asked(0)], issued := {1}, waited := {1})

  lemma ReachBusy()
    ensures Possible(AsWritten, INITIAL, [Hear(Request(7)), Send(1, false), Wait(1)])
    ensures Run(AsWritten, INITIAL, [Hear(Request(7)), Send(1, false), Wait(1)]) == BUSY
  {
    var s := INITIAL.(stack := [Running(7, 0)], asked := [7], log := [Asked(0)]);
    assert Apply(AsWritten, INITIAL, Hear(Request(7))) == s;
    One(AsWritten, INITIAL, Hear(Request(7)));
    var t := s.(issued := {1});
    assert Apply(AsWritten, s, Send(1, false)) == t;
    assert Enabled(t, Wait(1)) && Apply(AsWritten, t, Wait(1)) == BUSY;
    hide Apply, Enabled;
    Extend(AsWritten, INITIAL, [Hear(Request(7))], Send(1, false));
    Extend(AsWritten, INITIAL, [Hear(Request(7)), Send(1, false)], Wait(1));
  }

  lemma BusyAnswersAnother()
    ensures Possible(AsWritten, BUSY, [Hear(Request(8)), Return])
    ensures var s := Run(AsWritten, BUSY, [Hear(Request(8)), Return]);
      s.stack == BUSY.stack && s.asked == [7, 8] && s.log == [Asked(0), Asked(1), Answered(1)]
  {
    var s := Polled(BUSY).(stack := [Running(7, 0), Waiting(1), Running(8, 1)], asked := [7, 8], log := [Asked(0), Asked(1)]);
    assert Apply(AsWritten, BUSY, Hear(Request(8))) == s;
    One(AsWritten, BUSY, Hear(Request(8)));
    assert Leave(s) == Polled(BUSY).(asked := [7, 8], log := [Asked(0), Asked(1), Answered(1)]);
    assert Matching([], 1) == [];
    assert Enabled(s, Return) && Apply(AsWritten, s, Return) == Leave(s);
    hide Apply, Enabled;
    Extend(AsWritten, BUSY, [Hear(Request(8))], Return);
  }

  lemma BusyServes()
    ensures Serving(BUSY.stack) == [0]
  {
    ServingPush([], Running(7, 0));
    ServingPush([Running(7, 0)], Waiting(1));
    assert [] + [Running(7, 0)] == [Running(7, 0)] && [Running(7, 0)] + [Waiting(1)] == BUSY.stack;
  }

  /** Request 7's handler calls and waits; request 8 comes in and is answered first. */
  lemma LaterRequestAnsweredFirst()
    ensures exists es ::
      && Possible(AsWritten, INITIAL, es)
      && var s := Run(AsWritten, INITIAL, es);
         s.asked == [7, 8] && s.log == [Asked(0), Asked(1), Answered(1)] && Serving(s.stack) == [0]
  {
    hide Apply, Enabled, Serving, Possible, Run;
    BusyServes();
    ReachBusy();
    BusyAnswersAnother();
    Join(AsWritten, INITIAL, [Hear(Request(7)), Send(1, false), Wait(1)], [Hear(Request(8)), Return]);
  }

  lemma OuterReadsMalformed()
    ensures Enabled(OUTER, Hear(Malformed))
    ensures Apply(AsWritten, OUTER, Hear(Malformed)).outcomes == [Outcome(1, BadMessage, true, UNANSWERED, [], [], false)]
  {
    assert Matching([], 1) == [];
    var p := Polled(OUTER);
    assert HeldBy(p.held, 1) == UNANSWERED;
    assert Apply(AsWritten, OUTER, Hear(Malformed)) == Finish(AsWritten, p, BadMessage);
  }

  /** A message that does not parse makes a call report success with no reply at all. */
  lemma MalformedMessageReportsSuccess()
    ensures var es := [Send(1, false), Wait(1), Hear(Malformed)];
      && Possible(AsWritten, INITIAL, es)
      && Run(AsWritten, INITIAL, es).outcomes == [Outcome(1, BadMessage, true, UNANSWERED, [], [], false)]
  {
    ReachOuter();
    OuterReadsMalformed();
    var es := [Send(1, false), Wait(1)];
    hide Apply, Enabled, Possible, Run;
    Extend(AsWritten, INITIAL, es, Hear(Malformed));
    assert es + [Hear(Malformed)] == [Send(1, false), Wait(1), Hear(Malformed)];
  }

  /** The waiting state of a call that was just sent. */
  function Called(s: State, id: int): State { Enter(Issue(s, id, false), id) }

  /** In any reachable state in which code runs, a call with a fresh id can be sent and waited for, and nothing
      has been given to its completion; in the documented build the wait goes on unless an unsolicited reply
      to that id is in the queue already. */
  lemma SendAndWait(b: Build, s: State, id: int)
    requires Inv(b, s) && !TopWaits(s) && id != 0 && id !in s.issued
    ensures Possible(b, s, [Send(id, false), Wait(id)])
    ensures var t := Called(s, id);
      && TopWaits(t) && Top(t).id == id && t.stack == s.stack + [Waiting(id)] && t.outcomes == s.outcomes
      && Run(b, s, [Send(id, false), Wait(id)]) == (if b.AsDocumented? then Scan(b, t) else t)
      && t.received == s.received && HeldBy(t.held, id).result == None
  {
    var s1 := Issue(s, id, false);
    assert id !in s.waited && id !in s.asyncs;
    NothingGiven(b, s, id);
    assert Enabled(s, Send(id, false)) && Apply(b, s, Send(id, false)) == s1;
    assert Enabled(s1, Wait(id));
    PushedThenPopped(s1.(waited := s1.waited + {id}), Waiting(id));
    hide Inv, Scan, HeldBy;
    One(b, s, Send(id, false));
    hide Enabled;
    Extend(b, s, [Send(id, false)], Wait(id));
  }

  lemma NothingGiven(b: Build, s: State, id: int)
    requires Inv(b, s) && id !in s.waited && id !in s.asyncs
    ensures HeldBy(s.held, id).result == None
  {
    SplitQueue(s.completed, id);
    var given := Matching(s.completed, id);
    assert forall i :: 0 <= i < |given| ==> given[i] in s.completed && given[i].id == id;
    assert given == [];
    assert Objects([]) == [] && Completed([]) == FRESH;
    hide Matching, Conserved, Bracketed, Shape, AllGood;
  }
}
