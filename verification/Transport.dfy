/** The transport object: its receive buffer, its queue of replies and its list of completions,
    each operation proved against the specification it implements. */
module Transport {
  import opened Ucl
  import opened Framing
  import NestedRpc

  class Transport {
    const build: Build

    var wire: Bytes                         // sent by the peer, not yet received
    var sent: Bytes                         // written to the peer
    var curMsgLen: nat
    var curMsgOff: nat
    var curMsgBuf: array<byte>
    ghost var delivered: seq<Bytes>
    ghost var pieces: nat
    ghost var split: seq<nat>

    var received: seq<NestedRpc.Reply>
    var completions: seq<int>               // ids of the completions that have a delegate
    var completed: seq<NestedRpc.Reply>     // replies given to `completeWith`

    constructor (build: Build, wire: Bytes)
      ensures this.build == build && View() == Receiver(0, 0, [], wire, [], 0, [])
      ensures sent == [] && fresh(curMsgBuf) && Models(NestedRpc.INITIAL)
    {
      this.build := build;
      this.wire, sent := wire, [];
      curMsgLen, curMsgOff, curMsgBuf := 0, 0, new byte[0];
      delivered, pieces, split := [], 0, [];
      received, completions, completed := [], [], [];
    }

    /** The receiving side as the framing model sees it. */
    ghost function View(): Receiver
      reads this, curMsgBuf
    {
      Receiver(curMsgLen, curMsgOff, curMsgBuf[..], wire, delivered, pieces, split)
    }

    /** The queue and completions are those of a state of the nested-call machine. */
    ghost predicate Models(s: NestedRpc.State)
      reads this
    {
      received == s.received && completed == s.completed && forall id :: id in completions <==> id in s.asyncs
    }

    // ---------------------------------------------------------------------- bytes

    /** `recv` of `n` bytes to offset `at` of the buffer. */
    method Recv(at: nat, n: nat)
      requires at + n <= curMsgBuf.Length && n <= |wire|
      modifies this`wire, curMsgBuf
      ensures wire == old(wire)[n..]
      ensures curMsgBuf[..] == old(curMsgBuf[..])[..at] + old(wire)[..n] + old(curMsgBuf[..])[at + n..]
    {
      for k := 0 to n
        invariant wire == old(wire)
        invariant curMsgBuf[..at] == old(curMsgBuf[..])[..at]
        invariant curMsgBuf[at..at + k] == wire[..k]
        invariant curMsgBuf[at + k..] == old(curMsgBuf[..])[at + k..]
      {
        curMsgBuf[at + k] := wire[k];
        assert curMsgBuf[at..at + k + 1] == wire[..k] + [wire[k]];
      }
      wire := wire[n..];
    }

    /** The start of `doRecv`: between messages, the length is read and a buffer allocated; `junk` is
        what `malloc` left in it. */
    method BeginMessage() returns (ghost junk: Bytes)
      requires curMsgLen == 0 ==> AtHeader(View())
      modifies this`wire, this`curMsgLen, this`curMsgOff, this`curMsgBuf, this`pieces
      ensures old(curMsgLen) == 0 ==> |junk| == HeaderLen(old(wire)[..4]) && fresh(curMsgBuf)
      ensures old(curMsgLen) != 0 ==> curMsgBuf == old(curMsgBuf)
      ensures View() == Start(old(View()), junk)
    {
      junk := [];
      if curMsgLen == 0 {
        curMsgLen, wire := HeaderLen(wire[..4]), wire[4..];
        curMsgBuf := new byte[curMsgLen];
        curMsgOff := 0;
        junk, pieces := curMsgBuf[..], 0;
      }
    }

    /** The body's `recv`, at the start of the buffer or, in the documented build, where the last one ended. */
    method RecvBody(take: nat)
      requires curMsgOff + take <= curMsgLen == curMsgBuf.Length && take <= |wire|
      modifies this`wire, this`curMsgOff, this`pieces, curMsgBuf
      ensures View() == Take(build, old(View()), take)
    {
      Recv(if build == AsDocumented then curMsgOff else 0, take);
      curMsgOff, pieces := curMsgOff + take, pieces + 1;
    }

    /** `doRecv`: one call, in which the body's `recv` returns `take` bytes, as many as are wanted and
        there at most, and none only if none are wanted. */
    method DoRecv(take: nat) returns (full: bool, ghost junk: Bytes)
      requires curMsgLen == 0 ==> AtHeader(View())
      requires forall j: Bytes :: (curMsgLen == 0 ==> |j| == HeaderLen(wire[..4])) ==> Enabled(View(), Call(j, take))
      modifies this`wire, this`curMsgLen, this`curMsgOff, this`curMsgBuf, this`delivered, this`pieces, this`split, curMsgBuf
      ensures Enabled(old(View()), Call(junk, take)) && View() == Framing.DoRecv(build, old(View()), Call(junk, take))
      ensures full <==> |delivered| == |old(delivered)| + 1
      ensures full ==> delivered == old(delivered) + [curMsgBuf[..]]
    {
      junk := BeginMessage();
      assert Enabled(old(View()), Call(junk, take));
      RecvBody(take);
      hide Start, Enabled, HeaderLen, Take;
      full := curMsgLen != 0 && curMsgOff == curMsgLen;
      if full {
        curMsgLen, delivered, split := 0, delivered + [curMsgBuf[..]], split + [pieces];
      }
    }

    /** `writeObj`. */
    method WriteObj(text: Bytes)
      requires Sendable([text])
      modifies this`sent
      ensures sent == old(sent) + Packet(text)
      ensures forall texts | Sendable(texts) && old(sent) == Stream(texts) :: Sendable(texts + [text]) && sent == Stream(texts + [text])
    {
      assert text in [text];
      sent := sent + Packet(text);
      forall texts | Sendable(texts) && old(sent) == Stream(texts) ensures Sendable(texts + [text]) && sent == Stream(texts + [text]) {
        StreamAppend(texts, text);
      }
    }

    // ---------------------------------------------------------------------- replies

    /** `sendMessage`: the request, of which `text` is the emitted form, is written, and a completion with a
        delegate is remembered under its id. */
    method SendMessage(id: int, text: Bytes, delegate: bool)
      requires Sendable([text])
      modifies this`sent, this`completions
      ensures sent == old(sent) + Packet(text)
      ensures completions == old(completions) + (if delegate then [id] else [])
      ensures forall s | old(Models(s)) :: Models(NestedRpc.Issue(s, id, delegate))
    {
      WriteObj(text);
      if delegate { completions := completions + [id]; }
    }

    /** `processMessage` on a response: to the first completion with its id, or into the queue. */
    method ProcessResponse(r: NestedRpc.Reply) returns (delegated: bool)
      modifies this`received, this`completed
      ensures delegated <==> r.id in completions
      ensures forall s | old(Models(s)) :: Models(if delegated then NestedRpc.Deliver(s, r) else NestedRpc.Enqueue(s, r))
    {
      delegated := false;
      var i := 0;
      while i < |completions|
        invariant 0 <= i <= |completions| && r.id !in completions[..i]
        invariant received == old(received) && completed == old(completed)
      {
        if completions[i] == r.id {
          completed := completed + [r];
          return true;
        }
        i := i + 1;
      }
      assert completions[..i] == completions;
      received := received + [r];
    }

    /** The scan of `received` in `awaitReply`: every reply to this id is taken out and given to its
        completion. */
    method ScanReceived(id: int)
      modifies this`received, this`completed
      ensures received == NestedRpc.Others(old(received), id)
      ensures completed == old(completed) + NestedRpc.Matching(old(received), id)
      ensures forall s | old(Models(s)) && NestedRpc.TopWaits(s) && NestedRpc.Top(s).id == id ::
        Models(NestedRpc.Scan(NestedRpc.AsWritten, s))
    {
      var todo, kept := received, [];
      while todo != []
        invariant kept + NestedRpc.Others(todo, id) == NestedRpc.Others(old(received), id)
        invariant completed + NestedRpc.Matching(todo, id) == old(completed) + NestedRpc.Matching(old(received), id)
        invariant received == kept + todo
        decreases |todo|
      {
        var r := todo[0];
        ScanStep(todo, kept, completed, id);
        hide NestedRpc.Others, NestedRpc.Matching;
        if r.id == id {
          received := kept + todo[1..];
          completed := completed + [r];
        } else {
          kept := kept + [r];
        }
        todo := todo[1..];
      }
      assert received == kept;
      hide NestedRpc.Others, NestedRpc.Matching;
      forall s | old(Models(s)) && NestedRpc.TopWaits(s) && NestedRpc.Top(s).id == id ensures Models(NestedRpc.Scan(NestedRpc.AsWritten, s)) {
        ScanTakes(s);
      }
    }
  }

  /** One step of the scan moves the first reply to one side or the other. */
  lemma ScanStep(todo: seq<NestedRpc.Reply>, kept: seq<NestedRpc.Reply>, done: seq<NestedRpc.Reply>, id: int)
    requires todo != []
    ensures var r, rest := todo[0], todo[1..];
      && kept + todo == kept + [r] + rest
      && kept + NestedRpc.Others(todo, id) == (if r.id == id then kept else kept + [r]) + NestedRpc.Others(rest, id)
      && done + NestedRpc.Matching(todo, id) == (if r.id == id then done + [r] else done) + NestedRpc.Matching(rest, id)
  {
    var r, rest := todo[0], todo[1..];
    var o, m := NestedRpc.Others(rest, id), NestedRpc.Matching(rest, id);
    assert NestedRpc.Others(todo, id) == (if r.id == id then [] else [r]) + o;
    assert NestedRpc.Matching(todo, id) == (if r.id == id then [r] else []) + m;
    hide NestedRpc.Others, NestedRpc.Matching;
    assert todo == [r] + rest;
    Regroup(kept, [r], rest);
    Regroup(kept, [r], o);
    Regroup(done, [r], m);
    assert [] + o == o && [] + m == m;
  }

  lemma {:induction false} OthersOfNone(q: seq<NestedRpc.Reply>, id: int)
    ensures NestedRpc.Matching(q, id) == [] ==> NestedRpc.Others(q, id) == q
  {
    if q != [] {
      OthersOfNone(q[1..], id);
      assert q == [q[0]] + q[1..];
    }
  }

  lemma ScanTakes(s: NestedRpc.State)
    requires NestedRpc.TopWaits(s)
    ensures var t := NestedRpc.Scan(NestedRpc.AsWritten, s); var id := NestedRpc.Top(s).id;
      && t.received == NestedRpc.Others(s.received, id) && t.asyncs == s.asyncs
      && t.completed == s.completed + NestedRpc.Matching(s.received, id)
  {
    OthersOfNone(s.received, NestedRpc.Top(s).id);
    hide NestedRpc.Others, NestedRpc.Matching;
  }
}
