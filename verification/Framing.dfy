/** WSRPC framing: a 4-byte little-endian length, then that many bytes of NUL-terminated text.
    A header arrives whole; a body may arrive in any number of pieces. */
module Framing {
  import opened Ucl

  type byte = b: int | 0 <= b < 256
  type Bytes = seq<byte>

  /** `AsWritten` stores every piece at the start of the buffer; `AsDocumented` at the current offset. */
  datatype Build = AsWritten | AsDocumented

  // ------------------------------------------------------------------------ sending

  function Header(n: nat): Bytes
    requires n < TWO31
  {
    [n % 256, n / 256 % 256, n / 65536 % 256, n / 16777216]
  }

  /** The bytes of a received `int32_t`. */
  function HeaderLen(h: Bytes): int
    requires |h| == 4
  {
    ToInt32((h[0] as int) + 256 * (h[1] as int) + 65536 * (h[2] as int) + 16777216 * (h[3] as int))
  }

  lemma HeaderInverts(n: nat)
    requires n < TWO31
    ensures |Header(n)| == 4 && HeaderLen(Header(n)) == n
  {
    assert n == n % 256 + 256 * (n / 256);
    assert n / 256 == n / 256 % 256 + 256 * (n / 65536);
    assert n / 65536 == n / 65536 % 256 + 256 * (n / 16777216);
  }

  /** What `writeObj` sends after the length: the text and its NUL. */
  function Body(text: Bytes): Bytes { text + [0] }

  /** Texts whose length fits the header and which, being C strings, hold no NUL. */
  ghost predicate Sendable(texts: seq<Bytes>) {
    forall t :: t in texts ==> |t| + 1 < TWO31 && 0 !in t
  }

  /** The bytes that `writeObj` puts on the wire for one text. */
  function Packet(text: Bytes): Bytes
    requires |text| + 1 < TWO31
  {
    Header(|text| + 1) + Body(text)
  }

  /** And for a sequence of them. */
  function Stream(texts: seq<Bytes>): Bytes
    requires Sendable(texts)
  {
    if texts == [] then [] else Packet(texts[0]) + Stream(texts[1..])
  }

  function Bodies(texts: seq<Bytes>): (ms: seq<Bytes>)
    ensures |ms| == |texts| && forall i :: 0 <= i < |ms| ==> ms[i] == Body(texts[i])
  {
    seq(|texts|, i requires 0 <= i < |texts| => Body(texts[i]))
  }

  // ------------------------------------------------------------------------ receiving

  datatype Receiver = Receiver(
    len: nat,                // `curMsgLen`; 0 between messages
    off: nat,                // `curMsgOff`
    buf: Bytes,              // `curMsgBuf`
    wire: Bytes,             // sent and not yet received
    delivered: seq<Bytes>,   // buffers handed on for parsing
    pieces: nat,             // history: receives made for the current message
    split: seq<nat>)         // history: how many receives each delivered message took

  /** One call of `doRecv`: what `malloc` returns if it is called, and how many bytes the body's
      `recv` returns. */
  datatype Call = Call(junk: Bytes, take: nat)

  predicate AtHeader(r: Receiver) {
    |r.wire| >= 4 && HeaderLen(r.wire[..4]) >= 0
  }

  function Start(r: Receiver, junk: Bytes): Receiver
    requires r.len == 0 ==> AtHeader(r)
  {
    if r.len != 0 then r else r.(len := HeaderLen(r.wire[..4]), off := 0, buf := junk, wire := r.wire[4..], pieces := 0)
  }

  predicate Enabled(r: Receiver, c: Call) {
    && (r.len == 0 ==> AtHeader(r) && |c.junk| == HeaderLen(r.wire[..4]))
    && var q := Start(r, c.junk);
       && q.off <= q.len == |q.buf|
       && c.take <= q.len - q.off && c.take <= |q.wire|
       && (q.len > 0 ==> c.take > 0)
  }

  function Fill(b: Build, buf: Bytes, off: nat, piece: Bytes): (r: Bytes)
    requires off + |piece| <= |buf|
    ensures |r| == |buf|
  {
    match b
    case AsDocumented => buf[..off] + piece + buf[off + |piece|..]
    case AsWritten => piece + buf[|piece|..]
  }

  /** Receiving a piece of the body. */
  function Take(b: Build, q: Receiver, n: nat): Receiver
    requires q.off + n <= q.len == |q.buf| && n <= |q.wire|
  {
    q.(off := q.off + n, buf := Fill(b, q.buf, q.off, q.wire[..n]), wire := q.wire[n..], pieces := q.pieces + 1)
  }

  /** The end of a call: a full buffer is handed on. */
  function Hand(q: Receiver): Receiver {
    if q.len > 0 && q.off == q.len then q.(len := 0, delivered := q.delivered + [q.buf], split := q.split + [q.pieces]) else q
  }

  function DoRecv(b: Build, r: Receiver, c: Call): Receiver
    requires Enabled(r, c)
  {
    Hand(Take(b, Start(r, c.junk), c.take))
  }

  ghost predicate Possible(b: Build, r: Receiver, cs: seq<Call>)
    decreases cs
  {
    cs == [] || (Enabled(r, cs[0]) && Possible(b, DoRecv(b, r, cs[0]), cs[1..]))
  }

  ghost function Run(b: Build, r: Receiver, cs: seq<Call>): Receiver
    requires Possible(b, r, cs)
    decreases cs
  {
    if cs == [] then r else Run(b, DoRecv(b, r, cs[0]), cs[1..])
  }

  function Begin(texts: seq<Bytes>): Receiver
    requires Sendable(texts)
  {
    Receiver(0, 0, [], Stream(texts), [], 0, [])
  }

  // ------------------------------------------------------------------------ where the receiver stands

  /** `off` bytes of the body of `text` have been received, in `pieces` pieces; `more` comes after it. */
  ghost predicate MidBody(len: nat, off: nat, buf: Bytes, wire: Bytes, pieces: nat, text: Bytes, more: Bytes) {
    && len == |buf| == |text| + 1 && off < len
    && wire == Body(text)[off..] + more
    && (pieces == 0 <==> off == 0)
  }

  ghost predicate MidText(q: Receiver, text: Bytes, more: Bytes) {
    MidBody(q.len, q.off, q.buf, q.wire, q.pieces, text, more)
  }

  /** The receiver is at a message boundary, or part of the way into the message after those delivered. */
  ghost predicate Positioned(r: Receiver, texts: seq<Bytes>)
    requires Sendable(texts)
  {
    var i := |r.delivered|;
    && i <= |texts| && |r.split| == i
    && if r.len == 0 then r.wire == Stream(texts[i..])
       else i < |texts| && MidText(r, texts[i], Stream(texts[i + 1..]))
  }

  /** What the buffers hold. Of a message that is still arriving, the documented build has everything
      received so far; nothing is known of the code's buffer. */
  ghost predicate Held(b: Build, r: Receiver, texts: seq<Bytes>)
    requires Sendable(texts) && Positioned(r, texts)
  {
    && (forall i :: 0 <= i < |r.delivered| ==> Right(b, r.delivered[i], Body(texts[i]), r.split[i]))
    && (r.len > 0 && b.AsDocumented? ==> r.buf[..r.off] == Body(texts[|r.delivered|])[..r.off])
  }

  /** A delivered buffer: always the body in the documented build, and in the code exactly when the body
      came in one piece. */
  ghost predicate Right(b: Build, got: Bytes, body: Bytes, pieces: nat) {
    got == body <==> b.AsDocumented? || pieces == 1
  }

  lemma StreamStep(texts: seq<Bytes>, i: nat)
    requires Sendable(texts) && i < |texts|
    ensures Stream(texts[i..]) == Header(|texts[i]| + 1) + (Body(texts[i]) + Stream(texts[i + 1..]))
  {
    assert texts[i..][0] == texts[i] && texts[i..][1..] == texts[i + 1..];
    Regroup(Header(|texts[i]| + 1), Body(texts[i]), Stream(texts[i + 1..]));
  }

  /** Between messages, a nonempty wire starts with the next message's header. */
  lemma AtNextHeader(r: Receiver, texts: seq<Bytes>)
    requires Sendable(texts) && Positioned(r, texts) && r.len == 0 && r.wire != []
    ensures var i := |r.delivered|;
      && i < |texts| && AtHeader(r) && HeaderLen(r.wire[..4]) == |texts[i]| + 1
      && r.wire[4..] == Body(texts[i]) + Stream(texts[i + 1..])
  {
    var i := |r.delivered|;
    assert texts[|texts|..] == [];
    StreamStep(texts, i);
    HeaderInverts(|texts[i]| + 1);
    assert r.wire[..4] == Header(|texts[i]| + 1);
    hide Stream, HeaderLen, Header;
  }

  lemma StartKeeps(b: Build, r: Receiver, texts: seq<Bytes>, c: Call)
    requires Sendable(texts) && Positioned(r, texts) && Held(b, r, texts) && Enabled(r, c)
    ensures var q := Start(r, c.junk);
      q.len > 0 && q.delivered == r.delivered && Positioned(q, texts) && Held(b, q, texts)
  {
    if r.len == 0 {
      assert r.wire != [];
      AtNextHeader(r, texts);
      var body := Body(texts[|r.delivered|]);
      assert body[0..] == body;
      hide HeaderLen, Stream, Right;
    }
  }

  lemma CutConcat(body: Bytes, off: nat, n: nat, more: Bytes, wire: Bytes)
    requires off + n <= |body| && wire == body[off..] + more
    ensures n <= |wire| && wire[n..] == body[off + n..] + more && wire[..n] == body[off..off + n]
  {
  }

  /** One piece further into the body. */
  lemma MidBodyStep(len: nat, off: nat, buf: Bytes, wire: Bytes, pieces: nat, text: Bytes, more: Bytes, n: nat, buf': Bytes)
    requires MidBody(len, off, buf, wire, pieces, text, more) && 0 < n <= len - off && |buf'| == |buf|
    ensures n <= |wire| && wire[..n] == Body(text)[off..off + n]
    ensures n < len - off ==> MidBody(len, off + n, buf', wire[n..], pieces + 1, text, more)
    ensures n == len - off ==> wire[n..] == more && Body(text)[off..off + n] == Body(text)[off..]
  {
    CutConcat(Body(text), off, n, more, wire);
  }

  /** Taking a piece changes nothing but offset, buffer, wire and count. */
  lemma TakeFields(b: Build, q: Receiver, n: nat)
    requires q.off + n <= q.len == |q.buf| && n <= |q.wire|
    ensures var t := Take(b, q, n);
      && t.len == q.len && t.off == q.off + n && t.wire == q.wire[n..] && t.pieces == q.pieces + 1
      && t.delivered == q.delivered && t.split == q.split
      && |t.buf| == |q.buf| && t.buf == Fill(b, q.buf, q.off, q.wire[..n])
  {
    hide Fill;
  }

  /** What a receive of `n` bytes of the current body does to the receiver. */
  lemma TakeStep(b: Build, q: Receiver, text: Bytes, more: Bytes, n: nat)
    requires MidText(q, text, more) && 0 < n <= q.len - q.off
    ensures q.off <= q.len == |q.buf| == |Body(text)| && n <= |q.wire|
    ensures q.wire[..n] == Body(text)[q.off..q.off + n]
    ensures n < q.len - q.off ==> MidText(Take(b, q, n), text, more)
    ensures n == q.len - q.off ==> Take(b, q, n).wire == more && Body(text)[q.off..q.off + n] == Body(text)[q.off..]
  {
    MidBodyStep(q.len, q.off, q.buf, q.wire, q.pieces, text, more, n, q.buf);
    TakeFields(b, q, n);
    var t := Take(b, q, n);
    hide Take, Fill;
    assert |t.buf| == |q.buf|;
    MidBodyStep(q.len, q.off, q.buf, q.wire, q.pieces, text, more, n, t.buf);
    hide MidBody;
  }

  /** Storing a piece of the body where it belongs. */
  lemma FillHolds(buf: Bytes, body: Bytes, off: nat, n: nat)
    requires off + n <= |buf| == |body| && buf[..off] == body[..off]
    ensures Fill(AsDocumented, buf, off, body[off..off + n])[..off + n] == body[..off + n]
  {
  }

  /** A piece that leaves the message unfinished. */
  lemma TakeKeeps(b: Build, q: Receiver, texts: seq<Bytes>, n: nat)
    requires Sendable(texts) && q.len > 0 && Positioned(q, texts) && Held(b, q, texts)
    requires 0 < n < q.len - q.off && n <= |q.wire|
    ensures var t := Take(b, q, n); Positioned(t, texts) && Held(b, t, texts)
  {
    hide Stream, Right, Body, Fill, Take, MidText;
    var text := texts[|q.delivered|];
    TakeStep(b, q, text, Stream(texts[|q.delivered| + 1..]), n);
    TakeFields(b, q, n);
    if b.AsDocumented? { FillHolds(q.buf, Body(text), q.off, n); }
  }

  /** All pieces stored, the last of them over the first bytes: the text is whole only if it was the
      only piece. */
  lemma LastPieceFills(b: Build, buf: Bytes, text: Bytes, off: nat)
    requires off < |buf| == |text| + 1 && 0 !in text
    requires b.AsDocumented? ==> buf[..off] == Body(text)[..off]
    ensures Fill(b, buf, off, Body(text)[off..]) == Body(text) <==> b.AsDocumented? || off == 0
  {
    var body := Body(text);
    var r := Fill(b, buf, off, body[off..]);
    if b.AsDocumented? {
      assert r == body[..off] + body[off..] == body;
    } else if off == 0 {
      assert r == body;
    } else {
      var n := |body| - off;
      assert r[n - 1] == body[off..][n - 1] == 0;
      assert body[n - 1] == text[n - 1];
    }
  }

  /** The piece that completes a message. */
  lemma LastPieceIsRight(b: Build, q: Receiver, texts: seq<Bytes>)
    requires Sendable(texts) && q.len > 0 && Positioned(q, texts) && Held(b, q, texts)
    requires q.len - q.off <= |q.wire|
    ensures q.off < q.len == |q.buf|
    ensures var t := Take(b, q, q.len - q.off);
      Right(b, t.buf, Body(texts[|q.delivered|]), t.pieces)
  {
    var text, n := texts[|q.delivered|], q.len - q.off;
    assert q.off < q.len == |q.buf| == |text| + 1 && (q.pieces == 0 <==> q.off == 0);
    hide Stream, Fill, Take, MidText, Body;
    TakeStep(b, q, text, Stream(texts[|q.delivered| + 1..]), n);
    TakeFields(b, q, n);
    LastPieceFills(b, q.buf, text, q.off);
  }

  lemma HandPositions(b: Build, q: Receiver, texts: seq<Bytes>)
    requires Sendable(texts) && q.len > 0 && Positioned(q, texts) && q.len - q.off <= |q.wire|
    ensures q.off < q.len == |q.buf|
    ensures var t := Hand(Take(b, q, q.len - q.off)); Positioned(t, texts)
  {
    assert q.off < q.len == |q.buf|;
    hide Stream, Fill, Take, MidText, Body;
    TakeStep(b, q, texts[|q.delivered|], Stream(texts[|q.delivered| + 1..]), q.len - q.off);
    TakeFields(b, q, q.len - q.off);
    var u := Take(b, q, q.len - q.off);
    assert |u.delivered| == |q.delivered| < |texts| && |u.split| == |q.split| == |q.delivered|;
    hide Positioned, Sendable;
    HandNext(u, texts);
  }

  /** Handing on a full buffer leads to the boundary after its message. */
  lemma HandNext(u: Receiver, texts: seq<Bytes>)
    requires Sendable(texts) && u.len > 0 && u.off == u.len && |u.split| == |u.delivered| < |texts|
    requires u.wire == Stream(texts[|u.delivered| + 1..])
    ensures Positioned(Hand(u), texts)
  {
    hide Stream;
  }

  lemma HandHolds(b: Build, u: Receiver, texts: seq<Bytes>)
    requires Sendable(texts) && u.len > 0 && u.off == u.len && |u.split| == |u.delivered| < |texts|
    requires forall i :: 0 <= i < |u.delivered| ==> Right(b, u.delivered[i], Body(texts[i]), u.split[i])
    requires Right(b, u.buf, Body(texts[|u.delivered|]), u.pieces)
    requires Positioned(Hand(u), texts)
    ensures Held(b, Hand(u), texts)
  {
    hide Stream, Right, Body, Positioned;
  }

  lemma HandKeeps(b: Build, q: Receiver, texts: seq<Bytes>)
    requires Sendable(texts) && q.len > 0 && Positioned(q, texts) && Held(b, q, texts)
    requires q.len - q.off <= |q.wire|
    ensures var t := Hand(Take(b, q, q.len - q.off)); Positioned(t, texts) && Held(b, t, texts)
  {
    LastPieceIsRight(b, q, texts);
    HandPositions(b, q, texts);
    var u := Take(b, q, q.len - q.off);
    hide Stream, Right, Fill, Body, Hand;
    HandHolds(b, u, texts);
  }

  /** Every call keeps the receiver in step with what was sent, and uses up part of it. */
  lemma CallKeeps(b: Build, r: Receiver, texts: seq<Bytes>, c: Call)
    requires Sendable(texts) && Positioned(r, texts) && Held(b, r, texts) && Enabled(r, c)
    ensures var t := DoRecv(b, r, c);
      Positioned(t, texts) && Held(b, t, texts) && |t.wire| < |r.wire|
  {
    StartKeeps(b, r, texts, c);
    var q := Start(r, c.junk);
    assert |q.wire| <= |r.wire| && 0 < c.take <= q.len - q.off && q.off <= q.len == |q.buf| && c.take <= |q.wire|;
    hide Start, Enabled, Held, Stream, Fill, MidText;
    TakeFields(b, q, c.take);
    if c.take < q.len - q.off {
      TakeKeeps(b, q, texts, c.take);
      hide Take;
    } else {
      HandKeeps(b, q, texts);
      hide Take, Positioned;
    }
  }

  // ------------------------------------------------------------------------ whole runs

  lemma {:induction false} RunKeeps(b: Build, r: Receiver, texts: seq<Bytes>, cs: seq<Call>)
    requires Sendable(texts) && Positioned(r, texts) && Held(b, r, texts) && Possible(b, r, cs)
    ensures var t := Run(b, r, cs);
      Positioned(t, texts) && Held(b, t, texts) && |cs| + |t.wire| <= |r.wire|
    decreases cs
  {
    if cs != [] {
      assert cs[0] in cs && forall c :: c in cs[1..] ==> c in cs;
      CallKeeps(b, r, texts, cs[0]);
      hide Positioned, Held, DoRecv, Enabled;
      RunKeeps(b, DoRecv(b, r, cs[0]), texts, cs[1..]);
    }
  }

  lemma BeginPositioned(b: Build, texts: seq<Bytes>)
    requires Sendable(texts)
    ensures Positioned(Begin(texts), texts) && Held(b, Begin(texts), texts)
  {
    assert texts[0..] == texts;
  }

  /** An empty wire means that every message has been delivered. */
  lemma DrainedMeansDelivered(r: Receiver, texts: seq<Bytes>)
    requires Sendable(texts) && Positioned(r, texts) && r.wire == []
    ensures r.len == 0 && |r.delivered| == |texts| == |r.split|
  {
    var i := |r.delivered|;
    if r.len == 0 && i < |texts| { StreamStep(texts, i); }
    hide Stream;
  }

  /** While bytes are left, some call is possible, whatever `malloc` returns. */
  lemma NeverStuck(r: Receiver, texts: seq<Bytes>, junk: Bytes)
    requires Sendable(texts) && Positioned(r, texts) && r.wire != []
    requires r.len == 0 && |r.delivered| < |texts| ==> |junk| == |texts[|r.delivered|]| + 1
    ensures Enabled(r, Call(junk, 1))
  {
    if r.len == 0 { AtNextHeader(r, texts); }
    hide Stream, HeaderLen;
  }

  /** In the documented build the buffers delivered are exactly the messages sent, in order, for every
      sequence of messages and every way to split their bodies; at any earlier moment they are the
      first of them, and every call leaves less to receive. */
  lemma FramingInverts(texts: seq<Bytes>, cs: seq<Call>)
    requires Sendable(texts) && Possible(AsDocumented, Begin(texts), cs)
    ensures var r := Run(AsDocumented, Begin(texts), cs);
      && |cs| + |r.wire| <= |Stream(texts)|
      && |r.delivered| <= |texts| && r.delivered == Bodies(texts)[..|r.delivered|]
      && (r.wire == [] ==> r.delivered == Bodies(texts))
  {
    BeginPositioned(AsDocumented, texts);
    RunKeeps(AsDocumented, Begin(texts), texts, cs);
    var r := Run(AsDocumented, Begin(texts), cs);
    if r.wire == [] { DrainedMeansDelivered(r, texts); }
    hide Stream, Body, Run;
  }

  /** In the code, messages that each come in one piece arrive as they were sent, whatever `malloc` returns. */
  lemma WholeBodiesArrive(texts: seq<Bytes>, cs: seq<Call>)
    requires Sendable(texts) && Possible(AsWritten, Begin(texts), cs)
    requires var r := Run(AsWritten, Begin(texts), cs); r.wire == [] && forall i :: 0 <= i < |r.split| ==> r.split[i] == 1
    ensures Run(AsWritten, Begin(texts), cs).delivered == Bodies(texts)
  {
    BeginPositioned(AsWritten, texts);
    RunKeeps(AsWritten, Begin(texts), texts, cs);
    DrainedMeansDelivered(Run(AsWritten, Begin(texts), cs), texts);
    hide Stream, Body, Run;
  }

  /** In every run of the code, whatever `malloc` returns, a message is delivered as sent exactly when its
      body came in one piece: the last of several pieces ends in the NUL and is stored over the text. */
  lemma WrittenFramingInvertsIff(texts: seq<Bytes>, cs: seq<Call>, i: nat)
    requires Sendable(texts) && Possible(AsWritten, Begin(texts), cs)
    requires i < |Run(AsWritten, Begin(texts), cs).delivered|
    ensures var r := Run(AsWritten, Begin(texts), cs);
      |r.split| == |r.delivered| <= |texts| && (r.delivered[i] == Body(texts[i]) <==> r.split[i] == 1)
  {
    BeginPositioned(AsWritten, texts);
    RunKeeps(AsWritten, Begin(texts), texts, cs);
    hide Stream, Body, Run;
  }

  /** One message more on the wire. */
  lemma SendableAppend(texts: seq<Bytes>, t: Bytes)
    requires Sendable(texts) && Sendable([t])
    ensures Sendable(texts + [t])
  {
    assert t in [t] && forall u :: u in texts + [t] ==> u in texts || u == t;
  }

  lemma {:induction false} StreamAppend(texts: seq<Bytes>, t: Bytes)
    requires Sendable(texts) && Sendable([t])
    ensures Sendable(texts + [t]) && |t| + 1 < TWO31
    ensures Stream(texts + [t]) == Stream(texts) + Packet(t)
  {
    assert t in [t];
    SendableAppend(texts, t);
    hide Packet;
    if texts == [] {
      assert texts + [t] == [t] && [t][1..] == [];
      assert Stream([t]) == Packet(t) + Stream([]);
    } else {
      assert texts[0] in texts && forall u :: u in texts[1..] ==> u in texts;
      StreamAppend(texts[1..], t);
      assert (texts + [t])[1..] == texts[1..] + [t];
      hide Sendable;
      Regroup(Packet(texts[0]), Stream(texts[1..]), Packet(t));
    }
  }

  const BODY: Bytes := [65, 0]

  lemma FirstPiece()
    ensures var r := Receiver(0, 0, [], Header(2) + BODY, [], 0, []); var c := Call([1, 1], 1);
      Enabled(r, c) && DoRecv(AsWritten, r, c) == Receiver(2, 1, [65, 1], [0], [], 1, [])
  {
    var r := Receiver(0, 0, [], Header(2) + BODY, [], 0, []);
    HeaderInverts(2);
    assert r.wire[..4] == Header(2) && r.wire[4..] == BODY;
    hide Header, HeaderLen;
    var q := Start(r, [1, 1]);
    assert q == Receiver(2, 0, [1, 1], BODY, [], 0, []);
    assert Take(AsWritten, q, 1) == Receiver(2, 1, [65, 1], [0], [], 1, []);
  }

  lemma SecondPiece()
    ensures var r := Receiver(2, 1, [65, 1], [0], [], 1, []); var c := Call([], 1);
      Enabled(r, c) && DoRecv(AsWritten, r, c).delivered == [[0, 1]]
  {
    var r := Receiver(2, 1, [65, 1], [0], [], 1, []);
    assert Take(AsWritten, r, 1).buf == [0, 1];
  }

  lemma OnTheWire()
    ensures Sendable([[65]]) && Stream([[65]]) == Header(2) + BODY
  {
    var text: Bytes := [65];
    assert Body(text) == BODY && [text][1..] == [];
    assert Stream([text]) == Packet(text) + Stream([]);
  }

  lemma OneCall(b: Build, r: Receiver, c: Call)
    requires Enabled(r, c)
    ensures Possible(b, r, [c]) && Run(b, r, [c]) == DoRecv(b, r, c)
  {
    hide DoRecv, Enabled;
    assert [c][1..] == [];
    assert Possible(b, DoRecv(b, r, c), [c][1..]);
    assert Run(b, DoRecv(b, r, c), [c][1..]) == DoRecv(b, r, c);
  }

  /** The text "A" received in two pieces into a buffer of ones: its NUL is stored over the text, and
      the buffer has no end. */
  lemma SplitBodyIsGarbled()
    ensures var cs := [Call([1, 1], 1), Call([], 1)];
      && Sendable([[65]]) && Possible(AsWritten, Begin([[65]]), cs)
      && Run(AsWritten, Begin([[65]]), cs).delivered == [[0, 1]]
  {
    hide Stream, Header, DoRecv, Enabled;
    OnTheWire();
    FirstPiece();
    SecondPiece();
    var t := Receiver(2, 1, [65, 1], [0], [], 1, []);
    var c, d := Call([1, 1], 1), Call([], 1);
    assert [c, d][1..] == [d];
    OneCall(AsWritten, t, d);
  }
}