/** The poll loop's timer table. Slots are claimed by `addTimer`, freed by `delTimer` or by the
    dispatch of an expired timer, and a callback may arm and delete timers while its own is being
    dispatched.

    The code's array has 255 entries, but `init` and `addTimer` run over 256 of them. The model gives
    them that last slot; the dispatch loop stops at 255. */
module Timers {
  const SLOTS := 256
  const DISPATCHED := 255

  /** `serial` tells apart two timers that used the same slot; it stands for the list node's identity. */
  datatype Source = Source(handler: int, id: int, serial: nat)

  datatype End = Called(handler: int) | Deleted

  datatype Table = Table(
    valid: set<int>,
    fired: set<int>,
    sources: seq<Source>,
    handlers: seq<int>,            // history: the handler of the timer with each serial
    ends: seq<(nat, End)>)         // history: how timers ended

  const EMPTY := Table({}, {}, [], [], [])

  function FirstFree(valid: set<int>, from: nat): (id: int)
    requires from <= SLOTS
    ensures from <= id <= SLOTS
    ensures id < SLOTS ==> id !in valid
    ensures forall k :: from <= k < id ==> k in valid
    decreases SLOTS - from
  {
    if from == SLOTS || from !in valid then from else FirstFree(valid, from + 1)
  }

  predicate Full(t: Table) { FirstFree(t.valid, 0) == SLOTS }

  /** `addTimer`; the POSIX timer itself is assumed to be made. */
  function Arm(t: Table, handler: int): Table {
    if Full(t) then t
    else
      var id := FirstFree(t.valid, 0);
      Table(t.valid + {id}, t.fired - {id}, t.sources + [Source(handler, id, |t.handlers|)], t.handlers + [handler], t.ends)
  }

  /** Index of the first source for a slot. */
  function Find(ss: seq<Source>, id: int): (k: nat)
    ensures k <= |ss|
    ensures k < |ss| ==> ss[k].id == id
    ensures forall i :: 0 <= i < k ==> ss[i].id != id
  {
    if ss == [] || ss[0].id == id then 0 else 1 + Find(ss[1..], id)
  }

  function Without(ss: seq<Source>, k: nat): seq<Source>
    requires k < |ss|
  {
    ss[..k] + ss[k + 1..]
  }

  /** The slot of a timer that ended is free again. */
  function Freed(t: Table, id: int): Table {
    t.(valid := t.valid - {id}, fired := t.fired - {id})
  }

  /** The k-th source goes, and its timer has ended. */
  function EndAt(t: Table, k: nat, e: End): Table
    requires k < |t.sources|
  {
    t.(sources := Without(t.sources, k), ends := t.ends + [(t.sources[k].serial, e)])
  }

  /** `delTimer`. */
  function Delete(t: Table, id: int): Table {
    var k := Find(t.sources, id);
    if k == |t.sources| then Freed(t, id) else EndAt(Freed(t, id), k, Deleted)
  }

  /** What the program can do to the table, in a callback or elsewhere; `Expire` is the signal handler. */
  datatype Op = Add(handler: int) | Del(id: int) | Expire(id: int)

  function Do(t: Table, op: Op): Table {
    match op
    case Add(h) => Arm(t, h)
    case Del(id) => Delete(t, id)
    case Expire(id) => t.(fired := t.fired + {id})
  }

  function DoAll(t: Table, ops: seq<Op>): Table
    decreases ops
  {
    if ops == [] then t else DoAll(Do(t, ops[0]), ops[1..])
  }

  /** Erases the source with this serial: the list node the dispatch loop holds on to. */
  function Erase(ss: seq<Source>, serial: nat): seq<Source> {
    if ss == [] then []
    else if ss[0].serial == serial then ss[1..]
    else [ss[0]] + Erase(ss[1..], serial)
  }

  predicate Expired(t: Table, id: int) { id in t.valid && id in t.fired }

  /** One expired slot is dispatched; its callback does `ops`; then its source is erased. */
  function Dispatch(t: Table, id: int, ops: seq<Op>): Table {
    var k := Find(t.sources, id);
    if k == |t.sources| then Freed(t, id)
    else
      var x := t.sources[k];
      var u := DoAll(Freed(t, id).(ends := t.ends + [(x.serial, Called(x.handler))]), ops);
      u.(sources := Erase(u.sources, x.serial))
  }

  // ------------------------------------------------------------------------ the invariant

  /** Sources and valid slots correspond one to one. */
  ghost predicate Agree(t: Table) {
    && (forall i, j :: 0 <= i < j < |t.sources| ==> t.sources[i].id != t.sources[j].id)
    && (forall i :: 0 <= i < |t.sources| ==> t.sources[i].id in t.valid)
    && (forall id :: id in t.valid ==> 0 <= id < SLOTS && exists i :: 0 <= i < |t.sources| && t.sources[i].id == id)
  }

  /** Every timer ever armed is either live or has ended, once, and it was called with its own handler. */
  ghost predicate Once(t: Table) {
    && (forall i :: 0 <= i < |t.sources| ==> t.sources[i].serial < |t.handlers| && t.sources[i].handler == t.handlers[t.sources[i].serial])
    && (forall i, j :: 0 <= i < j < |t.sources| ==> t.sources[i].serial != t.sources[j].serial)
    && (forall i :: 0 <= i < |t.ends| ==> t.ends[i].0 < |t.handlers| && (t.ends[i].1.Called? ==> t.ends[i].1.handler == t.handlers[t.ends[i].0]))
    && (forall i, j :: 0 <= i < j < |t.ends| ==> t.ends[i].0 != t.ends[j].0)
    && (forall i, j :: 0 <= i < |t.ends| && 0 <= j < |t.sources| ==> t.ends[i].0 != t.sources[j].serial)
    && |t.sources| + |t.ends| == |t.handlers|
  }

  ghost predicate Inv(t: Table) { Agree(t) && Once(t) }

  /** The table that `init` leaves is in order. */
  lemma EmptyInOrder()
    ensures Inv(EMPTY)
  {
  }

  lemma ArmAgrees(t: Table, h: int)
    requires Agree(t) && !Full(t)
    ensures Agree(Arm(t, h))
  {
    var u := Arm(t, h);
    var n := |t.sources|;
    assert u.sources[n].id == FirstFree(t.valid, 0);
    assert forall i :: 0 <= i < n ==> u.sources[i] == t.sources[i];
    forall id | id in u.valid ensures exists i :: 0 <= i < |u.sources| && u.sources[i].id == id {
      if id in t.valid {
        var i :| 0 <= i < n && t.sources[i].id == id;
        assert u.sources[i].id == id;
      }
    }
  }

  lemma ArmOnce(t: Table, h: int)
    requires Once(t)
    ensures Once(Arm(t, h))
  {
  }

  lemma ArmKeeps(t: Table, h: int)
    requires Inv(t)
    ensures Inv(Arm(t, h))
  {
    if !Full(t) { ArmAgrees(t, h); }
    ArmOnce(t, h);
    hide Agree, Once;
  }

  /** Where the sources that stay were before. */
  lemma WithoutFacts(ss: seq<Source>, k: nat)
    requires k < |ss|
    ensures |Without(ss, k)| == |ss| - 1
    ensures forall i :: 0 <= i < |ss| - 1 ==> Without(ss, k)[i] == ss[if i < k then i else i + 1]
  {
  }

  /** Ending the k-th timer keeps the rest in order. */
  lemma EndAgrees(t: Table, k: nat, e: End)
    requires Agree(t) && k < |t.sources|
    ensures Agree(EndAt(Freed(t, t.sources[k].id), k, e))
  {
    var u := EndAt(Freed(t, t.sources[k].id), k, e);
    WithoutFacts(t.sources, k);
    hide Without;
    forall id | id in u.valid ensures exists i :: 0 <= i < |u.sources| && u.sources[i].id == id {
      var i :| 0 <= i < |t.sources| && t.sources[i].id == id;
      assert u.sources[if i < k then i else i - 1] == t.sources[i];
    }
  }

  lemma EndOnce(t: Table, k: nat, e: End)
    requires Once(t) && k < |t.sources| && (e.Called? ==> e.handler == t.sources[k].handler)
    ensures Once(EndAt(Freed(t, t.sources[k].id), k, e))
  {
    WithoutFacts(t.sources, k);
    hide Without;
  }

  lemma EndKeeps(t: Table, k: nat, e: End)
    requires Inv(t) && k < |t.sources| && (e.Called? ==> e.handler == t.sources[k].handler)
    ensures Inv(EndAt(Freed(t, t.sources[k].id), k, e))
  {
    EndAgrees(t, k, e);
    EndOnce(t, k, e);
    hide Agree, Once;
  }

  lemma DeleteKeeps(t: Table, id: int)
    requires Inv(t)
    ensures Inv(Delete(t, id))
  {
    var k := Find(t.sources, id);
    if k < |t.sources| {
      EndKeeps(t, k, Deleted);
      hide Inv;
    } else {
      assert Freed(t, id).valid == t.valid;
    }
  }

  lemma DoKeeps(t: Table, op: Op)
    requires Inv(t)
    ensures Inv(Do(t, op))
  {
    match op
    case Add(h) => ArmKeeps(t, h);
    case Del(id) => DeleteKeeps(t, id);
    case Expire(id) =>
  }

  lemma {:induction false} DoAllKeeps(t: Table, ops: seq<Op>)
    requires Inv(t)
    ensures Inv(DoAll(t, ops))
    decreases ops
  {
    if ops != [] {
      DoKeeps(t, ops[0]);
      DoAllKeeps(Do(t, ops[0]), ops[1..]);
    }
  }

  // ------------------------------------------------------------------------ erase after = erase before

  ghost predicate OnlyAt(ss: seq<Source>, x: Source) {
    x in ss && forall y :: y in ss && y.serial == x.serial ==> y == x
  }

  lemma {:induction false} EraseIsWithout(ss: seq<Source>, k: nat)
    requires k < |ss| && forall i :: 0 <= i < k ==> ss[i].serial != ss[k].serial
    ensures Erase(ss, ss[k].serial) == Without(ss, k)
  {
    if k > 0 {
      EraseIsWithout(ss[1..], k - 1);
      assert Without(ss, k) == [ss[0]] + Without(ss[1..], k - 1);
    }
  }

  lemma {:induction false} EraseAppend(ss: seq<Source>, x: Source, y: Source)
    requires x in ss
    ensures Erase(ss + [y], x.serial) == Erase(ss, x.serial) + [y]
  {
    assert (ss + [y])[1..] == ss[1..] + [y];
    if ss[0].serial != x.serial {
      EraseAppend(ss[1..], x, y);
    }
  }

  function DropFirst(ss: seq<Source>, id: int): seq<Source> {
    if ss == [] then []
    else if ss[0].id == id then ss[1..]
    else [ss[0]] + DropFirst(ss[1..], id)
  }

  lemma {:induction false} DropFirstIsWithout(ss: seq<Source>, id: int)
    ensures var k := Find(ss, id); DropFirst(ss, id) == if k < |ss| then Without(ss, k) else ss
    ensures forall y :: y in ss && y.id != id ==> y in DropFirst(ss, id)
    ensures forall y :: y in DropFirst(ss, id) ==> y in ss
  {
    if ss != [] && ss[0].id != id {
      DropFirstIsWithout(ss[1..], id);
      var k := Find(ss[1..], id);
      if k < |ss[1..]| {
        assert Without(ss, k + 1) == [ss[0]] + Without(ss[1..], k);
      }
    }
  }

  lemma {:induction false} EraseThenDrop(ss: seq<Source>, n: nat, id: int)
    requires forall y :: y in ss && y.serial == n ==> y.id != id
    ensures Erase(DropFirst(ss, id), n) == DropFirst(Erase(ss, n), id)
  {
    if ss != [] {
      assert ss[0] in ss;
      if ss[0].serial != n && ss[0].id != id {
        EraseThenDrop(ss[1..], n, id);
        assert DropFirst(ss, id)[1..] == DropFirst(ss[1..], id);
        assert Erase(ss, n)[1..] == Erase(ss[1..], n);
      } else if ss[0].serial == n {
        assert DropFirst(ss, id)[1..] == DropFirst(ss[1..], id);
      } else {
        assert Erase(ss, n)[1..] == Erase(ss[1..], n);
      }
    }
  }

  /** The first source for a slot, as a sequence of at most one. */
  function First(ss: seq<Source>, id: int): seq<Source> {
    if ss == [] then [] else if ss[0].id == id then [ss[0]] else First(ss[1..], id)
  }

  lemma {:induction false} FirstIsFound(ss: seq<Source>, id: int)
    ensures var k := Find(ss, id); First(ss, id) == if k < |ss| then [ss[k]] else []
  {
    if ss != [] && ss[0].id != id { FirstIsFound(ss[1..], id); }
  }

  lemma {:induction false} EraseThenFirst(ss: seq<Source>, n: nat, id: int)
    requires forall y :: y in ss && y.serial == n ==> y.id != id
    ensures First(Erase(ss, n), id) == First(ss, id)
  {
    if ss != [] {
      assert ss[0] in ss && forall y :: y in ss[1..] ==> y in ss;
      if ss[0].serial != n {
        EraseThenFirst(ss[1..], n, id);
        assert Erase(ss, n) == [ss[0]] + Erase(ss[1..], n);
        assert ([ss[0]] + Erase(ss[1..], n))[1..] == Erase(ss[1..], n);
        hide Erase;
      }
    }
  }

  /** The first source of another slot is the same source whether or not the one being dispatched has been
      erased. */
  lemma EraseThenFind(ss: seq<Source>, n: nat, id: int)
    requires forall y :: y in ss && y.serial == n ==> y.id != id
    ensures var k, j := Find(ss, id), Find(Erase(ss, n), id);
      && (k < |ss| <==> j < |Erase(ss, n)|)
      && (k < |ss| ==> ss[k] == Erase(ss, n)[j])
  {
    EraseThenFirst(ss, n, id);
    FirstIsFound(ss, id);
    FirstIsFound(Erase(ss, n), id);
    hide Erase, Find, First;
    var k, j := Find(ss, id), Find(Erase(ss, n), id);
    assert k < |ss| && j < |Erase(ss, n)| ==> [ss[k]][0] == [Erase(ss, n)[j]][0];
  }

  /** `u` still holds the source `x` of the timer being dispatched; `v` has it erased. */
  ghost predicate InFlight(u: Table, v: Table, x: Source) {
    && OnlyAt(u.sources, x) && x.serial < |u.handlers|
    && v == u.(sources := Erase(u.sources, x.serial))
  }

  lemma InFlightStep(u: Table, v: Table, x: Source, op: Op)
    requires InFlight(u, v, x) && op != Del(x.id)
    ensures InFlight(Do(u, op), Do(v, op), x)
  {
    match op
    case Add(h) =>
      if !Full(u) { EraseAppend(u.sources, x, Source(h, FirstFree(u.valid, 0), |u.handlers|)); }
    case Del(id) =>
      EraseThenFind(u.sources, x.serial, id);
      EraseThenDrop(u.sources, x.serial, id);
      DropFirstIsWithout(u.sources, id);
      DropFirstIsWithout(v.sources, id);
    case Expire(id) =>
  }

  lemma {:induction false} InFlightRun(u: Table, v: Table, x: Source, ops: seq<Op>)
    requires InFlight(u, v, x) && Del(x.id) !in ops
    ensures InFlight(DoAll(u, ops), DoAll(v, ops), x)
    decreases ops
  {
    if ops != [] {
      InFlightStep(u, v, x, ops[0]);
      InFlightRun(Do(u, ops[0]), Do(v, ops[0]), x, ops[1..]);
    }
  }

  /** Provided the callback does not delete the slot being dispatched, erasing the source after the
      callback is the same as erasing it before: whatever the callback arms, even in the slot just
      freed, survives. */
  lemma DispatchErasesItsOwnSource(t: Table, id: int, ops: seq<Op>)
    requires Inv(t) && Expired(t, id) && Del(id) !in ops
    ensures var k := Find(t.sources, id);
      && k < |t.sources|
      && Dispatch(t, id, ops) == DoAll(EndAt(Freed(t, id), k, Called(t.sources[k].handler)), ops)
  {
    var k := Find(t.sources, id);
    var x := t.sources[k];
    var u := Freed(t, id).(ends := t.ends + [(x.serial, Called(x.handler))]);
    var v := EndAt(Freed(t, id), k, Called(x.handler));
    EraseIsWithout(t.sources, k);
    assert OnlyAt(u.sources, x);
    InFlightRun(u, v, x, ops);
  }

  // ------------------------------------------------------------------------ one pass over the slots

  /** Slot `id` in the dispatch loop; its callback, if it is called, does `ops`. */
  function Visit(t: Table, id: int, ops: seq<Op>): Table {
    if Expired(t, id) then Dispatch(t, id, ops) else t
  }

  /** The dispatch loop up to slot `n`; `scripts[i]` is what the callback of slot i does. */
  function DispatchTo(t: Table, n: nat, scripts: seq<seq<Op>>): Table
    requires n <= |scripts|
  {
    if n == 0 then t else Visit(DispatchTo(t, n - 1, scripts), n - 1, scripts[n - 1])
  }

  /** A script for each slot that the loop looks at; no callback deletes its own slot. */
  ghost predicate Lawful(scripts: seq<seq<Op>>) {
    |scripts| == DISPATCHED && forall i :: 0 <= i < DISPATCHED ==> Del(i) !in scripts[i]
  }

  lemma VisitKeeps(t: Table, id: int, ops: seq<Op>)
    requires Inv(t) && Del(id) !in ops
    ensures Inv(Visit(t, id, ops))
  {
    if Expired(t, id) {
      DispatchErasesItsOwnSource(t, id, ops);
      var k := Find(t.sources, id);
      EndKeeps(t, k, Called(t.sources[k].handler));
      DoAllKeeps(EndAt(Freed(t, id), k, Called(t.sources[k].handler)), ops);
    }
    hide Inv, Dispatch;
  }

  /** A pass over the slots keeps the table in order. */
  lemma {:induction false} PassKeeps(t: Table, n: nat, scripts: seq<seq<Op>>)
    requires Inv(t) && Lawful(scripts) && n <= DISPATCHED
    ensures Inv(DispatchTo(t, n, scripts))
  {
    hide Inv, Visit;
    if n > 0 {
      PassKeeps(t, n - 1, scripts);
      VisitKeeps(DispatchTo(t, n - 1, scripts), n - 1, scripts[n - 1]);
    }
  }

  // ------------------------------------------------------------------------ what happens to one timer

  lemma StaysThrough(t: Table, op: Op, x: Source)
    requires x in t.sources && op != Del(x.id)
    ensures x in Do(t, op).sources
  {
    hide FirstFree;
    if op.Del? { DropFirstIsWithout(t.sources, op.id); }
  }

  lemma {:induction false} StaysThroughAll(t: Table, ops: seq<Op>, x: Source)
    requires x in t.sources && Del(x.id) !in ops
    ensures x in DoAll(t, ops).sources
    decreases ops
  {
    if ops != [] {
      StaysThrough(t, ops[0], x);
      StaysThroughAll(Do(t, ops[0]), ops[1..], x);
    }
  }

  /** The timer is armed and has expired. */
  predicate Due(t: Table, x: Source) { x in t.sources && x.id in t.fired }

  lemma DueThrough(t: Table, op: Op, x: Source)
    requires Inv(t) && Due(t, x) && op != Del(x.id)
    ensures Due(Do(t, op), x)
  {
    StaysThrough(t, op, x);
    assert x.id in t.valid;
    hide FirstFree, Inv;
  }

  lemma {:induction false} DueThroughAll(t: Table, ops: seq<Op>, x: Source)
    requires Inv(t) && Due(t, x) && Del(x.id) !in ops
    ensures Due(DoAll(t, ops), x)
    decreases ops
  {
    if ops != [] {
      DueThrough(t, ops[0], x);
      DoKeeps(t, ops[0]);
      hide Inv, Do, Due;
      DueThroughAll(Do(t, ops[0]), ops[1..], x);
    }
  }

  /** Nothing that has ended is forgotten. */
  lemma {:induction false} EndsGrow(t: Table, ops: seq<Op>)
    ensures t.ends <= DoAll(t, ops).ends
    decreases ops
  {
    hide FirstFree;
    if ops != [] {
      EndsGrow(Do(t, ops[0]), ops[1..]);
      assert t.ends <= Do(t, ops[0]).ends;
      hide Do;
    }
  }

  lemma EndsGrowInVisit(t: Table, id: int, ops: seq<Op>)
    ensures t.ends <= Visit(t, id, ops).ends
  {
    if Expired(t, id) && Find(t.sources, id) < |t.sources| {
      var x := t.sources[Find(t.sources, id)];
      var u := Freed(t, id).(ends := t.ends + [(x.serial, Called(x.handler))]);
      EndsGrow(u, ops);
      assert t.ends <= u.ends;
      hide DoAll;
    }
  }

  lemma {:induction false} EndsGrowInPass(t: Table, m: nat, n: nat, scripts: seq<seq<Op>>)
    requires m <= n <= |scripts|
    ensures DispatchTo(t, m, scripts).ends <= DispatchTo(t, n, scripts).ends
  {
    hide Visit;
    if m < n {
      EndsGrowInPass(t, m, n - 1, scripts);
      EndsGrowInVisit(DispatchTo(t, n - 1, scripts), n - 1, scripts[n - 1]);
    }
  }

  lemma TheSourceOf(t: Table, x: Source)
    requires Agree(t) && x in t.sources
    ensures Find(t.sources, x.id) < |t.sources| && t.sources[Find(t.sources, x.id)] == x
  {
    var i :| 0 <= i < |t.sources| && t.sources[i] == x;
    hide Find;
    assert Find(t.sources, x.id) <= i;
  }

  /** Deleting an armed timer ends it. */
  lemma DeleteEnds(t: Table, x: Source)
    requires Agree(t) && x in t.sources
    ensures (x.serial, Deleted) in Delete(t, x.id).ends
  {
    TheSourceOf(t, x);
    hide Find;
  }

  /** A callback that deletes an armed timer ends it so. */
  lemma {:induction false} DeletedBy(t: Table, ops: seq<Op>, x: Source)
    requires Inv(t) && x in t.sources && Del(x.id) in ops
    ensures (x.serial, Deleted) in DoAll(t, ops).ends
    decreases ops
  {
    var u := Do(t, ops[0]);
    if ops[0] == Del(x.id) {
      DeleteEnds(t, x);
      EndsGrow(u, ops[1..]);
      hide Do;
    } else {
      StaysThrough(t, ops[0], x);
      DoKeeps(t, ops[0]);
      hide Do, Inv;
      DeletedBy(u, ops[1..], x);
    }
  }

  /** The table in which the callback of an expired slot runs, once its own source is out of the way. */
  function Underway(t: Table, id: int): Table
    requires Find(t.sources, id) < |t.sources|
  {
    EndAt(Freed(t, id), Find(t.sources, id), Called(t.sources[Find(t.sources, id)].handler))
  }

  /** Another slot's dispatch: the timer `x` is still there when that callback runs. */
  lemma UnderwayKeeps(t: Table, id: int, x: Source)
    requires Inv(t) && Expired(t, id) && x in t.sources && x.id != id
    ensures Find(t.sources, id) < |t.sources| && Inv(Underway(t, id)) && x in Underway(t, id).sources
    ensures x.id in t.fired ==> Due(Underway(t, id), x)
  {
    var k := Find(t.sources, id);
    assert k < |t.sources| by { hide Find; var i :| 0 <= i < |t.sources| && t.sources[i].id == id; }
    EndKeeps(t, k, Called(t.sources[k].handler));
    DropFirstIsWithout(t.sources, id);
    hide Inv, Find, DropFirst, Without;
  }

  lemma VisitIsUnderway(t: Table, id: int, ops: seq<Op>)
    requires Inv(t) && Expired(t, id) && Del(id) !in ops
    ensures Find(t.sources, id) < |t.sources| && Visit(t, id, ops) == DoAll(Underway(t, id), ops)
  {
    DispatchErasesItsOwnSource(t, id, ops);
    hide Dispatch, DoAll, Inv;
  }

  /** Another slot's visit leaves a due timer due, unless its callback deletes it. */
  lemma DueThroughVisit(t: Table, id: int, ops: seq<Op>, x: Source)
    requires Inv(t) && Due(t, x) && x.id != id && Del(id) !in ops
    ensures var u := Visit(t, id, ops);
      if Expired(t, id) && Del(x.id) in ops then (x.serial, Deleted) in u.ends else Due(u, x)
  {
    if Expired(t, id) {
      VisitIsUnderway(t, id, ops);
      UnderwayKeeps(t, id, x);
      hide Underway, DoAll, Inv, Visit;
      if Del(x.id) in ops { DeletedBy(Underway(t, id), ops, x); } else { DueThroughAll(Underway(t, id), ops, x); }
    }
  }

  /** A due timer whose slot is visited is called. */
  lemma VisitCalls(t: Table, ops: seq<Op>, x: Source)
    requires Inv(t) && Due(t, x) && Del(x.id) !in ops
    ensures (x.serial, Called(x.handler)) in Visit(t, x.id, ops).ends
  {
    assert Expired(t, x.id);
    VisitIsUnderway(t, x.id, ops);
    TheSourceOf(t, x);
    EndsGrow(Underway(t, x.id), ops);
    var es := Underway(t, x.id).ends;
    assert es[|t.ends|] == (x.serial, Called(x.handler));
    hide Inv, DoAll, Visit, Find;
  }

  /** Some slot below `n` is dispatched in the pass and its callback deletes slot `id`. */
  ghost predicate DeletedBefore(t: Table, n: nat, scripts: seq<seq<Op>>, id: int)
    requires n <= |scripts|
  {
    exists i :: 0 <= i < n && Expired(DispatchTo(t, i, scripts), i) && Del(id) in scripts[i]
  }

  lemma DeletedBeforeStep(t: Table, n: nat, scripts: seq<seq<Op>>, id: int)
    requires 0 < n <= |scripts|
    ensures DeletedBefore(t, n, scripts, id) <==>
      DeletedBefore(t, n - 1, scripts, id) || (Expired(DispatchTo(t, n - 1, scripts), n - 1) && Del(id) in scripts[n - 1])
  {
    hide DispatchTo, Expired;
  }

  /** Up to its own slot, a timer due before the pass is due, or was deleted by a callback of the pass. */
  lemma {:induction false} DueUntilDeleted(t: Table, n: nat, scripts: seq<seq<Op>>, x: Source)
    requires Inv(t) && Due(t, x) && Lawful(scripts) && n <= DISPATCHED && n <= x.id
    ensures var u := DispatchTo(t, n, scripts);
      if DeletedBefore(t, n, scripts, x.id) then (x.serial, Deleted) in u.ends else Due(u, x)
  {
    hide Inv, Visit, Due, Expired, DeletedBefore;
    if n == 0 {
      NothingDeletedYet(t, scripts, x.id);
    } else {
      var u := DispatchTo(t, n - 1, scripts);
      DueUntilDeleted(t, n - 1, scripts, x);
      PassKeeps(t, n - 1, scripts);
      DeletedBeforeStep(t, n, scripts, x.id);
      assert DispatchTo(t, n, scripts) == Visit(u, n - 1, scripts[n - 1]);
      hide DispatchTo;
      EndsGrowInVisit(u, n - 1, scripts[n - 1]);
      if !DeletedBefore(t, n - 1, scripts, x.id) { DueThroughVisit(u, n - 1, scripts[n - 1], x); }
    }
  }

  lemma NothingDeletedYet(t: Table, scripts: seq<seq<Op>>, id: int)
    ensures !DeletedBefore(t, 0, scripts, id)
  {
  }

  lemma EndedOnce(t: Table, serial: nat, handler: int)
    requires Once(t) && ((serial, Deleted) in t.ends || exists x :: x in t.sources && x.serial == serial)
    ensures (serial, Called(handler)) !in t.ends
  {
  }

  lemma CalledInItsTurn(t: Table, scripts: seq<seq<Op>>, x: Source)
    requires Inv(t) && Lawful(scripts) && 0 <= x.id < DISPATCHED && Due(DispatchTo(t, x.id, scripts), x)
    ensures (x.serial, Called(x.handler)) in DispatchTo(t, DISPATCHED, scripts).ends
  {
    hide Inv, Visit, Due;
    var n: nat, end: nat := x.id, DISPATCHED;
    PassKeeps(t, n, scripts);
    assert DispatchTo(t, n + 1, scripts) == Visit(DispatchTo(t, n, scripts), n, scripts[n]);
    hide DispatchTo;
    VisitCalls(DispatchTo(t, n, scripts), scripts[n], x);
    EndsGrowInPass(t, n + 1, end, scripts);
  }

  lemma NotCalledLater(t: Table, n: nat, scripts: seq<seq<Op>>, x: Source)
    requires Inv(t) && Lawful(scripts) && n <= DISPATCHED
    requires var u := DispatchTo(t, n, scripts); (x.serial, Deleted) in u.ends || (n == DISPATCHED && Due(u, x))
    ensures (x.serial, Called(x.handler)) !in DispatchTo(t, DISPATCHED, scripts).ends
  {
    hide DispatchTo;
    var end: nat := DISPATCHED;
    PassKeeps(t, end, scripts);
    EndsGrowInPass(t, n, end, scripts);
    EndedOnce(DispatchTo(t, end, scripts), x.serial, x.handler);
  }

  /** A timer that has expired when a pass begins is called in it if and only if its slot is below 255 and no
      callback that the pass runs before deletes it. */
  lemma CalledIff(t: Table, scripts: seq<seq<Op>>, x: Source)
    requires Inv(t) && Due(t, x) && Lawful(scripts)
    ensures (x.serial, Called(x.handler)) in DispatchTo(t, DISPATCHED, scripts).ends <==>
      0 <= x.id < DISPATCHED && !DeletedBefore(t, x.id, scripts, x.id)
  {
    assert 0 <= x.id < SLOTS;
    hide Inv, Due, DispatchTo, DeletedBefore;
    var n: nat := if x.id < DISPATCHED then x.id else DISPATCHED;
    DueUntilDeleted(t, n, scripts, x);
    if x.id < DISPATCHED && !DeletedBefore(t, n, scripts, x.id) {
      CalledInItsTurn(t, scripts, x);
    } else {
      NotCalledLater(t, n, scripts, x);
    }
  }

  // ------------------------------------------------------------------------ whole runs

  /** The program, or a signal handler, does something; or the loop makes a pass over the slots. */
  datatype Event = Program(op: Op) | Pass(scripts: seq<seq<Op>>)

  ghost predicate Enabled(e: Event) { e.Pass? ==> Lawful(e.scripts) }

  function Apply(t: Table, e: Event): Table
    requires e.Pass? ==> |e.scripts| == DISPATCHED
  {
    match e
    case Program(op) => Do(t, op)
    case Pass(scripts) => DispatchTo(t, DISPATCHED, scripts)
  }

  ghost predicate Possible(es: seq<Event>) { forall e :: e in es ==> Enabled(e) }

  ghost function Run(t: Table, es: seq<Event>): Table
    requires Possible(es)
    decreases |es|
  {
    if es == [] then t
    else
      assert es[0] in es && forall e :: e in es[1..] ==> e in es;
      Run(Apply(t, es[0]), es[1..])
  }

  lemma ApplyKeeps(t: Table, e: Event)
    requires Inv(t) && Enabled(e)
    ensures Inv(Apply(t, e))
  {
    hide Inv;
    match e
    case Program(op) => DoKeeps(t, op);
    case Pass(scripts) => PassKeeps(t, DISPATCHED, scripts);
  }

  lemma {:induction false} RunKeeps(t: Table, es: seq<Event>)
    requires Inv(t) && Possible(es)
    ensures Inv(Run(t, es))
    decreases |es|
  {
    hide Inv;
    if es != [] {
      assert es[0] in es && forall e :: e in es[1..] ==> e in es;
      ApplyKeeps(t, es[0]);
      hide Apply, Enabled;
      RunKeeps(Apply(t, es[0]), es[1..]);
    }
  }

  /** From the empty table on, or any in order: between passes the sources are one to one with the valid
      slots, and over the whole run every timer armed is called at most once, with its own handler, and never
      after it was deleted. At most 256 timers are live, and 256 exactly when every slot is taken. */
  lemma TimersFireAtMostOnce(t: Table, es: seq<Event>)
    requires (t == EMPTY || Inv(t)) && Possible(es)
    ensures var u := Run(t, es);
      && Agree(u) && Once(u)
      && |u.sources| <= SLOTS
      && (|u.sources| == SLOTS <==> forall id :: 0 <= id < SLOTS ==> id in u.valid)
  {
    EmptyInOrder();
    RunKeeps(t, es);
    SlotsBound(Run(t, es));
    hide Agree, Once, Run;
  }

  // ------------------------------------------------------------------------ nothing fires early

  /** The timers that are armed in a slot. */
  function ArmedIn(ss: seq<Source>, id: int): set<nat> { set x | x in ss && x.id == id :: x.serial }

  /** The timers that expire, while armed, when this is done. */
  function ExpiredBy(t: Table, op: Op): set<nat> { if op.Expire? then ArmedIn(t.sources, op.id) else {} }

  function ExpiredByAll(t: Table, ops: seq<Op>): set<nat>
    decreases ops
  {
    if ops == [] then {} else ExpiredBy(t, ops[0]) + ExpiredByAll(Do(t, ops[0]), ops[1..])
  }

  /** Those that expire during a callback. */
  function ExpiredInVisit(t: Table, id: int, ops: seq<Op>): set<nat> {
    if Expired(t, id) && Find(t.sources, id) < |t.sources| then ExpiredByAll(Underway(t, id), ops) else {}
  }

  function ExpiredInPass(t: Table, n: nat, scripts: seq<seq<Op>>): set<nat>
    requires n <= |scripts|
  {
    if n == 0 then {}
    else ExpiredInPass(t, n - 1, scripts) + ExpiredInVisit(DispatchTo(t, n - 1, scripts), n - 1, scripts[n - 1])
  }

  function ExpiredAt(t: Table, e: Event): set<nat>
    requires e.Pass? ==> |e.scripts| == DISPATCHED
  {
    match e
    case Program(op) => ExpiredBy(t, op)
    case Pass(scripts) => ExpiredInPass(t, DISPATCHED, scripts)
  }

  /** The timers for whose slot there was an `Expire` in the run while they were armed. */
  ghost function ExpiredIn(t: Table, es: seq<Event>): set<nat>
    requires Possible(es)
    decreases |es|
  {
    if es == [] then {}
    else
      assert es[0] in es && forall e :: e in es[1..] ==> e in es;
      ExpiredAt(t, es[0]) + ExpiredIn(Apply(t, es[0]), es[1..])
  }

  /** Only timers in `x` are marked as fired or have been called. */
  ghost predicate OnlyExpired(t: Table, x: set<nat>) {
    && (forall y :: y in t.sources && y.id in t.fired ==> y.serial in x)
    && (forall e :: e in t.ends && e.1.Called? ==> e.0 in x)
  }

  lemma OnlyExpiredMore(t: Table, x: set<nat>, y: set<nat>)
    requires OnlyExpired(t, x) && x <= y
    ensures OnlyExpired(t, y)
  {
  }

  lemma DoExpires(t: Table, x: set<nat>, op: Op)
    requires OnlyExpired(t, x)
    ensures OnlyExpired(Do(t, op), x + ExpiredBy(t, op))
  {
    hide FirstFree, Find;
  }

  lemma {:induction false} DoAllExpires(t: Table, x: set<nat>, ops: seq<Op>)
    requires OnlyExpired(t, x)
    ensures OnlyExpired(DoAll(t, ops), x + ExpiredByAll(t, ops))
    decreases ops
  {
    hide OnlyExpired, Do, ExpiredBy;
    if ops == [] {
      assert x + {} == x;
    } else {
      var y, more := ExpiredBy(t, ops[0]), ExpiredByAll(Do(t, ops[0]), ops[1..]);
      DoExpires(t, x, ops[0]);
      DoAllExpires(Do(t, ops[0]), x + y, ops[1..]);
      assert x + y + more == x + (y + more);
    }
  }

  lemma UnderwayExpires(t: Table, x: set<nat>, id: int)
    requires OnlyExpired(t, x) && Expired(t, id) && Find(t.sources, id) < |t.sources|
    ensures OnlyExpired(Underway(t, id), x)
  {
    var y := t.sources[Find(t.sources, id)];
    assert y in t.sources && y.serial in x;
    hide Find;
  }

  lemma VisitExpires(t: Table, x: set<nat>, id: int, ops: seq<Op>)
    requires Inv(t) && OnlyExpired(t, x) && Del(id) !in ops
    ensures OnlyExpired(Visit(t, id, ops), x + ExpiredInVisit(t, id, ops))
  {
    if Expired(t, id) {
      VisitIsUnderway(t, id, ops);
      UnderwayExpires(t, x, id);
      hide OnlyExpired, Underway, Inv, Visit, Expired;
      DoAllExpires(Underway(t, id), x, ops);
    } else {
      assert x + {} == x;
    }
  }

  lemma {:induction false} PassExpires(t: Table, x: set<nat>, n: nat, scripts: seq<seq<Op>>)
    requires Inv(t) && OnlyExpired(t, x) && Lawful(scripts) && n <= DISPATCHED
    ensures OnlyExpired(DispatchTo(t, n, scripts), x + ExpiredInPass(t, n, scripts))
  {
    hide OnlyExpired, Inv, Visit, ExpiredInVisit;
    if n == 0 {
      assert x + {} == x;
    } else {
      var u := DispatchTo(t, n - 1, scripts);
      var y, more := ExpiredInPass(t, n - 1, scripts), ExpiredInVisit(u, n - 1, scripts[n - 1]);
      PassKeeps(t, n - 1, scripts);
      PassExpires(t, x, n - 1, scripts);
      VisitExpires(u, x + y, n - 1, scripts[n - 1]);
      assert x + y + more == x + (y + more);
    }
  }

  lemma {:induction false} RunExpires(t: Table, x: set<nat>, es: seq<Event>)
    requires Inv(t) && OnlyExpired(t, x) && Possible(es)
    ensures OnlyExpired(Run(t, es), x + ExpiredIn(t, es))
    decreases |es|
  {
    hide OnlyExpired, Inv, ExpiredBy, ExpiredInPass, Do, DispatchTo;
    if es == [] {
      assert x + {} == x;
    } else {
      assert es[0] in es && forall e :: e in es[1..] ==> e in es;
      var u, y := Apply(t, es[0]), ExpiredAt(t, es[0]);
      match es[0] {
        case Program(op) => DoExpires(t, x, op);
        case Pass(scripts) => var end: nat := DISPATCHED; PassExpires(t, x, end, scripts);
      }
      ApplyKeeps(t, es[0]);
      RunExpires(u, x + y, es[1..]);
      assert x + y + ExpiredIn(u, es[1..]) == x + (y + ExpiredIn(u, es[1..]));
    }
  }

  /** Over every run from the empty table: a timer that was called had expired before, while it was armed. */
  lemma CalledOnlyIfExpired(es: seq<Event>, serial: nat, handler: int)
    requires Possible(es) && (serial, Called(handler)) in Run(EMPTY, es).ends
    ensures serial in ExpiredIn(EMPTY, es)
  {
    EmptyInOrder();
    assert OnlyExpired(EMPTY, {});
    RunExpires(EMPTY, {}, es);
    hide Run, ExpiredIn;
  }

  /** A timer that is armed and has not expired. */
  predicate Pending(t: Table, x: Source) { x in t.sources && x.id !in t.fired }

  lemma {:induction false} PendingThroughAll(t: Table, ops: seq<Op>, x: Source)
    requires Pending(t, x) && Del(x.id) !in ops && Expire(x.id) !in ops
    ensures Pending(DoAll(t, ops), x)
    decreases ops
  {
    if ops != [] {
      PendingThrough(t, ops[0], x);
      hide Pending, Do;
      PendingThroughAll(Do(t, ops[0]), ops[1..], x);
    }
  }

  lemma PendingThrough(t: Table, op: Op, x: Source)
    requires Pending(t, x) && op != Del(x.id) && op != Expire(x.id)
    ensures Pending(Do(t, op), x)
  {
    StaysThrough(t, op, x);
    hide FirstFree, Find;
  }

  lemma PendingThroughVisit(t: Table, id: int, ops: seq<Op>, x: Source)
    requires Inv(t) && Pending(t, x) && Del(id) !in ops && Del(x.id) !in ops && Expire(x.id) !in ops
    ensures Pending(Visit(t, id, ops), x)
  {
    if Expired(t, id) {
      VisitIsUnderway(t, id, ops);
      UnderwayKeeps(t, id, x);
      assert Underway(t, id).fired <= t.fired by { hide Find; }
      hide Underway, DoAll, Inv, Visit;
      PendingThroughAll(Underway(t, id), ops, x);
    }
  }

  /** A pass leaves a timer alone that has not expired, if no callback expires or deletes it. */
  lemma {:induction false} UnexpiredStays(t: Table, n: nat, scripts: seq<seq<Op>>, x: Source)
    requires Inv(t) && x in t.sources && x.id !in t.fired && Lawful(scripts) && n <= DISPATCHED
    requires forall s :: s in scripts ==> Del(x.id) !in s && Expire(x.id) !in s
    ensures var u := DispatchTo(t, n, scripts); x in u.sources && x.id !in u.fired
  {
    if n > 0 {
      UnexpiredStays(t, n - 1, scripts, x);
      PassKeeps(t, n - 1, scripts);
      assert scripts[n - 1] in scripts;
      hide Inv, Visit;
      PendingThroughVisit(DispatchTo(t, n - 1, scripts), n - 1, scripts[n - 1], x);
    }
  }

  // ------------------------------------------------------------------------ how many there can be

  lemma {:induction false} SubsetCount(a: set<int>, b: set<int>)
    requires a <= b
    ensures |a| <= |b| && (|a| == |b| <==> a == b)
  {
    assert (forall x :: x !in a) ==> a == {};
    if a != {} {
      var x :| x in a;
      SubsetCount(a - {x}, b - {x});
      assert a == b <==> a - {x} == b - {x};
    }
  }

  function AllSlots(n: nat): (s: set<int>)
    ensures |s| == n && forall x :: x in s <==> 0 <= x < n
  {
    if n == 0 then {} else AllSlots(n - 1) + {n - 1}
  }

  function IdsOf(ss: seq<Source>): (s: set<int>)
    ensures forall id :: id in s <==> exists i :: 0 <= i < |ss| && ss[i].id == id
  {
    set i | 0 <= i < |ss| :: ss[i].id
  }

  lemma {:induction false} IdsCount(ss: seq<Source>)
    requires forall i, j :: 0 <= i < j < |ss| ==> ss[i].id != ss[j].id
    ensures |IdsOf(ss)| == |ss|
  {
    if ss != [] {
      var n := |ss| - 1;
      IdsCount(ss[..n]);
      assert IdsOf(ss) == IdsOf(ss[..n]) + {ss[n].id};
    }
  }

  lemma SlotsBound(t: Table)
    requires Agree(t)
    ensures |t.sources| <= SLOTS
    ensures |t.sources| == SLOTS <==> forall id :: 0 <= id < SLOTS ==> id in t.valid
  {
    IdsCount(t.sources);
    var ids := IdsOf(t.sources);
    assert forall id :: id in ids <==> id in t.valid;
    assert forall id :: id in ids ==> 0 <= id < SLOTS;
    hide Agree, IdsOf;
    CountOf(ids, SLOTS);
  }

  lemma CountOf(ids: set<int>, n: nat)
    requires forall id :: id in ids ==> 0 <= id < n
    ensures |ids| <= n && (|ids| == n <==> forall id :: 0 <= id < n ==> id in ids)
  {
    SubsetCount(ids, AllSlots(n));
    assert ids == AllSlots(n) <==> forall id :: 0 <= id < n ==> id in ids;
  }

  // ------------------------------------------------------------------------ the slot past the end

  ghost predicate Deletes(e: Event, id: int) {
    match e
    case Program(op) => op == Del(id)
    case Pass(scripts) => exists s :: s in scripts && Del(id) in s
  }

  lemma StaysThroughVisit(t: Table, id: int, ops: seq<Op>, x: Source)
    requires Inv(t) && x in t.sources && x.id != id && Del(id) !in ops && Del(x.id) !in ops
    ensures x in Visit(t, id, ops).sources
  {
    if Expired(t, id) {
      VisitIsUnderway(t, id, ops);
      UnderwayKeeps(t, id, x);
      hide Underway, DoAll, Inv, Visit;
      StaysThroughAll(Underway(t, id), ops, x);
    }
  }

  lemma {:induction false} StaysThroughPass(t: Table, n: nat, scripts: seq<seq<Op>>, x: Source)
    requires Inv(t) && x in t.sources && Lawful(scripts) && n <= DISPATCHED == x.id
    requires forall s :: s in scripts ==> Del(x.id) !in s
    ensures x in DispatchTo(t, n, scripts).sources
  {
    if n > 0 {
      StaysThroughPass(t, n - 1, scripts, x);
      PassKeeps(t, n - 1, scripts);
      assert scripts[n - 1] in scripts;
      hide Inv, Visit;
      StaysThroughVisit(DispatchTo(t, n - 1, scripts), n - 1, scripts[n - 1], x);
    }
  }

  /** A timer that was given slot 255 is never called: however long the loop runs and however often it
      expires, it stays armed until the program deletes it. */
  lemma {:induction false} LastSlotNeverFires(t: Table, es: seq<Event>, x: Source)
    requires Inv(t) && Possible(es) && x in t.sources && x.id == DISPATCHED
    requires forall e :: e in es ==> !Deletes(e, x.id)
    ensures x in Run(t, es).sources
    decreases |es|
  {
    hide Inv;
    if es != [] {
      assert es[0] in es && forall e :: e in es[1..] ==> e in es;
      match es[0] {
        case Program(op) => StaysThrough(t, op, x);
        case Pass(scripts) => StaysThroughPass(t, DISPATCHED, scripts, x);
      }
      ApplyKeeps(t, es[0]);
      LastSlotNeverFires(Apply(t, es[0]), es[1..], x);
    }
  }

  /** The program arms `n` timers, one after the other. */
  function Armed(n: nat): Table {
    if n == 0 then EMPTY else Arm(Armed(n - 1), 0)
  }

  /** With the first `n` slots taken, the next timer gets slot `n`. */
  lemma NextSlot(t: Table, n: nat)
    requires n < SLOTS && forall i :: i in t.valid <==> 0 <= i < n
    ensures FirstFree(t.valid, 0) == n
  {
    hide FirstFree;
    var id := FirstFree(t.valid, 0);
    assert id < SLOTS ==> id !in t.valid;
    assert n !in t.valid;
  }

  /** 256 timers can be live at once, one more than the code's limit; the last of them has slot 255. */
  lemma {:induction false} OneTimerTooMany(n: nat)
    requires n <= SLOTS
    ensures |Armed(n).sources| == n && forall i :: i in Armed(n).valid <==> 0 <= i < n
    ensures n > 0 ==> Armed(n).sources[n - 1].id == n - 1
  {
    hide FirstFree;
    if n > 0 {
      OneTimerTooMany(n - 1);
      NextSlot(Armed(n - 1), n - 1);
    }
  }

  // ------------------------------------------------------------------------ the code

  const E2BIG := 7
  const ENOENT := 2

  class TimerLoop {
    const valid: array<bool>
    const fired: array<bool>
    var sources: seq<Source>
    ghost var handlers: seq<int>
    ghost var ends: seq<(nat, End)>
    var serials: nat

    ghost predicate Valid()
      reads this
    {
      valid.Length == SLOTS && fired.Length == SLOTS && valid != fired && serials == |handlers|
    }

    ghost function Abs(): Table
      requires Valid()
      reads this, valid, fired
    {
      Table((set i | 0 <= i < SLOTS && valid[i]), (set i | 0 <= i < SLOTS && fired[i]), sources, handlers, ends)
    }

    constructor ()
      ensures Valid() && Abs() == EMPTY && fresh(valid) && fresh(fired)
    {
      valid := new bool[SLOTS](_ => false);
      fired := new bool[SLOTS](_ => false);
      sources, handlers, ends, serials := [], [], [], 0;
    }

    method AddTimer(handler: int) returns (entry: int)
      requires Valid()
      modifies this, valid, fired
      ensures Valid() && Abs() == Arm(old(Abs()), handler)
      ensures entry == if Full(old(Abs())) then -E2BIG else FirstFree(old(Abs()).valid, 0)
    {
      var i := 0;
      while i < SLOTS && valid[i]
        invariant 0 <= i <= SLOTS
        invariant FirstFree(Abs().valid, 0) == FirstFree(Abs().valid, i)
      {
        i := i + 1;
      }
      if i == SLOTS { return -E2BIG; }
      sources := sources + [Source(handler, i, serials)];
      handlers := handlers + [handler];
      serials := serials + 1;
      fired[i] := false;
      valid[i] := true;
      return i;
    }

    /** Returns -ENOENT whether or not there was such a timer, as the code does. */
    method DelTimer(id: int) returns (r: int)
      requires Valid() && 0 <= id < SLOTS
      modifies this, valid, fired
      ensures Valid() && Abs() == Delete(old(Abs()), id) && r == -ENOENT
    {
      var k := 0;
      while k < |sources| && sources[k].id != id
        invariant 0 <= k <= |sources|
        invariant forall i :: 0 <= i < k ==> sources[i].id != id
      {
        k := k + 1;
      }
      if k < |sources| {
        ends := ends + [(sources[k].serial, Deleted)];
        sources := sources[..k] + sources[k + 1..];
      }
      fired[id] := false;
      valid[id] := false;
      return -ENOENT;
    }

    /** `sigHandler` for SIGALRM. */
    method Expire(id: int)
      requires Valid() && 0 <= id < SLOTS
      modifies fired
      ensures Valid() && Abs() == Do(old(Abs()), Op.Expire(id))
    {
      fired[id] := true;
    }

    method RunCallback(ops: seq<Op>)
      requires Valid() && forall op :: op in ops && !op.Add? ==> 0 <= op.id < SLOTS
      modifies this, valid, fired
      ensures Valid() && Abs() == DoAll(old(Abs()), ops)
    {
      var i := 0;
      while i < |ops|
        invariant 0 <= i <= |ops| && Valid()
        invariant DoAll(Abs(), ops[i..]) == DoAll(old(Abs()), ops)
      {
        match ops[i] {
          case Add(h) => var _ := AddTimer(h);
          case Del(id) => var _ := DelTimer(id);
          case Expire(id) => Expire(id);
        }
        i := i + 1;
      }
    }

    method DispatchTimers(scripts: seq<seq<Op>>)
      requires Valid() && |scripts| == DISPATCHED
      requires forall s, op :: s in scripts && op in s && !op.Add? ==> 0 <= op.id < SLOTS
      modifies this, valid, fired
      ensures Valid() && Abs() == DispatchTo(old(Abs()), DISPATCHED, scripts)
    {
      var id := 0;
      while id < DISPATCHED
        invariant 0 <= id <= DISPATCHED && Valid()
        invariant Abs() == DispatchTo(old(Abs()), id, scripts)
      {
        if valid[id] && fired[id] {
          DispatchSlot(id, scripts[id]);
        }
        id := id + 1;
      }
    }

    method DispatchSlot(id: int, ops: seq<Op>)
      requires Valid() && 0 <= id < DISPATCHED
      requires forall op :: op in ops && !op.Add? ==> 0 <= op.id < SLOTS
      modifies this, valid, fired
      ensures Valid() && Abs() == Dispatch(old(Abs()), id, ops)
    {
      fired[id] := false;
      valid[id] := false;
      var k := 0;
      while k < |sources| && sources[k].id != id
        invariant 0 <= k <= |sources|
        invariant forall i :: 0 <= i < k ==> sources[i].id != id
      {
        k := k + 1;
      }
      assert Abs() == Freed(old(Abs()), id) && k == Find(sources, id);
      if k < |sources| {
        var x := sources[k];
        ends := ends + [(x.serial, Called(x.handler))];
        assert Abs() == Freed(old(Abs()), id).(ends := old(Abs()).ends + [(x.serial, Called(x.handler))]);
        RunCallback(ops);
        ghost var u := Abs();
        sources := Erase(sources, x.serial);
        assert Abs() == u.(sources := Erase(u.sources, x.serial));
      }
    }
  }
}
