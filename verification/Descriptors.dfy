/** The poll loop's descriptor tables, changed by handlers while the loop walks over them. */
module Descriptors {
  import opened Ucl

  /** What poll reported for a descriptor. */
  datatype Ready = Ready(readable: bool, hangup: bool, other: bool)

  const QUIET := Ready(false, false, false)

  datatype Entry = Entry(fd: int, revents: Ready)
  datatype Source = Source(handler: int, fd: int)
  datatype Tables = Tables(pfds: seq<Entry>, sources: seq<Source>)

  function EntryFds(es: seq<Entry>): (fds: seq<int>)
    ensures |fds| == |es| && forall i :: 0 <= i < |es| ==> fds[i] == es[i].fd
  {
    seq(|es|, i requires 0 <= i < |es| => es[i].fd)
  }

  function SourceFds(ss: seq<Source>): (fds: seq<int>)
    ensures |fds| == |ss| && forall i :: 0 <= i < |ss| ==> fds[i] == ss[i].fd
  {
    seq(|ss|, i requires 0 <= i < |ss| => ss[i].fd)
  }

  ghost predicate Distinct(s: seq<int>) {
    forall i, j :: 0 <= i < j < |s| ==> s[i] != s[j]
  }

  function RemoveFd(fds: seq<int>, fd: int): seq<int> {
    if fds == [] then [] else if fds[0] == fd then fds[1..] else [fds[0]] + RemoveFd(fds[1..], fd)
  }

  /** The first entry for `fd` goes and the rest moves up. */
  function RemoveEntry(es: seq<Entry>, fd: int): seq<Entry> {
    if es == [] then [] else if es[0].fd == fd then es[1..] else [es[0]] + RemoveEntry(es[1..], fd)
  }

  function RemoveSource(ss: seq<Source>, fd: int): seq<Source> {
    if ss == [] then [] else if ss[0].fd == fd then ss[1..] else [ss[0]] + RemoveSource(ss[1..], fd)
  }

  function Register(t: Tables, handler: int, fd: int): Tables {
    Tables(t.pfds + [Entry(fd, QUIET)], t.sources + [Source(handler, fd)])
  }

  function Deregister(t: Tables, fd: int): Tables {
    Tables(RemoveEntry(t.pfds, fd), RemoveSource(t.sources, fd))
  }

  // ------------------------------------------------------------------------ one pass of the loop

  /** What a handler does to the tables: it may remove its own descriptor, and add new ones. */
  datatype Act = Act(removesSelf: bool, adds: seq<int>)

  const IDLE := Act(false, [])

  function AddAll(t: Tables, handler: int, fds: seq<int>): Tables
    decreases fds
  {
    if fds == [] then t else AddAll(Register(t, handler, fds[0]), handler, fds[1..])
  }

  function Perform(t: Tables, fd: int, a: Act): Tables {
    AddAll(if a.removesSelf then Deregister(t, fd) else t, 0, a.adds)
  }

  function Quieten(t: Tables, i: nat): Tables {
    if i < |t.pfds| then t.(pfds := t.pfds[i := Entry(t.pfds[i].fd, QUIET)]) else t
  }

  function CountReady(es: seq<Entry>): nat {
    if es == [] then 0 else (if es[0].revents != QUIET then 1 else 0) + CountReady(es[1..])
  }

  /** A descriptor that was dispatched, and what its handler did. */
  datatype Visit = Visit(fd: int, act: Act)

  function Next(acts: seq<Act>): Act { if acts == [] then IDLE else acts[0] }
  function Later(acts: seq<Act>): seq<Act> { if acts == [] then [] else acts[1..] }

  /** The table after the handler of the i-th entry has run and the code has cleared `pFDs[i].revents`. */
  function After(t: Tables, i: nat, a: Act): Tables
    requires i < |t.pfds|
  {
    Quieten(Perform(t, t.pfds[i].fd, a), i)
  }

  function Quiets(fds: seq<int>): (es: seq<Entry>)
    ensures |es| == |fds| && forall k :: 0 <= k < |es| ==> es[k] == Entry(fds[k], QUIET)
  {
    seq(|fds|, k requires 0 <= k < |fds| => Entry(fds[k], QUIET))
  }

  function Tail<T>(s: seq<T>, n: nat): seq<T> {
    if n <= |s| then s[n..] else []
  }

  function Stride(a: Act): nat { if a.removesSelf then 2 else 1 }

  lemma {:induction false} AddAllAppends(t: Tables, h: int, fds: seq<int>)
    ensures AddAll(t, h, fds).pfds == t.pfds + Quiets(fds)
    ensures SourceFds(AddAll(t, h, fds).sources) == SourceFds(t.sources) + fds
    decreases fds
  {
    if fds != [] {
      AddAllAppends(Register(t, h, fds[0]), h, fds[1..]);
      assert Quiets(fds) == [Entry(fds[0], QUIET)] + Quiets(fds[1..]);
      assert fds == [fds[0]] + fds[1..];
    }
  }

  ghost predicate AllQuiet(es: seq<Entry>) {
    forall k :: 0 <= k < |es| ==> es[k].revents == QUIET
  }

  lemma {:induction false} RemoveShifts(es: seq<Entry>, i: nat)
    requires i < |es|
    ensures var r := RemoveEntry(es, es[i].fd); |r| == |es| - 1 && r[i..] == es[i + 1..]
  {
    if es[0].fd != es[i].fd {
      RemoveShifts(es[1..], i - 1);
    }
  }

  /** What the loop sees next: one entry further on, or two when the handler removed itself, and new
      entries at the end that poll has said nothing about. */
  lemma Advance(t: Tables, i: nat, a: Act) returns (quiet: seq<Entry>)
    requires i < |t.pfds|
    ensures AllQuiet(quiet) && Tail(After(t, i, a).pfds, i + 1) == Tail(t.pfds[i..], Stride(a)) + quiet
  {
    var u := if a.removesSelf then Deregister(t, t.pfds[i].fd) else t;
    RemoveShifts(t.pfds, i);
    AddAllAppends(u, 0, a.adds);
    TailOfQuieten(Perform(t, t.pfds[i].fd, a), i);
    quiet := TailOfConcat(u.pfds, Quiets(a.adds), i + 1);
    assert Tail(u.pfds, i + 1) == Tail(t.pfds[i..], Stride(a)) by {
      if a.removesSelf { assert Tail(u.pfds, i + 1) == Tail(u.pfds[i..], 1); }
    }
    hide Deregister, AddAll, Quieten, Tail;
  }

  lemma TailOfQuieten(t: Tables, i: nat)
    ensures Tail(Quieten(t, i).pfds, i + 1) == Tail(t.pfds, i + 1)
  {
  }

  lemma TailOfConcat(es: seq<Entry>, qs: seq<Entry>, n: nat) returns (quiet: seq<Entry>)
    requires AllQuiet(qs)
    ensures AllQuiet(quiet) && Tail(es + qs, n) == Tail(es, n) + quiet
  {
    if n <= |es| {
      quiet := qs;
    } else {
      quiet := Tail(qs, n - |es|);
    }
  }

  lemma {:induction false} CountConcat(es: seq<Entry>, quiet: seq<Entry>)
    requires AllQuiet(quiet)
    ensures CountReady(es + quiet) == CountReady(es)
    decreases |es| + |quiet|
  {
    if es != [] {
      CountConcat(es[1..], quiet);
      assert (es + quiet)[1..] == es[1..] + quiet;
    } else if quiet != [] {
      CountConcat([], quiet[1..]);
      assert es + quiet == quiet && [] + quiet[1..] == quiet[1..];
    }
  }

  lemma {:induction false} CountTail(es: seq<Entry>, n: nat)
    ensures CountReady(Tail(es, n)) <= CountReady(es)
  {
    if n > 0 && es != [] {
      CountTail(es[1..], n - 1);
      assert Tail(es, n) == Tail(es[1..], n - 1);
    }
  }

  /** The loop gets closer to its end even when handlers add entries. */
  lemma PassProgresses(t: Tables, i: nat, a: Act)
    requires i < |t.pfds| && t.pfds[i].revents != QUIET
    ensures CountReady(Tail(After(t, i, a).pfds, i + 1)) < CountReady(t.pfds[i..])
  {
    var q := Advance(t, i, a);
    var rest := t.pfds[i..];
    CountConcat(Tail(rest, Stride(a)), q);
    CountTail(rest[1..], Stride(a) - 1);
    assert Tail(rest, Stride(a)) == Tail(rest[1..], Stride(a) - 1);
    hide After;
  }

  /** The loop over `pFDs` from index i, as the code runs it; each handler called acts as the next
      element of `acts` says. */
  function Pass(t: Tables, i: nat, acts: seq<Act>): (r: (Tables, seq<Visit>))
    decreases CountReady(Tail(t.pfds, i)), |t.pfds| - i
  {
    if i >= |t.pfds| then (t, [])
    else if t.pfds[i].revents == QUIET then
      assert t.pfds[i..][1..] == t.pfds[i + 1..];
      Pass(t, i + 1, acts)
    else if t.pfds[i].fd in SourceFds(t.sources) then
      PassProgresses(t, i, Next(acts));
      var r := Pass(After(t, i, Next(acts)), i + 1, Later(acts));
      (r.0, [Visit(t.pfds[i].fd, Next(acts))] + r.1)
    else
      PassProgresses(t, i, IDLE);
      assert After(t, i, IDLE) == Quieten(t, i);
      Pass(Quieten(t, i), i + 1, acts)
  }

  // ------------------------------------------------------------------------ what a pass dispatches

  /** The tables hold the same descriptors in the same order, each once; entry 0 is the self-pipe. */
  ghost predicate Agreed(t: Tables) {
    && t.pfds != []
    && EntryFds(t.pfds) == [t.pfds[0].fd] + SourceFds(t.sources)
    && Distinct(EntryFds(t.pfds))
  }

  /** A descriptor that a handler adds is not in the tables at that moment: its number may be one that
      was removed before. */
  ghost predicate Lawful(t: Tables, i: nat, acts: seq<Act>)
    decreases CountReady(Tail(t.pfds, i)), |t.pfds| - i
  {
    if i >= |t.pfds| then true
    else if t.pfds[i].revents == QUIET then
      assert t.pfds[i..][1..] == t.pfds[i + 1..];
      Lawful(t, i + 1, acts)
    else
      PassProgresses(t, i, Next(acts));
      Distinct(EntryFds(After(t, i, Next(acts)).pfds)) && Lawful(After(t, i, Next(acts)), i + 1, Later(acts))
  }

  /** One ready entry of the pass. */
  lemma PassStep(t: Tables, i: nat, acts: seq<Act>)
    requires i < |t.pfds| && t.pfds[i].revents != QUIET && t.pfds[i].fd in SourceFds(t.sources)
    ensures var a, more := Next(acts), Later(acts); var u := After(t, i, a);
      && Pass(t, i, acts).0 == Pass(u, i + 1, more).0
      && Pass(t, i, acts).1 == [Visit(t.pfds[i].fd, a)] + Pass(u, i + 1, more).1
      && (Lawful(t, i, acts) <==> Distinct(EntryFds(u.pfds)) && Lawful(u, i + 1, more))
      && CountReady(Tail(u.pfds, i + 1)) < CountReady(Tail(t.pfds, i))
  {
    PassProgresses(t, i, Next(acts));
    hide After, CountReady, Distinct;
  }

  /** The entries visited, in terms of the table as it was before the pass: a handler that removes
      itself makes the loop step over the entry that follows. */
  function Visits(rest: seq<Entry>, acts: seq<Act>): seq<Visit>
    decreases |rest|
  {
    if rest == [] then []
    else if rest[0].revents == QUIET then Visits(rest[1..], acts)
    else [Visit(rest[0].fd, Next(acts))] + Visits(Tail(rest, Stride(Next(acts))), Later(acts))
  }

  lemma {:induction false} QuietEntriesAreNotVisited(rest: seq<Entry>, quiet: seq<Entry>, acts: seq<Act>)
    requires AllQuiet(quiet)
    ensures Visits(rest + quiet, acts) == Visits(rest, acts)
    decreases |rest| + |quiet|
  {
    if rest == [] {
      assert rest + quiet == quiet;
      if quiet != [] {
        QuietEntriesAreNotVisited([], quiet[1..], acts);
        assert [] + quiet[1..] == quiet[1..];
      }
    } else {
      var all, loud := rest + quiet, rest[0].revents != QUIET;
      var n, more := if loud then Stride(Next(acts)) else 1, if loud then Later(acts) else acts;
      var tail, quiet' := Tail(rest, n), if n <= |rest| then quiet else Tail(quiet, 1);
      assert Tail(all, n) == tail + quiet';
      assert AllQuiet(quiet');
      QuietEntriesAreNotVisited(tail, quiet', more);
      var first := if loud then [Visit(rest[0].fd, Next(acts))] else [];
      assert Visits(all, acts) == first + Visits(Tail(all, n), more) && Visits(rest, acts) == first + Visits(tail, more);
      hide Visits;
    }
  }

  lemma {:induction false} EntryFdsRemove(es: seq<Entry>, fd: int)
    ensures EntryFds(RemoveEntry(es, fd)) == RemoveFd(EntryFds(es), fd)
  {
    if es != [] {
      assert EntryFds(es)[1..] == EntryFds(es[1..]);
      if es[0].fd != fd { EntryFdsRemove(es[1..], fd); }
    }
  }

  lemma {:induction false} SourceFdsRemove(ss: seq<Source>, fd: int)
    ensures SourceFds(RemoveSource(ss, fd)) == RemoveFd(SourceFds(ss), fd)
  {
    if ss != [] {
      assert SourceFds(ss)[1..] == SourceFds(ss[1..]);
      if ss[0].fd != fd { SourceFdsRemove(ss[1..], fd); }
    }
  }

  lemma {:induction false} RemoveFdKeeps(fds: seq<int>, fd: int, other: int)
    requires other in fds && other != fd
    ensures other in RemoveFd(fds, fd)
  {
    if fds[0] != fd && fds[0] != other { RemoveFdKeeps(fds[1..], fd, other); }
  }

  /** Removing any descriptor but the self-pipe keeps the two tables in step. */
  lemma DeregisterInStep(t: Tables, fd: int)
    requires t.pfds != [] && EntryFds(t.pfds) == [t.pfds[0].fd] + SourceFds(t.sources) && fd != t.pfds[0].fd
    ensures var u := Deregister(t, fd);
      && u.pfds != [] && u.pfds[0] == t.pfds[0]
      && SourceFds(u.sources) == RemoveFd(SourceFds(t.sources), fd)
      && EntryFds(u.pfds) == [u.pfds[0].fd] + SourceFds(u.sources)
  {
    EntryFdsRemove(t.pfds, fd);
    SourceFdsRemove(t.sources, fd);
    assert EntryFds(t.pfds)[1..] == SourceFds(t.sources);
  }

  lemma AddAllInStep(t: Tables, fds: seq<int>)
    requires t.pfds != [] && EntryFds(t.pfds) == [t.pfds[0].fd] + SourceFds(t.sources)
    ensures var u := AddAll(t, 0, fds);
      u.pfds != [] && u.pfds[0] == t.pfds[0] && EntryFds(u.pfds) == [u.pfds[0].fd] + SourceFds(u.sources)
  {
    AddAllAppends(t, 0, fds);
    assert EntryFds(t.pfds + Quiets(fds)) == EntryFds(t.pfds) + fds;
  }

  lemma QuietenFds(t: Tables, i: nat)
    ensures EntryFds(Quieten(t, i).pfds) == EntryFds(t.pfds) && Quieten(t, i).sources == t.sources
    ensures t.pfds != [] ==> Quieten(t, i).pfds != [] && Quieten(t, i).pfds[0].fd == t.pfds[0].fd
  {
  }

  lemma AfterAgrees(t: Tables, i: nat, a: Act)
    requires Agreed(t) && 1 <= i < |t.pfds| && Distinct(EntryFds(After(t, i, a).pfds))
    ensures Agreed(After(t, i, a))
  {
    var fd := t.pfds[i].fd;
    assert fd != t.pfds[0].fd by { assert EntryFds(t.pfds)[0] != EntryFds(t.pfds)[i]; }
    var u := if a.removesSelf then Deregister(t, fd) else t;
    DeregisterInStep(t, fd);
    AddAllInStep(u, a.adds);
    QuietenFds(Perform(t, fd, a), i);
    hide Deregister, AddAll, Distinct, Quieten;
  }

  lemma VisitsAfter(t: Tables, i: nat, a: Act, acts: seq<Act>)
    requires i < |t.pfds|
    ensures Visits(Tail(After(t, i, a).pfds, i + 1), acts) == Visits(Tail(t.pfds[i..], Stride(a)), acts)
  {
    var q := Advance(t, i, a);
    QuietEntriesAreNotVisited(Tail(t.pfds[i..], Stride(a)), q, acts);
    hide After, Visits;
  }

  /** A pass over tables in agreement leaves them in agreement, and dispatches exactly `Visits`. */
  lemma {:induction false} PassDispatchesVisits(t: Tables, i: nat, acts: seq<Act>)
    requires Agreed(t) && 1 <= i && Lawful(t, i, acts)
    ensures Pass(t, i, acts).1 == Visits(Tail(t.pfds, i), acts)
    ensures Agreed(Pass(t, i, acts).0)
    decreases CountReady(Tail(t.pfds, i)), |t.pfds| - i
  {
    hide After, AllQuiet;
    if i < |t.pfds| {
      if t.pfds[i].revents == QUIET {
        assert t.pfds[i..][1..] == t.pfds[i + 1..];
        PassDispatchesVisits(t, i + 1, acts);
      } else {
        var a := Next(acts);
        assert SourceFds(t.sources)[i - 1] == EntryFds(t.pfds)[i];
        PassProgresses(t, i, a);
        AfterAgrees(t, i, a);
        PassDispatchesVisits(After(t, i, a), i + 1, Later(acts));
        VisitsAfter(t, i, a, Later(acts));
      }
    }
  }

  predicate Visited(vs: seq<Visit>, fd: int) {
    exists v :: v in vs && v.fd == fd
  }

  predicate RemovedItself(vs: seq<Visit>, fd: int) {
    exists v :: v in vs && v.fd == fd && v.act.removesSelf
  }

  function Removals(vs: seq<Visit>): nat {
    if vs == [] then 0 else (if vs[0].act.removesSelf then 1 else 0) + Removals(vs[1..])
  }

  /** Only entries that poll reported are visited. */
  lemma {:induction false} OnlyReadyVisited(rest: seq<Entry>, acts: seq<Act>, fd: int)
    requires Visited(Visits(rest, acts), fd)
    ensures exists e :: e in rest && e.fd == fd && e.revents != QUIET
    decreases |rest|
  {
    var v :| v in Visits(rest, acts) && v.fd == fd;
    if rest[0].revents == QUIET {
      OnlyReadyVisited(rest[1..], acts, fd);
      var e :| e in rest[1..] && e.fd == fd && e.revents != QUIET;
      assert e in rest;
    } else if rest[0].fd == fd {
      assert rest[0] in rest;
    } else {
      var tail := Tail(rest, Stride(Next(acts)));
      assert v in Visits(tail, Later(acts));
      OnlyReadyVisited(tail, Later(acts), fd);
      var e :| e in tail && e.fd == fd && e.revents != QUIET;
      assert e in rest;
    }
  }

  /** A descriptor that is in no entry is not visited. */
  lemma AbsentNotVisited(rest: seq<Entry>, acts: seq<Act>, fd: int)
    requires forall k :: 0 <= k < |rest| ==> rest[k].fd != fd
    ensures forall j :: 0 <= j < |Visits(rest, acts)| ==> Visits(rest, acts)[j].fd != fd
  {
    if Visited(Visits(rest, acts), fd) {
      OnlyReadyVisited(rest, acts, fd);
      assert false;
    }
    hide Visits;
  }

  lemma TailDistinct(rest: seq<Entry>, n: nat)
    requires rest != [] && Distinct(EntryFds(rest)) && n > 0
    ensures Distinct(EntryFds(Tail(rest, n))) && forall k :: 0 <= k < |Tail(rest, n)| ==> Tail(rest, n)[k].fd != rest[0].fd
  {
    var tail := Tail(rest, n);
    assert forall k :: 0 <= k < |tail| ==> EntryFds(tail)[k] == EntryFds(rest)[k + n];
  }

  /** No descriptor is visited twice. */
  lemma {:induction false} VisitedOnce(rest: seq<Entry>, acts: seq<Act>)
    requires Distinct(EntryFds(rest))
    ensures forall i, j :: 0 <= i < j < |Visits(rest, acts)| ==> Visits(rest, acts)[i].fd != Visits(rest, acts)[j].fd
    decreases |rest|
  {
    if rest != [] {
      var quiet := rest[0].revents == QUIET;
      var n := if quiet then 1 else Stride(Next(acts));
      var tail, more := Tail(rest, n), if quiet then acts else Later(acts);
      TailDistinct(rest, n);
      VisitedOnce(tail, more);
      AbsentNotVisited(tail, more, rest[0].fd);
      assert Visits(rest, acts) == (if quiet then [] else [Visit(rest[0].fd, Next(acts))]) + Visits(tail, more);
      hide Visits, Distinct;
    }
  }

  /** A ready entry is passed over only if the entry before it removed itself. */
  lemma {:induction false} SkippedOnlyAfterRemoval(rest: seq<Entry>, acts: seq<Act>, k: nat)
    requires k < |rest| && rest[k].revents != QUIET
    ensures Visited(Visits(rest, acts), rest[k].fd) || (k > 0 && RemovedItself(Visits(rest, acts), rest[k - 1].fd))
    decreases |rest|
  {
    var vs := Visits(rest, acts);
    if rest[0].revents == QUIET {
      SkippedOnlyAfterRemoval(rest[1..], acts, k - 1);
    } else {
      var v := Visit(rest[0].fd, Next(acts));
      assert vs[0] == v;
      var n := Stride(Next(acts));
      if k >= n {
        SkippedOnlyAfterRemoval(rest[n..], Later(acts), k - n);
        var more := Visits(rest[n..], Later(acts));
        assert forall w :: w in more ==> w in vs;
      }
    }
  }

  /** Each removal costs at most one visit. */
  lemma {:induction false} AtMostOneSkippedPerRemoval(rest: seq<Entry>, acts: seq<Act>)
    ensures CountReady(rest) <= |Visits(rest, acts)| + Removals(Visits(rest, acts))
    decreases |rest|
  {
    if rest != [] {
      if rest[0].revents == QUIET {
        AtMostOneSkippedPerRemoval(rest[1..], acts);
      } else {
        var tail := Tail(rest, Stride(Next(acts)));
        AtMostOneSkippedPerRemoval(tail, Later(acts));
        var vs := Visits(rest, acts);
        assert vs[1..] == Visits(tail, Later(acts));
        if Next(acts).removesSelf && |rest| > 1 {
          assert tail == rest[1..][1..];
        }
      }
    }
  }

  /** A descriptor stays registered unless its own handler removed it: one that was passed over is
      there for the next poll. */
  lemma {:induction false} StaysRegistered(t: Tables, i: nat, acts: seq<Act>, fd: int)
    requires fd in EntryFds(t.pfds) && !RemovedItself(Pass(t, i, acts).1, fd)
    ensures fd in EntryFds(Pass(t, i, acts).0.pfds)
    decreases CountReady(Tail(t.pfds, i)), |t.pfds| - i
  {
    hide After, Quieten;
    if i < |t.pfds| {
      var e := t.pfds[i];
      if e.revents == QUIET {
        assert t.pfds[i..][1..] == t.pfds[i + 1..];
        StaysRegistered(t, i + 1, acts, fd);
      } else if e.fd in SourceFds(t.sources) {
        var a := Next(acts);
        PassStep(t, i, acts);
        hide Pass, CountReady, Tail;
        RemovedLater(Visit(e.fd, a), Pass(After(t, i, a), i + 1, Later(acts)).1, fd);
        AfterKeepsOthers(t, i, a, fd);
        StaysRegistered(After(t, i, a), i + 1, Later(acts), fd);
      } else {
        PassProgresses(t, i, IDLE);
        IdleQuietens(t, i);
        QuietenFds(t, i);
        StaysRegistered(Quieten(t, i), i + 1, acts, fd);
      }
    }
  }

  lemma RemovedLater(v: Visit, vs: seq<Visit>, fd: int)
    requires !RemovedItself([v] + vs, fd)
    ensures !RemovedItself(vs, fd) && (v.fd == fd ==> !v.act.removesSelf)
  {
    assert v in [v] + vs && forall u :: u in vs ==> u in [v] + vs;
  }

  lemma IdleQuietens(t: Tables, i: nat)
    requires i < |t.pfds|
    ensures After(t, i, IDLE) == Quieten(t, i)
  {
  }

  lemma AfterKeepsOthers(t: Tables, i: nat, a: Act, fd: int)
    requires i < |t.pfds| && fd in EntryFds(t.pfds) && (a.removesSelf ==> fd != t.pfds[i].fd)
    ensures fd in EntryFds(After(t, i, a).pfds)
  {
    var u := if a.removesSelf then Deregister(t, t.pfds[i].fd) else t;
    EntryFdsRemove(t.pfds, t.pfds[i].fd);
    if a.removesSelf { RemoveFdKeeps(EntryFds(t.pfds), t.pfds[i].fd, fd); }
    AddAllAppends(u, 0, a.adds);
    assert EntryFds(u.pfds + Quiets(a.adds)) == EntryFds(u.pfds) + a.adds;
    QuietenFds(Perform(t, t.pfds[i].fd, a), i);
    hide Quieten, AddAll, Deregister, Quiets;
  }

  lemma AllVisitedReady(rest: seq<Entry>, acts: seq<Act>)
    ensures forall v :: v in Visits(rest, acts) ==> exists e :: e in rest && e.fd == v.fd && e.revents != QUIET
  {
    forall v | v in Visits(rest, acts) ensures exists e :: e in rest && e.fd == v.fd && e.revents != QUIET {
      assert Visited(Visits(rest, acts), v.fd);
      OnlyReadyVisited(rest, acts, v.fd);
    }
  }

  lemma VisitedIfRemoved(vs: seq<Visit>, fd: int)
    ensures RemovedItself(vs, fd) ==> Visited(vs, fd)
  {
  }

  /** One pass over tables in agreement: each descriptor is dispatched at most once, and only if it was
      ready; a ready one is passed over only when the one before it removed itself, at most one per
      removal, and it stays registered. */
  lemma DispatchUnderMutation(t: Tables, acts: seq<Act>, k: nat)
    requires Agreed(t) && Lawful(t, 1, acts) && 1 <= k < |t.pfds| && t.pfds[k].revents != QUIET
    ensures var (u, vs) := Pass(t, 1, acts); var fd := t.pfds[k].fd;
      && Agreed(u)
      && (forall i, j :: 0 <= i < j < |vs| ==> vs[i].fd != vs[j].fd)
      && (forall v :: v in vs ==> exists e :: e in t.pfds[1..] && e.fd == v.fd && e.revents != QUIET)
      && (Visited(vs, fd) || (k > 1 && RemovedItself(vs, t.pfds[k - 1].fd) && fd in EntryFds(u.pfds)))
      && CountReady(t.pfds[1..]) <= |vs| + Removals(vs)
  {
    var rest := t.pfds[1..];
    var vs := Visits(rest, acts);
    PassDispatchesVisits(t, 1, acts);
    hide Pass, Visits, Lawful, CountReady, Removals;
    assert forall m :: 0 <= m < |rest| ==> EntryFds(rest)[m] == EntryFds(t.pfds)[m + 1];
    VisitedOnce(rest, acts);
    AllVisitedReady(rest, acts);
    SkippedOnlyAfterRemoval(rest, acts, k - 1);
    AtMostOneSkippedPerRemoval(rest, acts);
    if !Visited(vs, t.pfds[k].fd) {
      assert EntryFds(t.pfds)[k] == t.pfds[k].fd;
      VisitedIfRemoved(vs, t.pfds[k].fd);
      hide Visited, RemovedItself, Agreed;
      StaysRegistered(t, 1, acts, t.pfds[k].fd);
    }
  }

  // ------------------------------------------------------------------------ what a pass leaves behind

  /** Removing the i-th entry leaves those before it alone. */
  lemma {:induction false} RemoveKeepsFront(es: seq<Entry>, i: nat)
    requires i < |es| && forall j :: 0 <= j < i ==> es[j].fd != es[i].fd
    ensures var r := RemoveEntry(es, es[i].fd); |r| == |es| - 1 && r[..i] == es[..i]
  {
    if i > 0 {
      var rest := es[1..];
      RemoveKeepsFront(rest, i - 1);
      var r := RemoveEntry(rest, rest[i - 1].fd);
      assert RemoveEntry(es, es[i].fd) == [es[0]] + r;
      hide RemoveEntry;
      assert ([es[0]] + r)[..i] == [es[0]] + r[..i - 1] && es[..i] == [es[0]] + rest[..i - 1];
    }
  }

  /** After the i-th entry was dispatched, those before it are as they were, and what is at its place is cleared. */
  lemma AfterFront(t: Tables, i: nat, a: Act)
    requires Distinct(EntryFds(t.pfds)) && i < |t.pfds|
    ensures var r := After(t, i, a).pfds;
      |r| >= i && r[..i] == t.pfds[..i] && (i < |r| ==> r[i].revents == QUIET)
  {
    var fd := t.pfds[i].fd;
    assert forall j :: 0 <= j < i ==> EntryFds(t.pfds)[j] != EntryFds(t.pfds)[i];
    RemoveKeepsFront(t.pfds, i);
    var u := if a.removesSelf then Deregister(t, fd) else t;
    AddAllAppends(u, 0, a.adds);
    var v := Perform(t, fd, a);
    assert v.pfds == u.pfds + Quiets(a.adds) && v.pfds[..i] == u.pfds[..i] == t.pfds[..i];
    hide Perform, RemoveEntry, Quiets, AddAll;
    assert i < |v.pfds| ==> v.pfds[i := Entry(v.pfds[i].fd, QUIET)][..i] == v.pfds[..i];
  }

  /** Entries 1 to i are quiet. */
  ghost predicate QuietUpTo(es: seq<Entry>, i: nat) {
    forall j :: 1 <= j < i && j < |es| ==> es[j].revents == QUIET
  }

  lemma QuietFurther(t: Tables, i: nat, a: Act)
    requires Distinct(EntryFds(t.pfds)) && i < |t.pfds| && QuietUpTo(t.pfds, i)
    ensures QuietUpTo(After(t, i, a).pfds, i + 1)
  {
    AfterFront(t, i, a);
    var r := After(t, i, a).pfds;
    hide After;
    assert forall j :: 0 <= j < i ==> r[j] == r[..i][j] && t.pfds[j] == t.pfds[..i][j];
  }

  /** A pass clears every report, also that of an entry it steps over. */
  lemma {:induction false} PassLeavesQuiet(t: Tables, i: nat, acts: seq<Act>)
    requires Agreed(t) && 1 <= i && Lawful(t, i, acts) && QuietUpTo(t.pfds, i)
    ensures var u := Pass(t, i, acts).0; QuietUpTo(u.pfds, |u.pfds|)
    decreases CountReady(Tail(t.pfds, i)), |t.pfds| - i
  {
    hide After;
    if i < |t.pfds| {
      if t.pfds[i].revents == QUIET {
        assert t.pfds[i..][1..] == t.pfds[i + 1..];
        PassLeavesQuiet(t, i + 1, acts);
      } else {
        assert SourceFds(t.sources)[i - 1] == EntryFds(t.pfds)[i];
        PassStep(t, i, acts);
        hide Pass, Lawful, CountReady, Tail;
        AfterAgrees(t, i, Next(acts));
        QuietFurther(t, i, Next(acts));
        hide Agreed, QuietUpTo;
        PassLeavesQuiet(After(t, i, Next(acts)), i + 1, Later(acts));
      }
    }
  }

  lemma {:induction false} QuietPass(t: Tables, i: nat, acts: seq<Act>)
    requires QuietUpTo(t.pfds, |t.pfds|) && 1 <= i
    ensures Pass(t, i, acts) == (t, [])
    decreases |t.pfds| - i
  {
    if i < |t.pfds| { QuietPass(t, i + 1, acts); }
  }

  /** Walking over the table again without another poll dispatches nothing. */
  lemma SecondWalkDispatchesNothing(t: Tables, acts: seq<Act>, again: seq<Act>)
    requires Agreed(t) && Lawful(t, 1, acts)
    ensures var u := Pass(t, 1, acts).0; Pass(u, 1, again) == (u, [])
  {
    PassLeavesQuiet(t, 1, acts);
    hide Pass, Lawful, Agreed;
    QuietPass(Pass(t, 1, acts).0, 1, again);
  }

  // ------------------------------------------------------------------------ whose handler is called

  /** The handler of the first source for a descriptor. */
  function HandlerOf(ss: seq<Source>, fd: int): Option<int> {
    if ss == [] then None else if ss[0].fd == fd then Some(ss[0].handler) else HandlerOf(ss[1..], fd)
  }

  /** The handlers that the loop calls, each found in the table as it is at that moment. */
  function Handlers(t: Tables, i: nat, acts: seq<Act>): seq<Option<int>>
    decreases CountReady(Tail(t.pfds, i)), |t.pfds| - i
  {
    if i >= |t.pfds| then []
    else if t.pfds[i].revents == QUIET then
      assert t.pfds[i..][1..] == t.pfds[i + 1..];
      Handlers(t, i + 1, acts)
    else if t.pfds[i].fd in SourceFds(t.sources) then
      PassProgresses(t, i, Next(acts));
      [HandlerOf(t.sources, t.pfds[i].fd)] + Handlers(After(t, i, Next(acts)), i + 1, Later(acts))
    else
      PassProgresses(t, i, IDLE);
      assert After(t, i, IDLE) == Quieten(t, i);
      Handlers(Quieten(t, i), i + 1, acts)
  }

  /** The handlers registered for the descriptors that were visited. */
  function RegisteredFor(ss: seq<Source>, vs: seq<Visit>): (hs: seq<Option<int>>)
    ensures |hs| == |vs| && forall i :: 0 <= i < |hs| ==> hs[i] == HandlerOf(ss, vs[i].fd)
  {
    seq(|vs|, i requires 0 <= i < |vs| => HandlerOf(ss, vs[i].fd))
  }

  /** What is registered is found again. */
  lemma {:induction false} RegisteredIsFound(ss: seq<Source>, s: Source, fd: int)
    ensures HandlerOf(ss + [s], fd) == if HandlerOf(ss, fd).Some? then HandlerOf(ss, fd) else if s.fd == fd then Some(s.handler) else None
    ensures HandlerOf(ss, fd).Some? <==> fd in SourceFds(ss)
  {
    if ss == [] {
      assert ss + [s] == [s] && [s][1..] == [];
    } else {
      assert (ss + [s])[1..] == ss[1..] + [s];
      RegisteredIsFound(ss[1..], s, fd);
      assert SourceFds(ss) == [ss[0].fd] + SourceFds(ss[1..]);
    }
  }

  /** A new descriptor's events go to the handler it was registered with, and all others' as before. */
  lemma RegisterGivesHandler(t: Tables, handler: int, fd: int, other: int)
    requires fd !in SourceFds(t.sources)
    ensures HandlerOf(Register(t, handler, fd).sources, other) == if other == fd then Some(handler) else HandlerOf(t.sources, other)
  {
    RegisteredIsFound(t.sources, Source(handler, fd), other);
    hide HandlerOf, SourceFds;
  }

  lemma {:induction false} HandlerOfOther(ss: seq<Source>, fd: int, other: int)
    requires other != fd
    ensures HandlerOf(RemoveSource(ss, fd), other) == HandlerOf(ss, other)
  {
    if ss != [] && ss[0].fd != fd {
      HandlerOfOther(ss[1..], fd, other);
      assert ([ss[0]] + RemoveSource(ss[1..], fd))[1..] == RemoveSource(ss[1..], fd);
    }
  }

  lemma {:induction false} HandlerStaysWithAdds(t: Tables, h: int, fds: seq<int>, fd: int)
    requires HandlerOf(t.sources, fd).Some?
    ensures HandlerOf(AddAll(t, h, fds).sources, fd) == HandlerOf(t.sources, fd)
    decreases fds
  {
    if fds != [] {
      RegisteredIsFound(t.sources, Source(h, fds[0]), fd);
      HandlerStaysWithAdds(Register(t, h, fds[0]), h, fds[1..], fd);
      hide HandlerOf;
    }
  }

  /** Another descriptor's handler may remove its own source and add others, but changes no one else's. */
  lemma HandlerStays(t: Tables, i: nat, a: Act, fd: int)
    requires i < |t.pfds| && fd != t.pfds[i].fd && HandlerOf(t.sources, fd).Some?
    ensures HandlerOf(After(t, i, a).sources, fd) == HandlerOf(t.sources, fd)
  {
    HandlerOfOther(t.sources, t.pfds[i].fd, fd);
    var u := if a.removesSelf then Deregister(t, t.pfds[i].fd) else t;
    HandlerStaysWithAdds(u, 0, a.adds, fd);
    hide HandlerOf, AddAll, RemoveSource, RemoveEntry;
  }

  /** Where an entry still to come was before the i-th was handled. */
  lemma EntryBefore(t: Tables, i: nat, a: Act, k: nat) returns (j: nat)
    requires i < |t.pfds| && i < k < |After(t, i, a).pfds| && After(t, i, a).pfds[k].revents != QUIET
    ensures i < j < |t.pfds| && t.pfds[j] == After(t, i, a).pfds[k]
  {
    var quiet := Advance(t, i, a);
    var later, front := Tail(After(t, i, a).pfds, i + 1), Tail(t.pfds[i..], Stride(a));
    var p := After(t, i, a).pfds;
    assert later == p[i + 1..] && later[k - i - 1] == p[k];
    assert later == front + quiet;
    hide After;
    assert k - i - 1 >= |front| ==> later[k - i - 1] == quiet[k - i - 1 - |front|];
    j := k - 1 + Stride(a);
    assert front[k - i - 1] == t.pfds[j];
  }

  /** Entries still to be dispatched have the handlers they had when poll reported them. */
  ghost predicate SameHandlers(t0: Tables, t: Tables, i: nat) {
    forall k :: i <= k < |t.pfds| && t.pfds[k].revents != QUIET ==>
      HandlerOf(t.sources, t.pfds[k].fd).Some? && HandlerOf(t.sources, t.pfds[k].fd) == HandlerOf(t0.sources, t.pfds[k].fd)
  }

  lemma SameHandlersAfter(t0: Tables, t: Tables, i: nat, a: Act)
    requires Distinct(EntryFds(t.pfds)) && i < |t.pfds| && SameHandlers(t0, t, i)
    ensures SameHandlers(t0, After(t, i, a), i + 1)
  {
    var u := After(t, i, a);
    forall k | i + 1 <= k < |u.pfds| && u.pfds[k].revents != QUIET
      ensures HandlerOf(u.sources, u.pfds[k].fd).Some? && HandlerOf(u.sources, u.pfds[k].fd) == HandlerOf(t0.sources, u.pfds[k].fd)
    {
      var j := EntryBefore(t, i, a, k);
      assert EntryFds(t.pfds)[i] != EntryFds(t.pfds)[j];
      HandlerStays(t, i, a, t.pfds[j].fd);
    }
    hide After, HandlerOf;
  }

  lemma {:induction false} HandlersAreThose(t0: Tables, t: Tables, i: nat, acts: seq<Act>)
    requires Agreed(t) && 1 <= i && Lawful(t, i, acts) && SameHandlers(t0, t, i)
    ensures Handlers(t, i, acts) == RegisteredFor(t0.sources, Pass(t, i, acts).1)
    decreases CountReady(Tail(t.pfds, i)), |t.pfds| - i
  {
    hide After, HandlerOf;
    if i < |t.pfds| {
      if t.pfds[i].revents == QUIET {
        assert t.pfds[i..][1..] == t.pfds[i + 1..];
        HandlersAreThose(t0, t, i + 1, acts);
      } else {
        var a := Next(acts);
        assert SourceFds(t.sources)[i - 1] == EntryFds(t.pfds)[i];
        PassStep(t, i, acts);
        AfterAgrees(t, i, a);
        SameHandlersAfter(t0, t, i, a);
        HandlersAreThose(t0, After(t, i, a), i + 1, Later(acts));
        assert HandlerOf(t.sources, t.pfds[i].fd) == HandlerOf(t0.sources, t.pfds[i].fd);
        hide Pass, Lawful, Agreed, SameHandlers;
        var v, vs := Visit(t.pfds[i].fd, a), Pass(After(t, i, a), i + 1, Later(acts)).1;
        assert RegisteredFor(t0.sources, [v] + vs) == [HandlerOf(t0.sources, v.fd)] + RegisteredFor(t0.sources, vs);
      }
    }
  }

  /** In every pass each event is given to the handler that was registered for its descriptor when poll
      reported it, whatever other handlers did to the tables in the meantime. */
  lemma RegisteredHandlersAreCalled(t: Tables, acts: seq<Act>)
    requires Agreed(t) && Lawful(t, 1, acts)
    ensures Handlers(t, 1, acts) == RegisteredFor(t.sources, Pass(t, 1, acts).1)
  {
    forall k | 1 <= k < |t.pfds| ensures HandlerOf(t.sources, t.pfds[k].fd).Some? {
      assert SourceFds(t.sources)[k - 1] == EntryFds(t.pfds)[k];
      RegisteredIsFound(t.sources, Source(0, 0), t.pfds[k].fd);
    }
    HandlersAreThose(t, t, 1, acts);
  }

  lemma {:induction false} RemoveFdDistinct(fds: seq<int>, fd: int)
    requires Distinct(fds)
    ensures Distinct(RemoveFd(fds, fd)) && fd !in RemoveFd(fds, fd)
    ensures forall x :: x in RemoveFd(fds, fd) ==> x in fds
  {
    if fds != [] {
      var rest := fds[1..];
      assert forall i :: 0 <= i < |rest| ==> rest[i] == fds[i + 1];
      RemoveFdDistinct(rest, fd);
      assert RemoveFd(fds, fd) == if fds[0] == fd then rest else [fds[0]] + RemoveFd(rest, fd);
      hide RemoveFd;
      assert fds[0] !in rest;
    }
  }

  // ------------------------------------------------------------------------ the code

  const ENOENT := 2

  lemma RemoveShifted<T>(s: seq<T>, k: nat)
    requires 0 < k <= |s|
    ensures var rest := s[1..];
      [s[0]] + (if k - 1 < |rest| then rest[..k - 1] + rest[k..] else rest) == if k < |s| then s[..k] + s[k + 1..] else s
  {
  }

  lemma {:induction false} RemoveEntryAt(es: seq<Entry>, k: nat, fd: int)
    requires k <= |es| && (forall j :: 0 <= j < k ==> es[j].fd != fd) && (k < |es| ==> es[k].fd == fd)
    ensures RemoveEntry(es, fd) == if k < |es| then es[..k] + es[k + 1..] else es
  {
    if k > 0 {
      var rest := es[1..];
      RemoveEntryAt(rest, k - 1, fd);
      assert RemoveEntry(es, fd) == [es[0]] + RemoveEntry(rest, fd);
      hide RemoveEntry;
      RemoveShifted(es, k);
    }
  }

  lemma {:induction false} RemoveSourceAt(ss: seq<Source>, k: nat, fd: int)
    requires k <= |ss| && (forall j :: 0 <= j < k ==> ss[j].fd != fd) && (k < |ss| ==> ss[k].fd == fd)
    ensures RemoveSource(ss, fd) == if k < |ss| then ss[..k] + ss[k + 1..] else ss
  {
    if k > 0 {
      var rest := ss[1..];
      RemoveSourceAt(rest, k - 1, fd);
      assert RemoveSource(ss, fd) == [ss[0]] + RemoveSource(rest, fd);
      hide RemoveSource;
      RemoveShifted(ss, k);
    }
  }

  class Poller {
    var pfds: seq<Entry>
    var sources: seq<Source>

    ghost function Abs(): Tables
      reads this
    {
      Tables(pfds, sources)
    }

    constructor (selfPipe: int)
      ensures Abs() == Tables([Entry(selfPipe, QUIET)], [])
    {
      pfds, sources := [Entry(selfPipe, QUIET)], [];
    }

    method AddFD(handler: int, fd: int) returns (r: int)
      modifies this
      ensures Abs() == Register(old(Abs()), handler, fd) && r == 0
    {
      sources := sources + [Source(handler, fd)];
      pfds := pfds + [Entry(fd, QUIET)];
      return 0;
    }

    method DelFD(fd: int) returns (r: int)
      modifies this
      ensures Abs() == Deregister(old(Abs()), fd)
      ensures r == if fd in EntryFds(old(pfds)) then 0 else -ENOENT
    {
      var k := 0;
      while k < |sources| && sources[k].fd != fd
        invariant 0 <= k <= |sources|
        invariant forall j :: 0 <= j < k ==> sources[j].fd != fd
      {
        k := k + 1;
      }
      RemoveSourceAt(sources, k, fd);
      if k < |sources| { sources := sources[..k] + sources[k + 1..]; }
      var i := 0;
      while i < |pfds| && pfds[i].fd != fd
        invariant 0 <= i <= |pfds|
        invariant forall j :: 0 <= j < i ==> pfds[j].fd != fd
      {
        i := i + 1;
      }
      RemoveEntryAt(pfds, i, fd);
      if i == |pfds| { return -ENOENT; }
      assert EntryFds(pfds)[i] == fd;
      pfds := pfds[..i] + pfds[i + 1..];
      return 0;
    }

    /** The handler of the first source for a descriptor. */
    method FindHandler(fd: int) returns (h: Option<int>)
      ensures h == HandlerOf(sources, fd)
    {
      var k := 0;
      assert sources[0..] == sources;
      while k < |sources|
        invariant 0 <= k <= |sources| && HandlerOf(sources, fd) == HandlerOf(sources[k..], fd)
      {
        if sources[k].fd == fd { return Some(sources[k].handler); }
        assert sources[k..][1..] == sources[k + 1..];
        k := k + 1;
      }
      return None;
    }

    /** `pFDs[i].revents = 0`, of whichever entry is at `i` by now. */
    method Clear(i: nat)
      modifies this`pfds
      ensures Abs() == Quieten(old(Abs()), i)
    {
      if i < |pfds| { pfds := pfds[i := Entry(pfds[i].fd, QUIET)]; }
    }

    method Handle(fd: int, a: Act)
      modifies this
      ensures Abs() == Perform(old(Abs()), fd, a)
    {
      if a.removesSelf { var _ := DelFD(fd); }
      var k := 0;
      while k < |a.adds|
        invariant 0 <= k <= |a.adds|
        invariant AddAll(Abs(), 0, a.adds[k..]) == Perform(old(Abs()), fd, a)
      {
        var _ := AddFD(0, a.adds[k]);
        k := k + 1;
      }
    }

    /** The loop over `pFDs`; handlers change the tables under it. */
    method DispatchReady(acts: seq<Act>) returns (log: seq<Visit>, called: seq<Option<int>>)
      modifies this
      ensures Abs() == Pass(old(Abs()), 1, acts).0 && log == Pass(old(Abs()), 1, acts).1
      ensures called == Handlers(old(Abs()), 1, acts)
    {
      log, called := [], [];
      var i, left := 1, acts;
      while i < |pfds|
        invariant 1 <= i
        invariant Pass(Abs(), i, left).0 == Pass(old(Abs()), 1, acts).0
        invariant log + Pass(Abs(), i, left).1 == Pass(old(Abs()), 1, acts).1
        invariant called + Handlers(Abs(), i, left) == Handlers(old(Abs()), 1, acts)
        decreases CountReady(Tail(pfds, i)), |pfds| - i
      {
        ghost var t := Abs();
        if pfds[i].revents == QUIET {
          assert pfds[i..][1..] == pfds[i + 1..];
        } else {
          var fd := pfds[i].fd;
          if fd in SourceFds(sources) {
            PassProgresses(t, i, Next(left));
            var handler := FindHandler(fd);
            Handle(fd, Next(left));
            log, called := log + [Visit(fd, Next(left))], called + [handler];
            left := Later(left);
          } else {
            PassProgresses(t, i, IDLE);
            assert After(t, i, IDLE) == Quieten(t, i);
          }
          Clear(i);
        }
        i := i + 1;
      }
    }
  }
}
