/** The manager's listener as the handler of the poll loop: clients connect and hang up while the loop walks
    over its tables, and the kernel gives closed descriptor numbers out again. */
module Listener {
  import opened Ucl
  import opened Descriptors

  /** A client transport; `serial` tells apart two that had the same descriptor number. */
  datatype Client = Client(fd: int, serial: nat)

  /** A readable event for `fd`, and the transports that were told to read. */
  datatype Told = Told(fd: int, readers: seq<nat>)

  datatype World = World(
    listen: int,
    clients: seq<Client>,
    tables: Tables,
    open: set<int>,        // descriptors that the kernel has open
    serials: nat,
    told: seq<Told>)       // history

  function ClientFds(cs: seq<Client>): (fds: seq<int>)
    ensures |fds| == |cs| && forall i :: 0 <= i < |cs| ==> fds[i] == cs[i].fd
  {
    seq(|cs|, i requires 0 <= i < |cs| => cs[i].fd)
  }

  /** The first transport for `fd` goes. */
  function RemoveClient(cs: seq<Client>, fd: int): seq<Client> {
    if cs == [] then [] else if cs[0].fd == fd then cs[1..] else [cs[0]] + RemoveClient(cs[1..], fd)
  }

  /** The transports for `fd`. */
  function Readers(cs: seq<Client>, fd: int): seq<nat> {
    if cs == [] then [] else (if cs[0].fd == fd then [cs[0].serial] else []) + Readers(cs[1..], fd)
  }

  function Connect(w: World, fd: int): World {
    w.(clients := w.clients + [Client(fd, w.serials)], serials := w.serials + 1,
       tables := Register(w.tables, 0, fd), open := w.open + {fd})
  }

  function Disconnect(w: World, fd: int): World {
    w.(clients := RemoveClient(w.clients, fd), tables := Deregister(w.tables, fd), open := w.open - {fd})
  }

  /** `Manager::fdEvent` and `WSRPCListener::fdEvent`; `accepted` is what accept returned. */
  function OnEvent(w: World, fd: int, r: Ready, accepted: Option<int>): World {
    if r.hangup then if fd in ClientFds(w.clients) then Disconnect(w, fd) else w
    else if fd == w.listen then if accepted.Some? then Connect(w, accepted.value) else w
    else if r.readable then w.(told := w.told + [Told(fd, Readers(w.clients, fd))])
    else w
  }

  /** What that does to the loop's tables. */
  function ActOf(w: World, fd: int, r: Ready, accepted: Option<int>): Act {
    if r.hangup then Act(fd in ClientFds(w.clients), [])
    else if fd == w.listen && accepted.Some? then Act(false, [accepted.value])
    else IDLE
  }

  lemma OnEventActs(w: World, fd: int, r: Ready, accepted: Option<int>)
    ensures OnEvent(w, fd, r, accepted).tables == Perform(w.tables, fd, ActOf(w, fd, r, accepted))
  {
    if accepted.Some? {
      var t, n := w.tables, accepted.value;
      assert [n][1..] == [];
      assert AddAll(t, 0, [n]) == AddAll(Register(t, 0, n), 0, []);
    }
    hide Register, Deregister, Readers;
  }

  // ------------------------------------------------------------------------ one round of the loop

  /** The i-th entry is handled, and the code clears `pFDs[i].revents`. */
  function Handled(w: World, i: nat, accepted: Option<int>): World
    requires i < |w.tables.pfds|
  {
    var e := w.tables.pfds[i];
    var u := OnEvent(w, e.fd, e.revents, accepted);
    u.(tables := Quieten(u.tables, i))
  }

  function ActAt(w: World, i: nat, accepted: Option<int>): Act
    requires i < |w.tables.pfds|
  {
    ActOf(w, w.tables.pfds[i].fd, w.tables.pfds[i].revents, accepted)
  }

  lemma HandledActs(w: World, i: nat, accepted: Option<int>)
    requires i < |w.tables.pfds|
    ensures Handled(w, i, accepted).tables == After(w.tables, i, ActAt(w, i, accepted))
  {
    OnEventActs(w, w.tables.pfds[i].fd, w.tables.pfds[i].revents, accepted);
    hide OnEvent, Perform, Quieten, ActOf;
  }

  function First(accepts: seq<Option<int>>): Option<int> { if accepts == [] then None else accepts[0] }
  function Rest(accepts: seq<Option<int>>): seq<Option<int>> { if accepts == [] then [] else accepts[1..] }

  lemma RoundProgresses(w: World, i: nat, accepted: Option<int>)
    requires i < |w.tables.pfds| && w.tables.pfds[i].revents != QUIET
    ensures CountReady(Tail(Handled(w, i, accepted).tables.pfds, i + 1)) < CountReady(Tail(w.tables.pfds, i))
    ensures CountReady(Tail(Quieten(w.tables, i).pfds, i + 1)) < CountReady(Tail(w.tables.pfds, i))
  {
    HandledActs(w, i, accepted);
    PassProgresses(w.tables, i, ActAt(w, i, accepted));
    PassProgresses(w.tables, i, IDLE);
    assert After(w.tables, i, IDLE) == Quieten(w.tables, i);
    hide After, Handled, CountReady;
  }

  /** The loop over `pFDs` from index i, with the manager as the handler; each event handled takes the next
      result of accept. */
  function RoundFrom(w: World, i: nat, accepts: seq<Option<int>>): World
    decreases CountReady(Tail(w.tables.pfds, i)), |w.tables.pfds| - i
  {
    if i >= |w.tables.pfds| then w
    else if w.tables.pfds[i].revents == QUIET then
      assert w.tables.pfds[i..][1..] == w.tables.pfds[i + 1..];
      RoundFrom(w, i + 1, accepts)
    else if w.tables.pfds[i].fd in SourceFds(w.tables.sources) then
      RoundProgresses(w, i, First(accepts));
      RoundFrom(Handled(w, i, First(accepts)), i + 1, Rest(accepts))
    else
      RoundProgresses(w, i, None);
      RoundFrom(w.(tables := Quieten(w.tables, i)), i + 1, accepts)
  }

  /** accept returns a number that is not open at that moment, possibly one closed earlier in the round. */
  ghost predicate Lawful(w: World, i: nat, accepts: seq<Option<int>>)
    decreases CountReady(Tail(w.tables.pfds, i)), |w.tables.pfds| - i
  {
    if i >= |w.tables.pfds| then true
    else if w.tables.pfds[i].revents == QUIET then
      assert w.tables.pfds[i..][1..] == w.tables.pfds[i + 1..];
      Lawful(w, i + 1, accepts)
    else
      RoundProgresses(w, i, First(accepts));
      (First(accepts).Some? ==> First(accepts).value !in w.open) && Lawful(Handled(w, i, First(accepts)), i + 1, Rest(accepts))
  }

  // ------------------------------------------------------------------------ agreement

  /** Entries, sources and transports are the same descriptors in the same order, each once, and they are those
      that are open: none is leaked. */
  ghost predicate InAgreement(w: World) {
    && w.tables.pfds != []
    && EntryFds(w.tables.pfds) == [w.tables.pfds[0].fd] + SourceFds(w.tables.sources)
    && SourceFds(w.tables.sources) == [w.listen] + ClientFds(w.clients)
    && Distinct(EntryFds(w.tables.pfds))
    && (forall fd :: fd in EntryFds(w.tables.pfds) <==> fd in w.open)
    && Numbered(w.clients, w.serials)
  }

  /** No two transports, past or present, have the same serial. */
  ghost predicate Numbered(cs: seq<Client>, n: nat) {
    && (forall i :: 0 <= i < |cs| ==> cs[i].serial < n)
    && (forall i, j :: 0 <= i < j < |cs| ==> cs[i].serial < cs[j].serial)
  }

  lemma NumberedCons(c: Client, cs: seq<Client>, n: nat)
    requires Numbered(cs, n) && c.serial < n && forall i :: 0 <= i < |cs| ==> c.serial < cs[i].serial
    ensures Numbered([c] + cs, n)
  {
  }

  lemma NumberedTail(cs: seq<Client>, n: nat)
    requires Numbered(cs, n) && cs != []
    ensures Numbered(cs[1..], n) && forall c :: c in cs[1..] ==> c in cs && cs[0].serial < c.serial
  {
  }

  lemma {:induction false} NumberedRest(cs: seq<Client>, fd: int, n: nat)
    requires Numbered(cs, n)
    ensures Numbered(RemoveClient(cs, fd), n) && forall c :: c in RemoveClient(cs, fd) ==> c in cs
  {
    if cs != [] {
      NumberedTail(cs, n);
      NumberedRest(cs[1..], fd, n);
      var rest := RemoveClient(cs[1..], fd);
      if cs[0].fd != fd {
        assert forall i :: 0 <= i < |rest| ==> rest[i] in cs[1..];
        NumberedCons(cs[0], rest, n);
      }
      hide Numbered;
    }
  }

  lemma {:induction false} ClientFdsRemove(cs: seq<Client>, fd: int)
    ensures ClientFds(RemoveClient(cs, fd)) == RemoveFd(ClientFds(cs), fd)
  {
    if cs != [] {
      assert ClientFds(cs)[1..] == ClientFds(cs[1..]);
      if cs[0].fd != fd { ClientFdsRemove(cs[1..], fd); }
    }
  }

  lemma ConnectAgrees(w: World, fd: int)
    requires InAgreement(w) && fd !in w.open
    ensures InAgreement(Connect(w, fd))
  {
    var t := w.tables;
    assert EntryFds(t.pfds + [Entry(fd, QUIET)]) == EntryFds(t.pfds) + [fd];
    assert SourceFds(t.sources + [Source(0, fd)]) == SourceFds(t.sources) + [fd];
    assert ClientFds(w.clients + [Client(fd, w.serials)]) == ClientFds(w.clients) + [fd];
    Regroup([t.pfds[0].fd], SourceFds(t.sources), [fd]);
    Regroup([w.listen], ClientFds(w.clients), [fd]);
    assert forall x :: x in EntryFds(t.pfds) ==> x != fd;
    assert Numbered(w.clients + [Client(fd, w.serials)], w.serials + 1);
    hide EntryFds, SourceFds, ClientFds, Numbered;
  }

  /** A client is neither the self-pipe nor the listening socket. */
  lemma ClientIsItsOwn(w: World, fd: int)
    requires InAgreement(w) && fd in ClientFds(w.clients)
    ensures fd != w.tables.pfds[0].fd && fd != w.listen
  {
    var efds, cfds := EntryFds(w.tables.pfds), ClientFds(w.clients);
    var k :| 0 <= k < |cfds| && cfds[k] == fd;
    assert efds == [efds[0], w.listen] + cfds;
    assert efds[k + 2] == fd && efds[0] != efds[k + 2] && efds[1] != efds[k + 2];
  }

  lemma DisconnectAgrees(w: World, fd: int)
    requires InAgreement(w) && fd in ClientFds(w.clients)
    ensures InAgreement(Disconnect(w, fd))
  {
    ClientIsItsOwn(w, fd);
    DeregisterInStep(w.tables, fd);
    EntryFdsRemove(w.tables.pfds, fd);
    ClientFdsRemove(w.clients, fd);
    NumberedRest(w.clients, fd, w.serials);
    RemoveFdDistinct(EntryFds(w.tables.pfds), fd);
    forall other | other in EntryFds(w.tables.pfds) && other != fd ensures other in RemoveFd(EntryFds(w.tables.pfds), fd) {
      RemoveFdKeeps(EntryFds(w.tables.pfds), fd, other);
    }
    assert SourceFds(w.tables.sources)[1..] == ClientFds(w.clients);
    assert RemoveFd([w.listen] + ClientFds(w.clients), fd) == [w.listen] + RemoveFd(ClientFds(w.clients), fd);
    hide Distinct, RemoveEntry, RemoveSource, RemoveFd, RemoveClient, Numbered;
  }

  lemma EventAgrees(w: World, fd: int, r: Ready, accepted: Option<int>)
    requires InAgreement(w) && (accepted.Some? ==> accepted.value !in w.open)
    ensures InAgreement(OnEvent(w, fd, r, accepted))
  {
    if r.hangup {
      if fd in ClientFds(w.clients) { DisconnectAgrees(w, fd); }
    } else if fd == w.listen && accepted.Some? {
      ConnectAgrees(w, accepted.value);
    }
    hide Connect, Disconnect, Readers;
  }

  lemma QuietenAgrees(w: World, i: nat)
    requires InAgreement(w)
    ensures InAgreement(w.(tables := Quieten(w.tables, i)))
  {
    QuietenFds(w.tables, i);
    hide Quieten;
  }

  lemma HandledAgrees(w: World, i: nat, accepted: Option<int>)
    requires InAgreement(w) && i < |w.tables.pfds| && (accepted.Some? ==> accepted.value !in w.open)
    ensures InAgreement(Handled(w, i, accepted))
  {
    var e := w.tables.pfds[i];
    EventAgrees(w, e.fd, e.revents, accepted);
    QuietenAgrees(OnEvent(w, e.fd, e.revents, accepted), i);
    hide InAgreement, OnEvent, Quieten;
  }

  lemma EntryHasSource(w: World, i: nat)
    requires InAgreement(w) && 1 <= i < |w.tables.pfds|
    ensures w.tables.pfds[i].fd in SourceFds(w.tables.sources)
  {
    assert SourceFds(w.tables.sources)[i - 1] == EntryFds(w.tables.pfds)[i];
  }

  // ------------------------------------------------------------------------ who is told

  lemma {:induction false} ReadersOfRest(cs: seq<Client>, fd: int, other: int)
    requires other != fd
    ensures Readers(RemoveClient(cs, fd), other) == Readers(cs, other)
  {
    if cs != [] {
      if cs[0].fd == fd {
        assert Readers(cs, other) == Readers(cs[1..], other);
      } else {
        ReadersOfRest(cs[1..], fd, other);
        assert ([cs[0]] + RemoveClient(cs[1..], fd))[1..] == RemoveClient(cs[1..], fd);
      }
    }
  }

  lemma {:induction false} ReadersAppend(cs: seq<Client>, c: Client, fd: int)
    requires c.fd != fd
    ensures Readers(cs + [c], fd) == Readers(cs, fd)
  {
    if cs == [] {
      assert cs + [c] == [c];
    } else {
      assert (cs + [c])[1..] == cs[1..] + [c];
      ReadersAppend(cs[1..], c, fd);
    }
  }

  lemma {:induction false} OneReader(cs: seq<Client>, fd: int)
    requires Distinct(ClientFds(cs))
    ensures |Readers(cs, fd)| == if fd in ClientFds(cs) then 1 else 0
  {
    if cs != [] {
      var fds := ClientFds(cs);
      assert fds[1..] == ClientFds(cs[1..]);
      assert forall i :: 0 <= i < |fds[1..]| ==> fds[1..][i] == fds[i + 1];
      OneReader(cs[1..], fd);
    }
  }

  /** An event changes nothing for a descriptor other than its own and the one accepted. */
  lemma OthersKeepReaders(w: World, fd: int, r: Ready, accepted: Option<int>, other: int)
    requires other != fd && (accepted.Some? ==> other != accepted.value)
    ensures Readers(OnEvent(w, fd, r, accepted).clients, other) == Readers(w.clients, other)
  {
    ReadersOfRest(w.clients, fd, other);
    if accepted.Some? { ReadersAppend(w.clients, Client(accepted.value, w.serials), other); }
    hide Readers, Register, Deregister, RemoveClient;
  }

  lemma SuffixDistinct(a: int, b: int, fds: seq<int>)
    requires Distinct([a] + ([b] + fds))
    ensures Distinct(fds)
  {
    var s := [a] + ([b] + fds);
    assert forall i :: 0 <= i < |fds| ==> fds[i] == s[i + 2];
  }

  lemma RegisteredHasOneReader(w: World, fd: int)
    requires InAgreement(w) && fd in SourceFds(w.tables.sources) && fd != w.listen
    ensures |Readers(w.clients, fd)| == 1
  {
    SuffixDistinct(w.tables.pfds[0].fd, w.listen, ClientFds(w.clients));
    assert fd in [w.listen] + ClientFds(w.clients);
    OneReader(w.clients, fd);
    hide Distinct, Readers, ClientFds;
  }

  /** Every entry from `i` on that is still to be dispatched was reported by the poll of `polled`, and its
      transport is the one that was registered then. */
  ghost predicate Current(polled: World, w: World, i: nat) {
    forall k :: i <= k < |w.tables.pfds| && w.tables.pfds[k].revents != QUIET ==>
      w.tables.pfds[k] in polled.tables.pfds && Readers(w.clients, w.tables.pfds[k].fd) == Readers(polled.clients, w.tables.pfds[k].fd)
  }

  /** The event was reported by the poll, and the one transport told is the one registered at that time. */
  ghost predicate Right(polled: World, t: Told) {
    && (exists e :: e in polled.tables.pfds && e.fd == t.fd && e.revents.readable && !e.revents.hangup)
    && t.readers == Readers(polled.clients, t.fd) && |t.readers| == 1
  }

  ghost predicate AllRight(polled: World, before: seq<Told>, after: seq<Told>) {
    before <= after && forall j :: |before| <= j < |after| ==> Right(polled, after[j])
  }

  lemma EntriesDiffer(w: World, i: nat, j: nat)
    requires InAgreement(w) && i < j < |w.tables.pfds|
    ensures w.tables.pfds[i].fd != w.tables.pfds[j].fd && w.tables.pfds[j].fd in w.open
  {
    var efds := EntryFds(w.tables.pfds);
    assert efds[i] != efds[j] && efds[j] in efds;
  }

  lemma CurrentAfter(polled: World, w: World, i: nat, accepted: Option<int>)
    requires InAgreement(w) && Current(polled, w, i) && i < |w.tables.pfds| && (accepted.Some? ==> accepted.value !in w.open)
    ensures Current(polled, Handled(w, i, accepted), i + 1)
  {
    var u := Handled(w, i, accepted);
    var e := w.tables.pfds[i];
    HandledActs(w, i, accepted);
    forall k | i + 1 <= k < |u.tables.pfds| && u.tables.pfds[k].revents != QUIET
      ensures u.tables.pfds[k] in polled.tables.pfds
      ensures Readers(u.clients, u.tables.pfds[k].fd) == Readers(polled.clients, u.tables.pfds[k].fd)
    {
      var j := EntryBefore(w.tables, i, ActAt(w, i, accepted), k);
      EntriesDiffer(w, i, j);
      OthersKeepReaders(w, e.fd, e.revents, accepted, w.tables.pfds[j].fd);
    }
    hide InAgreement, OnEvent, Quieten, After;
  }

  /** Handling one entry tells nobody, or exactly the transport that was registered at the poll. */
  lemma HandledTellsRight(polled: World, w: World, i: nat, accepted: Option<int>)
    requires InAgreement(w) && Current(polled, w, i) && 1 <= i < |w.tables.pfds| && w.tables.pfds[i].revents != QUIET
    ensures AllRight(polled, w.told, Handled(w, i, accepted).told)
  {
    var e := w.tables.pfds[i];
    EntryHasSource(w, i);
    if e.fd != w.listen { RegisteredHasOneReader(w, e.fd); }
    assert e in polled.tables.pfds;
    hide InAgreement, Readers, Quieten;
  }

  lemma AllRightJoin(polled: World, a: seq<Told>, b: seq<Told>, c: seq<Told>)
    requires AllRight(polled, a, b) && AllRight(polled, b, c)
    ensures AllRight(polled, a, c)
  {
    hide Right;
  }

  /** A round keeps the agreement, and every readable event it dispatches reaches exactly the transport that
      was registered when poll reported it, even if descriptor numbers were closed and given out again
      earlier in the same round. */
  lemma {:induction false} RoundTellsRight(polled: World, w: World, i: nat, accepts: seq<Option<int>>)
    requires InAgreement(w) && Current(polled, w, i) && 1 <= i && Lawful(w, i, accepts)
    ensures var u := RoundFrom(w, i, accepts); InAgreement(u) && AllRight(polled, w.told, u.told)
    decreases CountReady(Tail(w.tables.pfds, i)), |w.tables.pfds| - i
  {
    hide InAgreement, Handled, Right, AllRight, Current;
    if i >= |w.tables.pfds| {
      AllRightNothing(polled, w.told);
    } else if w.tables.pfds[i].revents == QUIET {
      assert w.tables.pfds[i..][1..] == w.tables.pfds[i + 1..];
      CurrentOn(polled, w, i);
      RoundTellsRight(polled, w, i + 1, accepts);
    } else {
      var acc := First(accepts);
      EntryHasSource(w, i);
      RoundProgresses(w, i, acc);
      HandledAgrees(w, i, acc);
      CurrentAfter(polled, w, i, acc);
      HandledTellsRight(polled, w, i, acc);
      var u := Handled(w, i, acc);
      assert RoundFrom(w, i, accepts) == RoundFrom(u, i + 1, Rest(accepts)) && Lawful(u, i + 1, Rest(accepts));
      hide RoundFrom, Lawful, CountReady, Tail;
      RoundTellsRight(polled, u, i + 1, Rest(accepts));
      AllRightJoin(polled, w.told, u.told, RoundFrom(w, i, accepts).told);
    }
  }

  lemma AllRightNothing(polled: World, told: seq<Told>)
    ensures AllRight(polled, told, told)
  {
  }

  lemma CurrentOn(polled: World, w: World, i: nat)
    requires Current(polled, w, i)
    ensures Current(polled, w, i + 1)
  {
  }

  // ------------------------------------------------------------------------ a round is a pass

  /** What the manager does in the events of a round, one after the other. */
  function ActsFrom(w: World, i: nat, accepts: seq<Option<int>>): seq<Act>
    decreases CountReady(Tail(w.tables.pfds, i)), |w.tables.pfds| - i
  {
    if i >= |w.tables.pfds| then []
    else if w.tables.pfds[i].revents == QUIET then
      assert w.tables.pfds[i..][1..] == w.tables.pfds[i + 1..];
      ActsFrom(w, i + 1, accepts)
    else
      RoundProgresses(w, i, First(accepts));
      [ActAt(w, i, First(accepts))] + ActsFrom(Handled(w, i, First(accepts)), i + 1, Rest(accepts))
  }

  /** The manager's round is a pass of the loop in which handlers remove themselves and add others lawfully. */
  lemma {:induction false} RoundIsPass(w: World, i: nat, accepts: seq<Option<int>>)
    requires InAgreement(w) && 1 <= i && Lawful(w, i, accepts)
    ensures var acts := ActsFrom(w, i, accepts);
      Descriptors.Lawful(w.tables, i, acts) && RoundFrom(w, i, accepts).tables == Pass(w.tables, i, acts).0
    decreases CountReady(Tail(w.tables.pfds, i)), |w.tables.pfds| - i
  {
    hide InAgreement, Handled, After, ActAt, Distinct;
    if i < |w.tables.pfds| {
      if w.tables.pfds[i].revents == QUIET {
        assert w.tables.pfds[i..][1..] == w.tables.pfds[i + 1..];
        RoundIsPass(w, i + 1, accepts);
      } else {
        var acc, acts := First(accepts), ActsFrom(w, i, accepts);
        EntryHasSource(w, i);
        RoundProgresses(w, i, acc);
        HandledActs(w, i, acc);
        HandledAgrees(w, i, acc);
        var u := Handled(w, i, acc);
        AgreedDistinct(u);
        assert acts == [ActAt(w, i, acc)] + ActsFrom(u, i + 1, Rest(accepts));
        assert Next(acts) == ActAt(w, i, acc) && Later(acts) == ActsFrom(u, i + 1, Rest(accepts));
        assert RoundFrom(w, i, accepts) == RoundFrom(u, i + 1, Rest(accepts)) && Lawful(u, i + 1, Rest(accepts));
        hide RoundFrom, Lawful, ActsFrom, Pass, Descriptors.Lawful, CountReady, Tail;
        RoundIsPass(u, i + 1, Rest(accepts));
        PassStep(w.tables, i, acts);
      }
    }
  }

  lemma AgreedDistinct(w: World)
    requires InAgreement(w)
    ensures Distinct(EntryFds(w.tables.pfds))
  {
  }

  /** So in a round of the manager each ready descriptor is dispatched at most once, none that was not reported
      is, and one that is skipped comes right after a client that hung up and is still registered; each
      hangup skips at most one. */
  lemma RoundUnderMutation(w: World, accepts: seq<Option<int>>, k: nat)
    requires InAgreement(w) && Lawful(w, 1, accepts) && 1 <= k < |w.tables.pfds| && w.tables.pfds[k].revents != QUIET
    ensures var acts := ActsFrom(w, 1, accepts); var vs := Pass(w.tables, 1, acts).1;
      var u := RoundFrom(w, 1, accepts); var fd := w.tables.pfds[k].fd;
      && (forall i, j :: 0 <= i < j < |vs| ==> vs[i].fd != vs[j].fd)
      && (forall v :: v in vs ==> exists e :: e in w.tables.pfds[1..] && e.fd == v.fd && e.revents != QUIET)
      && (Visited(vs, fd) || (k > 1 && RemovedItself(vs, w.tables.pfds[k - 1].fd) && fd in EntryFds(u.tables.pfds)))
      && CountReady(w.tables.pfds[1..]) <= |vs| + Removals(vs)
  {
    RoundIsPass(w, 1, accepts);
    hide Descriptors.Lawful, Lawful, Pass, RoundFrom, ActsFrom, Visited, RemovedItself, CountReady, Removals;
    DispatchUnderMutation(w.tables, ActsFrom(w, 1, accepts), k);
  }

  // ------------------------------------------------------------------------ a round, told from the poll alone

  /** The client of the k-th entry has hung up. */
  predicate HungUp(p: World, k: nat)
    requires k < |p.tables.pfds|
  {
    p.tables.pfds[k].revents.hangup && p.tables.pfds[k].fd in ClientFds(p.clients)
  }

  /** The k-th entry is one to be read. */
  predicate ToRead(p: World, k: nat)
    requires k < |p.tables.pfds|
  {
    var e := p.tables.pfds[k];
    e.revents.readable && !e.revents.hangup && e.fd != p.listen
  }

  /** What a round after the poll `p` tells, computed from the table as poll left it: each entry to be read in
      turn, where the entry after a client that hung up is stepped over. */
  function ToldBy(p: World, k: nat): seq<Told>
    decreases |p.tables.pfds| - k
  {
    if k >= |p.tables.pfds| then []
    else if HungUp(p, k) then ToldBy(p, k + 2)
    else (if ToRead(p, k) then [Told(p.tables.pfds[k].fd, Readers(p.clients, p.tables.pfds[k].fd))] else []) + ToldBy(p, k + 1)
  }

  /** What becomes of the clients `cs`: those that hung up go, and one that was accepted comes. */
  function ClientsBy(p: World, k: nat, cs: seq<Client>, accepts: seq<Option<int>>): seq<Client>
    decreases |p.tables.pfds| - k
  {
    if k >= |p.tables.pfds| then cs
    else
      var e := p.tables.pfds[k];
      if e.revents == QUIET then ClientsBy(p, k + 1, cs, accepts)
      else if HungUp(p, k) then ClientsBy(p, k + 2, RemoveClient(cs, e.fd), Rest(accepts))
      else if e.fd == p.listen && !e.revents.hangup && First(accepts).Some? then
        ClientsBy(p, k + 1, cs + [Client(First(accepts).value, p.serials)], Rest(accepts))
      else ClientsBy(p, k + 1, cs, Rest(accepts))
  }

  lemma {:induction false} ReadersIffClient(cs: seq<Client>, fd: int)
    ensures Readers(cs, fd) == [] <==> fd !in ClientFds(cs)
  {
    if cs != [] {
      ReadersIffClient(cs[1..], fd);
      assert ClientFds(cs) == [cs[0].fd] + ClientFds(cs[1..]);
    }
  }

  /** At index i of the changing table the round is where the polled table has entry k, followed by entries that
      poll has said nothing about; and what is to come of the polled table has the transports it had. The
      listening socket, if it is to come, has not been served. */
  ghost predicate Aligned(p: World, k: nat, w: World, i: nat, quiet: seq<Entry>) {
    && w.listen == p.listen && AllQuiet(quiet)
    && Tail(w.tables.pfds, i) == Tail(p.tables.pfds, k) + quiet
    && (forall j :: k <= j < |p.tables.pfds| ==> Readers(w.clients, p.tables.pfds[j].fd) == Readers(p.clients, p.tables.pfds[j].fd))
    && (forall j :: k <= j < |p.tables.pfds| && p.tables.pfds[j].fd == p.listen ==> w.serials == p.serials)
  }

  lemma AlignedHere(p: World, k: nat, w: World, i: nat, quiet: seq<Entry>)
    requires Aligned(p, k, w, i, quiet) && k < |p.tables.pfds|
    ensures i < |w.tables.pfds| && w.tables.pfds[i] == p.tables.pfds[k]
    ensures Tail(w.tables.pfds, i + 1) == Tail(p.tables.pfds, k + 1) + quiet
  {
    var a, b := Tail(w.tables.pfds, i), Tail(p.tables.pfds, k);
    assert a[0] == b[0] && a[1..] == b[1..] + quiet;
    assert Tail(w.tables.pfds, i + 1) == a[1..] && Tail(p.tables.pfds, k + 1) == b[1..];
  }

  /** Nothing more happens among entries that poll has said nothing about. */
  lemma {:induction false} QuietRound(w: World, i: nat, accepts: seq<Option<int>>)
    requires AllQuiet(Tail(w.tables.pfds, i))
    ensures RoundFrom(w, i, accepts) == w
    decreases |w.tables.pfds| - i
  {
    if i < |w.tables.pfds| {
      var rest := Tail(w.tables.pfds, i);
      assert rest[0].revents == QUIET && rest[1..] == Tail(w.tables.pfds, i + 1);
      assert w.tables.pfds[i..][1..] == w.tables.pfds[i + 1..];
      QuietRound(w, i + 1, accepts);
    }
  }

  lemma HandledTells(p: World, k: nat, w: World, i: nat, quiet: seq<Entry>, accepted: Option<int>)
    requires Aligned(p, k, w, i, quiet) && k < |p.tables.pfds| && i < |w.tables.pfds| && w.tables.pfds[i] == p.tables.pfds[k]
    ensures var u := Handled(w, i, accepted);
      u.told == w.told + (if ToRead(p, k) then [Told(p.tables.pfds[k].fd, Readers(p.clients, p.tables.pfds[k].fd))] else [])
  {
    hide Quieten, Register, Deregister, RemoveClient;
    assert w.told + [] == w.told;
  }

  lemma HandledChanges(p: World, k: nat, w: World, i: nat, quiet: seq<Entry>, accepted: Option<int>)
    requires Aligned(p, k, w, i, quiet) && k < |p.tables.pfds| && i < |w.tables.pfds| && w.tables.pfds[i] == p.tables.pfds[k]
    ensures var u, e := Handled(w, i, accepted), p.tables.pfds[k];
      && ActAt(w, i, accepted).removesSelf == HungUp(p, k)
      && u.clients ==
         (if HungUp(p, k) then RemoveClient(w.clients, e.fd)
          else if e.fd == p.listen && !e.revents.hangup && accepted.Some? then w.clients + [Client(accepted.value, p.serials)]
          else w.clients)
      && (e.fd != p.listen ==> u.serials == w.serials) && u.listen == w.listen
  {
    var e := p.tables.pfds[k];
    assert Readers(w.clients, e.fd) == Readers(p.clients, e.fd);
    ReadersIffClient(w.clients, e.fd);
    ReadersIffClient(p.clients, e.fd);
    hide Quieten, Register, Deregister, RemoveClient, Readers, ClientFds, Tail, AllQuiet;
  }

  lemma AlignedAfter(p: World, k: nat, w: World, i: nat, quiet: seq<Entry>, accepted: Option<int>) returns (quiet': seq<Entry>)
    requires InAgreement(p) && InAgreement(w) && Aligned(p, k, w, i, quiet) && k < |p.tables.pfds|
    requires i < |w.tables.pfds| && w.tables.pfds[i] == p.tables.pfds[k] && w.tables.pfds[i].revents != QUIET
    requires accepted.Some? ==> accepted.value !in w.open
    ensures Aligned(p, if HungUp(p, k) then k + 2 else k + 1, Handled(w, i, accepted), i + 1, quiet')
  {
    var u, e := Handled(w, i, accepted), w.tables.pfds[i];
    var next := if HungUp(p, k) then k + 2 else k + 1;
    HandledChanges(p, k, w, i, quiet, accepted);
    HandledActs(w, i, accepted);
    quiet' := EntriesAfter(p, k, w, i, quiet, ActAt(w, i, accepted));
    forall j | next <= j < |p.tables.pfds|
      ensures Readers(u.clients, p.tables.pfds[j].fd) == Readers(p.clients, p.tables.pfds[j].fd)
      ensures p.tables.pfds[j].fd == p.listen ==> u.serials == p.serials
    {
      EntriesDiffer(p, k, j);
      EntryStillThere(p, k, w, i, quiet, j);
      OthersKeepReaders(w, e.fd, e.revents, accepted, p.tables.pfds[j].fd);
    }
    hide InAgreement, Handled, After, OnEvent, Readers, HungUp;
  }

  /** A polled entry still to come is in the changing table, so its descriptor is open. */
  lemma EntryStillThere(p: World, k: nat, w: World, i: nat, quiet: seq<Entry>, j: nat)
    requires InAgreement(w) && Aligned(p, k, w, i, quiet) && k < j < |p.tables.pfds|
    ensures p.tables.pfds[j].fd in w.open
  {
    var a, b := Tail(w.tables.pfds, i), Tail(p.tables.pfds, k);
    assert b[j - k] == p.tables.pfds[j] && a[j - k] == b[j - k];
    var m := i + (j - k);
    assert w.tables.pfds[m] == p.tables.pfds[j];
    assert EntryFds(w.tables.pfds)[m] in EntryFds(w.tables.pfds);
  }

  lemma EntriesAfter(p: World, k: nat, w: World, i: nat, quiet: seq<Entry>, a: Act) returns (quiet': seq<Entry>)
    requires AllQuiet(quiet) && Tail(w.tables.pfds, i) == Tail(p.tables.pfds, k) + quiet && k < |p.tables.pfds| && i < |w.tables.pfds|
    ensures AllQuiet(quiet') && Tail(After(w.tables, i, a).pfds, i + 1) == Tail(p.tables.pfds, k + Stride(a)) + quiet'
  {
    var more := Advance(w.tables, i, a);
    var left := TailFurther(p.tables.pfds, k, Stride(a), quiet);
    assert w.tables.pfds[i..] == Tail(p.tables.pfds, k) + quiet;
    hide After, Tail;
    quiet' := left + more;
    Regroup(Tail(p.tables.pfds, k + Stride(a)), left, more);
  }

  lemma TailFurther(es: seq<Entry>, k: nat, n: nat, quiet: seq<Entry>) returns (left: seq<Entry>)
    requires k < |es| && 1 <= n <= 2 && AllQuiet(quiet)
    ensures AllQuiet(left) && Tail(Tail(es, k) + quiet, n) == Tail(es, k + n) + left
  {
    var here := es[k..];
    if n <= |here| {
      left := quiet;
      assert (here + quiet)[n..] == here[n..] + quiet && here[n..] == es[k + n..];
    } else {
      left := Tail(quiet, 1);
      assert |here| == 1 && Tail(here + quiet, 2) == [] + left;
    }
  }

  /** A round does exactly what can be told from the table as poll left it: whom it tells, in which order, and
      which clients there are afterwards. */
  lemma {:induction false} RoundByPoll(p: World, k: nat, w: World, i: nat, quiet: seq<Entry>, accepts: seq<Option<int>>)
    requires InAgreement(p) && InAgreement(w) && Aligned(p, k, w, i, quiet) && 1 <= i && Lawful(w, i, accepts)
    ensures var u := RoundFrom(w, i, accepts);
      u.told == w.told + ToldBy(p, k) && u.clients == ClientsBy(p, k, w.clients, accepts)
    decreases |p.tables.pfds| - k
  {
    hide InAgreement, Handled;
    if k >= |p.tables.pfds| {
      NothingMore(p, k, w, i, quiet);
      QuietRound(w, i, accepts);
      assert w.told + [] == w.told;
    } else {
      AlignedHere(p, k, w, i, quiet);
      if w.tables.pfds[i].revents == QUIET {
        AlignedOn(p, k, w, i, quiet);
        assert w.tables.pfds[i..][1..] == w.tables.pfds[i + 1..];
        hide Aligned;
        RoundByPoll(p, k + 1, w, i + 1, quiet, accepts);
        assert [] + ToldBy(p, k + 1) == ToldBy(p, k + 1);
      } else {
        RoundByPollStep(p, k, w, i, quiet, accepts);
      }
    }
  }

  lemma NothingMore(p: World, k: nat, w: World, i: nat, quiet: seq<Entry>)
    requires Aligned(p, k, w, i, quiet) && k >= |p.tables.pfds|
    ensures AllQuiet(Tail(w.tables.pfds, i))
  {
    assert [] + quiet == quiet;
  }

  lemma AlignedOn(p: World, k: nat, w: World, i: nat, quiet: seq<Entry>)
    requires Aligned(p, k, w, i, quiet) && k < |p.tables.pfds|
    ensures Aligned(p, k + 1, w, i + 1, quiet)
  {
    AlignedHere(p, k, w, i, quiet);
  }

  /** What one entry contributes. */
  function Now(p: World, k: nat): seq<Told>
    requires k < |p.tables.pfds|
  {
    if ToRead(p, k) then [Told(p.tables.pfds[k].fd, Readers(p.clients, p.tables.pfds[k].fd))] else []
  }

  function ClientsNow(p: World, k: nat, cs: seq<Client>, accepted: Option<int>): seq<Client>
    requires k < |p.tables.pfds|
  {
    var e := p.tables.pfds[k];
    if HungUp(p, k) then RemoveClient(cs, e.fd)
    else if e.fd == p.listen && !e.revents.hangup && accepted.Some? then cs + [Client(accepted.value, p.serials)]
    else cs
  }

  lemma ByPollStep(p: World, k: nat, cs: seq<Client>, accepts: seq<Option<int>>)
    requires k < |p.tables.pfds| && p.tables.pfds[k].revents != QUIET
    ensures var next := if HungUp(p, k) then k + 2 else k + 1;
      && ToldBy(p, k) == Now(p, k) + ToldBy(p, next)
      && ClientsBy(p, k, cs, accepts) == ClientsBy(p, next, ClientsNow(p, k, cs, First(accepts)), Rest(accepts))
  {
    var next := if HungUp(p, k) then k + 2 else k + 1;
    assert [] + ToldBy(p, next) == ToldBy(p, next);
    hide Readers, RemoveClient, ClientFds;
  }

  lemma {:induction false} RoundByPollStep(p: World, k: nat, w: World, i: nat, quiet: seq<Entry>, accepts: seq<Option<int>>)
    requires InAgreement(p) && InAgreement(w) && Aligned(p, k, w, i, quiet) && 1 <= i && Lawful(w, i, accepts) && k < |p.tables.pfds|
    requires i < |w.tables.pfds| && w.tables.pfds[i] == p.tables.pfds[k] && w.tables.pfds[i].revents != QUIET
    ensures var u := RoundFrom(w, i, accepts);
      u.told == w.told + ToldBy(p, k) && u.clients == ClientsBy(p, k, w.clients, accepts)
    decreases |p.tables.pfds| - k, 0
  {
    var acc := First(accepts);
    var u, next := Handled(w, i, acc), if HungUp(p, k) then k + 2 else k + 1;
    EntryHasSource(w, i);
    RoundStep(w, i, accepts);
    hide RoundFrom, Lawful, CountReady, Tail, ToldBy, ClientsBy;
    HandledAgrees(w, i, acc);
    var quiet' := AlignedAfter(p, k, w, i, quiet, acc);
    HandledTells(p, k, w, i, quiet, acc);
    HandledChanges(p, k, w, i, quiet, acc);
    ByPollStep(p, k, w.clients, accepts);
    assert u.told == w.told + Now(p, k) && u.clients == ClientsNow(p, k, w.clients, acc);
    hide InAgreement, Handled, Aligned, Now, ClientsNow, HungUp;
    RoundByPoll(p, next, u, i + 1, quiet', Rest(accepts));
    Regroup(w.told, Now(p, k), ToldBy(p, next));
  }

  lemma RoundStep(w: World, i: nat, accepts: seq<Option<int>>)
    requires i < |w.tables.pfds| && w.tables.pfds[i].revents != QUIET && Lawful(w, i, accepts)
    requires w.tables.pfds[i].fd in SourceFds(w.tables.sources)
    ensures var u := Handled(w, i, First(accepts));
      && RoundFrom(w, i, accepts) == RoundFrom(u, i + 1, Rest(accepts)) && Lawful(u, i + 1, Rest(accepts))
      && (First(accepts).Some? ==> First(accepts).value !in w.open)
  {
    RoundProgresses(w, i, First(accepts));
    hide Handled;
  }

  lemma AlignedAtPoll(p: World)
    requires p.tables.pfds != []
    ensures Aligned(p, 1, p, 1, [])
  {
    assert Tail(p.tables.pfds, 1) + [] == Tail(p.tables.pfds, 1);
  }

  // ------------------------------------------------------------------------ every readable client is told, once

  /** The walk over the polled table that starts at k comes to entry j. */
  predicate Comes(p: World, k: nat, j: nat)
    requires j < |p.tables.pfds|
    decreases |p.tables.pfds| - k
  {
    if k >= j then k == j else if HungUp(p, k) then Comes(p, k + 2, j) else Comes(p, k + 1, j)
  }

  /** It comes to every entry but the one after a client that hung up and that it came to. */
  lemma {:induction false} ComesUnless(p: World, k: nat, j: nat)
    requires k < j < |p.tables.pfds|
    ensures Comes(p, k, j) <==> !(HungUp(p, j - 1) && Comes(p, k, j - 1))
    decreases j - k
  {
    var next := if HungUp(p, k) then k + 2 else k + 1;
    if next < j { ComesUnless(p, next, j); }
    hide HungUp;
  }

  function CountTold(ts: seq<Told>, fd: int): nat {
    if ts == [] then 0 else (if ts[0].fd == fd then 1 else 0) + CountTold(ts[1..], fd)
  }

  lemma CountToldCons(t: Told, ts: seq<Told>, fd: int)
    ensures CountTold([t] + ts, fd) == (if t.fd == fd then 1 else 0) + CountTold(ts, fd)
  {
    assert ([t] + ts)[1..] == ts;
  }

  /** Entries before k do not matter. */
  lemma {:induction false} NotToldAgain(p: World, k: nat, fd: int)
    requires forall j :: k <= j < |p.tables.pfds| ==> p.tables.pfds[j].fd != fd
    ensures CountTold(ToldBy(p, k), fd) == 0
    decreases |p.tables.pfds| - k
  {
    if k < |p.tables.pfds| {
      var next := if HungUp(p, k) then k + 2 else k + 1;
      NotToldAgain(p, next, fd);
      if !HungUp(p, k) {
        if ToRead(p, k) {
          CountToldCons(Told(p.tables.pfds[k].fd, Readers(p.clients, p.tables.pfds[k].fd)), ToldBy(p, k + 1), fd);
        } else {
          assert [] + ToldBy(p, k + 1) == ToldBy(p, k + 1);
        }
      }
      hide HungUp, ToRead, Readers, CountTold;
    }
  }

  lemma {:induction false} ToldIffComes(p: World, k: nat, j: nat)
    requires Distinct(EntryFds(p.tables.pfds)) && k <= j < |p.tables.pfds| && ToRead(p, j)
    ensures var fd := p.tables.pfds[j].fd;
      && CountTold(ToldBy(p, k), fd) == (if Comes(p, k, j) then 1 else 0)
      && (Comes(p, k, j) ==> Told(fd, Readers(p.clients, fd)) in ToldBy(p, k))
    decreases j - k
  {
    var fd, efds := p.tables.pfds[j].fd, EntryFds(p.tables.pfds);
    var now := Told(p.tables.pfds[k].fd, Readers(p.clients, p.tables.pfds[k].fd));
    assert forall m :: 0 <= m < |efds| && m != j ==> efds[m] != fd;
    CountToldCons(now, ToldBy(p, k + 1), fd);
    assert [] + ToldBy(p, k + 1) == ToldBy(p, k + 1);
    if k == j {
      NotToldAgain(p, k + 1, fd);
      assert now in [now] + ToldBy(p, k + 1);
    } else {
      assert p.tables.pfds[k].fd == efds[k] != fd;
      var next := if HungUp(p, k) then k + 2 else k + 1;
      if next <= j { ToldIffComes(p, next, j); } else { NotToldAgain(p, next, fd); }
      hide HungUp, Readers, CountTold;
    }
  }

  /** In every round, each client that poll reported readable and not hung up is told, once, through the
      transport registered at the poll; unless the entry before it is a client that hung up and was dispatched,
      and then it is not told in this round. */
  lemma ReadableIsTold(w: World, accepts: seq<Option<int>>, k: nat)
    requires InAgreement(w) && Lawful(w, 1, accepts) && 1 <= k < |w.tables.pfds| && ToRead(w, k)
    ensures var gained := ToldBy(w, 1); var fd := w.tables.pfds[k].fd;
      && RoundFrom(w, 1, accepts).told == w.told + gained
      && CountTold(gained, fd) == (if Comes(w, 1, k) then 1 else 0)
      && (Comes(w, 1, k) ==> Told(fd, Readers(w.clients, fd)) in gained)
      && (Comes(w, 1, k) <==> !(k > 1 && HungUp(w, k - 1) && Comes(w, 1, k - 1)))
  {
    AlignedAtPoll(w);
    RoundByPoll(w, 1, w, 1, [], accepts);
    ToldIffComes(w, 1, k);
    if k > 1 { ComesUnless(w, 1, k); }
    hide InAgreement, Lawful, RoundFrom, ToldBy, Comes, CountTold, Readers, HungUp, Aligned;
  }

  /** And in every round the clients afterwards are those at the poll, without the ones that hung up and were
      dispatched, and with the one that was accepted. */
  lemma ClientsAfterRound(w: World, accepts: seq<Option<int>>)
    requires InAgreement(w) && Lawful(w, 1, accepts)
    ensures RoundFrom(w, 1, accepts).clients == ClientsBy(w, 1, w.clients, accepts)
  {
    AlignedAtPoll(w);
    RoundByPoll(w, 1, w, 1, [], accepts);
  }

  // ------------------------------------------------------------------------ whole runs

  /** What poll reports for each entry, and what accept returns in the round. */
  datatype Round = Round(reports: seq<Ready>, accepts: seq<Option<int>>)

  function Reported(es: seq<Entry>, reports: seq<Ready>): (r: seq<Entry>)
    requires |reports| == |es|
    ensures |r| == |es| && forall k :: 0 <= k < |es| ==> r[k] == Entry(es[k].fd, reports[k])
  {
    seq(|es|, k requires 0 <= k < |es| => Entry(es[k].fd, reports[k]))
  }

  function Poll(w: World, reports: seq<Ready>): World
    requires |reports| == |w.tables.pfds|
  {
    w.(tables := w.tables.(pfds := Reported(w.tables.pfds, reports)))
  }

  ghost predicate Enabled(w: World, r: Round) {
    |r.reports| == |w.tables.pfds| && Lawful(Poll(w, r.reports), 1, r.accepts)
  }

  ghost function AfterRound(w: World, r: Round): World
    requires Enabled(w, r)
  {
    RoundFrom(Poll(w, r.reports), 1, r.accepts)
  }

  ghost predicate Possible(w: World, rs: seq<Round>)
    decreases rs
  {
    rs == [] || (Enabled(w, rs[0]) && Possible(AfterRound(w, rs[0]), rs[1..]))
  }

  ghost function Run(w: World, rs: seq<Round>): World
    requires Possible(w, rs)
    decreases rs
  {
    if rs == [] then w else Run(AfterRound(w, rs[0]), rs[1..])
  }

  /** Every event of every round reached the transport registered when that round's poll reported it. */
  ghost predicate NoneStale(w: World, rs: seq<Round>)
    requires Possible(w, rs)
    decreases rs
  {
    rs == [] || (AllRight(Poll(w, rs[0].reports), w.told, AfterRound(w, rs[0]).told) && NoneStale(AfterRound(w, rs[0]), rs[1..]))
  }

  /** Every round of the run told whom it should, in the order of the table, and left the clients it should. */
  ghost predicate NoneMissed(w: World, rs: seq<Round>)
    requires Possible(w, rs)
    decreases rs
  {
    rs == [] ||
      var p, u := Poll(w, rs[0].reports), AfterRound(w, rs[0]);
      u.told == w.told + ToldBy(p, 1) && u.clients == ClientsBy(p, 1, p.clients, rs[0].accepts) && NoneMissed(u, rs[1..])
  }

  lemma PollAgrees(w: World, reports: seq<Ready>)
    requires InAgreement(w) && |reports| == |w.tables.pfds|
    ensures InAgreement(Poll(w, reports)) && Current(Poll(w, reports), Poll(w, reports), 1)
  {
    assert EntryFds(Reported(w.tables.pfds, reports)) == EntryFds(w.tables.pfds);
    hide Readers, Distinct;
  }

  /** Over every run of rounds, with connections, hangups and reuse of descriptor numbers at any moment: the
      loop's two tables and the listener's transports agree, no event reaches two transports or a stale one,
      and each round tells exactly those whom the poll calls for. */
  lemma {:induction false} DescriptorsAgree(w: World, rs: seq<Round>)
    requires InAgreement(w) && Possible(w, rs)
    ensures InAgreement(Run(w, rs)) && NoneStale(w, rs) && NoneMissed(w, rs)
    decreases rs
  {
    hide InAgreement, RoundFrom, Lawful, AllRight, Current, Poll, ToldBy, ClientsBy, Aligned;
    if rs != [] {
      var p := Poll(w, rs[0].reports);
      PollAgrees(w, rs[0].reports);
      RoundTellsRight(p, p, 1, rs[0].accepts);
      PollTellsNobody(w, rs[0].reports);
      AgreedNonempty(p);
      AlignedAtPoll(p);
      RoundByPoll(p, 1, p, 1, [], rs[0].accepts);
      DescriptorsAgree(AfterRound(w, rs[0]), rs[1..]);
    }
  }

  lemma AgreedNonempty(w: World)
    requires InAgreement(w)
    ensures w.tables.pfds != []
  {
  }

  lemma PollTellsNobody(w: World, reports: seq<Ready>)
    requires |reports| == |w.tables.pfds|
    ensures Poll(w, reports).told == w.told
  {
  }

  // ------------------------------------------------------------------------ the code

  lemma {:induction false} RemoveClientAt(cs: seq<Client>, k: nat, fd: int)
    requires k <= |cs| && (forall j :: 0 <= j < k ==> cs[j].fd != fd) && (k < |cs| ==> cs[k].fd == fd)
    ensures RemoveClient(cs, fd) == if k < |cs| then cs[..k] + cs[k + 1..] else cs
    ensures fd in ClientFds(cs) <==> k < |cs|
  {
    if k < |cs| { assert ClientFds(cs)[k] == fd; }
    if k > 0 {
      var rest := cs[1..];
      RemoveClientAt(rest, k - 1, fd);
      assert RemoveClient(cs, fd) == [cs[0]] + RemoveClient(rest, fd);
      hide RemoveClient;
      RemoveShifted(cs, k);
    }
  }

  class Manager {
    const listen: int
    const loop: Poller
    var clients: seq<Client>
    var open: set<int>
    var serials: nat
    var told: seq<Told>

    ghost function Abs(): World
      reads this, loop
    {
      World(listen, clients, loop.Abs(), open, serials, told)
    }

    /** The descriptors made at start-up are the self-pipe and the listening socket. */
    constructor (selfPipe: int, socket: int)
      requires selfPipe != socket
      ensures InAgreement(Abs()) && Abs().clients == [] && Abs().told == [] && fresh(loop)
    {
      listen := socket;
      var p := new Poller(selfPipe);
      var _ := p.AddFD(0, socket);
      loop := p;
      clients, open, serials, told := [], {selfPipe, socket}, 0, [];
      new;
      assert EntryFds(loop.pfds) == [selfPipe, socket] && SourceFds(loop.sources) == [socket];
    }

    /** `clientDisconnected`, then the transport goes and its descriptor is closed. */
    method DropClient(fd: int)
      modifies this, loop
      ensures Abs() == if fd in ClientFds(old(clients)) then Disconnect(old(Abs()), fd) else old(Abs())
    {
      var k := 0;
      while k < |clients| && clients[k].fd != fd
        invariant 0 <= k <= |clients|
        invariant forall j :: 0 <= j < k ==> clients[j].fd != fd
      {
        k := k + 1;
      }
      RemoveClientAt(clients, k, fd);
      hide RemoveClient;
      if k < |clients| {
        var _ := loop.DelFD(fd);
        clients := clients[..k] + clients[k + 1..];
        open := open - {fd};
      }
    }

    /** A new transport, then `clientConnected`. */
    method AcceptClient(fd: int)
      modifies this, loop
      ensures Abs() == Connect(old(Abs()), fd)
    {
      clients, serials := clients + [Client(fd, serials)], serials + 1;
      open := open + {fd};
      var _ := loop.AddFD(0, fd);
    }

    /** Every transport with this descriptor is told to read. */
    method TellReaders(fd: int)
      modifies this`told
      ensures told == old(told) + [Told(fd, Readers(clients, fd))]
    {
      var readers, k := [], 0;
      assert clients[0..] == clients;
      while k < |clients|
        invariant 0 <= k <= |clients| && told == old(told)
        invariant readers + Readers(clients[k..], fd) == Readers(clients, fd)
      {
        assert clients[k..][1..] == clients[k + 1..];
        Regroup(readers, [clients[k].serial], Readers(clients[k + 1..], fd));
        if clients[k].fd == fd { readers := readers + [clients[k].serial]; }
        k := k + 1;
      }
      assert clients[k..] == [] && readers + [] == readers;
      told := told + [Told(fd, readers)];
    }

    method FdEvent(fd: int, ready: Ready, accepted: Option<int>)
      modifies this, loop
      ensures Abs() == OnEvent(old(Abs()), fd, ready, accepted)
    {
      hide Connect, Disconnect, Readers;
      if ready.hangup {
        DropClient(fd);
      } else if fd == listen {
        if accepted.Some? { AcceptClient(accepted.value); }
      } else if ready.readable {
        TellReaders(fd);
      }
    }

    /** The loop over `pFDs` with this manager as the handler of every source. */
    method DispatchReady(accepts: seq<Option<int>>)
      modifies this, loop
      ensures Abs() == RoundFrom(old(Abs()), 1, accepts)
    {
      var i, left := 1, accepts;
      while i < |loop.pfds|
        invariant 1 <= i
        invariant RoundFrom(Abs(), i, left) == RoundFrom(old(Abs()), 1, accepts)
        decreases CountReady(Tail(loop.pfds, i)), |loop.pfds| - i
      {
        ghost var w := Abs();
        if loop.pfds[i].revents == QUIET {
          assert loop.pfds[i..][1..] == loop.pfds[i + 1..];
        } else {
          RoundProgresses(w, i, First(left));
          if loop.pfds[i].fd in SourceFds(loop.sources) {
            FdEvent(loop.pfds[i].fd, loop.pfds[i].revents, First(left));
            left := Rest(left);
          }
          loop.Clear(i);
        }
        i := i + 1;
      }
    }
  }
}
