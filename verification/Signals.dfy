/** Signals and the poll loop: a handler may interrupt the loop between any two of its statements.

    One step of the loop is one access to the flags it shares with the handler. Handlers nest, and
    the loop goes on only when all of them have returned. */
module Signals {

  /** The code is `Build(false, false)`. `atomicSwap` reads and clears `signalFired` in one step;
      `drains` empties the self-pipe once poll has reported it. */
  datatype Build = Build(atomicSwap: bool, drains: bool)

  const CODE := Build(false, false)
  const NSIG := 65

  datatype Pc =
    | Outside            // between two calls of `loop`
    | ReadFlag           // oldSigFired = signalFired
    | ClearFlag          // signalFired = false
    | Test(i: int)       // signalsFired[i] == true ?
    | Clear(i: int)      // signalsFired[i] = false
    | Call(i: int)       // the sources of signal i are told
    | Polling            // poll may block here
    | Descriptors        // descriptors that are ready are served
    | Recheck            // if (signalFired) goto sigfired

  /** A handler for `signum` that has executed `done` of its three writes. */
  datatype Handling = Handling(signum: int, done: nat)

  datatype Occurrence = Delivered(signum: int) | Dispatched(signum: int)

  datatype State = State(
    pc: Pc,
    seen: bool,                // oldSigFired
    polled: bool,              // haveRunPoll
    fired: bool,               // signalFired
    pending: set<int>,         // signalsFired
    pipe: nat,                 // bytes in the self-pipe
    handlers: seq<Handling>,   // interrupted handlers, innermost last
    log: seq<Occurrence>)      // history

  const INITIAL := State(Outside, false, false, false, {}, 0, [], [])

  datatype Event =
    | Interrupt(signum: int)   // the kernel delivers a signal
    | HandlerStep              // the innermost handler goes on
    | LoopStep                 // the loop goes on

  predicate IsSignal(n: int) { 0 <= n < NSIG }

  /** A signal is blocked while its own handler runs; other signals are not. */
  predicate Blocked(s: State, n: int) {
    exists i :: 0 <= i < |s.handlers| && s.handlers[i].signum == n
  }

  predicate Enabled(s: State, e: Event) {
    match e
    case Interrupt(n) => IsSignal(n) && !Blocked(s, n)
    case HandlerStep => s.handlers != []
    case LoopStep => s.handlers == []
  }

  /** The three writes of `sigHandler`, in order. */
  function StepHandler(s: State): State
    requires s.handlers != []
  {
    var k := |s.handlers| - 1;
    var h := s.handlers[k];
    var t := s.(handlers := s.handlers[k := Handling(h.signum, h.done + 1)]);
    if h.done == 0 then t.(fired := true)
    else if h.done == 1 then t.(pending := s.pending + {h.signum})
    else s.(handlers := s.handlers[..k], pipe := s.pipe + 1)
  }

  function AfterSwap(s: State): State {
    s.(fired := false, pc := if s.seen then Test(0) else AfterScan(s))
  }

  function AfterScan(s: State): Pc {
    if s.polled then Descriptors else Polling
  }

  function StepLoop(b: Build, s: State): State {
    match s.pc
    case Outside => s.(pc := ReadFlag, polled := false)
    case ReadFlag => if b.atomicSwap then AfterSwap(s.(seen := s.fired)) else s.(seen := s.fired, pc := ClearFlag)
    case ClearFlag => AfterSwap(s)
    case Test(i) =>
      if i >= NSIG then s.(pc := AfterScan(s))
      else if i in s.pending then s.(pc := Clear(i))
      else s.(pc := Test(i + 1))
    case Clear(i) => s.(pending := s.pending - {i}, pc := Call(i))
    case Call(i) => s.(log := s.log + [Dispatched(i)], pc := Test(i + 1))
    case Polling => s.(polled := true, pc := Descriptors)
    case Descriptors => s.(pipe := if b.drains then 0 else s.pipe, pc := Recheck)
    case Recheck => s.(pc := if s.fired then ReadFlag else Outside)
  }

  function Apply(b: Build, s: State, e: Event): State
    requires Enabled(s, e)
  {
    match e
    case Interrupt(n) => s.(handlers := s.handlers + [Handling(n, 0)], log := s.log + [Delivered(n)])
    case HandlerStep => StepHandler(s)
    case LoopStep => StepLoop(b, s)
  }

  ghost predicate Possible(b: Build, s: State, es: seq<Event>)
    decreases es
  {
    es == [] || (Enabled(s, es[0]) && Possible(b, Apply(b, s, es[0]), es[1..]))
  }

  ghost function Run(b: Build, s: State, es: seq<Event>): State
    requires Possible(b, s, es)
    decreases es
  {
    if es == [] then s else Run(b, Apply(b, s, es[0]), es[1..])
  }

  /** Signal `n` has been delivered and no dispatch of it has followed. */
  predicate Unserved(log: seq<Occurrence>, n: int) {
    if log == [] then false
    else
      var last := log[|log| - 1];
      last == Delivered(n) || (last != Dispatched(n) && Unserved(log[..|log| - 1], n))
  }

  // ------------------------------------------------------------------------ the invariant

  /** The scan has yet to look at signal `n`. */
  predicate ScanAhead(pc: Pc, n: int) {
    match pc
    case Test(i) => i <= n
    case Clear(i) => i <= n
    case Call(i) => i < n
    case _ => false
  }

  /** A pending signal is going to be noticed: the flag is set, or the scan has not passed it. */
  predicate Noticed(s: State, n: int) {
    s.fired || ScanAhead(s.pc, n) || (s.pc.ClearFlag? && s.seen)
  }

  ghost predicate NoLostSignal(s: State) {
    forall n :: n in s.pending ==> Noticed(s, n)
  }

  /** A handler for `n` has not made its second write yet. */
  predicate Marking(s: State, n: int) {
    exists i :: 0 <= i < |s.handlers| && s.handlers[i].signum == n && s.handlers[i].done <= 1
  }

  ghost predicate Tracked(s: State) {
    forall n :: Unserved(s.log, n) ==> n in s.pending || Marking(s, n) || s.pc == Call(n)
  }

  /** Facts about the pieces: signal numbers, handlers that have set the flag, and the pipe. */
  ghost predicate Sane(b: Build, s: State) {
    && (forall n :: n in s.pending ==> IsSignal(n))
    && (forall i :: 0 <= i < |s.handlers| ==> IsSignal(s.handlers[i].signum) && s.handlers[i].done <= 2)
    && (forall i :: 0 <= i < |s.handlers| && s.handlers[i].done >= 1 ==> s.fired)
    && (s.pc.Test? || s.pc.Clear? || s.pc.Call? ==> 0 <= s.pc.i <= NSIG && (s.pc.i == NSIG ==> s.pc.Test?))
    && (s.pc.ClearFlag? ==> !b.atomicSwap)
    && (s.pc.Polling? ==> !s.polled)
  }

  /** Since the flag was last read, a signal that set it has also written to the pipe. */
  ghost predicate Awake(s: State) {
    s.fired && s.handlers == [] && (s.pc.Test? || s.pc.Clear? || s.pc.Call? || s.pc.Polling?) ==> s.pipe > 0
  }

  /** The flag was found clear and set again before it was cleared: some signal is, or is about to
      be, pending. */
  ghost predicate Windowed(s: State) {
    s.pc.ClearFlag? && !s.seen && s.fired ==>
      (exists n :: n in s.pending) || exists i :: 0 <= i < |s.handlers| && s.handlers[i].done == 1
  }

  ghost predicate Inv(b: Build, s: State) {
    Sane(b, s) && NoLostSignal(s) && Tracked(s) && Awake(s) && Windowed(s)
  }

  /** A signal landed between the read and the clear of `signalFired`, which was read as clear. */
  predicate Race(s: State, e: Event) {
    e.LoopStep? && s.pc.ClearFlag? && !s.seen && s.fired
  }

  // ------------------------------------------------------------------------ steps

  lemma InterruptKeeps(b: Build, s: State, n: int)
    requires Inv(b, s) && Enabled(s, Interrupt(n))
    ensures Inv(b, Apply(b, s, Interrupt(n)))
  {
    var t := Apply(b, s, Interrupt(n));
    assert t.handlers[|s.handlers|] == Handling(n, 0);
    assert forall i :: 0 <= i < |s.handlers| ==> t.handlers[i] == s.handlers[i];
    forall m | Unserved(t.log, m) ensures m in t.pending || Marking(t, m) || t.pc == Call(m) {
      assert t.log[..|s.log|] == s.log;
      if m != n && Marking(s, m) {
        var i :| 0 <= i < |s.handlers| && s.handlers[i].signum == m && s.handlers[i].done <= 1;
        assert t.handlers[i] == s.handlers[i];
      }
    }
  }

  lemma HandlerKeeps(b: Build, s: State)
    requires Inv(b, s) && s.handlers != []
    ensures Inv(b, StepHandler(s))
  {
    var k := |s.handlers| - 1;
    var t := StepHandler(s);
    assert forall i :: 0 <= i < k ==> t.handlers[i] == s.handlers[i];
    assert |t.handlers| == |s.handlers| ==> t.handlers[k] == Handling(s.handlers[k].signum, s.handlers[k].done + 1);
    forall m | Unserved(t.log, m) ensures m in t.pending || Marking(t, m) || t.pc == Call(m) {
      if m !in s.pending && Marking(s, m) {
        var i :| 0 <= i < |s.handlers| && s.handlers[i].signum == m && s.handlers[i].done <= 1;
        assert i < k ==> t.handlers[i] == s.handlers[i];
      }
    }
  }

  lemma LoopStaysSane(b: Build, s: State)
    requires Sane(b, s) && s.handlers == []
    ensures Sane(b, StepLoop(b, s))
  {
  }

  lemma LoopStaysAwake(b: Build, s: State)
    requires Windowed(s) && Awake(s) && s.handlers == []
    ensures var t := StepLoop(b, s); Windowed(t) && Awake(t)
  {
  }

  lemma LoopNotices(b: Build, s: State)
    requires Sane(b, s) && NoLostSignal(s) && s.handlers == [] && !Race(s, LoopStep)
    ensures NoLostSignal(StepLoop(b, s))
  {
  }

  lemma CallTracks(b: Build, s: State)
    requires Tracked(s) && s.handlers == [] && s.pc.Call?
    ensures Tracked(StepLoop(b, s))
  {
    var t := StepLoop(b, s);
    assert t.log[..|s.log|] == s.log && t.log[|s.log|] == Dispatched(s.pc.i);
    assert forall n :: Unserved(t.log, n) ==> Unserved(s.log, n) && n != s.pc.i;
    hide Unserved;
  }

  lemma LoopTracks(b: Build, s: State)
    requires Tracked(s) && s.handlers == []
    ensures Tracked(StepLoop(b, s))
  {
    if s.pc.Call? {
      CallTracks(b, s);
    } else {
      assert StepLoop(b, s).log == s.log && StepLoop(b, s).handlers == [];
      assert s.pc.Clear? || StepLoop(b, s).pending == s.pending;
      hide Unserved;
    }
  }

  lemma LoopKeeps(b: Build, s: State)
    requires Inv(b, s) && s.handlers == [] && !Race(s, LoopStep)
    ensures Inv(b, StepLoop(b, s))
  {
    LoopStaysSane(b, s);
    LoopStaysAwake(b, s);
    LoopNotices(b, s);
    LoopTracks(b, s);
    hide StepLoop, Sane, NoLostSignal, Tracked, Awake, Windowed;
  }

  lemma StepKeeps(b: Build, s: State, e: Event)
    requires Inv(b, s) && Enabled(s, e) && !Race(s, e)
    ensures Inv(b, Apply(b, s, e))
  {
    match e
    case Interrupt(n) => InterruptKeeps(b, s, n);
    case HandlerStep => HandlerKeeps(b, s);
    case LoopStep => LoopKeeps(b, s);
  }

  /** The racing clear always loses: afterwards some pending signal is not going to be noticed. */
  lemma RaceLoses(b: Build, s: State)
    requires Inv(b, s) && Enabled(s, LoopStep) && Race(s, LoopStep)
    ensures !NoLostSignal(Apply(b, s, LoopStep))
  {
    var n :| n in s.pending;
    assert !Noticed(Apply(b, s, LoopStep), n);
  }

  // ------------------------------------------------------------------------ whole runs

  ghost predicate RaceFree(b: Build, s: State, es: seq<Event>)
    requires Possible(b, s, es)
    decreases es
  {
    es == [] || (!Race(s, es[0]) && RaceFree(b, Apply(b, s, es[0]), es[1..]))
  }

  /** No state along the run has a pending signal that goes unnoticed. */
  ghost predicate NeverLoses(b: Build, s: State, es: seq<Event>)
    requires Possible(b, s, es)
    decreases es
  {
    NoLostSignal(s) && (es == [] || NeverLoses(b, Apply(b, s, es[0]), es[1..]))
  }

  /** A run, of any build, never loses a signal exactly when no signal lands in the window. */
  lemma {:induction false} NeverLosesIffRaceFree(b: Build, s: State, es: seq<Event>)
    requires Inv(b, s) && Possible(b, s, es)
    ensures NeverLoses(b, s, es) <==> RaceFree(b, s, es)
    decreases es
  {
    if es != [] {
      var t := Apply(b, s, es[0]);
      if Race(s, es[0]) {
        RaceLoses(b, s);
        assert !NeverLoses(b, t, es[1..]);
      } else {
        StepKeeps(b, s, es[0]);
        NeverLosesIffRaceFree(b, t, es[1..]);
      }
    }
  }

  lemma {:induction false} RunKeeps(b: Build, s: State, es: seq<Event>)
    requires Inv(b, s) && Possible(b, s, es) && RaceFree(b, s, es)
    ensures Inv(b, Run(b, s, es))
    decreases es
  {
    hide Inv;
    if es != [] {
      StepKeeps(b, s, es[0]);
      RunKeeps(b, Apply(b, s, es[0]), es[1..]);
    }
  }

  /** With the swap made atomic there is no window. */
  lemma {:induction false} AtomicSwapIsRaceFree(b: Build, s: State, es: seq<Event>)
    requires b.atomicSwap && Inv(b, s) && Possible(b, s, es)
    ensures RaceFree(b, s, es)
    decreases es
  {
    if es != [] {
      StepKeeps(b, s, es[0]);
      AtomicSwapIsRaceFree(b, Apply(b, s, es[0]), es[1..]);
    }
  }

  lemma InitialInv(b: Build)
    ensures Inv(b, INITIAL)
  {
  }

  /** Whenever `loop` returns, every signal delivered so far has been dispatched after its delivery;
      and poll cannot block while one has not. In every race-free run, of any build. */
  lemma EverySignalIsServed(b: Build, es: seq<Event>, n: int)
    requires Possible(b, INITIAL, es) && RaceFree(b, INITIAL, es)
    requires Run(b, INITIAL, es).handlers == [] && Unserved(Run(b, INITIAL, es).log, n)
    ensures var s := Run(b, INITIAL, es);
      && !(s.pc.Recheck? && StepLoop(b, s).pc.Outside?)
      && (s.pc.Polling? ==> s.pipe > 0)
  {
    InitialInv(b);
    RunKeeps(b, INITIAL, es);
  }

  /** The same for all runs once the swap is atomic, drained pipe or not. */
  lemma AtomicSwapServesEverySignal(b: Build, es: seq<Event>, n: int)
    requires b.atomicSwap && Possible(b, INITIAL, es)
    requires Run(b, INITIAL, es).handlers == [] && Unserved(Run(b, INITIAL, es).log, n)
    ensures var s := Run(b, INITIAL, es);
      && !(s.pc.Recheck? && StepLoop(b, s).pc.Outside?)
      && (s.pc.Polling? ==> s.pipe > 0)
  {
    InitialInv(b);
    AtomicSwapIsRaceFree(b, INITIAL, es);
    EverySignalIsServed(b, es, n);
  }

  // ------------------------------------------------------------------------ bounded response

  /** How many steps of the loop it takes at most from here to dispatch signal `n`: on to `n` if the scan has
      not passed it, and else to the end of the scan, through poll, and once more from the start. */
  function Distance(pc: Pc, n: int): int {
    match pc
    case Outside => 3 * n + 6
    case ReadFlag => 3 * n + 5
    case ClearFlag => 3 * n + 4
    case Test(i) => if i <= n then 3 * (n - i) + 3 else 3 * (NSIG - i) + 3 * n + 9
    case Clear(i) => if i <= n then 3 * (n - i) + 2 else 3 * (NSIG - i) + 3 * n + 8
    case Call(i) => if i <= n then 3 * (n - i) + 1 else 3 * (NSIG - i) + 3 * n + 7
    case Polling => 3 * n + 8
    case Descriptors => 3 * n + 7
    case Recheck => 3 * n + 6
  }

  const RESPONSE := 3 * NSIG + 6

  lemma DistanceBounded(b: Build, s: State, n: int)
    requires Sane(b, s) && IsSignal(n)
    ensures 0 < Distance(s.pc, n) <= RESPONSE
  {
  }

  /** With no handler running, a signal that awaits its dispatch is pending, or about to be called. */
  lemma UnservedIsPending(b: Build, s: State, n: int)
    requires Inv(b, s) && s.handlers == [] && Unserved(s.log, n)
    ensures s.pc == Call(n) || (n in s.pending && Noticed(s, n))
  {
    hide Unserved;
  }

  /** A step of the loop dispatches the signal or brings its dispatch nearer. */
  lemma LoopApproaches(b: Build, s: State, n: int)
    requires Inv(b, s) && s.handlers == [] && !Race(s, LoopStep) && IsSignal(n) && Unserved(s.log, n)
    ensures var t := StepLoop(b, s);
      t.log == s.log + [Dispatched(n)] || Distance(t.pc, n) < Distance(s.pc, n)
  {
    UnservedIsPending(b, s, n);
    hide Unserved, Tracked, Awake, Windowed, NoLostSignal;
  }

  lemma StepLogs(b: Build, s: State, e: Event, n: int)
    requires Enabled(s, e)
    ensures var t := Apply(b, s, e);
      s.log <= t.log && (Unserved(t.log, n) && !Unserved(s.log, n) ==> IsSignal(n))
  {
    if e.Interrupt? {
      assert (s.log + [Delivered(e.signum)])[..|s.log|] == s.log;
    } else if e.LoopStep? && s.pc.Call? {
      assert (s.log + [Dispatched(s.pc.i)])[..|s.log|] == s.log;
    }
  }

  /** Signals are only ever added to the log. */
  lemma {:induction false} LogGrows(b: Build, s: State, es: seq<Event>)
    requires Possible(b, s, es)
    ensures s.log <= Run(b, s, es).log
    decreases es
  {
    if es != [] {
      StepLogs(b, s, es[0], 0);
      hide Apply, Enabled, Unserved;
      LogGrows(b, Apply(b, s, es[0]), es[1..]);
    }
  }

  function LoopSteps(es: seq<Event>): nat {
    if es == [] then 0 else (if es[0].LoopStep? then 1 else 0) + LoopSteps(es[1..])
  }

  /** Signal `n` is dispatched in what the log has gained. */
  ghost predicate DispatchedSince(before: seq<Occurrence>, after: seq<Occurrence>, n: int) {
    before <= after && exists j :: |before| <= j < |after| && after[j] == Dispatched(n)
  }

  lemma DispatchedSinceEarlier(a: seq<Occurrence>, b: seq<Occurrence>, c: seq<Occurrence>, n: int)
    requires a <= b && DispatchedSince(b, c, n)
    ensures DispatchedSince(a, c, n)
  {
  }

  lemma DispatchedNow(before: seq<Occurrence>, after: seq<Occurrence>, n: int)
    requires before + [Dispatched(n)] <= after
    ensures DispatchedSince(before, after, n)
  {
    assert after[|before|] == (before + [Dispatched(n)])[|before|];
  }

  /** What an event other than a step of the loop does to a signal that awaits its dispatch: nothing. */
  lemma OthersWait(b: Build, s: State, e: Event, n: int)
    requires Enabled(s, e) && !e.LoopStep? && Unserved(s.log, n)
    ensures var t := Apply(b, s, e); t.pc == s.pc && Unserved(t.log, n) && s.log <= t.log
  {
    if e.Interrupt? { assert (s.log + [Delivered(e.signum)])[..|s.log|] == s.log; }
  }

  lemma LoopLogs(b: Build, s: State, n: int)
    requires Unserved(s.log, n)
    ensures var t := StepLoop(b, s); s.log <= t.log && (t.log == s.log + [Dispatched(n)] || Unserved(t.log, n))
  {
    if s.pc.Call? { assert (s.log + [Dispatched(s.pc.i)])[..|s.log|] == s.log; }
  }

  /** From any state of a race-free run in which a delivered signal awaits its dispatch: it is dispatched in
      every race-free continuation in which the loop makes enough steps, however many signals and handlers
      come in between. */
  lemma {:induction false} Responds(b: Build, s: State, n: int, es: seq<Event>)
    requires Inv(b, s) && IsSignal(n) && Unserved(s.log, n)
    requires Possible(b, s, es) && RaceFree(b, s, es) && LoopSteps(es) >= Distance(s.pc, n)
    ensures DispatchedSince(s.log, Run(b, s, es).log, n)
    decreases es
  {
    DistanceBounded(b, s, n);
    hide Inv, Unserved, DispatchedSince;
    var e := es[0];
    var t := Apply(b, s, e);
    StepKeeps(b, s, e);
    LogGrows(b, t, es[1..]);
    if e.LoopStep? {
      LoopApproaches(b, s, n);
      LoopLogs(b, s, n);
    } else {
      OthersWait(b, s, e, n);
    }
    hide Apply, Enabled, Race, StepLoop, Distance;
    if e.LoopStep? && t.log == s.log + [Dispatched(n)] {
      DispatchedNow(s.log, Run(b, s, es).log, n);
    } else {
      Responds(b, t, n, es[1..]);
      DispatchedSinceEarlier(s.log, t.log, Run(b, s, es).log, n);
    }
  }

  lemma {:induction false} UnservedIsSignal(b: Build, s: State, es: seq<Event>, n: int)
    requires Possible(b, s, es) && Unserved(Run(b, s, es).log, n) && (Unserved(s.log, n) ==> IsSignal(n))
    ensures IsSignal(n)
    decreases es
  {
    if es != [] {
      StepLogs(b, s, es[0], n);
      hide Apply, Enabled, Unserved, IsSignal;
      UnservedIsSignal(b, Apply(b, s, es[0]), es[1..], n);
    }
  }

  /** In every race-free run of any build, each delivery is followed by a dispatch within `RESPONSE` steps of
      the loop: after any beginning `es` that leaves signal `n` unserved, every continuation `fs` with that
      many loop steps dispatches it. */
  lemma EveryDeliveryIsDispatched(b: Build, es: seq<Event>, fs: seq<Event>, n: int)
    requires Possible(b, INITIAL, es) && RaceFree(b, INITIAL, es) && Unserved(Run(b, INITIAL, es).log, n)
    requires var s := Run(b, INITIAL, es); Possible(b, s, fs) && RaceFree(b, s, fs) && LoopSteps(fs) >= RESPONSE
    ensures var s := Run(b, INITIAL, es); DispatchedSince(s.log, Run(b, s, fs).log, n)
  {
    InitialInv(b);
    RunKeeps(b, INITIAL, es);
    UnservedIsSignal(b, INITIAL, es, n);
    var s := Run(b, INITIAL, es);
    DistanceBounded(b, s, n);
    hide Unserved, DispatchedSince, Run;
    Responds(b, s, n, fs);
  }

  /** With an atomic swap: in every run. */
  lemma AtomicSwapDispatchesEveryDelivery(b: Build, es: seq<Event>, fs: seq<Event>, n: int)
    requires b.atomicSwap && Possible(b, INITIAL, es) && Unserved(Run(b, INITIAL, es).log, n)
    requires Possible(b, Run(b, INITIAL, es), fs) && LoopSteps(fs) >= RESPONSE
    ensures var s := Run(b, INITIAL, es); DispatchedSince(s.log, Run(b, s, fs).log, n)
  {
    InitialInv(b);
    AtomicSwapIsRaceFree(b, INITIAL, es);
    RunKeeps(b, INITIAL, es);
    AtomicSwapIsRaceFree(b, Run(b, INITIAL, es), fs);
    EveryDeliveryIsDispatched(b, es, fs, n);
  }

  // ------------------------------------------------------------------------ no dispatch without a delivery

  function Count(log: seq<Occurrence>, o: Occurrence): nat {
    if log == [] then 0 else Count(log[..|log| - 1], o) + (if log[|log| - 1] == o then 1 else 0)
  }

  /** At every moment each signal has been dispatched at most as often as it was delivered. */
  ghost predicate Balanced(log: seq<Occurrence>) {
    forall n, k :: 0 <= k <= |log| ==> Count(log[..k], Dispatched(n)) <= Count(log[..k], Delivered(n))
  }

  function One(b: bool): nat { if b then 1 else 0 }

  /** Every dispatch made or under way, and every mark made or about to be made, has a delivery of its own. */
  ghost predicate Backed(s: State) {
    forall n :: Count(s.log, Dispatched(n)) + One(n in s.pending) + One(s.pc == Call(n)) + One(Marking(s, n)) <= Count(s.log, Delivered(n))
  }

  /** A signal that is about to be cleared is pending; no two handlers are for the same signal. */
  ghost predicate Honest(s: State) {
    && (s.pc.Clear? ==> s.pc.i in s.pending)
    && (forall i, j :: 0 <= i < j < |s.handlers| ==> s.handlers[i].signum != s.handlers[j].signum)
    && Backed(s) && Balanced(s.log)
  }

  lemma CountAppend(log: seq<Occurrence>, last: Occurrence, o: Occurrence)
    ensures Count(log + [last], o) == Count(log, o) + (if last == o then 1 else 0)
  {
    assert (log + [last])[..|log|] == log;
  }

  lemma BalancedAppend(log: seq<Occurrence>, last: Occurrence)
    requires Balanced(log) && forall n :: Count(log + [last], Dispatched(n)) <= Count(log + [last], Delivered(n))
    ensures Balanced(log + [last])
  {
    var all := log + [last];
    forall n, k | 0 <= k <= |all| ensures Count(all[..k], Dispatched(n)) <= Count(all[..k], Delivered(n)) {
      if k <= |log| { assert all[..k] == log[..k]; } else { assert all[..k] == all; }
    }
    hide Count;
  }

  lemma InterruptHonest(b: Build, s: State, n: int)
    requires Honest(s) && Enabled(s, Interrupt(n))
    ensures Honest(Apply(b, s, Interrupt(n)))
  {
    var t := Apply(b, s, Interrupt(n));
    assert forall i :: 0 <= i < |s.handlers| ==> t.handlers[i] == s.handlers[i];
    forall m
      ensures Count(t.log, Dispatched(m)) == Count(s.log, Dispatched(m))
      ensures Count(t.log, Delivered(m)) == Count(s.log, Delivered(m)) + One(m == n)
      ensures One(Marking(t, m)) <= One(Marking(s, m)) + One(m == n)
    {
      CountAppend(s.log, Delivered(n), Dispatched(m));
      CountAppend(s.log, Delivered(n), Delivered(m));
      if Marking(t, m) && m != n {
        var i :| 0 <= i < |t.handlers| && t.handlers[i].signum == m && t.handlers[i].done <= 1;
        assert s.handlers[i] == t.handlers[i];
      }
    }
    assert !Marking(s, n);
    hide Count, Marking, Balanced;
    assert forall m :: Count(t.log, Dispatched(m)) <= Count(t.log, Delivered(m));
    BalancedAppend(s.log, Delivered(n));
  }

  /** A handler's step marks at most its own signal, and then no longer owes the mark. */
  lemma HandlerMarks(s: State, n: int)
    requires Honest(s) && s.handlers != []
    ensures var t := StepHandler(s); One(n in t.pending) + One(Marking(t, n)) <= One(n in s.pending) + One(Marking(s, n))
  {
    hide Backed, Balanced;
    var k := |s.handlers| - 1;
    var t := StepHandler(s);
    assert forall i :: 0 <= i < k ==> t.handlers[i] == s.handlers[i];
    if Marking(t, n) {
      var i :| 0 <= i < |t.handlers| && t.handlers[i].signum == n && t.handlers[i].done <= 1;
      assert s.handlers[i].signum == n && s.handlers[i].done <= 1;
    }
    if n in t.pending && n !in s.pending {
      assert s.handlers[k].signum == n && s.handlers[k].done == 1;
      assert !Marking(t, n);
    }
  }

  lemma HandlerHonest(s: State)
    requires Honest(s) && s.handlers != []
    ensures Honest(StepHandler(s))
  {
    var t := StepHandler(s);
    assert t.log == s.log && t.pc == s.pc && s.pending <= t.pending;
    assert forall i :: 0 <= i < |t.handlers| ==> t.handlers[i].signum == s.handlers[i].signum;
    forall n ensures One(n in t.pending) + One(Marking(t, n)) <= One(n in s.pending) + One(Marking(s, n)) {
      HandlerMarks(s, n);
    }
    hide Count, Marking, Balanced, StepHandler;
  }

  /** Until it is called, a signal moves from pending to the call. */
  lemma LoopMoves(b: Build, s: State, n: int)
    requires s.pc.Clear? ==> s.pc.i in s.pending
    ensures var t := StepLoop(b, s);
      && One(n in t.pending) + One(t.pc == Call(n)) <= One(n in s.pending) + One(s.pc == Call(n))
      && (s.pc == Call(n) ==> t.pc != Call(n) && t.pending == s.pending)
      && (t.pc.Clear? ==> t.pc.i in t.pending) && t.handlers == s.handlers
      && t.log == s.log + (if s.pc.Call? then [Dispatched(s.pc.i)] else [])
  {
  }

  lemma NoneMarking(s: State, n: int)
    requires s.handlers == []
    ensures !Marking(s, n)
  {
  }

  lemma LoopBacked(b: Build, s: State, n: int)
    requires Honest(s) && s.handlers == []
    ensures var t := StepLoop(b, s);
      Count(t.log, Dispatched(n)) + One(n in t.pending) + One(t.pc == Call(n)) + One(Marking(t, n)) <= Count(t.log, Delivered(n))
  {
    var t := StepLoop(b, s);
    LoopMoves(b, s, n);
    NoneMarking(t, n);
    assert Count(s.log, Dispatched(n)) + One(n in s.pending) + One(s.pc == Call(n)) <= Count(s.log, Delivered(n));
    if s.pc.Call? {
      CountAppend(s.log, Dispatched(s.pc.i), Dispatched(n));
      CountAppend(s.log, Dispatched(s.pc.i), Delivered(n));
    } else {
      assert s.log + [] == s.log;
    }
    hide StepLoop, Count, Marking, Honest;
  }

  lemma LoopHonest(b: Build, s: State)
    requires Honest(s) && s.handlers == []
    ensures Honest(StepLoop(b, s))
  {
    var t := StepLoop(b, s);
    LoopMoves(b, s, 0);
    forall n ensures Count(t.log, Dispatched(n)) + One(n in t.pending) + One(t.pc == Call(n)) + One(Marking(t, n)) <= Count(t.log, Delivered(n)) {
      LoopBacked(b, s, n);
    }
    hide StepLoop, Count, Marking, Balanced;
    assert Backed(t);
    if s.pc.Call? {
      BalancedAppend(s.log, Dispatched(s.pc.i));
    } else {
      assert s.log + [] == s.log;
    }
  }

  lemma {:induction false} RunHonest(b: Build, s: State, es: seq<Event>)
    requires Honest(s) && Possible(b, s, es)
    ensures Honest(Run(b, s, es))
    decreases es
  {
    hide Honest;
    if es != [] {
      match es[0] {
        case Interrupt(n) => InterruptHonest(b, s, n);
        case HandlerStep => HandlerHonest(s);
        case LoopStep => LoopHonest(b, s);
      }
      RunHonest(b, Apply(b, s, es[0]), es[1..]);
    }
  }

  function Deliveries(es: seq<Event>): seq<int> {
    if es == [] then [] else (if es[0].Interrupt? then [es[0].signum] else []) + Deliveries(es[1..])
  }

  /** In every run, of every build and with or without races, no signal is dispatched that was not delivered,
      and none more often than it was delivered; at every moment of the run. */
  lemma DispatchesAreBacked(b: Build, es: seq<Event>, n: int, k: nat)
    requires Possible(b, INITIAL, es) && k <= |Run(b, INITIAL, es).log|
    ensures var log := Run(b, INITIAL, es).log; Count(log[..k], Dispatched(n)) <= Count(log[..k], Delivered(n))
  {
    assert Honest(INITIAL);
    RunHonest(b, INITIAL, es);
    hide Count, Run;
  }

  function DeliveredIn(log: seq<Occurrence>): seq<int> {
    if log == [] then []
    else DeliveredIn(log[..|log| - 1]) + (if log[|log| - 1].Delivered? then [log[|log| - 1].signum] else [])
  }

  /** What the log has as delivered is what the kernel delivered. */
  lemma {:induction false} DeliveriesAreLogged(b: Build, s: State, es: seq<Event>)
    requires Possible(b, s, es)
    ensures DeliveredIn(Run(b, s, es).log) == DeliveredIn(s.log) + Deliveries(es)
    decreases es
  {
    if es != [] {
      var t := Apply(b, s, es[0]);
      StepDelivers(b, s, es[0]);
      DeliveriesAreLogged(b, t, es[1..]);
      var first := if es[0].Interrupt? then [es[0].signum] else [];
      assert DeliveredIn(s.log) + (first + Deliveries(es[1..])) == (DeliveredIn(s.log) + first) + Deliveries(es[1..]);
      hide Apply, Enabled, DeliveredIn;
    }
  }

  lemma StepDelivers(b: Build, s: State, e: Event)
    requires Enabled(s, e)
    ensures DeliveredIn(Apply(b, s, e).log) == DeliveredIn(s.log) + (if e.Interrupt? then [e.signum] else [])
  {
    var t := Apply(b, s, e);
    if |t.log| > |s.log| {
      assert t.log[..|s.log|] == s.log;
    } else {
      assert t.log == s.log;
    }
  }

  // ------------------------------------------------------------------------ departures of the code

  /** Signal `n` is pending, but the loop is past every point where it would see that. */
  predicate Stranded(s: State, n: int) {
    && n in s.pending && !s.fired && s.handlers == []
    && !s.seen && !s.pc.Test? && !s.pc.Clear? && !s.pc.Call?
  }

  /** The racing clear strands the signal that raced. */
  lemma RaceStrands(b: Build, s: State, n: int)
    requires Race(s, LoopStep) && s.handlers == [] && n in s.pending
    ensures Stranded(Apply(b, s, LoopStep), n)
  {
  }

  /** A stranded signal stays stranded, however long the loop runs, until another signal arrives. */
  lemma {:induction false} StrandedUntilNextSignal(b: Build, s: State, n: int, es: seq<Event>)
    requires Stranded(s, n) && Possible(b, s, es)
    requires forall e :: e in es ==> e.LoopStep?
    ensures Stranded(Run(b, s, es), n) && Run(b, s, es).log == s.log
    decreases es
  {
    if es != [] {
      assert es[0] in es;
      assert forall e :: e in es[1..] ==> e in es;
      StrandedUntilNextSignal(b, Apply(b, s, es[0]), n, es[1..]);
    }
  }

  /** The code never empties the self-pipe: after the first signal no poll can ever block again. */
  lemma {:induction false} PipeNeverDrains(s: State, es: seq<Event>)
    requires Possible(CODE, s, es)
    ensures Run(CODE, s, es).pipe >= s.pipe
    decreases es
  {
    if es != [] {
      PipeNeverDrains(Apply(CODE, s, es[0]), es[1..]);
    }
  }

  ghost function HandlersDone(b: Build, s: State, es: seq<Event>): nat
    requires Possible(b, s, es)
    decreases es
  {
    if es == [] then 0
    else
      (if es[0].HandlerStep? && |Apply(b, s, es[0]).handlers| < |s.handlers| then 1 else 0) + HandlersDone(b, Apply(b, s, es[0]), es[1..])
  }

  /** The self-pipe of a build that does not drain it has a byte for every handler that ever returned. */
  lemma {:induction false} PipeHasAll(b: Build, s: State, es: seq<Event>)
    requires Possible(b, s, es) && !b.drains
    ensures Run(b, s, es).pipe == s.pipe + HandlersDone(b, s, es)
    decreases es
  {
    if es != [] { PipeHasAll(b, Apply(b, s, es[0]), es[1..]); }
  }

  /** A build that drains it leaves nothing in it once descriptors have been served. */
  lemma DrainedAfterPoll(b: Build, s: State)
    requires b.drains && s.pc.Descriptors?
    ensures StepLoop(b, s).pipe == 0
  {
  }

  lemma {:induction false} Join(b: Build, s: State, es: seq<Event>, fs: seq<Event>)
    requires Possible(b, s, es) && Possible(b, Run(b, s, es), fs)
    ensures Possible(b, s, es + fs) && Run(b, s, es + fs) == Run(b, Run(b, s, es), fs)
    decreases es
  {
    if es == [] {
      assert es + fs == fs;
    } else {
      Join(b, Apply(b, s, es[0]), es[1..], fs);
      assert (es + fs)[1..] == es[1..] + fs;
    }
  }

  lemma Two(b: Build, s: State, e: Event, f: Event)
    requires Enabled(s, e) && Enabled(Apply(b, s, e), f)
    ensures Possible(b, s, [e, f]) && Run(b, s, [e, f]) == Apply(b, Apply(b, s, e), f)
  {
    assert [e, f][1..] == [f] && [f][1..] == [];
    assert Run(b, Apply(b, s, e), [f]) == Apply(b, Apply(b, s, e), f);
  }

  /** Signal 2 lands just after the flag has been read as clear. */
  const RACING := State(ClearFlag, false, false, true, {2}, 1, [], [Delivered(2)])

  lemma ReachRace()
    ensures var es := [LoopStep, LoopStep] + [Interrupt(2), HandlerStep] + [HandlerStep, HandlerStep];
      Possible(CODE, INITIAL, es) && Run(CODE, INITIAL, es) == RACING
  {
    var s := INITIAL.(pc := ClearFlag);
    Two(CODE, INITIAL, LoopStep, LoopStep);
    var t := s.(fired := true, handlers := [Handling(2, 1)], log := [Delivered(2)]);
    Two(CODE, s, Interrupt(2), HandlerStep);
    Two(CODE, t, HandlerStep, HandlerStep);
    assert Apply(CODE, t, HandlerStep) == t.(pending := {2}, handlers := [Handling(2, 2)]);
    hide Apply, Enabled;
    Join(CODE, INITIAL, [LoopStep, LoopStep], [Interrupt(2), HandlerStep]);
    Join(CODE, INITIAL, [LoopStep, LoopStep] + [Interrupt(2), HandlerStep], [HandlerStep, HandlerStep]);
  }

  /** A run of the code in which `loop` has returned and a delivered signal is stranded. */
  lemma CodeLosesASignal()
    ensures exists es ::
      && Possible(CODE, INITIAL, es)
      && var s := Run(CODE, INITIAL, es); s.pc == Outside && Unserved(s.log, 2) && Stranded(s, 2)
  {
    ReachRace();
    var t := RACING.(pc := Descriptors, fired := false, polled := true);
    Two(CODE, RACING, LoopStep, LoopStep);
    Two(CODE, t, LoopStep, LoopStep);
    var es := [LoopStep, LoopStep] + [Interrupt(2), HandlerStep] + [HandlerStep, HandlerStep];
    Join(CODE, INITIAL, es, [LoopStep, LoopStep]);
    Join(CODE, INITIAL, es + [LoopStep, LoopStep], [LoopStep, LoopStep]);
    var s := Run(CODE, INITIAL, es + [LoopStep, LoopStep] + [LoopStep, LoopStep]);
    assert s == t.(pc := Outside);
  }
}
