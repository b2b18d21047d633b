/** Timers and signals together: a timer that expires marks its slot and raises SIGALRM, and the loop's dispatch
    of that signal is the pass over the timer table. */
module Alarms {
  import Signals
  import Timers

  const SIGALRM := 14

  datatype World = World(sig: Signals.State, tab: Timers.Table)

  const START := World(Signals.INITIAL, Timers.EMPTY)

  datatype Event =
    | Expires(id: int)                          // SIGALRM is delivered for the timer in this slot
    | Interrupt(signum: int)                    // another signal is delivered
    | HandlerStep
    | LoopStep(scripts: seq<seq<Timers.Op>>)    // what callbacks do if this is the step that calls them
    | Program(op: Timers.Op)                    // the program arms or deletes a timer

  ghost predicate Enabled(w: World, e: Event) {
    match e
    case Expires(id) => 0 <= id < Timers.SLOTS && Signals.Enabled(w.sig, Signals.Interrupt(SIGALRM))
    case Interrupt(n) => n != SIGALRM && Signals.Enabled(w.sig, Signals.Interrupt(n))
    case HandlerStep => Signals.Enabled(w.sig, Signals.HandlerStep)
    case LoopStep(scripts) => Signals.Enabled(w.sig, Signals.LoopStep) && Timers.Lawful(scripts)
    case Program(op) => w.sig.handlers == [] && !op.Expire?
  }

  /** What the event is to the loop and its signals. */
  function Part(e: Event): Signals.Event
    requires !e.Program?
  {
    match e
    case Expires(_) => Signals.Interrupt(SIGALRM)
    case Interrupt(n) => Signals.Interrupt(n)
    case HandlerStep => Signals.HandlerStep
    case LoopStep(_) => Signals.LoopStep
  }

  /** And to the timer table. The handler marks the slot first of all, and the loop does not run before the
      handler has returned, so the mark is made with the delivery. */
  function Table(w: World, e: Event): Timers.Table
    requires e.LoopStep? ==> |e.scripts| == Timers.DISPATCHED
  {
    match e
    case Expires(id) => Timers.Do(w.tab, Timers.Expire(id))
    case LoopStep(scripts) =>
      if w.sig.pc == Signals.Call(SIGALRM) then Timers.DispatchTo(w.tab, Timers.DISPATCHED, scripts) else w.tab
    case Program(op) => Timers.Do(w.tab, op)
    case _ => w.tab
  }

  ghost function Apply(b: Signals.Build, w: World, e: Event): World
    requires Enabled(w, e)
  {
    World(if e.Program? then w.sig else Signals.Apply(b, w.sig, Part(e)), Table(w, e))
  }

  ghost predicate Possible(b: Signals.Build, w: World, es: seq<Event>)
    decreases es
  {
    es == [] || (Enabled(w, es[0]) && Possible(b, Apply(b, w, es[0]), es[1..]))
  }

  ghost function Run(b: Signals.Build, w: World, es: seq<Event>): World
    requires Possible(b, w, es)
    decreases es
  {
    if es == [] then w else Run(b, Apply(b, w, es[0]), es[1..])
  }

  ghost predicate Races(w: World, e: Event) { !e.Program? && Signals.Race(w.sig, Part(e)) }

  ghost predicate RaceFree(b: Signals.Build, w: World, es: seq<Event>)
    requires Possible(b, w, es)
    decreases es
  {
    es == [] || (!Races(w, es[0]) && RaceFree(b, Apply(b, w, es[0]), es[1..]))
  }

  function LoopSteps(es: seq<Event>): nat {
    if es == [] then 0 else (if es[0].LoopStep? then 1 else 0) + LoopSteps(es[1..])
  }

  /** Nothing deletes the timer in this slot. */
  ghost predicate Spares(e: Event, id: int) {
    match e
    case Program(op) => op != Timers.Del(id)
    case LoopStep(scripts) => forall s :: s in scripts ==> Timers.Del(id) !in s
    case _ => true
  }

  ghost predicate Inv(b: Signals.Build, w: World) { Signals.Inv(b, w.sig) && Timers.Inv(w.tab) }

  lemma StepKeeps(b: Signals.Build, w: World, e: Event)
    requires Inv(b, w) && Enabled(w, e) && !Races(w, e)
    ensures Inv(b, Apply(b, w, e))
  {
    if !e.Program? { Signals.StepKeeps(b, w.sig, Part(e)); }
    hide Signals.Inv, Timers.Inv, Signals.Apply, Signals.Enabled, Signals.Race;
    match e
    case Expires(id) => Timers.DoKeeps(w.tab, Timers.Expire(id));
    case Interrupt(_) =>
    case HandlerStep =>
    case LoopStep(scripts) => Timers.PassKeeps(w.tab, Timers.DISPATCHED, scripts);
    case Program(op) => Timers.DoKeeps(w.tab, op);
  }

  lemma {:induction false} RunKeeps(b: Signals.Build, w: World, es: seq<Event>)
    requires Inv(b, w) && Possible(b, w, es) && RaceFree(b, w, es)
    ensures Inv(b, Run(b, w, es))
    decreases es
  {
    hide Inv, Apply, Enabled, Races;
    if es != [] {
      StepKeeps(b, w, es[0]);
      RunKeeps(b, Apply(b, w, es[0]), es[1..]);
    }
  }

  /** Nothing that has ended is forgotten. */
  lemma EndsGrow(b: Signals.Build, w: World, e: Event)
    requires Enabled(w, e)
    ensures w.tab.ends <= Apply(b, w, e).tab.ends
  {
    hide Signals.Apply, Signals.Enabled;
    match e
    case Expires(id) => Timers.EndsGrow(w.tab, [Timers.Expire(id)]); OneOp(w.tab, Timers.Expire(id));
    case Interrupt(_) =>
    case HandlerStep =>
    case LoopStep(scripts) =>
      var end: nat := Timers.DISPATCHED;
      Timers.EndsGrowInPass(w.tab, 0, end, scripts);
      NoPass(w.tab, scripts);
      hide Timers.DispatchTo;
    case Program(op) => Timers.EndsGrow(w.tab, [op]); OneOp(w.tab, op);
  }

  lemma OneOp(t: Timers.Table, op: Timers.Op)
    ensures Timers.DoAll(t, [op]) == Timers.Do(t, op)
  {
    assert [op][1..] == [];
    hide Timers.Do;
  }

  lemma NoPass(t: Timers.Table, scripts: seq<seq<Timers.Op>>)
    ensures Timers.DispatchTo(t, 0, scripts) == t
  {
  }

  lemma {:induction false} EndsGrowInRun(b: Signals.Build, w: World, es: seq<Event>)
    requires Possible(b, w, es)
    ensures w.tab.ends <= Run(b, w, es).tab.ends
    decreases es
  {
    hide Apply, Enabled;
    if es != [] {
      EndsGrow(b, w, es[0]);
      EndsGrowInRun(b, Apply(b, w, es[0]), es[1..]);
    }
  }

  /** The pass calls the timer. */
  lemma PassCalls(t: Timers.Table, scripts: seq<seq<Timers.Op>>, x: Timers.Source)
    requires Timers.Inv(t) && Timers.Due(t, x) && Timers.Lawful(scripts) && 0 <= x.id < Timers.DISPATCHED
    requires forall s :: s in scripts ==> Timers.Del(x.id) !in s
    ensures (x.serial, Timers.Called(x.handler)) in Timers.DispatchTo(t, Timers.DISPATCHED, scripts).ends
  {
    hide Timers.DispatchTo, Timers.Expired, Timers.Inv, Timers.Due;
    assert forall i :: 0 <= i < |scripts| ==> scripts[i] in scripts;
    Timers.CalledIff(t, scripts, x);
  }

  /** Until then it stays due. */
  lemma StaysDue(b: Signals.Build, w: World, e: Event, x: Timers.Source)
    requires Inv(b, w) && Enabled(w, e) && Timers.Due(w.tab, x) && Spares(e, x.id)
    requires e.LoopStep? ==> w.sig.pc != Signals.Call(SIGALRM)
    ensures Timers.Due(Apply(b, w, e).tab, x)
  {
    hide Signals.Inv, Timers.Inv, Signals.Apply, Signals.Enabled, Timers.Due, Timers.Do;
    match e
    case Expires(id) => Timers.DueThrough(w.tab, Timers.Expire(id), x);
    case Interrupt(_) =>
    case HandlerStep =>
    case LoopStep(_) =>
    case Program(op) => Timers.DueThrough(w.tab, op, x);
  }

  /** Every step brings the dispatch of SIGALRM nearer, unless it is that dispatch. */
  lemma Approaches(b: Signals.Build, w: World, e: Event)
    requires Signals.Inv(b, w.sig) && Enabled(w, e) && !Races(w, e) && Signals.Unserved(w.sig.log, SIGALRM)
    requires e.LoopStep? ==> w.sig.pc != Signals.Call(SIGALRM)
    ensures var t := Apply(b, w, e).sig; var d := Signals.Distance(w.sig.pc, SIGALRM);
      Signals.Unserved(t.log, SIGALRM) && Signals.Distance(t.pc, SIGALRM) <= d - (if e.LoopStep? then 1 else 0)
  {
    if e.LoopStep? {
      Signals.LoopApproaches(b, w.sig, SIGALRM);
      Signals.LoopLogs(b, w.sig, SIGALRM);
      OtherCallLogsOther(b, w.sig);
    } else if !e.Program? {
      Signals.OthersWait(b, w.sig, Part(e), SIGALRM);
    }
    hide Signals.Inv, Signals.Unserved, Signals.StepLoop, Signals.StepHandler, Table;
  }

  lemma OtherCallLogsOther(b: Signals.Build, s: Signals.State)
    requires s.pc != Signals.Call(SIGALRM)
    ensures Signals.StepLoop(b, s).log != s.log + [Signals.Dispatched(SIGALRM)]
  {
    var t := Signals.StepLoop(b, s);
    assert |t.log| > |s.log| ==> t.log[|s.log|] != Signals.Dispatched(SIGALRM);
    assert (s.log + [Signals.Dispatched(SIGALRM)])[|s.log|] == Signals.Dispatched(SIGALRM);
  }

  /** A timer that is due while SIGALRM awaits its dispatch is called once the loop has made enough steps, if
      nothing deletes it. */
  lemma {:induction false} DueIsCalled(b: Signals.Build, w: World, x: Timers.Source, es: seq<Event>)
    requires Inv(b, w) && Timers.Due(w.tab, x) && 0 <= x.id < Timers.DISPATCHED && Signals.Unserved(w.sig.log, SIGALRM)
    requires Possible(b, w, es) && RaceFree(b, w, es) && LoopSteps(es) >= Signals.Distance(w.sig.pc, SIGALRM)
    requires forall e :: e in es ==> Spares(e, x.id)
    ensures (x.serial, Timers.Called(x.handler)) in Run(b, w, es).tab.ends
    decreases es
  {
    Signals.DistanceBounded(b, w.sig, SIGALRM);
    hide Signals.Inv, Timers.Inv, Signals.Unserved, Timers.Due, Signals.Distance, Signals.Sane;
    assert es != [];
    var e, u := es[0], Apply(b, w, es[0]);
    assert e in es && forall f :: f in es[1..] ==> f in es;
    EndsGrowInRun(b, u, es[1..]);
    if e.LoopStep? && w.sig.pc == Signals.Call(SIGALRM) {
      PassCalls(w.tab, e.scripts, x);
      hide Timers.DispatchTo, Signals.Apply;
    } else {
      StaysDue(b, w, e, x);
      Approaches(b, w, e);
      StepKeeps(b, w, e);
      hide Apply, Enabled, Races, Spares;
      DueIsCalled(b, u, x, es[1..]);
    }
  }

  /** In every race-free run, from the start on: a timer armed below slot 255 that expires is called within
      `RESPONSE` steps of the loop after its SIGALRM, if nothing deletes it in the meantime, however many
      signals, other timers and callbacks come in between. */
  lemma ExpiredTimerIsCalled(b: Signals.Build, es: seq<Event>, x: Timers.Source, fs: seq<Event>)
    requires Possible(b, START, es) && RaceFree(b, START, es)
    requires x in Run(b, START, es).tab.sources && 0 <= x.id < Timers.DISPATCHED && Enabled(Run(b, START, es), Expires(x.id))
    requires var w := Apply(b, Run(b, START, es), Expires(x.id));
      Possible(b, w, fs) && RaceFree(b, w, fs) && LoopSteps(fs) >= Signals.RESPONSE
    requires forall e :: e in fs ==> Spares(e, x.id)
    ensures var w := Apply(b, Run(b, START, es), Expires(x.id));
      (x.serial, Timers.Called(x.handler)) in Run(b, w, fs).tab.ends
  {
    StartInv(b);
    RunKeeps(b, START, es);
    var w := Run(b, START, es);
    StepKeeps(b, w, Expires(x.id));
    var u := Apply(b, w, Expires(x.id));
    assert Signals.Unserved(u.sig.log, SIGALRM) && Timers.Due(u.tab, x);
    Signals.DistanceBounded(b, u.sig, SIGALRM);
    hide Signals.Inv, Timers.Inv, Signals.Unserved, Timers.Due, Signals.Distance, Signals.Sane, Apply, Enabled, Run, Possible, RaceFree, Spares;
    DueIsCalled(b, u, x, fs);
  }

  lemma StartInv(b: Signals.Build)
    ensures Inv(b, START)
  {
    Signals.InitialInv(b);
    Timers.EmptyInOrder();
    hide Signals.Inv, Timers.Inv;
  }
}
