/**
 * The supervisor of src/driver.rs. Each managed driver gets a control loop that holds at
 * most one process handle: it launches the process, relaunches it whenever it exits (or,
 * with no process, after a one-second back-off), and on the broadcast Interrupt stops the
 * process it holds and ends for good. The supervisor keeps the loops' handles; `Stop`
 * interrupts every loop and empties the list. Launching, waiting and killing are OS calls,
 * reduced to the outcomes that arrive as events.
 */
module Supervisor {
  import opened Wrappers

  /** What the driver's `run` produced. */
  datatype Launch<P> = Launched(proc: P) | LaunchFailed {
    /** The handle the loop keeps: a failed launch leaves it without one (Rust's `.ok()`). */
    function Kept(): Option<P> {
      match this
      case Launched(p) => Some(p)
      case LaunchFailed => None
    }
  }

  /** A control loop: still looping, with or without a process, or ended. */
  datatype LoopState<P> = Live(proc: Option<P>) | Stopped

  /** What wakes one iteration of the loop. */
  datatype Event<P> =
    | Interrupt                                          // the broadcast stop signal arrived
    | SignalLost                                         // receiving the signal failed: that branch is off for this round (any event may follow)
    | ProcessExited(waitOk: bool, relaunch: Launch<P>)   // `wait` returned, then `run` was called again
    | BackoffElapsed(relaunch: Launch<P>)                // the one-second sleep ended, then `run` was called again

  /**
   * What the loop does to the outside world, in order. `Exited(p)` is letting go of `p` after `wait`
   * returned, which happens only once the relaunch has produced its replacement; `Killed(p)` is letting
   * go of it after `stop` was called. Neither result is checked, so the process itself may survive.
   */
  datatype Effect<P> = Spawned(p: P) | SpawnFailed | Exited(p: P) | Killed(p: P)

  function AttemptEffect<P>(l: Launch<P>): Effect<P> {
    match l
    case Launched(p) => Spawned(p)
    case LaunchFailed => SpawnFailed
  }

  /** An event can wake the loop: the loop is live, and a process exit needs a process, a back-off needs none. */
  function Enabled<P>(s: LoopState<P>, e: Event<P>): (can: bool)
    ensures can ==> s.Live?
    ensures s.Live? && (e == Interrupt || e == SignalLost) ==> can
    ensures s.Live? && e.ProcessExited? ==> (can <==> s.proc.Some?)
    ensures s.Live? && e.BackoffElapsed? ==> (can <==> s.proc.None?)
  {
    match s
    case Stopped => false
    case Live(proc) =>
      match e
      case ProcessExited(_, _) => proc.Some?
      case BackoffElapsed(_) => proc.None?
      case _ => true
  }

  datatype Transition<P> = Transition(next: LoopState<P>, effects: seq<Effect<P>>)

  /** The first launch, before the loop starts; a failure leaves the loop live without a process. */
  function Start<P>(first: Launch<P>): (t: Transition<P>)
    ensures t.next.Live? && t.next.proc == first.Kept()
  {
    Transition(Live(first.Kept()), [AttemptEffect(first)])
  }

  /** One iteration of the loop. */
  function Step<P>(s: LoopState<P>, e: Event<P>): (t: Transition<P>)
    requires Enabled(s, e)
    ensures t.next == Stopped <==> e == Interrupt
    ensures e == Interrupt ==> t.effects == (if s.proc.Some? then [Killed(s.proc.value)] else [])
    ensures e.ProcessExited? || e.BackoffElapsed? ==> t.next == Live(e.relaunch.Kept())
    ensures e.ProcessExited? ==> t.effects == [AttemptEffect(e.relaunch), Exited(s.proc.value)]
    ensures e.BackoffElapsed? ==> t.effects == [AttemptEffect(e.relaunch)]
    ensures e == SignalLost ==> t == Transition(s, [])
  {
    match e
    case Interrupt => Transition(Stopped, if s.proc.Some? then [Killed(s.proc.value)] else [])
    case SignalLost => Transition(s, [])
    case ProcessExited(_, l) => Transition(Live(l.Kept()), [AttemptEffect(l), Exited(s.proc.value)])
    case BackoffElapsed(l) => Transition(Live(l.Kept()), [AttemptEffect(l)])
  }

  /** How `wait` ended does not matter: every exit is followed by a relaunch. */
  lemma ExitResultIgnored<P>(p: P, l: Launch<P>)
    ensures Step(Live(Some(p)), ProcessExited(true, l)) == Step(Live(Some(p)), ProcessExited(false, l))
    ensures Step(Live(Some(p)), ProcessExited(true, l)).next == Live(l.Kept())
  {
  }

  /**
   * The loop fed with events in order; an event it cannot observe (for one, any event after it
   * has ended) changes nothing. Only an Interrupt ends a live loop: exits and launch failures never do.
   */
  function RunEvents<P>(s: LoopState<P>, events: seq<Event<P>>): (t: Transition<P>)
    ensures s.Live? && t.next == Stopped ==> Interrupt in events
    decreases |events|
  {
    if events == [] then Transition(s, [])
    else if Enabled(s, events[0]) then
      var t := Step(s, events[0]);
      var rest := RunEvents(t.next, events[1..]);
      Transition(rest.next, t.effects + rest.effects)
    else RunEvents(s, events[1..])
  }

  /** An ended loop stays ended and does nothing more. */
  lemma {:induction false} StoppedIsFinal<P>(events: seq<Event<P>>)
    ensures RunEvents(Stopped, events) == Transition(Stopped, [])
  {
    if events != [] {
      StoppedIsFinal(events[1..]);
    }
  }

  /** After an Interrupt the loop has ended, and nothing that comes later launches or kills anything. */
  lemma {:induction false} InterruptEndsLoop<P>(s: LoopState<P>, before: seq<Event<P>>, after: seq<Event<P>>)
    ensures RunEvents(s, before + [Interrupt]).next == Stopped
    ensures RunEvents(s, before + [Interrupt] + after) == RunEvents(s, before + [Interrupt])
    decreases |before|
  {
    if before == [] {
      assert ([Interrupt] + after)[1..] == after;
      if s.Live? {
        StoppedIsFinal<P>(after);
        StoppedIsFinal<P>([]);
      } else {
        StoppedIsFinal<P>([Interrupt] + after);
        StoppedIsFinal<P>([Interrupt]);
      }
    } else {
      assert (before + [Interrupt] + after)[1..] == before[1..] + [Interrupt] + after;
      assert (before + [Interrupt])[1..] == before[1..] + [Interrupt];
      if Enabled(s, before[0]) {
        InterruptEndsLoop(Step(s, before[0]).next, before[1..], after);
      } else {
        InterruptEndsLoop(s, before[1..], after);
      }
    }
  }

  /**
   * Handles acquired minus handles released. An `Exited` or `Killed` effect is the loop letting go of
   * its handle; a failed `wait` or `stop` may leave that OS process running.
   */
  function HandlesOut<P>(effects: seq<Effect<P>>): int {
    if effects == [] then 0
    else
      (match effects[0]
       case Spawned(_) => 1
       case SpawnFailed => 0
       case Exited(_) => -1
       case Killed(_) => -1)
      + HandlesOut(effects[1..])
  }

  lemma {:induction false} HandlesOutAppend<P>(a: seq<Effect<P>>, b: seq<Effect<P>>)
    ensures HandlesOut(a + b) == HandlesOut(a) + HandlesOut(b)
  {
    if a == [] {
      assert a + b == b;
    } else {
      assert (a + b)[0] == a[0];
      assert (a + b)[1..] == a[1..] + b;
      HandlesOutAppend(a[1..], b);
    }
  }

  /** 1 when the state holds a process handle, else 0. */
  function Holding<P>(s: LoopState<P>): int {
    if s.Live? && s.proc.Some? then 1 else 0
  }

  /** Over any run, the handles acquired minus those released is the change in the handles held. */
  lemma {:induction false} HandlesOutTracksHolding<P>(s: LoopState<P>, events: seq<Event<P>>)
    ensures HandlesOut(RunEvents(s, events).effects) == Holding(RunEvents(s, events).next) - Holding(s)
    decreases |events|
  {
    if events != [] {
      if Enabled(s, events[0]) {
        var t := Step(s, events[0]);
        HandlesOutTracksHolding(t.next, events[1..]);
        HandlesOutAppend(t.effects, RunEvents(t.next, events[1..]).effects);
        assert HandlesOut(t.effects) == Holding(t.next) - Holding(s) by {
          match events[0]
          case Interrupt =>
          case SignalLost =>
          case ProcessExited(_, l) =>
            assert t.effects[1..] == [Exited(s.proc.value)];
          case BackoffElapsed(l) =>
        }
      } else {
        HandlesOutTracksHolding(s, events[1..]);
      }
    }
  }

  /**
   * From the first launch on, after any sequence of events the handles the loop acquired and
   * has not let go of number exactly the handles it holds: at most one, and none once the loop
   * has ended.
   */
  lemma AtMostOneHandle<P>(first: Launch<P>, events: seq<Event<P>>)
    ensures var start := Start(first);
      var final := RunEvents(start.next, events);
      HandlesOut(start.effects + final.effects) == Holding(final.next) &&
      0 <= HandlesOut(start.effects + final.effects) <= 1 &&
      (final.next == Stopped ==> HandlesOut(start.effects + final.effects) == 0)
  {
    var start := Start(first);
    HandlesOutTracksHolding(start.next, events);
    HandlesOutAppend(start.effects, RunEvents(start.next, events).effects);
    assert HandlesOut(start.effects) == Holding(start.next);
  }

  /** The loop's own state: the handle it holds and whether it still loops. */
  class ControlLoop<P> {
    var proc: Option<P>
    var running: bool

    function State(): LoopState<P>
      reads this
    {
      if running then Live(proc) else Stopped
    }

    /** Spawned after subscribing to the signal; launches the process once before looping. */
    constructor (first: Launch<P>)
      ensures State() == Start(first).next
    {
      proc := first.Kept();
      running := true;
    }

    /** One iteration of the `loop`: the event that won the race, and what the loop did about it. */
    method Handle(e: Event<P>) returns (effects: seq<Effect<P>>)
      requires Enabled(State(), e)
      modifies this
      ensures Transition(State(), effects) == Step(old(State()), e)
    {
      match e
      case Interrupt =>
        effects := if proc.Some? then [Killed(proc.value)] else [];
        proc := None;
        running := false;
      case SignalLost =>
        effects := [];
      case ProcessExited(_, l) =>
        effects := [AttemptEffect(l), Exited(proc.value)];
        proc := l.Kept();
      case BackoffElapsed(l) =>
        effects := [AttemptEffect(l)];
        proc := l.Kept();
    }

    /** The Interrupt reaching this loop, if it still runs: returns the process it held, which it kills. */
    method Interrupted() returns (held: seq<P>)
      modifies this
      ensures State() == Stopped
      ensures held == HeldProcesses([old(State())])
    {
      held := [];
      if running {
        if proc.Some? {
          held := [proc.value];
        }
        var _ := Handle(Interrupt);
      }
    }
  }

  /** One managed driver from its first launch until the events run out or the loop ends. */
  method Supervise<P>(first: Launch<P>, events: seq<Event<P>>) returns (final: LoopState<P>, effects: seq<Effect<P>>)
    ensures final == RunEvents(Start(first).next, events).next
    ensures effects == Start(first).effects + RunEvents(Start(first).next, events).effects
  {
    var loop := new ControlLoop(first);
    effects := [AttemptEffect(first)];
    var i := 0;
    while i < |events| && loop.running
      invariant 0 <= i <= |events|
      invariant RunEvents(loop.State(), events[i..]).next == RunEvents(Start(first).next, events).next
      invariant effects + RunEvents(loop.State(), events[i..]).effects ==
        Start(first).effects + RunEvents(Start(first).next, events).effects
    {
      assert events[i..][1..] == events[i + 1..];
      if Enabled(loop.State(), events[i]) {
        var step := loop.Handle(events[i]);
        effects := effects + step;
      }
      i := i + 1;
    }
    if !loop.running {
      StoppedIsFinal(events[i..]);
    }
    final := loop.State();
  }

  /** The states of the given loops, in order. */
  function States<P>(loops: seq<ControlLoop<P>>): (states: seq<LoopState<P>>)
    reads loops
    ensures |states| == |loops|
    ensures forall j :: 0 <= j < |loops| ==> states[j] == loops[j].State()
  {
    if loops == [] then [] else [loops[0].State()] + States(loops[1..])
  }

  /** The processes held by live loops, in order. */
  function HeldProcesses<P>(states: seq<LoopState<P>>): seq<P> {
    if states == [] then []
    else (if states[0].Live? && states[0].proc.Some? then [states[0].proc.value] else []) + HeldProcesses(states[1..])
  }

  lemma HeldProcessesPrefix<P>(states: seq<LoopState<P>>, i: nat)
    requires i < |states|
    ensures HeldProcesses(states[..i + 1]) == HeldProcesses(states[..i]) + HeldProcesses([states[i]])
  {
    assert states[..i + 1] == states[..i] + [states[i]];
    HeldProcessesAppend(states[..i], [states[i]]);
  }

  lemma {:induction false} HeldProcessesAppend<P>(a: seq<LoopState<P>>, b: seq<LoopState<P>>)
    ensures HeldProcesses(a + b) == HeldProcesses(a) + HeldProcesses(b)
  {
    if a == [] {
      assert a + b == b;
    } else {
      assert (a + b)[0] == a[0];
      assert (a + b)[1..] == a[1..] + b;
      HeldProcessesAppend(a[1..], b);
    }
  }

  class Supervisor<P> {
    /** Join handles of the control loops started so far. */
    var tasks: seq<ControlLoop<P>>

    ghost predicate Valid()
      reads this
    {
      forall i, j :: 0 <= i < j < |tasks| ==> tasks[i] != tasks[j]
    }

    constructor ()
      ensures Valid() && tasks == []
    {
      tasks := [];
    }

    /** Starts one control loop for a driver and keeps its handle. */
    method Run(first: Launch<P>) returns (loop: ControlLoop<P>)
      requires Valid()
      modifies this
      ensures Valid()
      ensures fresh(loop) && tasks == old(tasks) + [loop]
      ensures loop.State() == Start(first).next
    {
      loop := new ControlLoop(first);
      tasks := tasks + [loop];
    }

    /**
     * Sends the Interrupt, then takes every handle and waits for each loop to end. Returns the
     * processes that were stopped: the one each loop held, in the order of the loops.
     */
    method Stop() returns (killed: seq<P>)
      requires Valid()
      modifies this, tasks
      ensures Valid() && tasks == []
      ensures forall l :: l in old(tasks) ==> l.State() == Stopped
      ensures killed == HeldProcesses(old(States(tasks)))
    {
      var handles := tasks;
      ghost var before := States(tasks);
      killed := [];
      var i := 0;
      while i < |handles|
        invariant 0 <= i <= |handles|
        invariant tasks == handles
        invariant forall j :: 0 <= j < i ==> handles[j].State() == Stopped
        invariant forall j :: i <= j < |handles| ==> handles[j].State() == before[j]
        invariant killed == HeldProcesses(before[..i])
      {
        HeldProcessesPrefix(before, i);
        assert forall j :: 0 <= j < |handles| && j != i ==> handles[j] != handles[i];
        var held := handles[i].Interrupted();
        killed := killed + held;
        i := i + 1;
      }
      assert before[..|handles|] == before;
      tasks := [];
    }
  }
}
