/**
 * The network-idle wait of src/wait.rs: a loop over a pending-request set and an
 * optional "idle since" timestamp, fed by one merged stream of request
 * started/finished events and by a periodic tick. Time is a natural-number clock
 * in milliseconds carried by each tick; the three CDP listener tasks and the
 * tokio `select!` are reduced to one sequence of loop inputs.
 */
module NetworkIdle {
  import opened Wrappers

  type RequestId = string

  /** Puppeteer-style idle policies. */
  datatype IdleKind = Idle0 | Idle2

  /** How long, in milliseconds, the in-flight count must stay at or under the threshold. */
  const IdleTimeout: nat := 500

  /** Threshold of in-flight requests under which the page counts as idle. */
  function MaxConnections(kind: IdleKind): (n: nat)
    ensures kind == Idle0 <==> n == 0
    ensures kind == Idle2 <==> n == 2
  {
    match kind
    case Idle0 => 0
    case Idle2 => 2
  }

  /** The three CDP network events the wait listens to. */
  datatype CdpEvent =
    | RequestWillBeSent(id: RequestId)
    | LoadingFinished(id: RequestId)
    | LoadingFailed(id: RequestId)

  /** What the listener tasks forward on the merged channel. */
  datatype NetworkEvent = RequestStarted(id: RequestId) | RequestFinished(id: RequestId)

  /** A failed load is forwarded exactly like a finished one. */
  function Forward(e: CdpEvent): (n: NetworkEvent)
    ensures n.id == e.id
    ensures n.RequestStarted? <==> e.RequestWillBeSent?
  {
    match e
    case RequestWillBeSent(id) => RequestStarted(id)
    case LoadingFinished(id) => RequestFinished(id)
    case LoadingFailed(id) => RequestFinished(id)
  }

  /** One wake-up of the loop: a message, the channel closing, or the 100 ms sleep firing at `now`. */
  datatype Input = Received(event: NetworkEvent) | Closed | Tick(now: nat)

  predicate IsStart(input: Input) {
    input.Received? && input.event.RequestStarted?
  }

  datatype ExitReason = BecameIdle | StreamClosed

  /** The loop's two local variables. */
  datatype Detector = Detector(pending: set<RequestId>, idleSince: Option<nat>)

  const Initial: Detector := Detector({}, None)

  /** The invariant the loop keeps: a recorded timestamp means the count is at or under the threshold. */
  ghost predicate Armed(max: nat, d: Detector) {
    d.idleSince.Some? ==> |d.pending| <= max
  }

  /** Whether this input makes the loop break, and why. */
  function Breaks(max: nat, d: Detector, input: Input): (r: Option<ExitReason>)
    ensures input == Closed ==> r == Some(StreamClosed)
    ensures r == Some(StreamClosed) ==> input == Closed
    ensures r == Some(BecameIdle) <==>
      input.Tick? && |d.pending| <= max && d.idleSince.Some? && d.idleSince.value + IdleTimeout <= input.now
  {
    match input
    case Closed => Some(StreamClosed)
    case Received(_) => None
    case Tick(now) =>
      if |d.pending| <= max && d.idleSince.Some? && d.idleSince.value + IdleTimeout <= now
      then Some(BecameIdle) else None
  }

  /** The detector after handling one input (unchanged by the input that breaks the loop). */
  function Next(max: nat, d: Detector, input: Input): (d': Detector)
    ensures IsStart(input) ==> d'.pending == d.pending + {input.event.id} && d'.idleSince == None
    ensures input.Received? && input.event.RequestFinished? ==>
      d'.pending == d.pending - {input.event.id} && d'.idleSince == d.idleSince
    ensures input.Tick? ==> d'.pending == d.pending
    ensures input.Tick? && |d.pending| > max ==> d'.idleSince == None
    ensures input.Tick? && |d.pending| <= max && d.idleSince == None ==> d'.idleSince == Some(input.now)
    ensures input.Tick? && d.idleSince.Some? ==> d'.idleSince in {None, d.idleSince}
    ensures Breaks(max, d, input).Some? ==> d' == d
  {
    match input
    case Received(RequestStarted(id)) => Detector(d.pending + {id}, None)
    case Received(RequestFinished(id)) => Detector(d.pending - {id}, d.idleSince)
    case Closed => d
    case Tick(now) =>
      if |d.pending| <= max then
        if d.idleSince.None? then Detector(d.pending, Some(now)) else d
      else Detector(d.pending, None)
  }

  /** One iteration keeps the loop's invariant. */
  lemma NextKeepsArmed(max: nat, d: Detector, input: Input)
    requires Armed(max, d)
    ensures Armed(max, Next(max, d, input))
  {
  }

  /** The detector after the first `n` inputs. */
  function StateAt(max: nat, inputs: seq<Input>, n: nat): (d: Detector)
    requires n <= |inputs|
    ensures Armed(max, d)
  {
    if n == 0 then Initial
    else
      var before := StateAt(max, inputs, n - 1);
      NextKeepsArmed(max, before, inputs[n - 1]);
      Next(max, before, inputs[n - 1])
  }

  /** Whether input `m` breaks the loop, given the state the earlier inputs left. */
  ghost function BreaksAt(max: nat, inputs: seq<Input>, m: nat): Option<ExitReason>
    requires m < |inputs|
  {
    Breaks(max, StateAt(max, inputs, m), inputs[m])
  }

  /** The loop breaks at input `k` for `reason`, and at no earlier input. */
  ghost predicate FirstExitAt(max: nat, inputs: seq<Input>, k: nat, reason: ExitReason) {
    && k < |inputs|
    && BreaksAt(max, inputs, k) == Some(reason)
    && forall m :: 0 <= m < k ==> BreaksAt(max, inputs, m).None?
  }

  ghost predicate NeverExits(max: nat, inputs: seq<Input>) {
    forall m :: 0 <= m < |inputs| ==> BreaksAt(max, inputs, m).None?
  }

  /** Between input `j` and input `n` no request started and every tick saw the count at or under `max`. */
  ghost predicate QuietWindow(max: nat, inputs: seq<Input>, j: nat, n: nat)
    requires j <= n <= |inputs|
  {
    forall m :: j <= m < n ==>
      !IsStart(inputs[m]) && (inputs[m].Tick? ==> |StateAt(max, inputs, m).pending| <= max)
  }

  ghost predicate TicksMonotone(inputs: seq<Input>) {
    forall a, b :: 0 <= a < b < |inputs| && inputs[a].Tick? && inputs[b].Tick? ==> inputs[a].now <= inputs[b].now
  }

  /** How the wait ended: it broke at input `at`, or the inputs ran out while it still waits. */
  datatype Outcome = Exited(reason: ExitReason, at: nat) | Waiting(state: Detector)

  /** The loop's mutable state; `Handle` is one iteration of the loop body. */
  class IdleWait {
    const maxConnections: nat
    var pending: set<RequestId>
    var idleSince: Option<nat>

    function State(): Detector
      reads this
    {
      Detector(pending, idleSince)
    }

    constructor (kind: IdleKind)
      ensures maxConnections == MaxConnections(kind)
      ensures State() == Initial
    {
      maxConnections := MaxConnections(kind);
      pending := {};
      idleSince := None;
    }

    method Handle(input: Input) returns (exit: Option<ExitReason>)
      modifies this
      ensures exit == Breaks(maxConnections, old(State()), input)
      ensures State() == Next(maxConnections, old(State()), input)
    {
      exit := None;
      match input
      case Received(RequestStarted(id)) =>
        pending := pending + {id};
        idleSince := None;
      case Received(RequestFinished(id)) =>
        pending := pending - {id};
      case Closed =>
        exit := Some(StreamClosed);
      case Tick(now) =>
        if |pending| <= maxConnections {
          match idleSince
          case Some(since) =>
            if since + IdleTimeout <= now {
              exit := Some(BecameIdle);
            }
          case None =>
            idleSince := Some(now);
        } else {
          idleSince := None;
        }
    }
  }

  /** One more input: the state and the break decision after `i` inputs, in terms of the state before it. */
  lemma StepAt(max: nat, inputs: seq<Input>, i: nat, d: Detector)
    requires i < |inputs| && d == StateAt(max, inputs, i)
    ensures StateAt(max, inputs, i + 1) == Next(max, d, inputs[i])
    ensures BreaksAt(max, inputs, i) == Breaks(max, d, inputs[i])
  {
  }

  /** None of the first `n` inputs broke the loop, input by input. */
  ghost predicate RanThrough(max: nat, inputs: seq<Input>, n: nat)
    requires n <= |inputs|
  {
    n == 0 || (RanThrough(max, inputs, n - 1) && BreaksAt(max, inputs, n - 1).None?)
  }

  lemma {:induction false} RanThroughNoBreak(max: nat, inputs: seq<Input>, n: nat)
    requires n <= |inputs|
    ensures RanThrough(max, inputs, n) <==> forall m :: 0 <= m < n ==> BreaksAt(max, inputs, m).None?
  {
    if n > 0 {
      RanThroughNoBreak(max, inputs, n - 1);
    }
  }

  /** Runs the wait over the inputs that arrive, in order, until the loop breaks. */
  method WaitForNetworkIdle(kind: IdleKind, inputs: seq<Input>) returns (outcome: Outcome)
    ensures outcome.Exited? ==> FirstExitAt(MaxConnections(kind), inputs, outcome.at, outcome.reason)
    ensures outcome.Waiting? ==>
      NeverExits(MaxConnections(kind), inputs) && outcome.state == StateAt(MaxConnections(kind), inputs, |inputs|)
  {
    var detector := new IdleWait(kind);
    ghost var max := MaxConnections(kind);
    var i := 0;
    while i < |inputs|
      invariant 0 <= i <= |inputs|
      invariant detector.maxConnections == max
      invariant detector.State() == StateAt(max, inputs, i)
      invariant RanThrough(max, inputs, i)
    {
      ghost var before := detector.State();
      var exit := detector.Handle(inputs[i]);
      StepAt(max, inputs, i, before);
      if exit.Some? {
        RanThroughNoBreak(max, inputs, i);
        return Exited(exit.value, i);
      }
      i := i + 1;
    }
    RanThroughNoBreak(max, inputs, i);
    return Waiting(detector.State());
  }

  /** A request is pending exactly when it started and has not finished (or failed) since its last start. */
  lemma {:induction false} PendingIsUnfinished(max: nat, inputs: seq<Input>, n: nat, id: RequestId)
    requires n <= |inputs|
    ensures id in StateAt(max, inputs, n).pending <==>
      exists j :: 0 <= j < n && inputs[j] == Received(RequestStarted(id)) &&
        forall m :: j < m < n ==> inputs[m] != Received(RequestFinished(id))
  {
    if n > 0 {
      PendingIsUnfinished(max, inputs, n - 1, id);
      var last := inputs[n - 1];
      if last == Received(RequestStarted(id)) {
        assert id in StateAt(max, inputs, n).pending;
      } else if last == Received(RequestFinished(id)) {
        assert id !in StateAt(max, inputs, n).pending;
        forall j | 0 <= j < n && inputs[j] == Received(RequestStarted(id))
          ensures exists m :: j < m < n && inputs[m] == Received(RequestFinished(id))
        {
          assert inputs[n - 1] == Received(RequestFinished(id));
        }
      } else {
        assert id in StateAt(max, inputs, n).pending <==> id in StateAt(max, inputs, n - 1).pending;
        if id in StateAt(max, inputs, n).pending {
          var j :| 0 <= j < n - 1 && inputs[j] == Received(RequestStarted(id)) &&
            forall m :: j < m < n - 1 ==> inputs[m] != Received(RequestFinished(id));
          assert forall m :: j < m < n ==> inputs[m] != Received(RequestFinished(id));
        } else {
          forall j | 0 <= j < n && inputs[j] == Received(RequestStarted(id))
            ensures exists m :: j < m < n && inputs[m] == Received(RequestFinished(id))
          {
            assert j < n - 1;
          }
        }
      }
    }
  }

  /** A recorded timestamp comes from a tick after which no request started and the count stayed under the threshold. */
  lemma {:induction false} IdleSinceOrigin(max: nat, inputs: seq<Input>, n: nat, since: nat)
    requires n <= |inputs|
    requires StateAt(max, inputs, n).idleSince == Some(since)
    ensures exists j :: 0 <= j < n && inputs[j] == Tick(since) && QuietWindow(max, inputs, j, n)
  {
    assert n > 0;
    var d := StateAt(max, inputs, n - 1);
    var last := inputs[n - 1];
    if d.idleSince == Some(since) {
      IdleSinceOrigin(max, inputs, n - 1, since);
      var j :| 0 <= j < n - 1 && inputs[j] == Tick(since) && QuietWindow(max, inputs, j, n - 1);
      assert !IsStart(last);
      assert last.Tick? ==> |d.pending| <= max;
      assert QuietWindow(max, inputs, j, n);
    } else {
      assert last == Tick(since) && |d.pending| <= max;
      assert QuietWindow(max, inputs, n - 1, n);
    }
  }

  /**
   * An idle exit happens on a tick at least IdleTimeout after an earlier tick, and between the two no
   * request started and every tick saw the count at or under the threshold.
   */
  lemma IdleExitAfterQuietWindow(max: nat, inputs: seq<Input>, k: nat)
    requires k < |inputs|
    requires Breaks(max, StateAt(max, inputs, k), inputs[k]) == Some(BecameIdle)
    ensures inputs[k].Tick?
    ensures exists j :: (0 <= j < k && inputs[j].Tick? && inputs[j].now + IdleTimeout <= inputs[k].now &&
                         QuietWindow(max, inputs, j, k + 1))
  {
    var since := StateAt(max, inputs, k).idleSince.value;
    IdleSinceOrigin(max, inputs, k, since);
    var j :| 0 <= j < k && inputs[j] == Tick(since) && QuietWindow(max, inputs, j, k);
    assert QuietWindow(max, inputs, j, k + 1);
  }

  /**
   * From a tick that opens a quiet window on, the detector holds a timestamp no later than that
   * tick's time, when ticks come in clock order.
   */
  lemma {:induction false} ArmedThrough(max: nat, inputs: seq<Input>, j: nat, m: nat)
    requires TicksMonotone(inputs)
    requires j < m <= |inputs| && inputs[j].Tick?
    requires QuietWindow(max, inputs, j, m)
    ensures StateAt(max, inputs, m).idleSince.Some?
    ensures StateAt(max, inputs, m).idleSince.value <= inputs[j].now
  {
    if m == j + 1 {
      var d := StateAt(max, inputs, j);
      assert |d.pending| <= max;
      if d.idleSince.Some? {
        IdleSinceOrigin(max, inputs, j, d.idleSince.value);
      }
    } else {
      assert QuietWindow(max, inputs, j, m - 1);
      ArmedThrough(max, inputs, j, m - 1);
      assert !IsStart(inputs[m - 1]);
    }
  }

  /**
   * The converse of IdleExitAfterQuietWindow: a tick at least IdleTimeout after a tick that opened a
   * quiet window ends the wait as idle, so the wait has ended there or earlier.
   */
  lemma QuietWindowEndsWait(max: nat, inputs: seq<Input>, j: nat, k: nat)
    requires TicksMonotone(inputs)
    requires j < k < |inputs| && inputs[j].Tick? && inputs[k].Tick?
    requires QuietWindow(max, inputs, j, k + 1)
    requires inputs[j].now + IdleTimeout <= inputs[k].now
    ensures BreaksAt(max, inputs, k) == Some(BecameIdle)
    ensures !NeverExits(max, inputs)
    ensures forall k2: nat, r2 :: FirstExitAt(max, inputs, k2, r2) ==> k2 <= k
  {
    assert QuietWindow(max, inputs, j, k);
    ArmedThrough(max, inputs, j, k);
    assert |StateAt(max, inputs, k).pending| <= max;
  }

  /** Every request start before an idle exit is followed by a tick at least IdleTimeout before the exit. */
  lemma IdleExitAfterLastStart(max: nat, inputs: seq<Input>, k: nat, s: nat)
    requires k < |inputs|
    requires Breaks(max, StateAt(max, inputs, k), inputs[k]) == Some(BecameIdle)
    requires s < k && IsStart(inputs[s])
    ensures exists j :: s < j < k && inputs[j].Tick? && inputs[j].now + IdleTimeout <= inputs[k].now
  {
    IdleExitAfterQuietWindow(max, inputs, k);
    var j :| 0 <= j < k && inputs[j].Tick? && inputs[j].now + IdleTimeout <= inputs[k].now &&
      QuietWindow(max, inputs, j, k + 1);
  }

  /** Two detectors' timestamps, under two policies: when the first has one, the second has one no later. */
  predicate ArmsNoLater(strictState: Detector, looseState: Detector) {
    strictState.idleSince.Some? ==>
      looseState.idleSince.Some? && looseState.idleSince.value <= strictState.idleSince.value
  }

  /** One input keeps the pending sets equal and the looser timestamp no later, given the tick comes after it. */
  lemma LooserStep(strict: nat, loose: nat, ds: Detector, dl: Detector, input: Input)
    requires strict <= loose
    requires ds.pending == dl.pending && ArmsNoLater(ds, dl)
    requires input.Tick? && dl.idleSince.Some? ==> dl.idleSince.value <= input.now
    ensures Next(strict, ds, input).pending == Next(loose, dl, input).pending
    ensures ArmsNoLater(Next(strict, ds, input), Next(loose, dl, input))
  {
  }

  /** The pending set does not depend on the policy, and a looser policy arms no later than a stricter one. */
  lemma {:induction false} LooserPolicyArmsFirst(strict: nat, loose: nat, inputs: seq<Input>, n: nat)
    requires strict <= loose
    requires TicksMonotone(inputs)
    requires n <= |inputs|
    ensures StateAt(strict, inputs, n).pending == StateAt(loose, inputs, n).pending
    ensures ArmsNoLater(StateAt(strict, inputs, n), StateAt(loose, inputs, n))
  {
    if n > 0 {
      LooserPolicyArmsFirst(strict, loose, inputs, n - 1);
      var ds, dl := StateAt(strict, inputs, n - 1), StateAt(loose, inputs, n - 1);
      var last := inputs[n - 1];
      if last.Tick? && dl.idleSince.Some? {
        IdleSinceOrigin(loose, inputs, n - 1, dl.idleSince.value);
        var j :| 0 <= j < n - 1 && inputs[j] == Tick(dl.idleSince.value) && QuietWindow(loose, inputs, j, n - 1);
        assert inputs[j].now <= inputs[n - 1].now;
      }
      LooserStep(strict, loose, ds, dl, last);
    }
  }

  /** Under Idle0, a request that started and has not finished since keeps every tick from ending the wait as idle. */
  lemma UnfinishedRequestBlocksIdle0(inputs: seq<Input>, j: nat, m: nat, id: RequestId)
    requires j < m < |inputs|
    requires inputs[j] == Received(RequestStarted(id))
    requires forall k :: j < k < m ==> inputs[k] != Received(RequestFinished(id))
    ensures BreaksAt(0, inputs, m) != Some(BecameIdle)
  {
    PendingIsUnfinished(0, inputs, m, id);
    assert id in StateAt(0, inputs, m).pending;
  }

  /** On the same inputs, with ticks in clock order, the Idle2 wait ends no later than the Idle0 wait. */
  lemma Idle2EndsNoLaterThanIdle0(inputs: seq<Input>, k: nat)
    requires TicksMonotone(inputs)
    requires FirstExitAt(MaxConnections(Idle0), inputs, k, BecameIdle)
    ensures !NeverExits(MaxConnections(Idle2), inputs)
    ensures forall k2: nat, r2 :: FirstExitAt(MaxConnections(Idle2), inputs, k2, r2) ==> k2 <= k
  {
    assert MaxConnections(Idle0) == 0 && MaxConnections(Idle2) == 2;
    LooserPolicyArmsFirst(0, 2, inputs, k);
    var d0, d2 := StateAt(0, inputs, k), StateAt(2, inputs, k);
    assert BreaksAt(0, inputs, k) == Breaks(0, d0, inputs[k]) == Some(BecameIdle);
    assert d2.idleSince.Some? && d2.idleSince.value <= d0.idleSince.value;
    assert BreaksAt(2, inputs, k) == Breaks(2, d2, inputs[k]) == Some(BecameIdle);
  }

  /** A closed stream ends the wait whatever the pending count. */
  lemma ClosingEndsWait(max: nat, inputs: seq<Input>, k: nat)
    requires k < |inputs| && inputs[k] == Closed
    requires forall m :: 0 <= m < k ==> BreaksAt(max, inputs, m).None?
    ensures FirstExitAt(max, inputs, k, StreamClosed)
  {
  }

  /** One request that never finishes, then ticks every 100 ms. */
  const StuckRequest: seq<Input> :=
    [Received(RequestStarted("r")), Tick(100), Tick(200), Tick(300), Tick(400), Tick(500), Tick(600)]

  /** Under Idle2 the stuck request is tolerated: the wait arms on the first tick and ends on the 600 ms tick. */
  lemma StuckRequestEndsIdle2()
    ensures FirstExitAt(2, StuckRequest, 6, BecameIdle)
  {
    var inputs := StuckRequest;
    var armed := Detector({"r"}, Some(100));
    assert StateAt(2, inputs, 1) == Detector({"r"}, None);
    assert BreaksAt(2, inputs, 0).None? && BreaksAt(2, inputs, 1).None?;
    assert StateAt(2, inputs, 2) == armed;
    assert BreaksAt(2, inputs, 2).None?;
    assert StateAt(2, inputs, 3) == armed;
    assert BreaksAt(2, inputs, 3).None?;
    assert StateAt(2, inputs, 4) == armed;
    assert BreaksAt(2, inputs, 4).None?;
    assert StateAt(2, inputs, 5) == armed;
    assert BreaksAt(2, inputs, 5).None?;
    assert StateAt(2, inputs, 6) == armed;
    assert BreaksAt(2, inputs, 6) == Some(BecameIdle);
  }

  /** Under Idle0 the stuck request keeps the wait from ever arming. */
  lemma StuckRequestBlocksIdle0()
    ensures NeverExits(0, StuckRequest)
  {
    var inputs := StuckRequest;
    forall m | 0 <= m < |inputs|
      ensures BreaksAt(0, inputs, m).None?
    {
      if m > 0 {
        assert inputs[m].Tick?;
        forall k | 0 < k < m
          ensures inputs[k] != Received(RequestFinished("r"))
        {
          assert inputs[k].Tick?;
        }
        UnfinishedRequestBlocksIdle0(inputs, 0, m, "r");
      }
    }
  }

  /** The stuck request, followed by 600 ms of ticks, ends Idle2 on the 600 ms tick and never ends Idle0. */
  lemma OneStuckRequest()
    ensures FirstExitAt(MaxConnections(Idle2), StuckRequest, 6, BecameIdle)
    ensures NeverExits(MaxConnections(Idle0), StuckRequest)
  {
    StuckRequestEndsIdle2();
    StuckRequestBlocksIdle0();
  }

  /** A binding call as seen by the custom-event wait. */
  datatype BindingCalled = BindingCalled(name: string, payload: string)

  const FinishRendering: string := "finishRendering"

  /** The custom-event wait: consume binding calls until the first one named finishRendering. */
  method WaitForFinishRendering(calls: seq<BindingCalled>) returns (stop: Option<nat>)
    ensures stop.Some? ==>
      stop.value < |calls| && calls[stop.value].name == FinishRendering &&
      forall m :: 0 <= m < stop.value ==> calls[m].name != FinishRendering
    ensures stop.None? ==> forall m :: 0 <= m < |calls| ==> calls[m].name != FinishRendering
  {
    var i := 0;
    while i < |calls|
      invariant 0 <= i <= |calls|
      invariant forall m :: 0 <= m < i ==> calls[m].name != FinishRendering
    {
      if calls[i].name == FinishRendering {
        return Some(i);
      }
      i := i + 1;
    }
    return None;
  }
}
