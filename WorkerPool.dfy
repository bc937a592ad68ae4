/**
 * The worker pool of src/worker.rs, as a sequential state machine. A counting semaphore of
 * `cap` permits bounds admitted work; admitted packets wait in one FIFO queue; each worker
 * owns one context, takes packets from the head of the queue, skips a packet whose caller
 * has gone, and otherwise runs the task once against its own context and sends the result.
 * A packet holds its permit from admission until it is dropped, so the permit is implicit:
 * every queued or executing packet holds exactly one.
 */
module WorkerPool {
  import opened Wrappers

  /** A submitted task; `id` names the caller's one-shot result channel. */
  datatype Packet<T> = Packet(id: nat, task: T)

  /** Why a submission produced no result. */
  datatype SubmitError =
    | AdmissionTimedOut  // no permit was free before the deadline
    | QueueClosed        // no worker holds the receiving end of the queue

  /** Number of workers currently executing a packet. */
  function BusyCount<T>(busy: seq<Option<Packet<T>>>): (n: nat)
    ensures n <= |busy|
  {
    if busy == [] then 0 else (if busy[0].Some? then 1 else 0) + BusyCount(busy[1..])
  }

  /** Changing one worker's slot changes the count by that slot alone. */
  lemma {:induction false} BusyCountUpdate<T>(busy: seq<Option<Packet<T>>>, w: nat, x: Option<Packet<T>>)
    requires w < |busy|
    ensures BusyCount(busy[w := x]) + (if busy[w].Some? then 1 else 0) == BusyCount(busy) + (if x.Some? then 1 else 0)
  {
    if w > 0 {
      assert busy[w := x][1..] == busy[1..][w - 1 := x];
      BusyCountUpdate(busy[1..], w - 1, x);
    }
  }

  /** The slots of `n` workers that execute nothing. */
  function Idle<T>(n: nat): seq<Option<Packet<T>>> {
    seq(n, _ => None)
  }

  lemma {:induction false} BusyCountIdle<T>(n: nat)
    ensures BusyCount(Idle<T>(n)) == 0
  {
    if n > 0 {
      assert Idle<T>(n)[1..] == Idle<T>(n - 1);
      BusyCountIdle<T>(n - 1);
    }
  }

  /**
   * What one worker does with a run of packets when it has the queue to itself: in queue
   * order, skip each packet whose caller has gone, otherwise process it once, threading its
   * context through, and fill that packet's result slot.
   */
  function Serve<T, C, R>(process: (T, C) -> (R, C), ctx: C, packets: seq<Packet<T>>,
                          closed: set<nat>, results: map<nat, R>): (served: (C, map<nat, R>))
    ensures results.Keys <= served.1.Keys
  {
    if packets == [] then (ctx, results)
    else if packets[0].id in closed then Serve(process, ctx, packets[1..], closed, results)
    else
      var (r, next) := process(packets[0].task, ctx);
      Serve(process, next, packets[1..], closed, results[packets[0].id := r])
  }

  /** Serving fills exactly the slots of the packets whose callers still wait, and leaves the others alone. */
  lemma {:induction false} ServeFillsOpenSlots<T, C, R>(process: (T, C) -> (R, C), ctx: C, packets: seq<Packet<T>>,
                                                       closed: set<nat>, results: map<nat, R>)
    ensures Serve(process, ctx, packets, closed, results).1.Keys ==
      results.Keys + (set i | 0 <= i < |packets| && packets[i].id !in closed :: packets[i].id)
    ensures forall id :: id in results && (forall i :: 0 <= i < |packets| ==> packets[i].id != id) ==>
      Serve(process, ctx, packets, closed, results).1[id] == results[id]
  {
    if packets != [] {
      var rest := packets[1..];
      var ids := set i | 0 <= i < |packets| && packets[i].id !in closed :: packets[i].id;
      var restIds := set i | 0 <= i < |rest| && rest[i].id !in closed :: rest[i].id;
      assert forall i :: 1 <= i < |packets| ==> packets[i] == rest[i - 1];
      if packets[0].id in closed {
        ServeFillsOpenSlots(process, ctx, rest, closed, results);
        assert ids == restIds;
      } else {
        var (r, next) := process(packets[0].task, ctx);
        ServeFillsOpenSlots(process, next, rest, closed, results[packets[0].id := r]);
        assert ids == {packets[0].id} + restIds;
      }
    }
  }

  class Pool<T, C, R> {
    const cap: nat
    const process: (T, C) -> (R, C)
    /** Permits the semaphore can still hand out. */
    var free: nat
    /** The unbounded multi-consumer channel of admitted packets, head first. */
    var queue: seq<Packet<T>>
    /** Worker w's own context. */
    var contexts: seq<C>
    /** The packet worker w is executing, if any. */
    var busy: seq<Option<Packet<T>>>
    /** Ids whose caller dropped its receiver (its deadline fired). */
    var closed: set<nat>
    /** Results sent and not yet read by their caller. */
    var results: map<nat, R>
    var nextId: nat
    /** How many packets workers have taken from the queue. */
    ghost var received: nat
    ghost var processed: set<nat>
    ghost var skipped: set<nat>

    ghost predicate Valid()
      reads this
    {
      && |busy| == |contexts|
      // every queued or executing packet holds one permit
      && free + |queue| + BusyCount(busy) == cap
      // ids are handed out in admission order and the queue is taken from its head
      && nextId == received + |queue|
      && (forall i :: 0 <= i < |queue| ==> queue[i].id == received + i)
      && (forall w :: 0 <= w < |busy| && busy[w].Some? ==>
            busy[w].value.id < received && busy[w].value.id !in processed && busy[w].value.id !in skipped)
      && (forall v, w :: 0 <= v < w < |busy| && busy[v].Some? && busy[w].Some? ==>
            busy[v].value.id != busy[w].value.id)
      && (forall id :: id in processed || id in skipped ==> id < received)
      && processed !! skipped
      && skipped <= closed
      && results.Keys <= processed
      && results.Keys !! closed
    }

    /** Packets admitted and not yet dropped: queued or executing. */
    ghost function Live(): nat
      reads this
    {
      |queue| + BusyCount(busy)
    }

    /** `contexts` holds the context each of the workers built at start-up; building them is assumed to succeed. */
    constructor (cap: nat, process: (T, C) -> (R, C), contexts: seq<C>)
      ensures Valid()
      ensures this.cap == cap && this.process == process && this.contexts == contexts
      ensures free == cap && queue == [] && busy == Idle(|contexts|)
      ensures closed == {} && results == map[] && nextId == 0 && Live() == 0
    {
      this.cap := cap;
      this.process := process;
      this.contexts := contexts;
      free := cap;
      queue := [];
      busy := Idle(|contexts|);
      closed := {};
      results := map[];
      nextId := 0;
      received := 0;
      processed := {};
      skipped := {};
      BusyCountIdle<T>(|contexts|);
    }

    /** Admitted work never exceeds the capacity, whatever the number of workers. */
    lemma LiveWithinCap()
      requires Valid()
      ensures Live() + free == cap && Live() <= cap
    {
    }

    /**
     * The admission half of `queue`: take a permit, build the packet and send it. With no
     * permit free the caller times out and nothing happens; with no worker the send fails
     * and the dropped packet gives its permit back.
     */
    method Submit(task: T) returns (r: Result<nat, SubmitError>)
      requires Valid()
      modifies this
      ensures Valid()
      ensures old(free) == 0 ==> r == Err(AdmissionTimedOut)
      ensures old(free) > 0 && |contexts| == 0 ==> r == Err(QueueClosed)
      ensures r.Err? ==> queue == old(queue) && free == old(free) && nextId == old(nextId)
      ensures r.Ok? <==> old(free) > 0 && |contexts| > 0
      ensures r.Ok? ==>
        && r.value == old(nextId)
        && queue == old(queue) + [Packet(old(nextId), task)]
        && free == old(free) - 1
        && nextId == old(nextId) + 1
      ensures busy == old(busy) && contexts == old(contexts)
      ensures results == old(results) && closed == old(closed)
    {
      if free == 0 {
        return Err(AdmissionTimedOut);
      }
      if |contexts| == 0 {
        return Err(QueueClosed);
      }
      free := free - 1;
      queue := queue + [Packet(nextId, task)];
      r := Ok(nextId);
      nextId := nextId + 1;
    }

    /**
     * Worker `w` takes the head of the queue. A packet whose caller has gone is dropped at
     * once, releasing its permit; any other becomes the worker's current packet. With an
     * empty queue the worker keeps waiting and nothing changes.
     */
    method Receive(w: nat) returns (taken: Option<Packet<T>>)
      requires Valid()
      requires w < |busy| && busy[w].None?
      modifies this
      ensures Valid()
      ensures old(queue) == [] ==> taken.None? && queue == [] && busy == old(busy) && free == old(free)
      ensures old(queue) != [] ==>
        && taken == Some(old(queue[0]))
        && taken.value.id == old(received)
        && queue == old(queue[1..])
        && (taken.value.id in closed ==> busy == old(busy) && free == old(free) + 1)
        && (taken.value.id !in closed ==> busy == old(busy)[w := taken] && free == old(free))
      ensures contexts == old(contexts) && results == old(results) && closed == old(closed)
      ensures nextId == old(nextId) && processed == old(processed)
    {
      if queue == [] {
        return None;
      }
      var packet := queue[0];
      queue := queue[1..];
      received := received + 1;
      taken := Some(packet);
      if packet.id in closed {
        skipped := skipped + {packet.id};
        free := free + 1;
      } else {
        BusyCountUpdate(busy, w, Some(packet));
        busy := busy[w := Some(packet)];
      }
    }

    /**
     * Worker `w` runs its current packet's task once against its own context, sends the
     * result to that packet's caller (a caller that has gone loses it), and drops the
     * packet, releasing its permit.
     */
    method Finish(w: nat)
      requires Valid()
      requires w < |busy| && busy[w].Some?
      modifies this
      ensures Valid()
      ensures var p := old(busy[w].value);
        var (r, ctx) := process(p.task, old(contexts[w]));
        && p.id !in old(processed)
        && processed == old(processed) + {p.id}
        && contexts == old(contexts)[w := ctx]
        && results == (if p.id in closed then old(results) else old(results)[p.id := r])
      ensures busy == old(busy)[w := None] && free == old(free) + 1
      ensures queue == old(queue) && closed == old(closed) && nextId == old(nextId)
    {
      var p := busy[w].value;
      var (r, ctx) := process(p.task, contexts[w]);
      contexts := contexts[w := ctx];
      if p.id !in closed {
        results := results[p.id := r];
      }
      processed := processed + {p.id};
      BusyCountUpdate(busy, w, None);
      busy := busy[w := None];
      free := free + 1;
    }

    /** The caller of `id` stops waiting; a result already sent is still read, so that caller does not give up. */
    method Abandon(id: nat)
      requires Valid()
      requires id < nextId
      modifies this
      ensures Valid()
      ensures closed == (if id in old(results) then old(closed) else old(closed) + {id})
      ensures free == old(free) && queue == old(queue) && busy == old(busy)
      ensures contexts == old(contexts) && results == old(results) && nextId == old(nextId)
    {
      if id !in results {
        closed := closed + {id};
      }
    }

    /** The caller of `id` reads its result slot, consuming it. */
    method Collect(id: nat) returns (r: Option<R>)
      requires Valid()
      modifies this
      ensures Valid()
      ensures r == (if id in old(results) then Some(old(results)[id]) else None)
      ensures results == old(results) - {id}
      ensures free == old(free) && queue == old(queue) && busy == old(busy)
      ensures contexts == old(contexts) && closed == old(closed) && nextId == old(nextId)
    {
      r := if id in results then Some(results[id]) else None;
      results := results - {id};
    }

    /**
     * Worker `w` runs its loop while it has the queue to itself: it serves every queued
     * packet in order and is idle again when the queue is empty.
     */
    method RunWorker(w: nat)
      requires Valid()
      requires w < |busy| && busy[w].None?
      modifies this
      ensures Valid()
      ensures queue == [] && busy == old(busy) && closed == old(closed) && nextId == old(nextId)
      ensures free == old(free) + |old(queue)|
      ensures (contexts[w], results) == Serve(process, old(contexts[w]), old(queue), closed, old(results))
      ensures forall v :: 0 <= v < |contexts| && v != w ==> contexts[v] == old(contexts[v])
    {
      while queue != []
        invariant Valid()
        invariant w < |busy| && busy[w].None? && busy == old(busy) && closed == old(closed)
        invariant nextId == old(nextId)
        invariant |contexts| == |old(contexts)|
        invariant forall v :: 0 <= v < |contexts| && v != w ==> contexts[v] == old(contexts[v])
        invariant free + |queue| == old(free) + |old(queue)|
        invariant Serve(process, contexts[w], queue, closed, results) ==
          Serve(process, old(contexts[w]), old(queue), closed, old(results))
        decreases |queue|
      {
        var packet := Receive(w);
        if packet.value.id !in closed {
          Finish(w);
        }
      }
    }
  }

  /** Two permits: a third submission, with both requests still in flight, is refused. */
  method TwoPermitsRefuseThird()
  {
    var pool := new Pool<int, int, int>(2, (t: int, c: int) => (t + c, c + 1), [0]);
    var a := pool.Submit(10);
    var b := pool.Submit(20);
    var c := pool.Submit(30);
    assert a == Ok(0) && b == Ok(1) && c == Err(AdmissionTimedOut);
    pool.LiveWithinCap();
    assert pool.Live() == 2;
  }

  /** Two permits and one worker: once the worker finishes a request, its permit admits the next one. */
  method FinishedRequestFreesPermit()
  {
    var pool := new Pool<int, int, int>(2, (t: int, c: int) => (t + c, c + 1), [0]);
    var a := pool.Submit(10);
    var b := pool.Submit(20);
    var first := pool.Receive(0);
    assert first == Some(Packet(0, 10));
    pool.Finish(0);
    assert pool.results == map[0 := 10] && pool.contexts == [1];
    var c := pool.Submit(30);
    assert c == Ok(2);
    var r := pool.Collect(0);
    assert r == Some(10);
  }
}
