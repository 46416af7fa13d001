// Streams of GPU work ordered by one timeline semaphore (src/vk_stream.h).
//
// A stream counts the values it has asked its timeline semaphore to reach in
// `lastValue`. `history` records, in order, what was scheduled against that
// semaphore: signals of new values, waits on the GPU and waits on the host.
// The semaphore and the binary acquire/present semaphores are abstract tokens.

module VkStream {
  import opened VkTypes
  import opened VkCommand
  import opened VkSwapchain

  /** vk::PipelineStageFlagBits::eColorAttachmentOutput and eNone. */
  const ColorAttachmentOutputStage: bv32 := 0x400
  const NoStage: bv32 := 0

  /** std::numeric_limits<uint64_t>::max(), passed for binary semaphores, which ignore it. */
  const IgnoredValue: nat := 0xFFFF_FFFF_FFFF_FFFF

  /** One operation on a stream's timeline semaphore. */
  datatype TimelineOp = Signal(value: nat) | GpuWait(value: nat) | HostWait(value: nat)

  /** One step of the timeline: a signal must be one past the last signalled value,
      a wait may only ask for a value already signalled or scheduled. */
  function Step(last: Option<nat>, op: TimelineOp): Option<nat>
  {
    match last
    case None => None
    case Some(v) =>
      match op
      case Signal(w) => if w == v + 1 then Some(w) else None
      case GpuWait(w) => if w <= v then Some(v) else None
      case HostWait(w) => if w <= v then Some(v) else None
  }

  /** The last value a well-ordered history signals (0 for none), or None if the
      history breaks the ordering somewhere. */
  function Replay(h: seq<TimelineOp>): Option<nat>
  {
    if h == [] then Some(0) else Step(Replay(h[..|h| - 1]), h[|h| - 1])
  }

  lemma ReplayAppend(h: seq<TimelineOp>, ops: seq<TimelineOp>)
    ensures |ops| == 1 ==> Replay(h + ops) == Step(Replay(h), ops[0])
  {
    if |ops| == 1 {
      assert (h + ops)[..|h|] == h;
    }
  }

  /** The values a history signals, in order. */
  function Signals(h: seq<TimelineOp>): seq<nat>
  {
    if h == [] then []
    else Signals(h[..|h| - 1]) + (if h[|h| - 1].Signal? then [h[|h| - 1].value] else [])
  }

  /** 1, 2, ..., n. */
  function Counting(n: nat): (r: seq<nat>)
    ensures |r| == n && forall i :: 0 <= i < n ==> r[i] == i + 1
  {
    seq(n, i requires 0 <= i < n => i + 1)
  }

  /** In a well-ordered history the signalled values are exactly 1, 2, ..., lastValue:
      strictly increasing by one. */
  lemma {:induction false} ReplaySignalsCount(h: seq<TimelineOp>)
    requires Replay(h).Some?
    ensures Signals(h) == Counting(Replay(h).value)
  {
    if h != [] {
      var n := |h| - 1;
      assert Replay(h[..n]).Some?;
      ReplaySignalsCount(h[..n]);
      if h[n].Signal? {
        assert Counting(Replay(h[..n]).value) + [h[n].value] == Counting(Replay(h).value);
      }
    }
  }

  /** In a well-ordered history every wait asks for a value signalled earlier in it. */
  lemma {:induction false} ReplayWaitsSignalled(h: seq<TimelineOp>, i: nat)
    requires Replay(h).Some? && i < |h| && !h[i].Signal?
    ensures h[i].value <= |Signals(h[..i])|
  {
    var n := |h| - 1;
    assert Replay(h[..n]).Some?;
    if i < n {
      assert h[..n][..i] == h[..i];
      ReplayWaitsSignalled(h[..n], i);
    } else {
      assert h[..i] == h[..n];
      ReplaySignalsCount(h[..n]);
    }
  }

  /** The part of a submission built from the stream: its wait values (the events',
      then the stream's last value) and the semaphores to wait on, in parallel. */
  function WaitValues(events: seq<Event>, last: nat): (r: seq<nat>)
    ensures |r| == |events| + 1 && r[|events|] == last
    ensures forall i :: 0 <= i < |events| ==> r[i] == events[i].value
  {
    seq(|events|, i requires 0 <= i < |events| => events[i].value) + [last]
  }

  function WaitSemaphores(events: seq<Event>, own: nat): (r: seq<nat>)
    ensures |r| == |events| + 1 && r[|events|] == own
    ensures forall i :: 0 <= i < |events| ==> r[i] == events[i].stream.semaphore
  {
    seq(|events|, i requires 0 <= i < |events| => events[i].stream.semaphore) + [own]
  }

  /** The wait-vector loop of submitWork: each event's semaphore and value, then the
      stream's own semaphore and last value. */
  method BuildWaits(waitEvents: seq<Event>, own: nat, last: nat) returns (semaphores: seq<nat>, values: seq<nat>)
    ensures semaphores == WaitSemaphores(waitEvents, own) && values == WaitValues(waitEvents, last)
  {
    values := [];
    semaphores := [];
    for i := 0 to |waitEvents|
      invariant values == seq(i, k requires 0 <= k < i => waitEvents[k].value)
      invariant semaphores == seq(i, k requires 0 <= k < i => waitEvents[k].stream.semaphore)
    {
      values := values + [waitEvents[i].value];
      semaphores := semaphores + [waitEvents[i].stream.semaphore];
    }
    values := values + [last];
    semaphores := semaphores + [own];
  }

  /** VulkanStreamEvent: a point on a stream's timeline. */
  datatype Event = Event(stream: Stream, value: nat)

  class Stream {
    const pool: CommandPool
    const semaphore: nat
    var current: CommandLease?
    var lastValue: nat
    ghost var history: seq<TimelineOp>

    /** The timeline is well ordered up to `lastValue`, and the one lease the stream
        holds, if any, is a live lease of its pool. */
    ghost predicate Valid()
      reads this, pool, current
    {
      pool.Valid() && Replay(history) == Some(lastValue) &&
      (current != null ==> current.pool == pool && current.handle in pool.leased)
    }

    constructor(p: CommandPool, timeline: nat)
      requires p.Valid()
      ensures pool == p && semaphore == timeline
      ensures current == null && lastValue == 0 && history == []
      ensures Valid()
    {
      pool := p;
      semaphore := timeline;
      current := null;
      lastValue := 0;
      history := [];
    }

    /** getLastEvent: the stream's current value. */
    function LastEvent(): (e: Event)
      reads this
      ensures e.stream == this && e.value == lastValue
    {
      Event(this, lastValue)
    }

    /** submitWork: waits on the events and on the stream's last value, signals the
        next value, and runs the recorder once in a freshly leased buffer. The lease
        the stream held before is destroyed first and so goes back to the pool,
        which hands the same buffer out again. */
    method SubmitWork(queue: Queue, recorder: seq<Command>, waitEvents: seq<Event>, fence: nat, previousWait: VkResult)
      requires Valid()
      modifies this, pool, current, queue
      ensures Valid()
      ensures lastValue == old(lastValue) + 1
      ensures history == old(history) + [GpuWait(old(lastValue)), Signal(lastValue)]
      ensures current != null && fresh(current) && current.fence == fence
      ensures current.log == Recording(OneTimeSubmit, recorder)
      ensures queue.log == old(queue.log) + [QueueOp.Submit(
        SubmitInfo(WaitSemaphores(waitEvents, semaphore), WaitValues(waitEvents, old(lastValue)),
                   [ColorAttachmentOutputStage], [current.handle], [semaphore], [lastValue]),
        Some(fence))]
      ensures old(current) != null ==>
        pool.State() == old(pool.State()) && pool.leased == old(pool.leased) && current.handle == old(current.handle)
      ensures old(current) == null ==>
        (pool.State(), current.handle) == PoolCheckOut(old(pool.State())) && pool.leased == old(pool.leased) + {current.handle}
    {
      var waitSemaphores, waitSemaphoreValues := BuildWaits(waitEvents, semaphore, lastValue);
      ReplayAppend(history, [GpuWait(lastValue)]);
      history := history + [GpuWait(lastValue)];
      lastValue := lastValue + 1;
      ReplayAppend(history, [Signal(lastValue)]);
      history := history + [Signal(lastValue)];

      var lease := ReplaceLease(fence, previousWait);
      lease.RecordOnce(recorder);
      lease.SubmitTo(queue, SubmitInfo(waitSemaphores, waitSemaphoreValues, [ColorAttachmentOutputStage], [], [semaphore], [lastValue]));
    }

    /** The lease step of submitWork: the held lease, if any, is destroyed and its
        buffer returns to the pool; then a new lease is checked out and held. */
    method ReplaceLease(fence: nat, previousWait: VkResult) returns (lease: CommandLease)
      requires Valid()
      modifies this, pool, current
      ensures Valid() && current == lease && fresh(lease)
      ensures lease.fence == fence && lease.log == [] && lease.pool == pool
      ensures history == old(history) && lastValue == old(lastValue)
      ensures old(current) != null ==>
        pool.State() == old(pool.State()) && pool.leased == old(pool.leased) && lease.handle == old(current.handle)
      ensures old(current) == null ==>
        (pool.State(), lease.handle) == PoolCheckOut(old(pool.State())) && pool.leased == old(pool.leased) + {lease.handle}
    {
      if current != null {
        var h := current.handle;
        current.Destroy(previousWait);
        CheckInThenOut(old(pool.State()), h);
        assert pool.leased + {h} == old(pool.leased);
      }
      lease := CheckOutLease(pool, fence);
      current := lease;
    }

    /** synchronize: the host waits for the stream's last value (the wait's result is dropped). */
    method Synchronize()
      requires Valid()
      modifies this
      ensures Valid()
      ensures history == old(history) + [HostWait(lastValue)]
      ensures lastValue == old(lastValue) && current == old(current)
    {
      ReplayAppend(history, [HostWait(lastValue)]);
      history := history + [HostWait(lastValue)];
    }

    /** The destructor: synchronize, then the held lease, if any, is destroyed and
        returns its buffer to the pool; afterwards the stream holds no lease. */
    method Destroy(leaseWait: VkResult)
      requires Valid()
      modifies this, pool, current
      ensures history == old(history) + [HostWait(lastValue)] && lastValue == old(lastValue)
      ensures old(current) != null ==>
        pool.State() == PoolCheckIn(old(pool.State()), old(current.handle)) &&
        pool.leased == old(pool.leased) - {old(current.handle)} && old(current).pool == null
      ensures old(current) == null ==> pool.State() == old(pool.State()) && pool.leased == old(pool.leased)
      ensures current == null && Valid()
    {
      Synchronize();
      if current != null {
        current.Destroy(leaseWait);
        current := null;
      }
    }
  }

  /** VulkanStreamEvent::synchronize: the host waits for the event's value on its stream. */
  method SynchronizeEvent(e: Event)
    modifies e.stream
    ensures e.stream.history == old(e.stream.history) + [HostWait(e.value)]
    ensures e.stream.lastValue == old(e.stream.lastValue) && e.stream.current == old(e.stream.current)
    ensures old(e.stream.Valid()) && e.value <= e.stream.lastValue ==> e.stream.Valid()
  {
    ReplayAppend(e.stream.history, [HostWait(e.value)]);
    e.stream.history := e.stream.history + [HostWait(e.value)];
  }

  /** submitEvents, by its evident intent: wait on every wait event's value and signal
      one past the signal event's value on the signal event's semaphore. */
  method SubmitEvents(queue: Queue, signalEvent: Event, waitEvents: seq<Event>)
    modifies queue
    ensures queue.log == old(queue.log) + [QueueOp.Submit(
      SubmitInfo(seq(|waitEvents|, i requires 0 <= i < |waitEvents| => waitEvents[i].stream.semaphore),
                 seq(|waitEvents|, i requires 0 <= i < |waitEvents| => waitEvents[i].value),
                 [], [], [signalEvent.stream.semaphore], [signalEvent.value + 1]),
      None)]
  {
    queue.Submit(SubmitInfo(seq(|waitEvents|, i requires 0 <= i < |waitEvents| => waitEvents[i].stream.semaphore),
                            seq(|waitEvents|, i requires 0 <= i < |waitEvents| => waitEvents[i].value),
                            [], [], [signalEvent.stream.semaphore], [signalEvent.value + 1]),
                 None);
  }

  /** Signalling one past a stream's last event from outside the stream collides with
      the stream's own next submission, which signals the same value again. */
  lemma SubmitEventsCollides(h: seq<TimelineOp>, v: nat)
    requires Replay(h) == Some(v)
    ensures Replay(h + [Signal(v + 1)]) == Some(v + 1)
    ensures Replay(h + [Signal(v + 1)] + [GpuWait(v), Signal(v + 1)]) == None
  {
    ReplayAppend(h, [Signal(v + 1)]);
    var h1 := h + [Signal(v + 1)];
    ReplayAppend(h1, [GpuWait(v)]);
    ReplayAppend(h1 + [GpuWait(v)], [Signal(v + 1)]);
    assert h1 + [GpuWait(v), Signal(v + 1)] == h1 + [GpuWait(v)] + [Signal(v + 1)];
  }

  // ---------------------------------------------------------------------------
  // The pool across submissions

  /** The pool across one submitWork as written: the new buffer is checked out, then
      the defaulted move assignment of the lease frees the old buffer without running
      the old lease's destructor, so it is neither leased nor back on the free list. */
  function SubmitPoolAsWritten(p: PoolState, leased: set<Handle>, previous: Option<Handle>): (r: (PoolState, set<Handle>, Handle))
    ensures (r.0, r.2) == PoolCheckOut(p)
    ensures r.2 in r.1
    ensures previous.Some? && previous.value != r.2 ==> previous.value !in r.1
  {
    var (q, h) := PoolCheckOut(p);
    (q, (if previous.Some? then leased - {previous.value} else leased) + {h}, h)
  }

  /** The pool across one submitWork that destroys the old lease first. */
  function SubmitPool(p: PoolState, leased: set<Handle>, previous: Option<Handle>): (PoolState, set<Handle>, Handle)
    requires previous.Some? ==> previous.value in leased
  {
    var (p1, l1) := if previous.Some? then (PoolCheckIn(p, previous.value), leased - {previous.value}) else (p, leased);
    var (q, h) := PoolCheckOut(p1);
    (q, l1 + {h}, h)
  }

  /** As written, each submission that replaces a lease loses one buffer from the
      pool's accounting. */
  lemma SubmitAsWrittenLosesBuffer(p: PoolState, leased: set<Handle>, previous: Handle)
    requires Accounted(p, leased) && previous in leased
    ensures var (q, l, h) := SubmitPoolAsWritten(p, leased, Some(previous));
            |q.free| + |l| == q.bufferCount - 1 && !Accounted(q, l)
  {
    CheckOutAccounted(p, leased);
    var (q, h) := PoolCheckOut(p);
    assert h != previous;
    assert (leased - {previous}) + {h} == (leased + {h}) - {previous};
    assert |(leased + {h}) - {previous}| == |leased + {h}| - 1;
  }

  /** A stream on a fresh pool of 16 buffers: after two submissions as written, 14
      buffers are free and one is leased. */
  lemma SubmitAsWrittenTwice()
    ensures var (q1, l1, h1) := SubmitPoolAsWritten(NewPool(16), {}, None);
            var (q2, l2, h2) := SubmitPoolAsWritten(q1, l1, Some(h1));
            |q2.free| == 14 && l2 == {14} && q2.bufferCount == 16
  {
    var (q1, l1, h1) := SubmitPoolAsWritten(NewPool(16), {}, None);
    assert h1 == 15 && l1 == {15} && |q1.free| == 15;
    assert q1.free[|q1.free| - 1] == 14;
  }

  /** Destroying the old lease first keeps the accounting, and the pool hands the same
      buffer straight back. */
  lemma SubmitPoolReusesBuffer(p: PoolState, leased: set<Handle>, previous: Handle)
    requires Accounted(p, leased) && previous in leased
    ensures SubmitPool(p, leased, Some(previous)) == (p, leased, previous)
    ensures Accounted(SubmitPool(p, leased, Some(previous)).0, SubmitPool(p, leased, Some(previous)).1)
  {
    CheckInThenOut(p, previous);
    assert (leased - {previous}) + {previous} == leased;
  }

  // ---------------------------------------------------------------------------
  // The graphics stream

  /** VulkanGraphicsStream: a stream with a binary semaphore for acquisition and one
      for presentation. */
  class GraphicsStream {
    const base: Stream
    const acquireSemaphore: nat
    const presentSemaphore: nat

    constructor(p: CommandPool, timeline: nat, acquire: nat, present: nat)
      requires p.Valid()
      ensures fresh(base) && base.pool == p && base.semaphore == timeline
      ensures base.current == null && base.lastValue == 0 && base.history == []
      ensures acquireSemaphore == acquire && presentSemaphore == present
      ensures base.Valid()
    {
      base := new Stream(p, timeline);
      acquireSemaphore := acquire;
      presentSemaphore := present;
    }

    /** The render-pass submitWork: the recorder nested in the render pass. */
    method SubmitRenderPass(queue: Queue, info: RenderPassInfo, recorder: seq<Command>, waitEvents: seq<Event>,
                            fence: nat, previousWait: VkResult)
      requires base.Valid()
      modifies base, base.pool, base.current, queue
      ensures base.Valid()
      ensures base.lastValue == old(base.lastValue) + 1
      ensures base.history == old(base.history) + [GpuWait(old(base.lastValue)), Signal(base.lastValue)]
      ensures base.current != null && fresh(base.current) && base.current.fence == fence
      ensures base.current.log == Recording(OneTimeSubmit, InRenderPass(info, recorder))
      ensures queue.log == old(queue.log) + [QueueOp.Submit(
        SubmitInfo(WaitSemaphores(waitEvents, base.semaphore), WaitValues(waitEvents, old(base.lastValue)),
                   [ColorAttachmentOutputStage], [base.current.handle], [base.semaphore], [base.lastValue]),
        Some(fence))]
      ensures old(base.current) != null ==> base.pool.State() == old(base.pool.State()) && base.pool.leased == old(base.pool.leased)
    {
      base.SubmitWork(queue, InRenderPass(info, recorder), waitEvents, fence, previousWait);
    }

    /** acquireNextImage: a failed acquisition throws before anything is submitted;
        otherwise a submission waits on the acquire semaphore and signals the next value. */
    method AcquireNextImage(queue: Queue, swapchain: Swapchain, driverResult: VkResult, imageIndex: nat)
      returns (r: Result<nat>)
      requires base.Valid()
      modifies base, queue
      ensures r == swapchain.AcquireNextImage(driverResult, imageIndex)
      ensures base.Valid() && base.current == old(base.current)
      ensures r.Err? ==> base.lastValue == old(base.lastValue) && base.history == old(base.history) && queue.log == old(queue.log)
      ensures r.Ok? ==> base.lastValue == old(base.lastValue) + 1 && base.history == old(base.history) + [Signal(base.lastValue)]
      ensures r.Ok? ==> queue.log == old(queue.log) + [QueueOp.Submit(
        SubmitInfo([acquireSemaphore], [IgnoredValue], [NoStage], [], [base.semaphore], [base.lastValue]), None)]
    {
      r := swapchain.AcquireNextImage(driverResult, imageIndex);
      if r.Err? {
        return;
      }
      base.lastValue := base.lastValue + 1;
      ReplayAppend(base.history, [Signal(base.lastValue)]);
      base.history := base.history + [Signal(base.lastValue)];
      queue.Submit(SubmitInfo([acquireSemaphore], [IgnoredValue], [NoStage], [], [base.semaphore], [base.lastValue]), None);
    }

    /** present: a submission waits on the stream's last value and signals the present
        semaphore, then the image is presented; VK_CHECK judges the present result. */
    method Present(queue: Queue, swapchain: Swapchain, imageIndex: nat, presentResult: VkResult) returns (o: Outcome)
      requires base.Valid()
      modifies base, queue
      ensures base.Valid() && base.current == old(base.current)
      ensures base.lastValue == old(base.lastValue) && base.history == old(base.history) + [GpuWait(base.lastValue)]
      ensures queue.log == old(queue.log) + [
        QueueOp.Submit(SubmitInfo([base.semaphore], [base.lastValue], [NoStage], [], [presentSemaphore], [IgnoredValue]), None),
        QueueOp.Present(presentSemaphore, swapchain.swapchain, imageIndex)]
      ensures o == VkCheck(presentResult)
    {
      ReplayAppend(base.history, [GpuWait(base.lastValue)]);
      base.history := base.history + [GpuWait(base.lastValue)];
      queue.Submit(SubmitInfo([base.semaphore], [base.lastValue], [NoStage], [], [presentSemaphore], [IgnoredValue]), None);
      queue.Present(presentSemaphore, swapchain.swapchain, imageIndex);
      o := VkCheck(presentResult);
    }
  }
}
