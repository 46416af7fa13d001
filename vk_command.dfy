// The command-buffer pool and the lease of one command buffer (src/vk_command.h),
// and the queue that command buffers are submitted to.
//
// Driver objects (command buffers, fences, semaphores, buffers) are abstract tokens.
// The driver's command-buffer allocation is modelled as handing out consecutive
// fresh tokens from the pool's `nextHandle` counter.

module VkCommand {
  import opened VkTypes

  /** A command-buffer handle. */
  type Handle = nat

  // ---------------------------------------------------------------------------
  // Commands and recordings

  /** What a render pass begins with (vk::RenderPassBeginInfo without the clear values). */
  datatype RenderPassInfo = RenderPassInfo(renderPass: nat, framebuffer: nat, width: nat, height: nat)

  /** A command recorded into a command buffer. */
  datatype Command =
    | CopyBuffer(source: nat, destination: nat, sourceOffset: nat, destinationOffset: nat, size: nat)
    | BeginRenderPass(info: RenderPassInfo)
    | EndRenderPass
    | Other(tag: nat)   // anything else a recorder may record

  /** What happens to a leased command buffer and its fence, in order. */
  datatype LeaseOp =
    | Begin(flags: bv32)
    | Cmd(command: Command)
    | End
    | FenceWait
    | FenceReset
    | BufferReset

  /** vk::CommandBufferUsageFlags{} and eOneTimeSubmit. */
  const NoUsageFlags: bv32 := 0
  const OneTimeSubmit: bv32 := 0x1

  function AsOps(cmds: seq<Command>): (ops: seq<LeaseOp>)
    ensures |ops| == |cmds|
    ensures forall i :: 0 <= i < |cmds| ==> ops[i] == Cmd(cmds[i])
  {
    seq(|cmds|, i requires 0 <= i < |cmds| => Cmd(cmds[i]))
  }

  /** record_: begin with `flags`, the recorder's commands, end. */
  function Recording(flags: bv32, cmds: seq<Command>): (ops: seq<LeaseOp>)
    ensures |ops| == |cmds| + 2
    ensures ops[0] == Begin(flags) && ops[|ops| - 1] == End
    ensures forall i :: 0 <= i < |cmds| ==> ops[i + 1] == Cmd(cmds[i])
  {
    [Begin(flags)] + AsOps(cmds) + [End]
  }

  /** The render-pass overloads' wrapped recorder: the commands between
      beginRenderPass and endRenderPass. */
  function InRenderPass(info: RenderPassInfo, cmds: seq<Command>): (r: seq<Command>)
    ensures |r| == |cmds| + 2
    ensures r[0] == BeginRenderPass(info) && r[|r| - 1] == EndRenderPass
    ensures forall i :: 0 <= i < |cmds| ==> r[i + 1] == cmds[i]
  {
    [BeginRenderPass(info)] + cmds + [EndRenderPass]
  }

  /** Reads a command list back out of a run of `Cmd` operations. */
  function CommandsOf(ops: seq<LeaseOp>): Option<seq<Command>>
  {
    if ops == [] then Some([])
    else if !ops[|ops| - 1].Cmd? then None
    else match CommandsOf(ops[..|ops| - 1])
      case None => None
      case Some(cmds) => Some(cmds + [ops[|ops| - 1].command])
  }

  /** Reads the usage flags and the recorder's commands back out of one recording. */
  function Recorded(ops: seq<LeaseOp>): Option<(bv32, seq<Command>)>
  {
    if |ops| < 2 || !ops[0].Begin? || ops[|ops| - 1] != End then None
    else match CommandsOf(ops[1..|ops| - 1])
      case None => None
      case Some(cmds) => Some((ops[0].flags, cmds))
  }

  lemma {:induction false} CommandsOfAsOps(cmds: seq<Command>)
    ensures CommandsOf(AsOps(cmds)) == Some(cmds)
  {
    if cmds != [] {
      var n := |cmds| - 1;
      assert AsOps(cmds)[..n] == AsOps(cmds[..n]);
      CommandsOfAsOps(cmds[..n]);
      assert cmds[..n] + [cmds[n]] == cmds;
    }
  }

  /** A recording gives back exactly the flags and the commands it was made from. */
  lemma RecordedRecording(flags: bv32, cmds: seq<Command>)
    ensures Recorded(Recording(flags, cmds)) == Some((flags, cmds))
  {
    var ops := Recording(flags, cmds);
    assert ops[1..|ops| - 1] == AsOps(cmds);
    CommandsOfAsOps(cmds);
  }

  /** Reads the render pass and the inner commands back out of a wrapped command list. */
  function RenderPassOf(cmds: seq<Command>): Option<(RenderPassInfo, seq<Command>)>
  {
    if |cmds| < 2 || !cmds[0].BeginRenderPass? || cmds[|cmds| - 1] != EndRenderPass then None
    else Some((cmds[0].info, cmds[1..|cmds| - 1]))
  }

  lemma RenderPassOfInRenderPass(info: RenderPassInfo, cmds: seq<Command>)
    ensures RenderPassOf(InRenderPass(info, cmds)) == Some((info, cmds))
  {
    var r := InRenderPass(info, cmds);
    assert r[1..|r| - 1] == cmds;
  }

  // ---------------------------------------------------------------------------
  // Queue

  /** vk::SubmitInfo with its timeline values: the three wait arrays, the command
      buffers and the two signal arrays. */
  datatype SubmitInfo = SubmitInfo(
    waitSemaphores: seq<nat>,
    waitValues: seq<nat>,
    waitStages: seq<bv32>,
    commandBuffers: seq<Handle>,
    signalSemaphores: seq<nat>,
    signalValues: seq<nat>)

  /** What a queue has been asked to do, in submission order. */
  datatype QueueOp =
    | Submit(info: SubmitInfo, fence: Option<nat>)
    | Present(waitSemaphore: nat, swapchain: nat, imageIndex: nat)

  /** A device queue, observed through the work handed to it. */
  class Queue {
    var log: seq<QueueOp>

    constructor()
      ensures log == []
    {
      log := [];
    }

    method Submit(info: SubmitInfo, fence: Option<nat>)
      modifies this
      ensures log == old(log) + [QueueOp.Submit(info, fence)]
    {
      log := log + [QueueOp.Submit(info, fence)];
    }

    method Present(waitSemaphore: nat, swapchain: nat, imageIndex: nat)
      modifies this
      ensures log == old(log) + [QueueOp.Present(waitSemaphore, swapchain, imageIndex)]
    {
      log := log + [QueueOp.Present(waitSemaphore, swapchain, imageIndex)];
    }
  }

  // ---------------------------------------------------------------------------
  // The pool as a value

  /** detail::VulkanCommandPoolImpl's state: `bufferCount_`, the free list
      `commandBuffers_` (its back is the end of the sequence) and the next token
      the driver hands out. */
  datatype PoolState = PoolState(bufferCount: nat, free: seq<Handle>, nextHandle: nat)

  /** `n` command buffers fresh from the driver. */
  function Allocate(next: nat, n: nat): (hs: seq<Handle>)
    ensures |hs| == n
    ensures forall i :: 0 <= i < n ==> hs[i] == next + i
  {
    seq(n, i requires 0 <= i < n => next + i)
  }

  /** The constructor: `bufferCount` buffers allocated up front. */
  function NewPool(bufferCount: nat): PoolState
  {
    PoolState(bufferCount, Allocate(0, bufferCount), bufferCount)
  }

  /** The growth of a dry pool, `bufferCount_ / 2`, raised to at least one buffer. */
  function Growth(bufferCount: nat): (g: nat)
    ensures g >= 1
    ensures bufferCount >= 2 ==> g == bufferCount / 2
  {
    if bufferCount / 2 == 0 then 1 else bufferCount / 2
  }

  /** The first half of checkOut: a dry pool grows and appends the new buffers. */
  function Replenish(p: PoolState, extra: nat): PoolState
  {
    if p.free == [] then PoolState(p.bufferCount + extra, p.free + Allocate(p.nextHandle, extra), p.nextHandle + extra)
    else p
  }

  /** checkOut: replenish a dry pool, then take the buffer at the back of the free list. */
  function PoolCheckOut(p: PoolState): (r: (PoolState, Handle))
    ensures p.free != [] ==> r.1 == p.free[|p.free| - 1] && r.0 == p.(free := p.free[..|p.free| - 1])
    ensures p.free == [] ==>
      var g := Growth(p.bufferCount);
      r.1 == p.nextHandle + g - 1 &&
      r.0 == PoolState(p.bufferCount + g, Allocate(p.nextHandle, g - 1), p.nextHandle + g)
  {
    var q := Replenish(p, Growth(p.bufferCount));
    (q.(free := q.free[..|q.free| - 1]), q.free[|q.free| - 1])
  }

  /** checkOut exactly as written: a dry pool grows by `bufferCount_ / 2`, which is
      zero below two buffers; None stands for `back()` of the still empty vector. */
  function PoolCheckOutAsWritten(p: PoolState): (r: Option<(PoolState, Handle)>)
    ensures r.None? <==> p.free == [] && p.bufferCount < 2
  {
    var q := Replenish(p, p.bufferCount / 2);
    if q.free == [] then None else Some((q.(free := q.free[..|q.free| - 1]), q.free[|q.free| - 1]))
  }

  /** checkIn: the returned buffer goes to the back of the free list. */
  function PoolCheckIn(p: PoolState, h: Handle): (q: PoolState)
    ensures |q.free| == |p.free| + 1 && q.free[..|p.free|] == p.free && q.free[|p.free|] == h
    ensures q.bufferCount == p.bufferCount && q.nextHandle == p.nextHandle
  {
    p.(free := p.free + [h])
  }

  /** The pool's accounting invariant: every buffer it allocated is either free or
      leased, never both, the free list holds no handle twice, and every handle
      came from the driver. */
  predicate Accounted(p: PoolState, leased: set<Handle>)
  {
    |p.free| + |leased| == p.bufferCount &&
    (forall i, j :: 0 <= i < j < |p.free| ==> p.free[i] != p.free[j]) &&
    (forall i :: 0 <= i < |p.free| ==> p.free[i] !in leased && p.free[i] < p.nextHandle) &&
    (forall h :: h in leased ==> h < p.nextHandle)
  }

  /** The constructor leaves exactly `bufferCount` handles on the free list and none leased. */
  lemma NewPoolAccounted(bufferCount: nat)
    ensures Accounted(NewPool(bufferCount), {})
    ensures |NewPool(bufferCount).free| == bufferCount && NewPool(bufferCount).bufferCount == bufferCount
  {
  }

  /** checkOut hands out a handle that was not leased and keeps the accounting. */
  lemma CheckOutAccounted(p: PoolState, leased: set<Handle>)
    requires Accounted(p, leased)
    ensures PoolCheckOut(p).1 !in leased
    ensures Accounted(PoolCheckOut(p).0, leased + {PoolCheckOut(p).1})
  {
    var (q, h) := PoolCheckOut(p);
    if p.free != [] {
      assert h == p.free[|p.free| - 1];
      assert forall i :: 0 <= i < |q.free| ==> q.free[i] == p.free[i];
      assert forall i :: 0 <= i < |q.free| ==> q.free[i] != h;
    } else {
      assert forall x :: x in leased ==> x < p.nextHandle;
      assert forall i :: 0 <= i < |q.free| ==> q.free[i] >= p.nextHandle && q.free[i] < h;
    }
    assert |leased + {h}| == |leased| + 1;
  }

  /** checkIn of a leased handle keeps the accounting. */
  lemma CheckInAccounted(p: PoolState, leased: set<Handle>, h: Handle)
    requires Accounted(p, leased) && h in leased
    ensures Accounted(PoolCheckIn(p, h), leased - {h})
  {
    assert |leased - {h}| == |leased| - 1;
  }

  /** LIFO: checkIn(h) followed by checkOut() yields `h` and the pool as it was. */
  lemma CheckInThenOut(p: PoolState, h: Handle)
    ensures PoolCheckOut(PoolCheckIn(p, h)) == (p, h)
  {
    assert (p.free + [h])[..|p.free|] == p.free;
  }

  /** Checking the buffer just taken from a non-dry pool back in restores the pool. */
  lemma CheckOutThenIn(p: PoolState)
    requires p.free != []
    ensures PoolCheckIn(PoolCheckOut(p).0, PoolCheckOut(p).1) == p
  {
    assert p.free[..|p.free| - 1] + [p.free[|p.free| - 1]] == p.free;
  }

  /** From two buffers up, or while the free list is not empty, the written growth
      and the model's agree. */
  lemma CheckOutAsWrittenAgrees(p: PoolState)
    requires p.free != [] || p.bufferCount >= 2
    ensures PoolCheckOutAsWritten(p) == Some(PoolCheckOut(p))
  {
  }

  /** A pool of one buffer whose buffer is leased: the written checkOut grows by
      zero and reads the back of an empty free list. */
  lemma CheckOutAsWrittenEmptyBack()
    ensures PoolCheckOutAsWritten(PoolCheckOut(NewPool(1)).0) == None
    ensures PoolCheckOutAsWritten(NewPool(0)) == None
  {
    var p := NewPool(1);
    assert p.free == [0];
    var q := PoolCheckOut(p).0;
    assert q == PoolState(1, [], 1);
    assert Replenish(q, q.bufferCount / 2) == q;
    assert Replenish(NewPool(0), 0) == NewPool(0);
  }

  // ---------------------------------------------------------------------------
  // The pool as an object

  /** detail::VulkanCommandPoolImpl, shared by its leases; `leased` is the set of
      handles currently out on lease. */
  class CommandPool {
    var bufferCount: nat
    var free: seq<Handle>
    var nextHandle: nat
    ghost var leased: set<Handle>

    function State(): PoolState
      reads this
    {
      PoolState(bufferCount, free, nextHandle)
    }

    ghost predicate Valid()
      reads this
    {
      Accounted(State(), leased)
    }

    /** The constructor allocates `bufferCount` buffers. */
    constructor(count: nat)
      ensures State() == NewPool(count) && leased == {}
      ensures Valid()
    {
      bufferCount := count;
      free := Allocate(0, count);
      nextHandle := count;
      leased := {};
      new;
      NewPoolAccounted(count);
    }

    /** checkOut: grow a dry pool by half its size (at least one buffer), then pop the back. */
    method CheckOut() returns (h: Handle)
      requires Valid()
      modifies this
      ensures (State(), h) == PoolCheckOut(old(State()))
      ensures h !in old(leased) && leased == old(leased) + {h}
      ensures Valid()
    {
      ghost var p := State();
      CheckOutAccounted(p, leased);
      if free == [] {
        var extraBuffers := Growth(bufferCount);
        bufferCount := bufferCount + extraBuffers;
        var newBuffers := Allocate(nextHandle, extraBuffers);
        nextHandle := nextHandle + extraBuffers;
        free := free + newBuffers;
      }
      h := free[|free| - 1];
      free := free[..|free| - 1];
      leased := leased + {h};
    }

    /** checkIn: the buffer goes to the back of the free list. */
    method CheckIn(h: Handle)
      requires Valid() && h in leased
      modifies this
      ensures State() == PoolCheckIn(old(State()), h)
      ensures leased == old(leased) - {h}
      ensures Valid()
    {
      CheckInAccounted(State(), leased, h);
      free := free + [h];
      leased := leased - {h};
    }
  }

  /** The constructor's `gsl::narrow<uint32_t>(bufferCount)`: a count that does not
      fit 32 bits throws once the pool is created, before any command buffer is
      allocated. */
  method CreateCommandPool(bufferCount: nat) returns (r: Result<CommandPool>)
    ensures bufferCount >= 0x1_0000_0000 <==> r == Err(NarrowingError)
    ensures r.Ok? ==> fresh(r.value) && r.value.Valid() && r.value.State() == NewPool(bufferCount) && r.value.leased == {}
  {
    if bufferCount >= 0x1_0000_0000 {
      return Err(NarrowingError);
    }
    var pool := new CommandPool(bufferCount);
    return Ok(pool);
  }

  // ---------------------------------------------------------------------------
  // The lease

  /** VulkanCommandBuffer: a command buffer leased from `pool` with its own fence;
      `pool` is null once the lease has been destroyed. `log` is what has been
      done to the command buffer and the fence. */
  class CommandLease {
    var pool: CommandPool?
    const handle: Handle
    const fence: nat
    var log: seq<LeaseOp>

    ghost predicate Valid()
      reads this, pool
    {
      pool != null ==> pool.Valid() && handle in pool.leased
    }

    constructor(p: CommandPool, h: Handle, f: nat)
      ensures pool == p && handle == h && fence == f && log == []
    {
      pool := p;
      handle := h;
      fence := f;
      log := [];
    }

    /** record: the recorder's commands between begin and end, no usage flags. */
    method Record(cmds: seq<Command>)
      modifies this
      ensures log == old(log) + Recording(NoUsageFlags, cmds) && pool == old(pool)
    {
      log := log + Recording(NoUsageFlags, cmds);
    }

    /** record with a render pass: the recorder nested in beginRenderPass/endRenderPass. */
    method RecordRenderPass(info: RenderPassInfo, cmds: seq<Command>)
      modifies this
      ensures log == old(log) + Recording(NoUsageFlags, InRenderPass(info, cmds)) && pool == old(pool)
    {
      Record(InRenderPass(info, cmds));
    }

    /** recordOnce: as record, with the one-time-submit flag. */
    method RecordOnce(cmds: seq<Command>)
      modifies this
      ensures log == old(log) + Recording(OneTimeSubmit, cmds) && pool == old(pool)
    {
      log := log + Recording(OneTimeSubmit, cmds);
    }

    /** recordOnce with a render pass. */
    method RecordOnceRenderPass(info: RenderPassInfo, cmds: seq<Command>)
      modifies this
      ensures log == old(log) + Recording(OneTimeSubmit, InRenderPass(info, cmds)) && pool == old(pool)
    {
      RecordOnce(InRenderPass(info, cmds));
    }

    /** submitTo: the submit info with this command buffer, signalling this lease's fence. */
    method SubmitTo(queue: Queue, info: SubmitInfo)
      modifies queue
      ensures queue.log == old(queue.log) + [QueueOp.Submit(info.(commandBuffers := [handle]), Some(fence))]
    {
      queue.Submit(info.(commandBuffers := [handle]), Some(fence));
    }

    /** wait: the fence wait, whose result the driver decides. */
    method Wait(driverResult: VkResult) returns (r: VkResult)
      modifies this
      ensures r == driverResult
      ensures log == old(log) + [FenceWait] && pool == old(pool)
    {
      log := log + [FenceWait];
      r := driverResult;
    }

    /** waitAndReset: returns the wait's result and resets the fence whatever it was. */
    method WaitAndReset(driverResult: VkResult) returns (r: VkResult)
      modifies this
      ensures r == driverResult
      ensures log == old(log) + [FenceWait, FenceReset] && pool == old(pool)
    {
      r := Wait(driverResult);
      log := log + [FenceReset];
    }

    /** The destructor: a live lease waits on its fence, resets the buffer only when
        VK_CHECK lets the wait through, and checks the buffer back in either way;
        a moved-from lease does nothing. */
    method Destroy(waitResult: VkResult)
      requires Valid()
      modifies this, pool
      ensures pool == null
      ensures old(pool) != null ==>
        old(pool).State() == PoolCheckIn(old(pool.State()), handle) &&
        old(pool).leased == old(pool.leased) - {handle} &&
        old(pool).Valid() &&
        log == old(log) + [FenceWait] + (if VkCheck(waitResult).Pass? then [BufferReset] else [])
      ensures old(pool) == null ==> log == old(log)
    {
      if pool != null {
        var result := Wait(waitResult);
        if VkCheck(result).Pass? {
          log := log + [BufferReset];
        }
        pool.CheckIn(handle);
        pool := null;
      }
    }
  }

  /** VulkanCommandPool::checkOut: a new lease of a buffer from the pool, with a new fence. */
  method CheckOutLease(pool: CommandPool, fence: nat) returns (lease: CommandLease)
    requires pool.Valid()
    modifies pool
    ensures fresh(lease)
    ensures lease.pool == pool && lease.fence == fence && lease.log == []
    ensures (pool.State(), lease.handle) == PoolCheckOut(old(pool.State()))
    ensures lease.handle !in old(pool.leased) && pool.leased == old(pool.leased) + {lease.handle}
    ensures lease.Valid()
  {
    var h := pool.CheckOut();
    lease := new CommandLease(pool, h, fence);
  }
}
