// The engine loop (src/vk_engine.cpp): device scoring and selection, surface-format
// choice, the word padding of shader code, window-event polling and the frame
// sequence acquire, render-pass submission, present, synchronize.

module VkEngine {
  import opened VkTypes
  import opened VkCommand
  import opened VkSwapchain
  import opened VkInstance
  import opened VkStream

  // ---------------------------------------------------------------------------
  // Device selection

  const BadDeviceScore: int := -1
  const NoSuitableGpuMessage := "Failed to find a suitable GPU for Vulkan rendering"

  /** The device scorer: unusable without the geometry shader or a general queue;
      otherwise 1000 for a discrete GPU plus 300 for a dedicated transfer queue. */
  function Score(d: DeviceRecord): (s: int)
    ensures s == BadDeviceScore <==> !d.physical.geometryShader || d.generalQueue.None?
    ensures s in {-1, 0, 300, 1000, 1300}
  {
    if !d.physical.geometryShader then BadDeviceScore
    else if d.generalQueue.None? then BadDeviceScore
    else (if d.physical.discrete then 1000 else 0) + (if d.transferQueue.Some? then 300 else 0)
  }

  /** What the score ranks: any usable device above any unusable one, then a discrete
      GPU above any other whatever their transfer queues, then a dedicated transfer
      queue above none. */
  lemma ScoreRanking(a: DeviceRecord, b: DeviceRecord)
    ensures Score(a) != BadDeviceScore && Score(b) == BadDeviceScore ==> Score(a) > Score(b)
    ensures Score(a) != BadDeviceScore && Score(b) != BadDeviceScore && a.physical.discrete && !b.physical.discrete ==>
      Score(a) > Score(b)
    ensures Score(a) != BadDeviceScore && Score(b) != BadDeviceScore && a.physical.discrete == b.physical.discrete ==>
      (Score(a) > Score(b) <==> a.transferQueue.Some? && b.transferQueue.None?)
  {
  }

  /** selectDevice: the source sorts a copy by descending score and takes the front, so
      the model scans for the first device of maximal score. An empty list fails at
      `.at(0)`; a maximal score of -1 throws FatalError. */
  method SelectDevice(devices: seq<DeviceRecord>) returns (r: Result<DeviceRecord>)
    ensures devices == [] <==> r == Err(OutOfRange)
    ensures r.Ok? ==> r.value in devices && forall i :: 0 <= i < |devices| ==> Score(devices[i]) <= Score(r.value)
    ensures r.Ok? ==> Score(r.value) != BadDeviceScore && r.value.generalQueue.Some?
    ensures devices != [] ==> (r.Err? <==> forall i :: 0 <= i < |devices| ==> Score(devices[i]) == BadDeviceScore)
    ensures devices != [] && r.Err? ==> r.error == FatalError(NoSuitableGpuMessage)
  {
    if devices == [] {
      return Err(OutOfRange);
    }
    var best := devices[0];
    for i := 1 to |devices|
      invariant best in devices
      invariant forall k :: 0 <= k < i ==> Score(devices[k]) <= Score(best)
    {
      if Score(devices[i]) > Score(best) {
        best := devices[i];
      }
    }
    if Score(best) == BadDeviceScore {
      return Err(FatalError(NoSuitableGpuMessage));
    }
    r := Ok(best);
  }

  /** The devices the instance records all have the geometry shader, so among them the
      score is -1 exactly for a device without a general queue. */
  lemma InstanceDevicesScore(physicalDevices: seq<PhysicalDevice>, deviceExtensions: seq<string>, k: nat)
    requires k < |Devices(physicalDevices, deviceExtensions)|
    ensures Score(Devices(physicalDevices, deviceExtensions)[k]) == BadDeviceScore <==>
            LastServing(Devices(physicalDevices, deviceExtensions)[k].physical.queueFamilies, General).None?
  {
    DevicesInEnumerationOrder(physicalDevices, deviceExtensions);
  }

  // ---------------------------------------------------------------------------
  // Surface format

  /** vk::Format::eB8G8R8A8Srgb and vk::ColorSpaceKHR::eSrgbNonlinear. */
  const B8G8R8A8Srgb: nat := 50
  const SrgbNonlinear: nat := 0
  const NoSurfaceMessage := "Could not find a suitable surface"

  datatype SurfaceFormat = SurfaceFormat(format: nat, colorSpace: nat)

  /** selectSurfaceFormat: the first offered format that is B8G8R8A8 sRGB in the sRGB
      non-linear colour space, or FatalError. */
  method SelectSurfaceFormat(formats: seq<SurfaceFormat>) returns (r: Result<SurfaceFormat>)
    ensures r.Ok? <==> SurfaceFormat(B8G8R8A8Srgb, SrgbNonlinear) in formats
    ensures r.Ok? ==> r.value == SurfaceFormat(B8G8R8A8Srgb, SrgbNonlinear)
    ensures r.Err? ==> r.error == FatalError(NoSurfaceMessage)
  {
    for i := 0 to |formats|
      invariant SurfaceFormat(B8G8R8A8Srgb, SrgbNonlinear) !in formats[..i]
    {
      if formats[i].format == B8G8R8A8Srgb && formats[i].colorSpace == SrgbNonlinear {
        return Ok(formats[i]);
      }
      assert formats[..i + 1] == formats[..i] + [formats[i]];
    }
    assert formats[..|formats|] == formats;
    return Err(FatalError(NoSurfaceMessage));
  }

  // ---------------------------------------------------------------------------
  // Shader code

  /** The number of 32-bit words for `size` bytes of shader code: size / 4 rounded up. */
  function WordCount(size: nat): (n: nat)
    ensures 4 * n >= size && 4 * n < size + 4
  {
    (size + 4 - 1) / 4
  }

  /** The word buffer of createShader seen as bytes: zero-initialised, then the file's
      bytes copied to its front. */
  method ShaderContents(shaderBytes: seq<bv8>) returns (contents: seq<bv8>)
    ensures |contents| == 4 * WordCount(|shaderBytes|)
    ensures contents[..|shaderBytes|] == shaderBytes
    ensures forall i :: |shaderBytes| <= i < |contents| ==> contents[i] == 0
  {
    var words := new bv8[4 * WordCount(|shaderBytes|)](_ => 0);
    for i := 0 to |shaderBytes|
      invariant words[..i] == shaderBytes[..i]
      invariant forall k :: i <= k < words.Length ==> words[k] == 0
    {
      words[i] := shaderBytes[i];
    }
    contents := words[..];
  }

  // ---------------------------------------------------------------------------
  // The frame loop

  /** The window events the loop reacts to; every other event is ignored. */
  datatype WindowEvent = QuitEvent | ResizedEvent(data1: int, data2: int) | OtherEvent

  /** How a batch of events ends the loop: not at all, by a quit, or by a resize. */
  datatype PollResult = NoExit | Quit | Resize(data1: int, data2: int)

  predicate IsExit(e: WindowEvent) {
    e.QuitEvent? || e.ResizedEvent?
  }

  function ExitOf(e: WindowEvent): PollResult
    requires IsExit(e)
  {
    if e.QuitEvent? then Quit else Resize(e.data1, e.data2)
  }

  /** The first quit or resize among the events, which is the one that ends the loop. */
  function FirstExit(events: seq<WindowEvent>): (r: PollResult)
    ensures r == NoExit <==> forall i :: 0 <= i < |events| ==> !IsExit(events[i])
    ensures r != NoExit ==>
      exists i :: 0 <= i < |events| && IsExit(events[i]) && ExitOf(events[i]) == r &&
                  forall j :: 0 <= j < i ==> !IsExit(events[j])
  {
    if events == [] then NoExit
    else if IsExit(events[0]) then ExitOf(events[0])
    else
      var r := FirstExit(events[1..]);
      assert forall i :: 0 <= i < |events| - 1 ==> events[1..][i] == events[i + 1];
      assert r != NoExit ==>
        exists i :: 0 <= i < |events| && IsExit(events[i]) && ExitOf(events[i]) == r &&
                    forall j :: 0 <= j < i ==> !IsExit(events[j]);
      r
  }

  /** What the driver and the window system supply to one frame. */
  datatype FrameInput = FrameInput(events: seq<WindowEvent>, acquireResult: VkResult, imageIndex: nat,
                                   framebuffer: nat, fence: nat, previousWait: VkResult, presentResult: VkResult)

  /** The timeline of one successful frame starting at value v: the acquisition signals
      v+1, the render submission waits on v+1 and signals v+2, the presentation waits
      on v+2, and the host then waits on v+2. */
  function FrameOps(v: nat): (ops: seq<TimelineOp>)
    ensures |ops| == 5
  {
    [Signal(v + 1), GpuWait(v + 1), Signal(v + 2), GpuWait(v + 2), HostWait(v + 2)]
  }

  /** The timeline of n successful frames starting at value v. */
  function FrameHistory(v: nat, n: nat): (h: seq<TimelineOp>)
    ensures |h| == 5 * n
  {
    if n == 0 then [] else FrameHistory(v, n - 1) + FrameOps(v + 2 * (n - 1))
  }

  /** A frame keeps the timeline well ordered and advances it by two values. */
  lemma FrameReplays(h: seq<TimelineOp>, v: nat)
    requires Replay(h) == Some(v)
    ensures Replay(h + FrameOps(v)) == Some(v + 2)
  {
    var ops := FrameOps(v);
    ReplayAppend(h, [ops[0]]);
    ReplayAppend(h + ops[..1], [ops[1]]);
    assert h + ops[..1] + [ops[1]] == h + ops[..2];
    ReplayAppend(h + ops[..2], [ops[2]]);
    assert h + ops[..2] + [ops[2]] == h + ops[..3];
    ReplayAppend(h + ops[..3], [ops[3]]);
    assert h + ops[..3] + [ops[3]] == h + ops[..4];
    ReplayAppend(h + ops[..4], [ops[4]]);
    assert h + ops[..4] + [ops[4]] == h + ops;
  }

  /** Any number of frames keeps the timeline well ordered, two values per frame. */
  lemma {:induction false} FrameHistoryReplays(h: seq<TimelineOp>, v: nat, n: nat)
    requires Replay(h) == Some(v)
    ensures Replay(h + FrameHistory(v, n)) == Some(v + 2 * n)
  {
    if n == 0 {
      assert h + FrameHistory(v, 0) == h;
    } else {
      var before, last := FrameHistory(v, n - 1), FrameOps(v + 2 * (n - 1));
      FrameHistoryReplays(h, v, n - 1);
      FrameReplays(h + before, v + 2 * (n - 1));
      assert FrameHistory(v, n) == before + last;
      assert h + FrameHistory(v, n) == (h + before) + last;
    }
  }

  /** How the loop ended without an error: a resize returned, or the frames ran out. */
  datatype EngineExit = ResizeReturn | InputExhausted

  /** runEngine from the creation of the command pool on: the window extent it mutates,
      the swapchain and render pass it draws with, and the graphics stream. */
  class Engine {
    var width: nat
    var height: nat
    const queue: Queue
    const swapchain: Swapchain
    const renderPass: nat
    const stream: GraphicsStream

    ghost predicate Valid()
      reads this, stream, stream.base, stream.base.pool, stream.base.current, swapchain
    {
      stream.base.Valid() && swapchain.Valid()
    }

    /** The static window extent starts at 1280x720; the command pool holds 16 buffers. */
    constructor(q: Queue, sc: Swapchain, rp: nat, timeline: nat, acquire: nat, present: nat)
      requires sc.Valid()
      ensures width == 1280 && height == 720
      ensures queue == q && swapchain == sc && renderPass == rp
      ensures fresh(stream) && fresh(stream.base) && fresh(stream.base.pool)
      ensures stream.base.pool.State() == NewPool(16) && stream.base.lastValue == 0 && stream.base.history == []
      ensures Valid()
    {
      width := 1280;
      height := 720;
      queue := q;
      swapchain := sc;
      renderPass := rp;
      var pool := new CommandPool(16);
      stream := new GraphicsStream(pool, timeline, acquire, present);
    }

    /** The event loop: a quit throws QuitException; a resize narrows both sizes to
        unsigned (a negative one throws after the sizes before it are stored) and
        returns from runEngine; other events are ignored. Ok(true) means a resize. */
    method PollEvents(events: seq<WindowEvent>) returns (r: Result<bool>)
      modifies this
      ensures FirstExit(events) == NoExit ==> r == Ok(false) && width == old(width) && height == old(height)
      ensures FirstExit(events) == Quit ==> r == Err(QuitRequested) && width == old(width) && height == old(height)
      ensures FirstExit(events).Resize? && FirstExit(events).data1 < 0 ==>
        r == Err(NarrowingError) && width == old(width) && height == old(height)
      ensures FirstExit(events).Resize? && FirstExit(events).data1 >= 0 ==> width == FirstExit(events).data1
      ensures FirstExit(events).Resize? && FirstExit(events).data1 >= 0 && FirstExit(events).data2 < 0 ==>
        r == Err(NarrowingError) && height == old(height)
      ensures FirstExit(events).Resize? && FirstExit(events).data1 >= 0 && FirstExit(events).data2 >= 0 ==>
        r == Ok(true) && height == FirstExit(events).data2
    {
      for i := 0 to |events|
        invariant forall j :: 0 <= j < i ==> !IsExit(events[j])
        invariant width == old(width) && height == old(height)
      {
        match events[i]
        case QuitEvent =>
          ExitIsFirst(events, i);
          return Err(QuitRequested);
        case ResizedEvent(data1, data2) =>
          ExitIsFirst(events, i);
          if data1 < 0 {
            return Err(NarrowingError);
          }
          width := data1;
          if data2 < 0 {
            return Err(NarrowingError);
          }
          height := data2;
          return Ok(true);
        case OtherEvent =>
      }
      r := Ok(false);
    }

    /** One frame: acquire an image, submit an empty render pass into the framebuffer
        over its view, present it, and wait on the host. A failing step throws and ends
        the frame there. */
    method Frame(input: FrameInput) returns (o: Outcome)
      requires Valid()
      modifies stream.base, stream.base.pool, stream.base.current, queue
      ensures Valid()
      ensures input.acquireResult != Success ==>
        o == Fail(FatalError(AcquireFailedMessage)) && stream.base.history == old(stream.base.history)
      ensures input.acquireResult == Success && input.imageIndex >= swapchain.Size() ==>
        o == Fail(OutOfRange) && stream.base.history == old(stream.base.history) + FrameOps(old(stream.base.lastValue))[..1]
      ensures input.acquireResult == Success && input.imageIndex < swapchain.Size() ==>
        o == VkCheck(input.presentResult) &&
        stream.base.history == old(stream.base.history) + FrameOps(old(stream.base.lastValue))[..if o.Pass? then 5 else 4] &&
        |queue.log| == |old(queue.log)| + 4 &&
        queue.log[|old(queue.log)|].Submit? && queue.log[|old(queue.log)|].info.signalValues == [old(stream.base.lastValue) + 1] &&
        stream.base.current != null && queue.log[|old(queue.log)| + 1..] == RenderAndPresentLog(old(stream.base.lastValue) + 1, input.imageIndex)
      ensures o.Pass? ==> stream.base.lastValue == old(stream.base.lastValue) + 2
      ensures stream.base.current == old(stream.base.current) || fresh(stream.base.current)
    {
      var v := stream.base.lastValue;
      var acquired := stream.AcquireNextImage(queue, swapchain, input.acquireResult, input.imageIndex);
      if acquired.Err? {
        return Fail(acquired.error);
      }
      assert stream.base.history == old(stream.base.history) + FrameOps(v)[..1];
      if input.imageIndex >= |swapchain.imageViews| {
        return Fail(OutOfRange);
      }
      var n := |old(queue.log)|;
      ghost var afterAcquire := stream.base.history;
      o := RenderAndPresent(input);
      assert afterAcquire + [GpuWait(v + 1), Signal(v + 2), GpuWait(v + 2)] == old(stream.base.history) + FrameOps(v)[..4];
      assert afterAcquire + [GpuWait(v + 1), Signal(v + 2), GpuWait(v + 2), HostWait(v + 2)] == old(stream.base.history) + FrameOps(v);
    }

    /** The submissions of a frame after the acquisition that signalled v: the render
        pass waits on v and signals v+1, the present submission waits on v, and the
        acquired image is presented. */
    function RenderAndPresentLog(v: nat, imageIndex: nat): (ops: seq<QueueOp>)
      reads this, stream, stream.base, stream.base.current, swapchain
      requires stream.base.current != null
    {
      [QueueOp.Submit(SubmitInfo(WaitSemaphores([], stream.base.semaphore), WaitValues([], v), [ColorAttachmentOutputStage],
                                 [stream.base.current.handle], [stream.base.semaphore], [v + 1]),
                      Some(stream.base.current.fence)),
       QueueOp.Submit(SubmitInfo([stream.base.semaphore], [v + 1], [NoStage], [], [stream.presentSemaphore], [IgnoredValue]), None),
       QueueOp.Present(stream.presentSemaphore, swapchain.swapchain, imageIndex)]
    }

    /** The part of a frame after a successful acquisition: the render-pass submission
        with the empty recorder, the presentation, and the host wait. */
    method RenderAndPresent(input: FrameInput) returns (o: Outcome)
      requires Valid() && input.imageIndex < swapchain.Size()
      modifies stream.base, stream.base.pool, stream.base.current, queue
      ensures Valid() && o == VkCheck(input.presentResult)
      ensures stream.base.current != null && fresh(stream.base.current)
      ensures stream.base.current.fence == input.fence
      ensures stream.base.current.log == Recording(OneTimeSubmit, InRenderPass(RenderPassInfo(renderPass, input.framebuffer, width, height), []))
      ensures queue.log == old(queue.log) + RenderAndPresentLog(old(stream.base.lastValue), input.imageIndex)
      ensures stream.base.lastValue == old(stream.base.lastValue) + 1
      ensures stream.base.history == old(stream.base.history) +
        [GpuWait(old(stream.base.lastValue)), Signal(stream.base.lastValue), GpuWait(stream.base.lastValue)] +
        (if o.Pass? then [HostWait(stream.base.lastValue)] else [])
    {
      // The framebuffer over swapchain.imageViews[imageIndex] is created by the driver
      // and named by input.framebuffer.
      var renderPassInfo := RenderPassInfo(renderPass, input.framebuffer, width, height);
      stream.SubmitRenderPass(queue, renderPassInfo, [], [], input.fence, input.previousWait);
      o := stream.Present(queue, swapchain, input.imageIndex, input.presentResult);
      if o.Fail? {
        return;
      }
      stream.base.Synchronize();
    }

    /** One round's event poll as the frame loop sees it: no exit, or the way out of
        runEngine with the extent a resize left behind. */
    method Poll(events: seq<WindowEvent>) returns (exit: Option<Result<EngineExit>>)
      modifies this
      ensures exit.None? ==> FirstExit(events) == NoExit && width == old(width) && height == old(height)
      ensures exit.Some? ==> exit.value != Ok(InputExhausted)
      ensures exit == Some(Ok(ResizeReturn)) ==>
        FirstExit(events).Resize? && width == FirstExit(events).data1 && height == FirstExit(events).data2
      ensures exit == Some(Err(QuitRequested)) ==> FirstExit(events) == Quit
      ensures exit == Some(Err(NarrowingError)) ==>
        FirstExit(events).Resize? && (FirstExit(events).data1 < 0 || FirstExit(events).data2 < 0)
    {
      var polled := PollEvents(events);
      if polled.Err? {
        PollErrors(events, polled);
        return Some(Err(polled.error));
      }
      if polled.value {
        PollResizes(events, polled);
        return Some(Ok(ResizeReturn));
      }
      exit := None;
    }

    /** What the frame loop needs to know of one frame: a frame that passes appends
        FrameOps, one that fails appends a part of them and fails with FatalError or
        out_of_range. */
    method FrameStep(input: FrameInput) returns (o: Outcome)
      requires Valid()
      modifies stream.base, stream.base.pool, stream.base.current, queue
      ensures Valid()
      ensures o.Pass? ==>
        stream.base.history == old(stream.base.history) + FrameOps(old(stream.base.lastValue)) &&
        stream.base.lastValue == old(stream.base.lastValue) + 2
      ensures o.Fail? ==> o.error.FatalError? || o.error == OutOfRange
      ensures old(stream.base.history) <= stream.base.history
      ensures stream.base.current == old(stream.base.current) || fresh(stream.base.current)
    {
      ghost var v := stream.base.lastValue;
      o := Frame(input);
      assert FrameOps(v)[..5] == FrameOps(v);
    }

    /** The endless loop of runEngine, over a finite script of frames: each round polls
        the events, then runs a frame. It ends by a quit, a resize, a failing frame or
        the end of the script. `completed` counts the frames that ran to the end. */
    method RunFrames(frames: seq<FrameInput>) returns (r: Result<EngineExit>, completed: nat)
      requires Valid()
      modifies this, stream.base, stream.base.pool, stream.base.current, queue
      ensures Valid()
      ensures completed <= |frames|
      ensures old(stream.base.history) + FrameHistory(old(stream.base.lastValue), completed) <= stream.base.history
      ensures stream.base.current == null || stream.base.current == old(stream.base.current) || fresh(stream.base.current)
      ensures r == Ok(InputExhausted) ==>
        completed == |frames| && stream.base.history == old(stream.base.history) + FrameHistory(old(stream.base.lastValue), completed) &&
        width == old(width) && height == old(height)
      ensures r == Ok(ResizeReturn) ==>
        completed < |frames| && FirstExit(frames[completed].events).Resize? &&
        stream.base.history == old(stream.base.history) + FrameHistory(old(stream.base.lastValue), completed) &&
        width == FirstExit(frames[completed].events).data1 && height == FirstExit(frames[completed].events).data2
      ensures r == Err(QuitRequested) ==> completed < |frames| && FirstExit(frames[completed].events) == Quit
      ensures r == Err(NarrowingError) ==>
        completed < |frames| && FirstExit(frames[completed].events).Resize? &&
        (FirstExit(frames[completed].events).data1 < 0 || FirstExit(frames[completed].events).data2 < 0)
    {
      completed := 0;
      ghost var h0, v0, c0 := stream.base.history, stream.base.lastValue, stream.base.current;
      for i := 0 to |frames|
        invariant completed == i
        invariant Valid()
        invariant width == old(width) && height == old(height)
        invariant stream.base.history == h0 + FrameHistory(v0, i)
        invariant stream.base.lastValue == v0 + 2 * i
        invariant stream.base.current == null || stream.base.current == c0 || fresh(stream.base.current)
      {
        var exit := Poll(frames[i].events);
        if exit.Some? {
          return exit.value, completed;
        }
        var o := FrameStep(frames[i]);
        if o.Fail? {
          return Err(o.error), completed;
        }
        completed := i + 1;
      }
      r := Ok(InputExhausted);
    }

    /** runEngine: the frame loop, then, on every way out, the destructor of the stream
        it owns: a host wait on the last value, then the held lease, if any, waits on
        its fence (with result `teardownWait`) and goes back to the pool. */
    method RunEngine(frames: seq<FrameInput>, teardownWait: VkResult) returns (r: Result<EngineExit>, completed: nat)
      requires Valid()
      modifies this, stream.base, stream.base.pool, stream.base.current, queue
      ensures Valid() && stream.base.current == null
      ensures completed <= |frames|
      ensures old(stream.base.history) + FrameHistory(old(stream.base.lastValue), completed) <= stream.base.history
      ensures |stream.base.history| > 0 && stream.base.history[|stream.base.history| - 1] == HostWait(stream.base.lastValue)
      ensures r == Ok(InputExhausted) ==>
        completed == |frames| &&
        stream.base.history == old(stream.base.history) + FrameHistory(old(stream.base.lastValue), completed) + [HostWait(stream.base.lastValue)] &&
        width == old(width) && height == old(height)
      ensures r == Ok(ResizeReturn) ==>
        completed < |frames| && FirstExit(frames[completed].events).Resize? &&
        stream.base.history == old(stream.base.history) + FrameHistory(old(stream.base.lastValue), completed) + [HostWait(stream.base.lastValue)] &&
        width == FirstExit(frames[completed].events).data1 && height == FirstExit(frames[completed].events).data2
      ensures r == Err(QuitRequested) ==> completed < |frames| && FirstExit(frames[completed].events) == Quit
      ensures r == Err(NarrowingError) ==>
        completed < |frames| && FirstExit(frames[completed].events).Resize? &&
        (FirstExit(frames[completed].events).data1 < 0 || FirstExit(frames[completed].events).data2 < 0)
    {
      r, completed := RunFrames(frames);
      ghost var run := stream.base.history;
      stream.base.Destroy(teardownWait);
      assert stream.base.history == run + [HostWait(stream.base.lastValue)];
    }
  }

  /** An exit event with only ignored events before it is the first exit. */
  lemma ExitIsFirst(events: seq<WindowEvent>, i: nat)
    requires i < |events| && IsExit(events[i])
    requires forall j :: 0 <= j < i ==> !IsExit(events[j])
    ensures FirstExit(events) == ExitOf(events[i])
  {
    var r := FirstExit(events);
    var k :| 0 <= k < |events| && IsExit(events[k]) && ExitOf(events[k]) == r && forall j :: 0 <= j < k ==> !IsExit(events[j]);
    assert k == i;
  }

  /** A failed poll comes from a quit or from a resize that does not narrow. */
  lemma PollErrors(events: seq<WindowEvent>, r: Result<bool>)
    requires r.Err?
    requires FirstExit(events) == NoExit ==> r == Ok(false)
    ensures FirstExit(events) != NoExit
  {
  }

  /** A poll that asks to return comes from a resize. */
  lemma PollResizes(events: seq<WindowEvent>, r: Result<bool>)
    requires r == Ok(true)
    requires FirstExit(events) == NoExit ==> r == Ok(false)
    requires FirstExit(events) == Quit ==> r.Err?
    ensures FirstExit(events).Resize?
  {
  }
}
