# A verified model of the Vulkan scaffold's core

This project models in Dafny the core of a small C++ Vulkan rendering scaffold. That core is:

- the command-buffer pool and its RAII leases;
- the timeline-semaphore streams that order submissions;
- the memory-type choice and the staging copies of buffers;
- the swapchain's present-mode and image-count choices and its per-image views and framebuffers;
- queue-family classification and device filtering at instance creation;
- the validation-layer check;
- the compile-time feature lists;
- the engine's device scoring, surface-format choice, shader word padding and frame loop.

The model then proves properties of it. There is one module per header:

| file | module | models |
|---|---|---|
| `vk_types.dfy` | `VkTypes` | `vk::Result` codes, `FatalError`, `VK_CHECK`, `array_concat`, `OptionalReference` |
| `vk_features.dfy` | `VkFeatures` | `FeatureList`, `hasFeature`, `Dependencies`, the configured feature lists |
| `bits.dfy` | `Bits` | the 32-bit masks of the memory-type scan, `std::popcount`, `std::countr_zero` |
| `vk_command.dfy` | `VkCommand` | the command pool, command leases, recording, the queue |
| `vk_buffer.dfy` | `VkBuffer` | `getMemoryFlags`, `findMemoryType`, `VulkanBuffer`, `copyFrom`, `copyTo`, `recordCopyBuffers` |
| `vk_swapchain.dfy` | `VkSwapchain` | `VulkanSwapchain` |
| `vk_stream.dfy` | `VkStream` | `VulkanStream`, `VulkanGraphicsStream`, `VulkanStreamEvent` |
| `vk_validation.dfy` | `VkValidation` | `checkValidationLayers` |
| `vk_instance.dfy` | `VkInstance` | the `VulkanInstance` constructor |
| `vk_engine.dfy` | `VkEngine` | scoring, `selectDevice`, `selectSurfaceFormat`, `createShader`'s padding, `runEngine` |

How the model is built:

- Driver objects (buffers, fences, semaphores, swapchains, images, views) are natural-number handles.
- The results the driver returns are parameters: of wait, acquire and present; of memory requirements and properties; of enumerations.
- A queue is a class whose log records, in order, every submission and presentation handed to it.
- Each stream keeps a ghost `history` of what it scheduled against its timeline semaphore. `Replay` accepts a history only when every signal is one past the last value and every wait asks for a value already signalled.
- Command recording is a log of operations on the lease: begin, commands, end, fence wait, fence reset, buffer reset.
- Where the source mutates state in place, the model is a class with a `Valid()` invariant:
  - the pool's free list, its buffer count and its handle counter;
  - a lease's pool reference and log;
  - a stream's current lease and last value;
  - a buffer's memory, as an `array`;
  - the engine's window extent.
- Each method's `ensures` ties the new state to functions of the old state: `PoolCheckOut`, `PoolCheckIn`, `Recording`, `CopiedFrom`, `FrameOps`, and others. The lemmas about those functions state what the source promises.

Where the code has one of the four defects listed under "## Findings", the model keeps both versions:

- The code as written is in `VkCommand.PoolCheckOutAsWritten`, `VkStream.SubmitPoolAsWritten`, `VkBuffer.FindMemoryTypeAsWritten` and `VkBuffer.CopyToAsWritten`, each with a lemma exhibiting the defect.
- The object-level members model the corrected behaviour:
  - `CommandPool.CheckOut` and `PoolCheckOut` grow a dry pool by `Growth`, which is at least one buffer.
  - `Stream.SubmitWork` and `ReplaceLease` destroy the old lease before checking out a new one.
  - `FindMemoryType` stops at the first index not below `memoryTypeCount`.
  - `VulkanBuffer.CopyTo` copies `size` bytes.

Some behaviours worth stating outright, because a reader might expect otherwise:

- Lease flag and fence reset: leases have no "submitted" flag, and `waitAndReset` resets the fence unconditionally, whatever the wait reported.
- Image count: the swapchain requests 2 images, capped by a non-zero `maxImageCount`, not the driver's minimum.
- Feature lists: a feature list's extensions are its members' lists concatenated in declaration order, duplicates included; nothing deduplicates them.

## Model

| member | source | states |
|---|---|---|
| VkTypes.VkCheck | src/vk_types.h:17-29 | passes exactly for eSuccess and eTimeout; every other result throws FatalError, and every negative (failure) code throws the VK_CHECK error |
| VkTypes.ConcatLength | src/vk_types.h:80-81 | the concatenation's length is the sum of the input lengths |
| VkTypes.ConcatAt | src/vk_types.h:82-88 | element j of input k sits at offset (lengths of inputs 0..k-1) + j |
| VkTypes.InConcat | src/vk_types.h:84-88 | a value is in the concatenation iff it is in one of the inputs |
| VkTypes.ArrayConcat | src/vk_types.h:77-90 | the output-iterator loop produces exactly the concatenation, of the summed length |
| VkTypes.OptionalReference.HasValue | src/vk_types.h:104-105 | has_value and the bool conversion hold iff the pointer is non-null |
| VkTypes.OptionalReference.Empty | src/vk_types.h:97 | the default reference is empty |
| VkTypes.OptionalReference.Bound | src/vk_types.h:98 | a reference built from a referent points at that very object, not at a copy |
| VkTypes.OptionalReference.Assign | src/vk_types.h:99 | assignment rebinds the pointer to that very object |
| VkTypes.OptionalReference.Apply | src/vk_types.h:108-111 | when bound, f acts on the referent in place and its new value is f of the old one; when empty, nothing changes; nothing is returned |
| VkTypes.OptionalReference.Copy | src/vk_types.h:100-101 | the defaulted copy and move constructors share the original's pointer, and so its referent |
| VkTypes.OptionalReference.AssignFrom | src/vk_types.h:102-103 | the defaulted copy and move assignments take over the other reference's pointer |
| VkTypes.SharedReferent | src/vk_types.h:95-111 | a reference and its copy both see a change made through apply on one of them, and a change made to the referent directly |
| VkFeatures.HasFeature | src/vk_types.h:133-139 | hasFeature holds iff every named feature the query is built from is a member, recursively through nested lists; the empty list holds vacuously |
| VkFeatures.Names | src/vk_types.h:143-145 | a FeatureList's name list has the summed length of its members' lists (duplicates kept) and holds exactly the names some member declares |
| VkFeatures.Dependencies | src/vk_types.h:141 | Dependencies is always a FeatureList: a named feature's own list, and for a FeatureList one FeatureList per member |
| VkFeatures.FeatureListNames | src/vk_types.h:143-145 | each of a FeatureList's three name lists is the members' lists concatenated in declaration order |
| VkFeatures.EmptyFeatureList | src/vk_types.h:148-157 | FeatureList<> has no names, empty Dependencies, and is contained in every list |
| VkFeatures.AvailableFeaturesDependenciesSatisfied | src/vk_types.h:234-243 | the static_assert holds: AvailableFeatures contains its own Dependencies, on every platform and build kind |
| VkFeatures.EngineFeaturesDependenciesSatisfied | src/vk_engine.cpp:17-26 | the engine's feature list, with the timeline semaphore added, also contains its Dependencies |
| VkFeatures.RequiredFeatures | src/vk_types.h:245-249 | the swapchain feature is available, the GLFW and timeline-semaphore features are not in AvailableFeatures, and the timeline feature is in the engine's list |
| VkFeatures.EngineInstanceExtensionsXcb | src/vk_types.h:159-229 | on xcb in a debug build the engine enables exactly the surface, properties-2, fence-capabilities, semaphore-capabilities and debug-utils instance extensions, in that order |
| Bits.PopCount | src/vk_buffer.h:51 | the population count of a 32-bit mask is at most 32 |
| Bits.CountrZero | src/vk_buffer.h:53 | the result is the lowest set bit, 32 for an empty mask; no lower bit is set |
| Bits.FlipBit | src/vk_buffer.h:58 | `^= 1 << b` flips bit b and no other |
| Bits.PopCountFlipSet | src/vk_buffer.h:51-58 | clearing a set bit lowers the population count by one |
| Bits.PopCountPositive | src/vk_buffer.h:51-53 | the population count is positive iff some bit is set |
| VkCommand.Recording | src/vk_command.h:77-83 | a recording is begin with the flags, the recorder's commands in order, then end |
| VkCommand.InRenderPass | src/vk_command.h:118-127 | the render-pass recorder nests the commands between beginRenderPass and endRenderPass |
| VkCommand.RecordedRecording | src/vk_command.h:77-83 | a recording gives back exactly the flags and commands it was made from |
| VkCommand.RenderPassOfInRenderPass | src/vk_command.h:118-127 | the wrapped list gives back exactly the render pass and the inner commands |
| VkCommand.Growth | src/vk_command.h:44-45 | the corrected growth is at least one buffer, and exactly bufferCount / 2 from two buffers up |
| VkCommand.PoolCheckOut | src/vk_command.h:40-57 | a non-empty free list yields its last handle and keeps the rest in order; an empty one is grown by Growth fresh handles first |
| VkCommand.PoolCheckOutAsWritten | src/vk_command.h:42-56 | as written, checkOut reaches back() of an empty free list exactly when the list is empty and the pool holds fewer than two buffers |
| VkCommand.PoolCheckIn | src/vk_command.h:59-63 | the returned handle is appended at the end; count and counter unchanged |
| VkCommand.NewPoolAccounted | src/vk_command.h:30-38 | the constructor leaves exactly bufferCount distinct handles free and none leased |
| VkCommand.CheckOutAccounted | src/vk_command.h:40-57 | checkOut keeps "free + leased = bufferCount, disjoint and distinct" and never hands out a leased handle |
| VkCommand.CheckInAccounted | src/vk_command.h:59-63 | checkIn of a leased handle keeps the accounting invariant |
| VkCommand.CheckInThenOut | src/vk_command.h:54-63 | checkIn(h) then checkOut gives back h and the earlier pool (LIFO) |
| VkCommand.CheckOutThenIn | src/vk_command.h:54-63 | on a non-empty free list, checkOut then checkIn restores the pool |
| VkCommand.CheckOutAsWrittenAgrees | src/vk_command.h:42-56 | with a free handle or at least two buffers, the written growth agrees with the corrected one |
| VkCommand.CheckOutAsWrittenEmptyBack | src/vk_command.h:44-54 | pools of zero or one buffer reach back() of an empty free list as written |
| VkCommand.CommandPool.constructor | src/vk_command.h:30-38 | a new pool is NewPool(bufferCount) with nothing leased |
| VkCommand.CommandPool.CheckOut | src/vk_command.h:40-57 | the object's new state and handle are PoolCheckOut of its old state; the handle joins the leased set |
| VkCommand.CommandPool.CheckIn | src/vk_command.h:59-63 | the object's new state is PoolCheckIn of its old state; the handle leaves the leased set |
| VkCommand.CreateCommandPool | src/vk_command.h:36-37 | the narrowing of bufferCount to uint32 fails exactly from 2^32 up |
| VkCommand.CheckOutLease | src/vk_command.h:179-183 | VulkanCommandPool::checkOut wraps PoolCheckOut's handle in a fresh lease with an empty log |
| VkCommand.CommandLease.Record | src/vk_command.h:113-117 | record appends a recording with no usage flags |
| VkCommand.CommandLease.RecordRenderPass | src/vk_command.h:118-127 | the render-pass record appends a recording of the nested commands |
| VkCommand.CommandLease.RecordOnce | src/vk_command.h:128-133 | recordOnce appends a recording with the one-time-submit flag |
| VkCommand.CommandLease.RecordOnceRenderPass | src/vk_command.h:134-143 | the render-pass recordOnce nests the commands, with the one-time-submit flag |
| VkCommand.CommandLease.SubmitTo | src/vk_command.h:109-112 | the submission carries exactly the lease's buffer and the lease's fence |
| VkCommand.CommandLease.Wait | src/vk_command.h:145 | wait returns the fence's result |
| VkCommand.CommandLease.WaitAndReset | src/vk_command.h:151-156 | returns the wait's result and resets the fence whatever that result was |
| VkCommand.CommandLease.Destroy | src/vk_command.h:94-107 | a live lease waits, resets the buffer only if VK_CHECK passes, and always checks its handle in; a moved-from lease does nothing |
| VkBuffer.GetMemoryFlags | src/vk_buffer.h:17-27 | DeviceLocal asks for {DeviceLocal}, Staging for {HostVisible, HostCoherent}, HostAccessible for {DeviceLocal, HostVisible}, and no other flag |
| VkBuffer.FirstSuitable | src/vk_buffer.h:51-58 | the lowest memory type allowed by the mask, below the limit, with every required flag |
| VkBuffer.ScanMemoryTypes | src/vk_buffer.h:49-61 | the popcount/countr_zero/`^=` loop finds exactly FirstSuitable, and throws FatalError iff there is none |
| VkBuffer.FindMemoryTypeAsWritten | src/vk_buffer.h:54 | with the written `>` exit test, the search also considers the index equal to memoryTypeCount |
| VkBuffer.FindMemoryType | src/vk_buffer.h:49-61 | the result is below 32 and memoryTypeCount, allowed by the mask, has every required flag, and is the lowest such; FatalError iff none |
| VkBuffer.AsWrittenDiffersOnlyAtCount | src/vk_buffer.h:54 | the written and corrected tests differ only by picking index memoryTypeCount |
| VkBuffer.AsWrittenPicksUndefinedType | src/vk_buffer.h:54 | a one-type device whose mask allows only type 1 gets type 1 as written and FatalError when corrected |
| VkBuffer.CopiedFrom | src/vk_buffer.h:74-80 | copyFrom overwrites the prefix [0, \|data\|) and leaves the rest unchanged |
| VkBuffer.CopiedTo | src/vk_buffer.h:83-89 | copyTo reads the first size bytes |
| VkBuffer.CopyRoundTrip | src/vk_buffer.h:74-89 | what copyFrom wrote, copyTo of the same length reads back |
| VkBuffer.CopyToAsWritten | src/vk_buffer.h:82-90 | as written, copyTo reads the destination's length in bytes from the mapping: in bounds it reads CopiedTo of that length, past the mapping it is an out-of-bounds access |
| VkBuffer.CopyToAsWrittenOverreads | src/vk_buffer.h:86-88 | the written copyTo reads past its mapping for every destination longer than size |
| VkBuffer.VulkanBuffer.CopyFrom | src/vk_buffer.h:73-81 | only on Staging with \|data\| <= size; the memory becomes CopiedFrom of the old memory |
| VkBuffer.VulkanBuffer.CopyTo | src/vk_buffer.h:82-90 | only on Staging with a destination of at least size; its first size bytes become CopiedTo, the rest unchanged |
| VkBuffer.VulkanBuffer.constructor | src/vk_buffer.h:41-48 | the buffer keeps its type, usage, size and handle; its memory is fresh, of the required size, which is at least the buffer size |
| VkBuffer.CreateBuffer | src/vk_buffer.h:41-64 | size() is the requested size and capacity() the driver's; the memory type is suitable and the lowest suitable one, as FindMemoryType returns; FatalError iff none is suitable |
| VkBuffer.StageAndReadBack | src/vk_buffer.h:73-90 | copyFrom(d) then copyTo(out) with \|d\| = \|out\| = size gives out = d |
| VkBuffer.RecordCopyBuffers | src/vk_buffer.h:94-107 | the recorder holds one copy from the source to the destination buffer that covers both buffers from start to end |
| VkBuffer.RecordCopyBuffersCopies | src/vk_buffer.h:94-107 | for equal sizes, the one recorded copy makes the destination equal to the source and changes no other buffer |
| VkSwapchain.ChoosePresentMode | src/vk_swapchain.h:24-31 | Mailbox iff offered, otherwise Fifo |
| VkSwapchain.ImageCount | src/vk_swapchain.h:32-35 | 2, capped by a non-zero maxImageCount; it is 2 iff the maximum is 0 or at least 2 |
| VkSwapchain.CreateImageViews | src/vk_swapchain.h:46-51 | one view per image, in image order |
| VkSwapchain.CreateFramebuffers | src/vk_swapchain.h:52-57 | one framebuffer per view, in view order |
| VkSwapchain.Swapchain.constructor | src/vk_swapchain.h:20-58 | the built swapchain pairs image i, view i and framebuffer i, with the chosen mode and count |
| VkSwapchain.Swapchain.Size | src/vk_swapchain.h:70-71 | size() and getFramebufferCount() both equal the number of images and of views |
| VkSwapchain.Swapchain.GetFramebuffer | src/vk_swapchain.h:72 | succeeds iff index < size(), with the framebuffer over image index's view; otherwise out_of_range |
| VkSwapchain.Swapchain.AcquireNextImage | src/vk_swapchain.h:62-68 | returns the index only on eSuccess; everything else, suboptimal included, throws FatalError |
| VkStream.ReplaySignalsCount | src/vk_stream.h:71 | in a well-ordered history the signalled values are exactly 1, 2, ..., lastValue: strictly increasing by one |
| VkStream.ReplayWaitsSignalled | src/vk_stream.h:66-69 | in a well-ordered history every wait asks for a value signalled before it |
| VkStream.WaitValues | src/vk_stream.h:66-68 | the wait values are the events' values in order, then the stream's last value |
| VkStream.WaitSemaphores | src/vk_stream.h:67-69 | parallel to them, the events' semaphores, then the stream's own |
| VkStream.BuildWaits | src/vk_stream.h:66-69 | the transform-and-push_back code builds exactly WaitSemaphores and WaitValues |
| VkStream.Stream.constructor | src/vk_stream.h:46-47 | a new stream has lastValue 0, no lease and an empty history |
| VkStream.Stream.LastEvent | src/vk_stream.h:59-62 | getLastEvent captures the current lastValue |
| VkStream.Stream.SubmitWork | src/vk_stream.h:64-77 | lastValue grows by one and is signalled after a wait on the old value; the one submission carries the wait lists, the color-attachment stage, the new lease's buffer and fence; the old lease goes back to the pool, which hands the same buffer out again |
| VkStream.Stream.ReplaceLease | src/vk_stream.h:72 | the stream holds one lease; replacing it destroys the old one first, so pool state and leased set are unchanged |
| VkStream.Stream.Synchronize | src/vk_stream.h:79-82 | the host waits for the last value, which stays unchanged |
| VkStream.Stream.Destroy | src/vk_stream.h:50-57 | the destructor synchronizes, then the held lease checks its handle back in; afterwards the stream holds no lease |
| VkStream.SynchronizeEvent | src/vk_stream.h:147-150 | the host waits for the event's value on the event's stream |
| VkStream.SubmitEvents | src/vk_stream.h:136-145 | waits on each wait event's semaphore and value and signals the signal event's value plus one |
| VkStream.SubmitEventsCollides | src/vk_stream.h:139-143 | an observation about the intended reading of the uninstantiated template, not a claimed defect: signalling the last event's value plus one conflicts with that stream's next submitWork, which signals the same value |
| VkStream.SubmitPoolAsWritten | src/vk_stream.h:72 | as written, the pool sees only the checkOut, never a checkIn, and the previous buffer is no longer leased |
| VkStream.SubmitAsWrittenLosesBuffer | src/vk_stream.h:72 | as written, each submitWork that replaces a lease loses one buffer from the pool's accounting |
| VkStream.SubmitAsWrittenTwice | src/vk_stream.h:72 | on a pool of 16, two submissions as written leave 14 free and 1 leased |
| VkStream.SubmitPoolReusesBuffer | src/vk_stream.h:72 | destroying the old lease first leaves pool and leased set unchanged and reuses the same buffer |
| VkStream.GraphicsStream.SubmitRenderPass | src/vk_stream.h:97-107 | the render-pass submitWork records the recorder nested in the render pass, with submitWork's timeline effect |
| VkStream.GraphicsStream.AcquireNextImage | src/vk_stream.h:110-120 | a failed acquisition changes nothing; otherwise lastValue grows by one, signalled by a submission waiting on the acquire semaphore |
| VkStream.GraphicsStream.Present | src/vk_stream.h:122-131 | waits on the current lastValue, which stays unchanged; signals the present semaphore; presents the image; VK_CHECK judges the result |
| VkValidation.BadLayers | src/vk_validation.h:17-19 | the bad layers are exactly the requested layers absent from the available set |
| VkValidation.BadLayersInRequestOrder | src/vk_validation.h:17-19 | they appear in request order: bad layer k is the k-th missing request |
| VkValidation.CheckValidationLayers | src/vk_validation.h:9-30 | disabled: passes; enabled: FatalError iff some requested layer is unavailable; an empty request passes |
| VkInstance.LastServing | src/vk_instance.h:64-73 | the last family serving the role, below the family count; no later family serves it |
| VkInstance.ClassifyQueueFamilies | src/vk_instance.h:61-73 | the general index is the last family with graphics, compute and transfer; the transfer index is the last other family whose flags are exactly transfer |
| VkInstance.ClassifiedIndicesInRange | src/vk_instance.h:74-75 | both indices name actual families, and never the same one |
| VkInstance.QueueCreateInfos | src/vk_instance.h:79-83 | the general family first if present, then the transfer family if present: 0 to 2 entries |
| VkInstance.DevicesInEnumerationOrder | src/vk_instance.h:51-94 | devices without geometryShader produce no record; the others produce one each, in enumeration order |
| VkInstance.EnumerateDevices | src/vk_instance.h:50-94 | the device loop builds exactly Devices |
| VkInstance.CreateInstance | src/vk_instance.h:14-48 | the validation check runs first; the constructor fails iff it fails, and otherwise returns Devices |
| VkEngine.Score | src/vk_engine.cpp:67-84 | -1 iff there is no geometryShader or no general queue; the score is one of -1, 0, 300, 1000, 1300 |
| VkEngine.ScoreRanking | src/vk_engine.cpp:77-83 | usable beats unusable, discrete beats non-discrete, and a transfer queue breaks ties |
| VkEngine.SelectDevice | src/vk_engine.cpp:57-91 | a device of maximal score is picked; an empty list fails at `.at(0)`; FatalError iff every score is -1; the picked device has a general queue |
| VkEngine.InstanceDevicesScore | src/vk_engine.cpp:72-75 | on the instance's records the score is -1 exactly when the device has no general family |
| VkEngine.SelectSurfaceFormat | src/vk_engine.cpp:93-100 | B8G8R8A8Srgb/SrgbNonlinear when offered, otherwise FatalError |
| VkEngine.WordCount | src/vk_engine.cpp:126 | the word count is size / 4 rounded up |
| VkEngine.ShaderContents | src/vk_engine.cpp:123-130 | the padded code has 4·ceil(size/4) bytes: the file's bytes, then zeros |
| VkEngine.FirstExit | src/vk_engine.cpp:204-220 | the first quit or resize event is the one that ends the event loop |
| VkEngine.ExitIsFirst | src/vk_engine.cpp:204-220 | an exit event with only ignored events before it is the one that ends the loop |
| VkEngine.FrameReplays | src/vk_engine.cpp:222-234 | a frame keeps the timeline well ordered and advances it by two |
| VkEngine.FrameHistoryReplays | src/vk_engine.cpp:202-235 | any number of frames keeps the timeline well ordered, two values per frame |
| VkEngine.Engine.constructor | src/vk_engine.cpp:178-200 | the extent starts at 1280x720, with a new 16-buffer pool and a fresh stream |
| VkEngine.Engine.PollEvents | src/vk_engine.cpp:204-220 | a quit throws QuitException; a resize narrows and stores width then height and returns; other events are ignored |
| VkEngine.Engine.Frame | src/vk_engine.cpp:222-234 | the frame is acquire, render-pass submission, present, synchronize: the submission waits on the acquired value, present waits on the submission's |
| VkEngine.Engine.RenderAndPresent | src/vk_engine.cpp:229-234 | the empty recorder is nested in the render pass over the acquired framebuffer; then present and the host wait |
| VkEngine.Engine.Poll | src/vk_engine.cpp:204-220 | one round of polling either passes on with the extent unchanged or names the way out: a resize storing both new sizes, a quit, or a negative size that fails to narrow |
| VkEngine.Engine.FrameStep | src/vk_engine.cpp:222-234 | a frame that passes appends FrameOps once and advances the timeline by two; a failing one fails with a FatalError or OutOfRange |
| VkEngine.Engine.RunFrames | src/vk_engine.cpp:202-235 | the loop's history is FrameOps once per completed frame; it ends at a quit, a resize, a negative size, a failing frame or the end of the input; after a resize the extent is that event's sizes, at the end of the input it is unchanged |
| VkEngine.Engine.RunEngine | src/vk_engine.cpp:176-236 | the frame loop, then, on every way out, the destructor of the stream it owns (src/vk_stream.h:50-57): one host wait on the last value, after which no lease is held; after a resize the extent is that event's sizes, at the end of the input it is unchanged, a narrowing failure means the first exit was a resize with a negative size |

## Left out

- `src/vk_sync.h` is not part of this model. Fences and semaphores are abstract tokens. Their wait results are parameters. Its clamping of negative timeouts to zero (src/vk_sync.h:36-37, 56-57) is not modelled.
- `src/vk_device.h`, `src/vk_engine.h`, `src/main.cpp` and `src/vk_pipeline.h` are not part of this model. They are ownership plumbing, exception printing and unfinished scaffolding.
- Not modelled: GPU-side semantics, memory mapping as such, and the handles that creation calls return. These are what a submission executes, when a fence really signals, and buffers, views, framebuffers and the instance.
- Not modelled: render pass, pipeline layout and graphics pipeline construction, the SDL window and surface, and the shader file I/O. Only the padding arithmetic of `createShader` is modelled.
- The console printing in `src/vk_instance.h` is not modelled.
- VkValidation.CheckValidationLayers: its FatalError carries only the message prefix, not the list of layer names. The stringstream is opened without `ate`, so the source overwrites the prefix with the names.
- VkTypes.VkCheck: its FatalError carries only the message prefix. The line, file and result the source appends are not modelled.
- The `static_assert`s at src/vk_buffer.h:99-100 are not modelled. They test `eTransferSrc | usage`, which is always true, so no transfer-usage check is enforced.
- `recordCopyBuffers`'s size check is an `assert` in the source. It is a precondition (`requires`) of VkBuffer.RecordCopyBuffers.
- VkEngine.SelectDevice: the source sorts a copy with `std::ranges::sort`, which is unstable, and takes the front. The model scans for the first device of maximal score. It states only that the pick has maximal score, not which of several equally scored devices the sort would put first.
- VkEngine.Engine.Frame: `src/vk_engine.cpp:224` calls `swapchain.getImageView`, which `VulkanSwapchain` does not declare. The model checks the index against the swapchain's views and fails with out_of_range past them. The created framebuffer's handle is an input.
- `ValidatedFeatureList` at src/vk_engine.cpp:17 is not declared in the headers. VkFeatures.EngineFeatures models it as a plain FeatureList of the named features.
- VkEngine.Engine.RunEngine: the source loop is endless. The model runs over a finite list of per-frame inputs and reports how many frames completed.
- VkEngine.Engine.PollEvents: SDL's event data are 32-bit signed. The only narrowing to uint32 that can fail is therefore on a negative value, and no upper bound is modelled.
- VkStream.SubmitEvents is modelled by its evident intent. As written (src/vk_stream.h:143), its `vk::SubmitInfo` constructor call, whose parameters are wait semaphores, wait stages, command buffers, signal semaphores and the `pNext` chain, passes `{}` as the wait stages, the signal semaphore where the command buffers go and the timeline struct where the signal semaphores go, and leaves `pNext` null. The template is never instantiated.
- Submissions list one wait stage. The source passes a single stage for all its wait semaphores; that count mismatch is not modelled.
- `uint64_t` timeline values and the `uint32_t` queue index do not wrap in the model. It assumes fewer than 2^64 submissions and fewer than 2^32 queue families.
- VkCommand.Growth: the `gsl::narrow<uint32_t>` of the growth count is not modelled. Only the constructor's narrowing is, in VkCommand.CreateCommandPool.
- `OptionalReference`'s `operator<=>` (src/vk_types.h:113) is not modelled. It orders the two pointers, and Dafny references have no order.
- Exceptions are modelled as `Err`/`Fail` values. That covers `FatalError`, `std::out_of_range`, `gsl::narrowing_error` and `QuitException`. vulkan-hpp's own exceptions from failing driver calls are not modelled: status codes are handed to VK_CHECK instead. `OutOfBoundsAccess` is not an exception. It marks an access past the end of a mapping or a buffer, which is undefined behaviour in the source.
- No background resetter thread, no swapchain recreation with a drain, and no "submitted" flag on leases appear in this code, so none is modelled.

## Findings

| source | as written | input that shows it | evidently intended | confidence | as-written member | corrected member |
|---|---|---|---|---|---|---|
| src/vk_buffer.h:54 | `memoryType > memoryTypeCount` stops the scan only past memoryTypeCount, so the entry at memoryTypeCount is examined | memoryTypeCount 1, memoryTypeBits with only bit 1 set, entry 1 matching the flags: type 1 is chosen | `>=`: only defined memory types are chosen | medium, not executed | VkBuffer.FindMemoryTypeAsWritten, VkBuffer.AsWrittenPicksUndefinedType | VkBuffer.FindMemoryType |
| src/vk_buffer.h:86-88 | copyTo maps `size` bytes but copies `data.size_bytes()` bytes, which its assert allows to exceed `size` | a staging buffer of size 4 copied into an 8-byte span reads 4 bytes past the mapping | copy `bufferSize_` bytes | high, not executed | VkBuffer.CopyToAsWritten, VkBuffer.CopyToAsWrittenOverreads | VkBuffer.VulkanBuffer.CopyTo |
| src/vk_stream.h:72 | `currentCommandBuffer_ = checkOut()` uses the defaulted move assignment. The old lease's destructor body never runs, so its buffer is freed without a wait and never checked back in | two submitWork calls on a fresh 16-buffer pool leave 14 free and 1 leased: one buffer is gone | destroy the old lease first, which waits and checks it in, e.g. `reset()` then `emplace` | high, not executed | VkStream.SubmitPoolAsWritten, VkStream.SubmitAsWrittenLosesBuffer, VkStream.SubmitAsWrittenTwice | VkStream.Stream.SubmitWork, VkStream.SubmitPoolReusesBuffer |
| src/vk_command.h:44-54 | the growth `bufferCount_ / 2` is 0 for a pool of 0 or 1 buffers, so after the free list empties `back()` reads an empty vector | a pool of 1 buffer: the second checkOut grows by 0 and calls back() on an empty vector | grow by at least one buffer | high, not executed | VkCommand.PoolCheckOutAsWritten, VkCommand.CheckOutAsWrittenEmptyBack | VkCommand.PoolCheckOut, VkCommand.CheckOutAsWrittenAgrees |
