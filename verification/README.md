# Verified model of the renderer's protocols and translators

This Dafny project models the parts of RobloxLinuxDev where a cheap mechanism
replaces repeated work and must not be told apart from the plain one, and
proves what each promises:

- **Descriptor binding** (`ShaderBindings`, `DescriptorPlans`, `DescriptorArena`,
  `BindingUpdates`, `InlineData`, `NaiveBinder`, `ArgumentCalls`, `RenderEncoder`, `ArenaPool`).  The render
  encoder updates descriptors incrementally, by dirty bits, raw-address keys, a
  hash index with weak lifetimes and sets reused across encoders.  Objects are
  identity, address and liveness, so addresses can be reused.  In every state
  that setters, pipeline switches, draws and idle periods can reach, every
  recorded draw shows what a binder that rewrites everything would show
  (`NaiveBinder.SameAsNaive`), and reads what the last calls set in every slot
  (`DrawsReadCalls`).
- **Completion polling and timelines** (`EventLoop`, `Timelines`,
  `CommandBuffers`, and `CompletionPolling`, which puts them together).  Each
  method is one locked section or one step of a thread or of the driver; the
  invariants hold for every interleaving of the steps.
- **Pipelines** (`PipelinePublication`, `PipelineWorkers`, `LibraryBuilds`), in
  the same style.
- **SPIR-V rewriting** (`SpirvModules`, `SpirvRemap`, `StageInterfaces`), against
  the same location scheme that the layouts and the encoder use, and instruction
  by instruction (`SpirvAssembly`, `AssembledModules`).
- **Memory** (`BufferSlabs`, `UploadRing`, with `Alignments`, `ByteRegions`).
- **Parsers** (`EmulationPrevention`, `ExpGolomb`, `SpsParser`, `SpsRoundTrip`,
  `NalStreams`, `MixedStreams`; `TypeEncodings`, `TypeSignatures`, `MethodSignatures`,
  `SignatureConverter`, `MachineTypes`).
- **Streams** (`CommittedText`, `InputStream`, `SampleHistory`).

`Wrappers` and `FiniteSets` are shared by all.

`dafny verify dfyconfig.toml` checks everything.

The driver is an oracle: it hands out fresh handles, its counters and fences
only move forward, and creations may fail where the code handles that.

## What does not hold unconditionally

- Parameter sets: the decoder reads exponential codes up to 2^31-2, the
  standards allow more.  `DimensionsOf264` and `DimensionsOf265` give the exact
  condition, `FarOffsetRejected` a legal record that is refused.
- SPIR-V rewriting: a resource that the reflection does not know keeps its
  place, and another one may move there; and resources of one reflected number
  in two sets move to one place.  `CollisionExactly` is the exact condition,
  `UnpreparedModulesMayCollide` and `SharedNumbersCollide` are cases; the
  offline preparation rules both out (`PreparedModulesDoNotCollide`).
- Byte streams: the scan looks for four-byte start codes only.
  `AnswerFor264` and `AnswerFor265` show that the parameter sets the standards
  allow are found nevertheless, `ShortSpsMissed` that others are not.
- Committed text: a window of 256 bytes without a possible cut yields no piece.
  `PieceExactly` is the exact condition; valid UTF-8 always has a cut.
- Sample windows: a begin that goes back can miss samples that an earlier
  window dropped, and the result is not marked.  `SampleHistory.Window` states
  when a window is exact, `GoingBackLosesSamples` a case that is not.

## Model

| member | source | states |
|---|---|---|
| `NaiveBinder.SameAsNaive` | RobloxLinuxDev/native/renderer/render-command-encoder.cpp:368-568 | the refinement: a draw recorded by the incremental binder reads, through every binding and vertex input, exactly what it would read had everything been pushed, written and bound anew |
| `NaiveBinder.EverythingShows` | RobloxLinuxDev/native/renderer/render-command-encoder.cpp:391-507 | pushing, writing and binding everything shows every resource exactly its argument |
| `RenderEncoders.RenderEncoder.DrawsReadCalls` | RobloxLinuxDev/native/renderer/render-command-encoder.cpp:368-596 | in every state each recorded draw reads, through every binding and vertex input, what the last calls before it set in that slot: the buffer and offset with everything up to its end, exactly the bytes of a setBytes call, the texture, the sampler |
| `RenderEncoders.RenderEncoder.DrawableExactly` | RobloxLinuxDev/native/renderer/render-command-encoder.cpp:391-427 | a draw would succeed if and only if every slot that the shaders use was set, with an offset inside its buffer, aligned, a visible range within the device limit, and a dynamic offset below 2^32 |
| `RenderEncoders.RenderEncoder.BytesStay` | RobloxLinuxDev/native/renderer/render-command-encoder.cpp:605-626 | the bytes that a slot was given by setBytes are still there when its draws execute |
| `ArgumentCalls.ViewMeansArgs` | RobloxLinuxDev/native/renderer/render-command-encoder.cpp:394-401 | a buffer view lies inside its buffer: it ends where the buffer ends, or holds exactly the setBytes data |
| `ArgumentCalls.PlacedSlots` | RobloxLinuxDev/native/renderer/indium/command-encoder.private.hpp:38-44 | a growing table keeps its slots, new slots in between are empty, and the slot holds the argument |
| `RenderEncoders.RenderEncoder.Draw` | RobloxLinuxDev/native/renderer/render-command-encoder.cpp:570-596 | a draw succeeds exactly when every reflected binding of both stages can be bound; it and every earlier draw show each shader resource what a binder that rewrites everything before each draw would show, and the recorded draw carries exactly the current arguments |
| `RenderEncoders.RenderEncoder.UpdateBindings` | RobloxLinuxDev/native/renderer/render-command-encoder.cpp:368-568 | the incremental update fails exactly when examining all bindings would fail, leaves what the application set alone, clears every dirty bit, and restores the whole invariant |
| `RenderEncoders.RenderEncoder.UpdateStage` | RobloxLinuxDev/native/renderer/render-command-encoder.cpp:375-536 | one stage ends up showing its current arguments while the other stage and all recorded draws keep what they show |
| `RenderEncoders.RenderEncoder.SetRenderPipelineState` | RobloxLinuxDev/native/renderer/render-command-encoder.cpp:253-259 | switching keeps the invariant and is a no-op for the same state |
| `RenderEncoders.RenderEncoder.SetBuffer` | RobloxLinuxDev/native/renderer/render-command-encoder.cpp:638-644 | the slot holds the buffer and offset, every other slot keeps what it held, new slots before it are empty, the other stage is untouched, and the skipped call for an unchanged slot is sound |
| `RenderEncoders.RenderEncoder.SetBufferOffset` | RobloxLinuxDev/native/renderer/render-command-encoder.cpp:651-657 | only the offset of an existing slot changes |
| `RenderEncoders.RenderEncoder.SetTexture` | RobloxLinuxDev/native/renderer/render-command-encoder.cpp:682-688 | the slot holds the texture, every other slot keeps its own |
| `RenderEncoders.RenderEncoder.SetSampler` | RobloxLinuxDev/native/renderer/render-command-encoder.cpp:658-669 | the slot holds the sampler, clamped clone or not; every other slot keeps its own |
| `RenderEncoders.RenderEncoder.SetInlineBytes` | RobloxLinuxDev/native/renderer/render-command-encoder.cpp:608-626 | empty data is refused without effect; otherwise the slot is bound to an aligned slice that holds exactly the bytes, has exactly their length and lies inside its buffer |
| `RenderEncoders.RenderEncoder.Idle` | RobloxLinuxDev/native/renderer/indium/renderer-cache.hpp:12-30 | between two calls any unheld object may die and its address be reused; the encoder, its cache and its recorded draws stay correct |
| `RenderEncoders.RenderEncoder.BindVertexBuffers` | RobloxLinuxDev/native/renderer/render-command-encoder.cpp:539-566 | whether or not the bind is skipped, the bound vertex buffers are those of the current state |
| `RenderEncoders.RenderEncoder.constructor` | RobloxLinuxDev/native/renderer/render-command-encoder.cpp:150-158 | a new encoder over an arena whose owner completed starts in the invariant |
| `RenderEncoders.CleanStage` | RobloxLinuxDev/native/renderer/render-command-encoder.cpp:370-376 | a stage without dirty bits already shows its current arguments |
| `RenderEncoders.RecordDraw` | RobloxLinuxDev/native/renderer/render-command-encoder.cpp:570-596 | a draw recorded after an update shows the current arguments, and so do all earlier ones |
| `RenderEncoders.RetainedDrawsLive` | RobloxLinuxDev/native/renderer/render-command-encoder.cpp:508-530 | when the command buffer retains references, everything a recorded draw was recorded with is alive |
| `BindingUpdates.BindOwnSet` | RobloxLinuxDev/native/renderer/render-command-encoder.cpp:434-507 | after keeping, finding or writing a set, and binding it or not, the bound set and dynamic offsets show the stage's arguments; sets in use are not rewritten |
| `BindingUpdates.ShowStage` | RobloxLinuxDev/native/renderer/render-command-encoder.cpp:375-507 | fails exactly when examining every binding would fail, else the stage shows its arguments |
| `BindingUpdates.Collect` | RobloxLinuxDev/native/renderer/render-command-encoder.cpp:391-429 | the scan fails exactly when an examined binding cannot be bound, else gathers the key, ranges, offsets and pushes of the plan |
| `BindingUpdates.Retain` | RobloxLinuxDev/native/renderer/render-command-encoder.cpp:508-530 | the bound tables become the current ones, and every replaced object is saved when it must outlive the draws |
| `BindingUpdates.DrawPreserved` | RobloxLinuxDev/native/renderer/indium/renderer-cache.hpp:26-28 | later work of the same recording never changes what an earlier draw reads |
| `BindingUpdates.BoundKeyIsExact` | RobloxLinuxDev/native/renderer/render-command-encoder.cpp:442-442 | an unchanged raw-address key means unchanged descriptors, because the previous arguments are still retained |
| `BindingUpdates.PushKeepsOther` | RobloxLinuxDev/native/renderer/indium/pipeline.private.hpp:12-18 | one stage's pushed buffers leave the other stage's alone |
| `DescriptorPlans.SameKeySamePlan` | RobloxLinuxDev/native/renderer/render-command-encoder.cpp:446-456 | equal raw-address keys of same-shaped plans mean equal plans while all objects of both are alive |
| `DescriptorPlans.DeadObjectsConfuseKeys` | RobloxLinuxDev/native/renderer/render-command-encoder.cpp:452-453 | without the liveness check a reused address makes two different plans share a key |
| `DescriptorPlans.PlanShows` | RobloxLinuxDev/native/renderer/render-command-encoder.cpp:434-441 | a set written from the plan with the sorted dynamic offsets shows every resource exactly its argument view |
| `DescriptorPlans.WritesMatchLayout` | RobloxLinuxDev/native/renderer/indium/command-encoder.private.hpp:148-200 | every write has the descriptor type that the set layout declares for its binding |
| `DescriptorArenas.DescriptorArena.FindHit` | RobloxLinuxDev/native/renderer/render-command-encoder.cpp:449-456 | returns a matching live entry whenever there is one, in whatever order equal hashes are visited |
| `DescriptorArenas.HitIsExact` | RobloxLinuxDev/native/renderer/render-command-encoder.cpp:450-456 | a hit was written from exactly the objects bound now |
| `DescriptorArenas.DescriptorArena.Acquire` | RobloxLinuxDev/native/renderer/render-command-encoder.cpp:443-503 | the returned set holds exactly the current descriptors, entries in use and their memory are unchanged, and the index holds one (hash, entry) pair per entry |
| `DescriptorArenas.DescriptorArena.Rewrite` | RobloxLinuxDev/native/renderer/render-command-encoder.cpp:457-499 | rewrites only a free entry of the same state and layout, or a new one |
| `DescriptorArenas.InstallCoherent` | RobloxLinuxDev/native/renderer/render-command-encoder.cpp:473-498 | replacing an entry keeps key, weak owners, set memory, index and free lists coherent |
| `DescriptorArenas.RewrittenIndex` | RobloxLinuxDev/native/renderer/render-command-encoder.cpp:474-498 | erasing the old pair and adding the new one keeps exactly one pair per entry |
| `DescriptorArenas.RewrittenMemory` | RobloxLinuxDev/native/renderer/indium/command-encoder.private.hpp:110-211 | a rewrite overwrites every binding, so nothing stale is left in the set |
| `DescriptorArenas.DescriptorArena.WriteDescriptors` | RobloxLinuxDev/native/renderer/indium/command-encoder.private.hpp:131-208 | the writer's two passes write exactly the planned descriptors |
| `DescriptorArenas.DescriptorArena.RememberResources` | RobloxLinuxDev/native/renderer/render-command-encoder.cpp:481-497 | the slot-by-slot update of weak owners yields the owners of the plan |
| `DescriptorArenas.DescriptorArena.Reset` | RobloxLinuxDev/native/renderer/render-command-encoder.cpp:151-157 | every set is free again and listed under its layout; contents are kept |
| `DescriptorArenas.EntryStable` | RobloxLinuxDev/native/renderer/indium/renderer-cache.hpp:26-28 | an idle entry stays coherent while objects die and addresses are reused |
| `ArenaPools.ArenaPool.Take` | RobloxLinuxDev/native/renderer/render-command-encoder.cpp:124-150 | the arena of the same target, else of a dead target, else the oldest of a full list; oversize arenas are replaced; the result is coherent and nobody else uses it |
| `ArenaPools.ArenaPool.GiveBack` | RobloxLinuxDev/native/renderer/render-command-encoder.cpp:240-246 | a released arena joins the idle ones unless 160 are idle |
| `ArenaPools.ArenaPool.Begin` | RobloxLinuxDev/native/renderer/render-command-encoder.cpp:124-158 | a new encoder is the only user of its arena and starts in its invariant |
| `ArenaPools.ArenaPool.Rests` | RobloxLinuxDev/native/renderer/indium/renderer-cache.hpp:26-28 | idle arenas stay coherent whatever the program does meanwhile |
| `InlineData.InlineAllocator.Append` | RobloxLinuxDev/native/renderer/render-command-encoder.cpp:608-626 | slices are aligned, lie inside their buffer and keep their bytes for ever; no later call overwrites an earlier one |
| `ShaderBindings.ScanPushesBuffers` | RobloxLinuxDev/native/renderer/indium/pipeline.private.hpp:27-32 | the early-return scan decides whether all buffer bindings fit the pushed range |
| `ShaderBindings.CreateFunctionSetLayout` | RobloxLinuxDev/native/renderer/indium/pipeline.private.hpp:46-78 | the layout has an entry for exactly the non-pushed resources, with distinct bindings |
| `ShaderBindings.StagesDisjoint` | RobloxLinuxDev/native/renderer/indium/pipeline.private.hpp:12-18 | two stages never share a location |
| `ShaderBindings.LocationsDistinct` | RobloxLinuxDev/native/renderer/indium/pipeline.private.hpp:12-18 | two resources of one function never share a location |
| `ShaderBindings.DynamicLimitHolds` | RobloxLinuxDev/native/renderer/indium/dynamic-buffer.hpp:6-13 | both stages together stay within the device's limit on dynamic storage buffers |
| `IndexedErasure.EraseBackwardKeepsRest` | RobloxLinuxDev/native/renderer/device.cpp:703-707 | erasing ascending indices back to front removes exactly those entries |
| `IndexedErasure.FrontToBackErasesOthers` | RobloxLinuxDev/native/renderer/device.cpp:696-697 | front to back would erase the wrong entries |
| `EventLoops.EventLoop.WaitForSemaphore` | RobloxLinuxDev/native/renderer/device.cpp:739-759 | a registration is appended to all three vectors, an idle poller is woken, and alignment and conservation hold |
| `EventLoops.EventLoop.WakeupEventLoop` | RobloxLinuxDev/native/renderer/device.cpp:722-737 | the wake timeline rises by one unless the poller slept, and a return is owed |
| `EventLoops.EventLoop.Enter` | RobloxLinuxDev/native/renderer/device.cpp:617-650 | a pending wake makes the poll return; otherwise it sleeps only with nothing registered, else waits on a snapshot |
| `EventLoops.EventLoop.EndSleep` | RobloxLinuxDev/native/renderer/device.cpp:629-639 | after the sleep neither flag is set |
| `EventLoops.EventLoop.Check` | RobloxLinuxDev/native/renderer/device.cpp:672-687 | exactly the snapshot entries above zero whose counter was seen at target are ready |
| `EventLoops.EventLoop.Take` | RobloxLinuxDev/native/renderer/device.cpp:694-709 | the ready registrations are taken in order and all others, appended meanwhile or not, stay |
| `EventLoops.EventLoop.EraseReady` | RobloxLinuxDev/native/renderer/device.cpp:703-707 | the three vectors lose exactly the ready indices |
| `EventLoops.EventLoop.RunOne` | RobloxLinuxDev/native/renderer/device.cpp:713-719 | callbacks run in registration order, each at most once, and only after their counter reached the target |
| `EventLoops.TakeConserves` | RobloxLinuxDev/native/renderer/device.cpp:689-707 | every registration is pending, taken or run, in exactly one place |
| `Timelines.TimelinePool.Acquire` | RobloxLinuxDev/native/renderer/device.cpp:800-832 | takes the handle recycled last while there is one, else a new one; it is quiet, can still rise, and belongs to one wrapper |
| `Timelines.TimelinePool.Submit` | RobloxLinuxDev/native/renderer/command-buffer.cpp:271-302 | the value signalled on a handle is larger than every earlier one and does not wrap |
| `Timelines.TimelinePool.Release` | RobloxLinuxDev/native/renderer/device.cpp:817-832 | the handle returns with its value unless the pool holds 128 or the value could not rise |
| `Timelines.TimelinePool.constructor` | RobloxLinuxDev/native/renderer/device.cpp:448-457 | the reserve of 128 distinct handles is created once |
| `CommandBuffers.CommandDevice.EventsInOrder` | RobloxLinuxDev/native/renderer/command-buffer.cpp:361-431 | in every reachable state a command's events are a prefix of: scheduled handlers in order, completion armed, GPU done, pool given away, encoders dropped, completed handlers in order, waiters notified; so no completed handler before all that, and a command that has not completed still owns its pool |
| `CommandBuffers.CommandDevice.NewCommand` | RobloxLinuxDev/native/renderer/command-buffer.cpp:72-108 | takes the most recently recycled pool if there is one, else a new one; never one that another command has or that was destroyed |
| `CommandBuffers.CommandDevice.AddCompletedHandler` | RobloxLinuxDev/native/renderer/command-buffer.cpp:500-507 | handlers are kept in the order of their registration; after the commit nothing is added |
| `CommandBuffers.CommandDevice.Commit` | RobloxLinuxDev/native/renderer/command-buffer.cpp:268-275 | freezes the handlers, takes a fresh timeline, and arms the completion only when no scheduled handler must run first |
| `CommandBuffers.CommandDevice.CallScheduled` | RobloxLinuxDev/native/renderer/command-buffer.cpp:424-431 | the serial queue calls the next scheduled handler of its front command |
| `CommandBuffers.CommandDevice.ArmScheduled` | RobloxLinuxDev/native/renderer/command-buffer.cpp:427-429 | the completion is armed after the last scheduled handler |
| `CommandBuffers.CommandDevice.Complete` | RobloxLinuxDev/native/renderer/command-buffer.cpp:361-384 | needs the counter at its target; the command's pool moves to exactly one of the recycled and the destroyed pools, and the timeline is let go |
| `CommandBuffers.CommandDevice.RecycleCommandPool` | RobloxLinuxDev/native/renderer/command-buffer.cpp:133-149 | every pool ever created is idle, owned by one command or destroyed, in exactly one of these places: the pool given away is cached if its reset worked and fewer than 32 are, else destroyed |
| `CommandBuffers.CommandDevice.DropEncoders` | RobloxLinuxDev/native/renderer/command-buffer.cpp:379-383 | encoders are dropped before any completed handler runs |
| `CommandBuffers.CommandDevice.CallCompleted` | RobloxLinuxDev/native/renderer/command-buffer.cpp:509-511 | completed handlers run once each, in registration order |
| `CommandBuffers.CommandDevice.ReturnFromWait` | RobloxLinuxDev/native/renderer/command-buffer.cpp:519-530 | waitUntilCompleted returns only after the whole script happened |
| `CommandBuffers.CommandDevice.BeginReadback` | RobloxLinuxDev/native/renderer/command-buffer.cpp:532-542 | waitForGPU refuses an uncommitted command, returns for a completed one, else holds its timeline |
| `CommandBuffers.CommandDevice.ReleaseTimeline` | RobloxLinuxDev/native/renderer/command-buffer.cpp:372-375 | a timeline that nobody holds has reached its value, so recycling it is safe |
| `CommandBuffers.CommandDevice.Destroy` | RobloxLinuxDev/native/renderer/command-buffer.cpp:124-131 | a command that was never committed gives its pool away, a finished one has none left to give; nothing else changes |
| `CompletionPolling.CompletionDevice.Commit` | RobloxLinuxDev/native/renderer/command-buffer.cpp:268-303 | a command without scheduled handlers is registered with the event loop at the value that its commit will signal |
| `CompletionPolling.CompletionDevice.ArmScheduled` | RobloxLinuxDev/native/renderer/command-buffer.cpp:424-431 | a command with scheduled handlers is registered after the last of them |
| `CompletionPolling.CompletionDevice.RunCompletion` | RobloxLinuxDev/native/renderer/device.cpp:713-719 | what the event loop runs next is the completion of an armed command whose timeline has reached its last value; that command is completed by it, once, and no registration for it remains |
| `CompletionPolling.CompletionDevice.Reach` | RobloxLinuxDev/native/renderer/device.cpp:672-687 | when the GPU moves a timeline on, the loop and the commands see the same counters |
| `CompletionPolling.CompletionDevice.ReleaseTimeline` | RobloxLinuxDev/native/renderer/device.cpp:817-832 | releasing an unheld timeline takes none away from an armed completion |
| `CompletionPolling.LinkedMore` | RobloxLinuxDev/native/renderer/command-buffer.cpp:361-372 | arming a command keeps the registrations that did not run and the armed commands in one-to-one correspondence |
| `CompletionPolling.LinkedLess` | RobloxLinuxDev/native/renderer/device.cpp:694-719 | so does running one |
| `PipelinePublication.RankNeverFalls` | RobloxLinuxDev/native/renderer/render-pipeline.cpp:360-366 | publication goes from nothing to linked to optimized and never back |
| `PipelinePublication.PipelineState.Load` | RobloxLinuxDev/native/renderer/render-pipeline.cpp:360-366 | the lock-free load yields a handle that the state owns, if and only if one is published |
| `PipelinePublication.PipelineState.Publish` | RobloxLinuxDev/native/renderer/render-pipeline.cpp:554-563 | the first thread publishes; a loser's pipeline is destroyed once and the winner is returned |
| `PipelinePublication.PipelineState.Discard` | RobloxLinuxDev/native/renderer/render-pipeline.cpp:546-551 | a failed creation leaves nothing behind |
| `PipelinePublication.PipelineState.LinkParts` | RobloxLinuxDev/native/renderer/render-pipeline.cpp:420-458 | each missing piece is created once if the driver creates it, and not otherwise; both are there exactly if each was or could be created |
| `PipelinePublication.PipelineState.Link` | RobloxLinuxDev/native/renderer/render-pipeline.cpp:407-477 | yields a pipeline exactly if the libraries are there and one was linked before or the driver creates both pieces and links now; a failure links and publishes nothing; a published optimized pipeline is never replaced |
| `PipelinePublication.PipelineState.BeginOptimize` | RobloxLinuxDev/native/renderer/render-pipeline.cpp:382-388 | an attempt starts only when none is running or accepted |
| `PipelinePublication.PipelineState.EndOptimize` | RobloxLinuxDev/native/renderer/render-pipeline.cpp:395-404 | at most one deferred optimization per topology is ever accepted; a rejected one is marked for retry |
| `PipelinePublication.PipelineState.StoreLinked` | RobloxLinuxDev/native/renderer/render-pipeline.cpp:460-477 | a linked pipeline is kept, and published only where nothing is |
| `PipelinePublication.NobodyActs` | RobloxLinuxDev/native/renderer/render-pipeline.cpp:302-308 | once nobody holds the state and the waits for its tasks returned, no creation and no attempt is under way |
| `PipelinePublication.PipelineState.Destroy` | RobloxLinuxDev/native/renderer/render-pipeline.cpp:302-315 | called when nobody is inside a call and the tasks ended, it leaves every pipeline ever created destroyed, each exactly once |
| `PipelineWorkers.Pool.Submit` | RobloxLinuxDev/native/renderer/indium/pipeline-workers.hpp:66-80 | accepts unless stopping, without workers, or with 64 queued |
| `PipelineWorkers.Pool.SubmitBackground` | RobloxLinuxDev/native/renderer/indium/pipeline-workers.hpp:81-84 | queues unless stopping |
| `PipelineWorkers.Pool.Step` | RobloxLinuxDev/native/renderer/indium/pipeline-workers.hpp:43-57 | jobs leave first-in first-out; a background job only when none is queued and never after stopping |
| `PipelineWorkers.Pool.EndJob` | RobloxLinuxDev/native/renderer/indium/pipeline-workers.hpp:54-55 | an accepted job ends once |
| `PipelineWorkers.Pool.StopReturns` | RobloxLinuxDev/native/renderer/indium/pipeline-workers.hpp:61-65 | when all workers were joined, every accepted job ran |
| `LibraryBuilds.GraphicsLibraries.Entry` | RobloxLinuxDev/native/renderer/render-pipeline.cpp:129-134 | one entry per module and stage |
| `LibraryBuilds.GraphicsLibraries.Prepare` | RobloxLinuxDev/native/renderer/render-pipeline.cpp:205-211 | the build it queues is for the entry that the module and stage currently mean |
| `LibraryBuilds.GraphicsLibraries.StartBuild` | RobloxLinuxDev/native/renderer/render-pipeline.cpp:211-218 | a queued build starts unless closing |
| `LibraryBuilds.GraphicsLibraries.EnterOnce` | RobloxLinuxDev/native/renderer/render-pipeline.cpp:188-192 | one thread runs a once-only call, later ones find it called |
| `LibraryBuilds.GraphicsLibraries.LeaveOnce` | RobloxLinuxDev/native/renderer/render-pipeline.cpp:221-224 | a library is compiled successfully at most once; a throw leaves it unset |
| `LibraryBuilds.GraphicsLibraries.BeginRelease` | RobloxLinuxDev/native/renderer/render-pipeline.cpp:234-244 | both stage entries leave the table |
| `LibraryBuilds.GraphicsLibraries.Cancel` | RobloxLinuxDev/native/renderer/render-pipeline.cpp:245-246 | a build that did not start is cancelled |
| `LibraryBuilds.GraphicsLibraries.EndRelease` | RobloxLinuxDev/native/renderer/render-pipeline.cpp:234-247 | after release, closing or not, no build uses the module or will start on its old entry: queued or running builds of it find the once-only call made |
| `LibraryBuilds.GraphicsLibraries.EndClose` | RobloxLinuxDev/native/renderer/render-pipeline.cpp:249-255 | after close no build is running |
| `SpirvRemap.RemapDescriptorSets` | RobloxLinuxDev/native/renderer/library.cpp:20-52 | false exactly for an unexpected module, and then no word changes; else exactly the literals of the complete targets move to their locations |
| `SpirvRemap.Scan` | RobloxLinuxDev/native/renderer/library.cpp:21-38 | accepts exactly the well-formed single-entry modules without decoration groups, and finds the last literals per identifier |
| `SpirvRemap.RewriteKeepsStructure` | RobloxLinuxDev/native/renderer/library.cpp:20-52 | length, instruction boundaries and the places of the literals are unchanged |
| `SpirvRemap.MatchedAgrees` | RobloxLinuxDev/native/renderer/library.cpp:42-49 | a matched resource is exactly where the layout declares it and the encoder writes it |
| `SpirvRemap.CollisionExactly` | RobloxLinuxDev/native/renderer/library.cpp:40-50 | any two resources are at one place after the rewrite if and only if they clash: they shared it before, or have one reflected number in two sets, or one is unknown to the reflection and already sits where the other one moves |
| `SpirvRemap.SharedNumbersCollide` | RobloxLinuxDev/native/renderer/library.cpp:40-50 | two known resources with one number in different sets collide |
| `SpirvRemap.PreparedModulesDoNotCollide` | RobloxLinuxDev/native/renderer/library.cpp:40-50 | any two different places of a prepared module stay different |
| `SpirvRemap.UnpreparedModulesMayCollide` | RobloxLinuxDev/native/renderer/library.cpp:45-48 | an unprepared fragment module can collide |
| `SpirvRemap.StagesDoNotCollide` | RobloxLinuxDev/native/renderer/library.cpp:46-49 | the two stages of a pipeline never collide on reflected resources |
| `SpirvRemap.RewrittenResources` | RobloxLinuxDev/native/renderer/library.cpp:20-52 | for every accepted module: reading the rewritten words again finds each reflected resource at its location, and two resources together if and only if they clashed |
| `SpirvAssembly.EveryStreamAssembled` | RobloxLinuxDev/native/renderer/library.cpp:25-37 | every word stream that the passes can walk is the encoding of a list of instructions |
| `RemappedModules.AcceptedModules` | RobloxLinuxDev/native/renderer/library.cpp:20-38 | accepted are exactly the modules with the magic number, one entry point and no decoration groups |
| `RemappedModules.RemappedAssembly` | RobloxLinuxDev/native/renderer/library.cpp:20-52 | instruction by instruction: the last set and binding decorations of an identifier with both move to its location, all else stays |
| `SpirvRemap.PreparedModulesStayApart` | RobloxLinuxDev/native/renderer/library.cpp:20-52 | in the rewritten words of a prepared module, resources that were apart are apart |
| `SpirvModules.ParseSpaced` | RobloxLinuxDev/native/renderer/library.cpp:25-37 | instructions do not overlap and stay inside the module |
| `StageInterfaces.RemapSets` | RobloxLinuxDev/runtime/metal/prepare-cache.py:37-65 | accepts exactly the well-formed inputs and rewrites exactly the interface locations and descriptor sets; in a kernel the locations are those of identifiers that declare no variable |
| `StageInterfaces.StagesLinkBySemantic` | RobloxLinuxDev/runtime/metal/prepare-cache.py:54-61 | a vertex output and a fragment input get the same location if and only if they have the same user semantic |
| `PreparedModules.AcceptedModules` | RobloxLinuxDev/runtime/metal/prepare-cache.py:40-64 | accepted are exactly the modules whose semantics are supported and different, whose interface locations are reflected and whose descriptors are in set 0 |
| `PreparedModules.PreparedAssembly` | RobloxLinuxDev/runtime/metal/prepare-cache.py:54-64 | instruction by instruction: locations of class 3 (Output) variables of a vertex and class 1 (Input) variables of a fragment module become semantics, fragment descriptors move to set 1, and nothing else changes |
| `PreparedModules.LinkedStages` | RobloxLinuxDev/runtime/metal/prepare-cache.py:54-61 | a class 3 output of the vertex and a class 1 input of the fragment stage get one location if and only if they have one semantic; vertex attributes and render targets keep theirs |
| `StageInterfaces.InterfaceStaysDistinct` | RobloxLinuxDev/runtime/metal/prepare-cache.py:46-46 | different locations of one stage stay different |
| `StageInterfaces.LocationsMeanSemantics` | RobloxLinuxDev/runtime/metal/prepare-cache.py:41-45 | a reflected location maps to its own semantic |
| `StageInterfaces.DescriptorsInOneSet` | RobloxLinuxDev/runtime/metal/prepare-cache.py:62-64 | every descriptor set literal becomes the stage's set |
| `BufferSlabs.ChooseSlotSize` | RobloxLinuxDev/native/renderer/buffer.cpp:112-115 | up to 1 MiB the slot size is the smallest power of two from 256 on that is large enough, above it the smallest multiple of the alignment |
| `BufferSlabs.SlotsFit` | RobloxLinuxDev/native/renderer/buffer.cpp:105-129 | in both branches the slot holds the buffer and is aligned for it |
| `BufferSlabs.RangesDisjoint` | RobloxLinuxDev/native/renderer/buffer.cpp:119-130 | live buffers of one block never overlap and lie inside it |
| `BufferSlabs.EmptyMeansUnused` | RobloxLinuxDev/native/renderer/buffer.cpp:202-202 | a full free list means no live buffer |
| `BufferSlabs.BufferMemory.Allocate` | RobloxLinuxDev/native/renderer/buffer.cpp:105-130 | serves exactly the non-dedicated requests of up to 1 MiB, or 16 MiB if shared, from the first listed block of the class with a free slot, else from a new block; free and live slots partition every block |
| `BufferSlabs.BufferMemory.Free` | RobloxLinuxDev/native/renderer/buffer.cpp:192-231 | the slot is free again; the blocks given up are exactly: none while the block is in use, the block itself if its class has another empty one, or the evicted ones; idle bytes stay bounded |
| `BufferSlabs.BufferMemory.Evict` | RobloxLinuxDev/native/renderer/buffer.cpp:210-219 | eviction ends within the limit, and each evicted block was the oldest idle one while the limit was still exceeded |
| `BufferSlabs.BufferMemory.RetainOne` | RobloxLinuxDev/native/renderer/buffer.cpp:220-228 | the block is given up if and only if its class has another empty one |
| `BufferSlabs.BlockSizes` | RobloxLinuxDev/native/renderer/buffer.cpp:24-24 | a block of small slots is 4 MiB, but has at least 4 and at most 256 slots |
| `BufferSlabs.IdleLimitMeans` | RobloxLinuxDev/native/renderer/buffer.cpp:209-209 | a sixteenth of the heap, at most 2 GiB |
| `MappedRanges.DidModifyRange` | RobloxLinuxDev/native/renderer/buffer.cpp:261-282 | the flushed range covers the modified bytes, starts on an atom, ends on one or at the end of the allocation, and is no larger than needed |
| `UploadRing.UploadQueue.Begin` | RobloxLinuxDev/native/renderer/uploads.cpp:46-108 | yields the recording batch with room, aligned; unsignalled batches keep memory and resources |
| `UploadRing.UploadQueue.StageCopy` | RobloxLinuxDev/native/renderer/uploads.cpp:124-152 | the bytes are staged; all copies of a batch stay in place, aligned, disjoint and inside its memory; at most 256 operations |
| `UploadRing.UploadQueue.Initialize` | RobloxLinuxDev/native/renderer/uploads.cpp:110-122 | records one operation and retains the resource |
| `UploadRing.UploadQueue.Flush` | RobloxLinuxDev/native/renderer/uploads.cpp:154-167 | the recording batch becomes pending, nothing else changes |
| `UploadRing.UploadQueue.Collect` | RobloxLinuxDev/native/renderer/uploads.cpp:169-181 | retires exactly the batches whose fence signalled; service is needed while any is outstanding |
| `EmulationPrevention.UnescapeEscape` | RobloxLinuxDev/runtime/optimized/video-host.c:45-49 | removal undoes insertion for every byte string |
| `EmulationPrevention.EscapeHasNoStartCode` | RobloxLinuxDev/runtime/optimized/video-host.c:45-49 | an escaped payload holds no start code prefix |
| `EmulationPrevention.RemoveEmulationPrevention` | RobloxLinuxDev/runtime/optimized/video-host.c:44-49 | the loop removes exactly the inserted bytes |
| `ExpGolomb.UeDecodes` | RobloxLinuxDev/runtime/optimized/video-host.c:38-41 | every code up to 2^31-2 is decoded, every longer one is an error |
| `ExpGolomb.SeDecodes` | RobloxLinuxDev/runtime/optimized/video-host.c:42-42 | the same for signed codes |
| `ExpGolomb.BitReader.Read` | RobloxLinuxDev/runtime/optimized/video-host.c:34-37 | reads the value of the next bits or sets the error |
| `ExpGolomb.BitReader.Ue` | RobloxLinuxDev/runtime/optimized/video-host.c:38-41 | decodes one code or sets the error |
| `SpsParser.SpsDimensions` | RobloxLinuxDev/runtime/optimized/video-host.c:43-81 | the imperative parser answers for every byte string what the syntax function answers that the round trips are about |
| `SpsRoundTrip.DimensionsOf264` | RobloxLinuxDev/runtime/optimized/video-host.c:59-79 | for every H.264 parameter record, whatever bytes follow it, the parser returns the cropped size if no code in it exceeds 2^31-2, and nothing otherwise |
| `SpsRoundTrip.DimensionsOf265` | RobloxLinuxDev/runtime/optimized/video-host.c:51-58 | the same for every H.265 record |
| `SpsRoundTrip.SmallPicturesAreShort` | RobloxLinuxDev/runtime/optimized/video-host.c:51-79 | for accepted H.265 pictures only the id could be too long |
| `SpsRoundTrip.FarOffsetRejected` | RobloxLinuxDev/runtime/optimized/video-host.c:68-68 | a legal H.264 record with an offset of 2^30 is rejected |
| `SpsRoundTrip.CropUnitsAreStandard` | RobloxLinuxDev/runtime/optimized/video-host.c:77-77 | the cropping units are those of the standards |
| `SpsRoundTrip.Size264` | RobloxLinuxDev/runtime/optimized/video-host.c:72-79 | the answer is the standard's coded size in macroblocks less the cropped samples, exactly if that is positive and the coded size at most 16384 |
| `SpsRoundTrip.Size265` | RobloxLinuxDev/runtime/optimized/video-host.c:58-79 | the same for H.265, from width, height and conformance window |
| `SpsRoundTrip.HighProfiles` | RobloxLinuxDev/runtime/optimized/video-host.c:61-61 | the profiles with chroma fields are those of the standard |
| `SpsRoundTrip.ScalingListSizes` | RobloxLinuxDev/runtime/optimized/video-host.c:63-66 | number and sizes of the scaling lists are those of the standard |
| `SpsRoundTrip.DimensionsInRange` | RobloxLinuxDev/runtime/optimized/video-host.c:43-79 | for every byte string, returned dimensions are in 1..16384, and neither the coded size nor the cropped samples wrap around |
| `NalStreams.VideoDimensions` | RobloxLinuxDev/runtime/optimized/video-host.c:82-91 | the scan answers for the first parameter set unit |
| `NalStreams.SpsIsType` | RobloxLinuxDev/runtime/optimized/video-host.c:88-88 | the header bits select exactly the units of type 7, in H.265 of type 33 |
| `NalStreams.ScanFindsFirstSps` | RobloxLinuxDev/runtime/optimized/video-host.c:86-90 | in every stream of units with four-byte start codes, empty ones too, no unit is missed, split or joined |
| `MixedStreams.ScanOfMixed` | RobloxLinuxDev/runtime/optimized/video-host.c:86-90 | with start codes of both lengths, the scan sees the units with three-byte codes as parts of the unit before, and nothing else |
| `MixedStreams.AnswerFor264` | RobloxLinuxDev/runtime/optimized/video-host.c:86-90 | the first parameter set with a four-byte start code is found and its record answered for, whichever start codes the other units have |
| `MixedStreams.AnswerFor265` | RobloxLinuxDev/runtime/optimized/video-host.c:86-90 | the same for H.265 |
| `MixedStreams.ShortSpsMissed` | RobloxLinuxDev/runtime/optimized/video-host.c:86-90 | a parameter set behind a three-byte start code, which the standards forbid, is missed |
| `MixedStreams.JoinedStartFree` | RobloxLinuxDev/runtime/optimized/video-host.c:87-87 | a three-byte start code between two units is not taken for a four-byte one |
| `NalStreams.EscapedUnitsStartFree` | RobloxLinuxDev/runtime/optimized/video-host.c:86-90 | a unit with an escaped payload holds no start code, but for the header 0 0 before a payload that begins with 0 1 |
| `NalStreams.PackedBits` | RobloxLinuxDev/runtime/optimized/video-host.c:34-37 | every bit string of whole bytes is the content of some payload |
| `TypeSignatures.TypeRoundTrip` | RobloxLinuxDev/native/objc-encoding.h:27-78 | for every supported type tree, whatever qualifiers precede and whatever follows, the printed form is consumed exactly and becomes the flattened signature |
| `TypeSignatures.PointeeSkipped` | RobloxLinuxDev/native/objc-encoding.h:8-26 | a printed pointee is skipped exactly |
| `TypeSignatures.OutputBalanced` | RobloxLinuxDev/native/objc-encoding.h:27-78 | any successful translation is brace-balanced, not empty and fits |
| `TypeEncodings.NegativeCounts` | RobloxLinuxDev/native/objc-encoding.h:56-57 | a negative array count wraps, and is supported exactly for the 64 largest magnitudes |
| `MethodSignatures.SignatureRoundTrip` | RobloxLinuxDev/native/objc-encoding.h:79-96 | converting a printed method encoding yields its signature |
| `MethodSignatures.SignatureFitsOrFails` | RobloxLinuxDev/native/objc-encoding.h:79-96 | for supported methods the conversion fails if and only if signature and NUL do not fit |
| `MethodSignatures.SignatureBalanced` | RobloxLinuxDev/native/objc-encoding.h:79-96 | any successful conversion is balanced, fits, and is empty only for the empty encoding |
| `MethodSignatures.NoNul` | RobloxLinuxDev/native/objc-encoding.h:79-96 | no signature contains a NUL |
| `MachineTypes.ScalarsKeepMeaning` | RobloxLinuxDev/native/objc-encoding.h:64-73 | every scalar code becomes a code of the same kind, width and sign; only unsigned 64-bit integers share a code with signed ones |
| `MachineTypes.FlatKeepsMeaning` | RobloxLinuxDev/native/objc-encoding.h:27-78 | a type's signature passes it as its machine types, in order |
| `MachineTypes.SignatureKeepsMeaning` | RobloxLinuxDev/native/objc-encoding.h:79-96 | the converted signature of a printed method passes the result and every argument as the machine types they have, in order; C++ objects are returned in memory of their size |
| `MachineTypes.PointeesAreScalars` | RobloxLinuxDev/native/objc-encoding.h:24-24 | what may stand behind a pointer is any scalar or `?` |
| `MachineTypes.QualifiersAreSkipped` | RobloxLinuxDev/native/objc-encoding.h:29-29 | exactly the seven qualifiers of the runtime are skipped |
| `SignatureConverter.WriteType` | RobloxLinuxDev/native/objc-encoding.h:27-78 | the in-place converter writes exactly the specified text and touches nothing outside its room, even when it fails |
| `SignatureConverter.WriteSignature` | RobloxLinuxDev/native/objc-encoding.h:79-96 | the buffer holds the specified signature and its NUL |
| `SignatureConverter.ReadPointee` | RobloxLinuxDev/native/objc-encoding.h:8-26 | the in-place scanner stops exactly behind the pointee, or fails, as the grammar of pointees says |
| `SignatureConverter.IndexBits` | RobloxLinuxDev/native/objc-encoding.h:102-103 | the table line is the exclusive or of the address shifted by 4 and by 10, six bits of it |
| `SignatureConverter.SignatureCache.Lookup` | RobloxLinuxDev/native/objc-encoding.h:98-109 | over any sequence of calls and addresses the answer is that of a fresh conversion; one table line changes at most, and a short encoding is converted once for its line |
| `CommittedText.PieceExactly` | RobloxLinuxDev/native/wayland.cpp:50-53 | a piece is non-empty if and only if the text fits or a byte behind its first can start a character; it is the longest that fits |
| `CommittedText.PieceOfValid` | RobloxLinuxDev/native/wayland.cpp:50-53 | valid text is cut into non-empty valid pieces of at most 255 bytes |
| `CommittedText.StuckText` | RobloxLinuxDev/native/wayland.cpp:50-53 | invalid text that never leaves |
| `CommittedText.SplitValid` | RobloxLinuxDev/native/wayland.cpp:50-51 | cutting valid text between characters leaves both parts valid |
| `InputStreams.PollConserves` | RobloxLinuxDev/native/wayland.cpp:44-60 | a poll loses no event and no text |
| `InputStreams.InputBridge.DeliverText` | RobloxLinuxDev/native/wayland.cpp:44-56 | pending text joins an empty key-down, or leaves alone when nothing else is ready |
| `InputStreams.InputBridge.FillBatch` | RobloxLinuxDev/native/wayland.cpp:65-74 | up to 64 events; a focus or blur event is last; a short batch means that nothing was left |
| `InputStreams.InputBridge.RunRequest` | RobloxLinuxDev/native/wayland.cpp:98-110 | the answer holds exactly the events polled for it |
| `InputStreams.InputBridge.PollBatch` | RobloxLinuxDev/native/wayland.cpp:75-91 | delivered events, rest of the batch, outstanding request and queue always are the whole sequence; later events are fetched only after a focus or blur event was delivered |
| `InputStreams.InputBridge.ClearText` | RobloxLinuxDev/native/wayland.cpp:17-23 | losing the text focus discards only what was not reported yet |
| `SampleHistories.SampleHistory.Window` | RobloxLinuxDev/runtime/profiler/sampler.h:76-83 | not truncated and with begins that do not go back, the window counts exactly the logged samples in it; in general exactly when no sample that is gone lies in it |
| `SampleHistories.SampleHistory.Add` | RobloxLinuxDev/runtime/profiler/sampler.h:75-75 | the history is bounded and remembers through when it evicted |
| `SampleHistories.WindowsPartition` | RobloxLinuxDev/runtime/profiler/sampler.h:79-79 | adjacent windows share no sample and miss none; a sample at the border belongs to the earlier one |
| `SampleHistories.GoingBackLosesSamples` | RobloxLinuxDev/runtime/profiler/sampler.h:76-83 | a begin that goes back misses samples without being marked truncated |
| `SampleHistories.SamplesAreAccounted` | RobloxLinuxDev/runtime/profiler/sampler.h:61-69 | samples are the sum of the retained counts and the overflow |
| `SampleHistories.RetainedCountsExact` | RobloxLinuxDev/runtime/profiler/sampler.h:61-69 | a retained address has every one of its samples counted, per core too |
| `SampleHistories.FirstAddressesKept` | RobloxLinuxDev/runtime/profiler/sampler.h:61-69 | exactly the first 8192 distinct addresses are retained, and the overflow is the samples of the others |

## Left out

- `RenderEncoders.RenderEncoder.UpdateBindings`: says nothing of the state after a failed update; what an exception midway leaves behind is not modelled.
- Texture hazard tracking (`trackTexture`, `useResource`), counters, profiling and dynamic state other than descriptors and vertex buffers.
- Binding through another pipeline layout is taken to disturb everything bound before, which is the weakest guarantee the driver gives; the code never relies on more.
- Vertex buffers are compared by buffer identity and offset; the driver handle of a buffer stands for its identity, and a null vertex slot is a null binding.
- The hash function is arbitrary: no result depends on it.  Descriptor pool growth only supplies fresh sets and is not modelled.
- Render target creation and its cache; `Target` is an identity that may die.
- `EventLoops.EventLoop.WakeupEventLoop`: counts without a bound, where the code has 64 bits.
- Servicing uploads at the start of a poll; lost or spurious condition-variable wakes beyond the modelled end of a sleep.
- Command buffers, pipelines' threads and library entries are records in maps of one device object, not linked heap objects; shared ownership is modelled by who holds what.
- Alignments that the driver reports are powers of two, so rounding up by masking is rounding up.
- Texture-owned timelines and presentation semaphores: assumed to follow the wrapper discipline of `Timelines`.
- The empty fragment library, pipeline cache files, and the choice of worker count.
- A submission refused because the compiler pool is stopping leaves its topology marked as optimizing; pipelines are not used after that point.
- Varying names are reduced to the number in their semantic; the regular expression that reads it is not modelled.  Word packing and unaligned input of the offline pass are not modelled.
- Compute pipelines, the swapchain, textures and image memory.
- Buffer allocation failures other than a missing block, and dedicated allocations, which take no slot.
- The upload ring's destructor and driver failures; batches are records in a sequence, their staging memory a byte sequence.
- Decoding of pictures; allocation failure of the parameter-set buffer.
- The buffers of the signature table are strings of the stored length; a returned text is the text at the time of the call, and a later call for the same table line may replace it.
- `CommittedText.StuckText`: shows the empty piece; a window of continuation bytes only runs off the start of the text, which the model marks as -1 and does not follow further.
- The order in which the window system reports its events is an arbitrary queue into which events may arrive anywhere behind those already polled; key translation, capture filtering and resize reports are not modelled.
- An event's text is the bytes before its NUL, in a buffer that a poll cleared.
- Sample times, addresses and counts are unbounded; perf ring parsing and the published snapshot's other fields are not modelled.
- The library that makes native calls from the signatures is not part of this model; `MachineTypes` reads their codes as the format scanner of native/printf-encoding.h uses them.
