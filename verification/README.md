# Verification of the capture and processing core

This project models the parts of the repository in which data is handed from one
thread, process or machine to the next, and proves that it arrives: once, in order,
unchanged, and completely.

`dafny verify dfyconfig.toml` checks everything.

## What is modelled

**The pipeline** (`Pipeline*`). A chain of server threads, each with a child process.
Neighbouring threads share a one-slot mailbox guarded by two semaphores, a thread and its
child share a process slot, chunks come from and return to a ring. `PipelineModel` is a
step system: one step is one access to a shared variable or semaphore, and a run is any
interleaving. The length of the chain, the number of chunks and the actions of the
children are arbitrary; a child may keep private state, so its action is a function of
everything it has been given, and it may return the status -1. `exit_flag` and the live
state can change at any time.

- `PipelineInvariant`, `PipelineSafety`: what every step keeps.
- `PipelineOwnership`, `PipelineRing`: conservation of chunks, exclusive access, and the
  order in which chunks are used.
- `PipelineRefinement`, `PipelineSequential`: every run computes a prefix of the
  sequential program.
- `PipelineRanking`, `PipelineLiveness`, `PipelineShutdown`, `PipelineLost`: no deadlock,
  draining, the end, teardown, and what the status -1 does to them.
- `PipelineFlags`: what being live and exit do, and that the end can always be reached.
- `PipelineThroughput`: chunks keep coming back while the pipeline runs.
- `PipelineLayout`, `PipelineBytes`: the pipeline on the bytes of the shared segment.
- `PipelineObjects`, `PipelineThreads`, `PipelineChild`: the loops of the threads and of
  a child as methods that update objects in place, with interference by all others
  between any two accesses. The loops have the structure of the code; each access is
  proved to be the step of the model that is due, and its contract says what it does to
  the fields, so the program counters and the steps of the model are those of the loops.
  The recorded run only grows, by exactly these steps and those of the others, and the
  turns of a loop are tied to what only its thread writes.

**The collector** (`Collector*`, `SourceThreads`). `first_action`, the collector thread and
any number of sources pass a round token that decides to which object each frame is added.
Sources are TCP streams or GigE cameras; a camera has a second thread, the watchdog.
Collector shutdown and failing reads are included. The exit flag of a source may be set at
any moment; the modelled code does so only where a read of a TCP source fails, in a
watchdog that leaves its loop and in the collector, and runs in which nobody else does are
singled out (`OwnRun`, `Arrives`).
`CollectorModel` is the step system, `CollectorInvariant` what every step keeps,
`CollectorObjects` the results on objects, `CollectorVerdicts` those on which frame goes to
which object, `CollectorLoops` those on the end of a source's loop, `CollectorProgress` on progress, `CollectorEnd`
on the end of the collector thread, `CollectorThroughput` on how often objects are
published, `CollectorRuns` and `CollectorCamera` the runs in which
something goes wrong. `CollectorParts`, `SourceThreads` and `CollectorThreads` have the
loops, in place and under interference.

**Both together** (`Processor*`). The action of the source's child is `first_action`. The two
step systems run side by side; the child comes back from its action when the call has, with
the name that was taken. So the results on either side hold of the whole, names are
captured once and in order, and it is stated when the whole gets on.

**Frames from bytes and packets** (`TcpReassembly`, `TcpFrames`, `TcpSizes`, `Gvsp*`).
The two receive loops as methods over arrays, refining small functions on the input. The
packets are those of the AIA GigE Vision Specification, version 2.0.

**Shared memory, process slots, module links** (`Bytes`, `SharedMemory`, `ProcessTable`,
`ModuleList`, `ModuleChain`).

## Where the code does not do what it is for

Each of these is proved with its exact condition and an input for which it happens.

- A data block shorter than a full packet, typically the last one of an image, is
  delivered with stale bytes of the receive buffer behind it (`ShortBlockIsPadded`). A
  delivered image is the one sent if and only if every data block filled its packet
  (`SenderRoundTrip`).
- The watchdog of a camera source that is told to exit posts `data_ready` while the
  receiving thread may be inside `add_frame_callback`: a published object can still get a
  frame (`CameraIsUnsafe`). All runs are safe if and only if there is no camera source or no
  such callback (`SafeWithoutCameras`); in any run it is at most one frame per camera
  (`AtMostOneLateFrame`), and none as long as nobody outside sets a flag (`SafeByItself`).
- As long as exit flags are set only by failed reads, the collector thread never ends,
  whatever its sources (`NeverEndsByItself`). A failed read of the only source leaves it
  waiting for a second post for ever (`FailedReadHangs`). If flags may be set from outside
  at any moment it can end if and only if there is exactly one source (`EndsWithOneSource`),
  and only after that source has posted without its token (`EndsOnlyAfterQuit`); once the
  collector has decided to exit, `EndsIffPosted` says exactly when it is sure to end and
  when it can. A camera told to exit at a bad moment makes it hang too (`CameraHangs`).
- When one of several sources ends, the others wait for ever: only what is under way is
  still published, at most two objects if that source kept to its token (`CaptureStops`).
  One failed read is enough (`OneReadFails`). After a failed read the receiving thread of a
  camera just ends, its watchdog goes on, and nothing is published any more, with one source
  or several (`CameraBreaks`), unless somebody outside sets its flag (`ToldFromOutside`).
- Then the source's child does not come back from `first_action`, and the pipeline, though
  told to exit, never ends its threads (`HangIsFinal`, `ChildHangs`). Apart from a child
  that leaves this is the only way in which it can get stuck (`Processor.NoDeadlock`).
- A child that returns -1 leaves its loop, but its thread is not told: no continuation
  ends all threads (`LeavingIsFinal`, `ChildMayLeave`). Without such a status everything
  drains (`NoStatusNoLoss`, `DrainingShutdown`).
- A TCP header that arrives in more than one piece makes the loop ask for more bytes than
  the payload has, and the next read may go beyond the buffer; a header in one piece is
  always followed by its frame (`DeliveredIffHeaderWhole`). A size field that does not fit
  the configured lengths is only logged; for which sizes the frame is still sure to come
  says `DeliveredIffSizeMeets`.
- The status of a packet is compared with 0x80 only, so a packet whose status is
  PACKET_UNAVAILABLE (0x800c) goes into the image if and only if it is a data block
  (`UnavailableIsUsed`, `UnavailableByte`).
- The image buffer of a camera is filled without a check: the loop stays inside it if and
  only if no frame has too many data blocks (`BoundedIffFewBlocks`, `FrameTooBig`).
- 64-bit frame ids are not converted from network order (`ExtendedIdUnconverted`,
  `IdReadBackwards`).
- The tick conversion wraps outside a range that is stated exactly (`TimestampExact`,
  `TimestampWraps`).
- The count of used process slots is never reset: a second pipeline of the same size in
  one process starts completely only if it has at most two modules (`SecondPipeline`).
- A description fits its zone if and only if it has at most 16376 bytes (`DescriptionRoom`,
  `TextTooLong`).
- `pipeline_modules_update` accepts links that are no chain (`TwoWriters`,
  `OwnSuccessor`); which ones are the chain that the protocol needs is stated by `ChainIff`.

## Model

| member | source | states |
|---|---|---|
| PipelineOwnership.ChunkConservation | dclprocessor/pipeline/src/pipeline.c:34-36 | In every reachable state the ring, the threads and the unread messages together have every chunk offset exactly once: none is lost or duplicated. |
| PipelineOwnership.PushFindsRoom | dclprocessor/pipeline/src/pipeline_server.c:299-306 | Whenever a thread is about to push a chunk, the ring has room. |
| PipelineOwnership.ExclusiveBytes | dclprocessor/pipeline/src/pipeline_server.c:285-299 | Chunks in the hands of different modules share no byte and are not in the ring; a child works on the chunk its thread holds. |
| PipelineOwnership.OnlyHolderWrites | dclprocessor/pipeline/src/pipeline_client.c:114-132 | A chunk held by a module changes only by a step of that module's thread or child. |
| PipelineOwnership.MailboxExclusion | dclprocessor/pipeline/src/pipeline_module.c:22-24 | new_cmd, result, the writer and the reader of a mailbox always add up to one; messages are taken once, in order, as they were posted. |
| PipelineOwnership.ChildRendezvous | dclprocessor/pipeline/src/pipeline_client.c:124-131 | sem_job + sem_result is at most 1, and a slot is not used by the child while its thread fills it; a middle thread drops its chunk if and only if the action returned a status other than 0 and -1 for it; the child has left on its own if and only if its last status was -1, and a child that ends has stored 0. |
| PipelineOwnership.ReturnedEmpty | dclprocessor/pipeline/src/pipeline_server.c:50-56 | A chunk that the finalization is about to give back has the content it was given with the first byte, if any, set to 0. |
| PipelineRing.FirstInFirstOut | dclprocessor/pipeline/src/pipeline_server.c:197-197 | From any state: the chunks in the ring and then those given back in a run are those taken and then those in the ring at the end, in this order. |
| PipelineRing.ChunksInTurn | dclprocessor/pipeline/src/pipeline.c:34-36 | From the start the offsets dataOffset + i * dataSize are taken in this order, and then those given back, in their order. |
| PipelineSafety.StepKeeps | dclprocessor/pipeline/src/pipeline_server.c:272-313 | Every step of every thread, child and the environment keeps the invariant. |
| PipelineSafety.Reachable | dclprocessor/pipeline/src/pipeline.c:51-70 | The invariant holds in every state of every run from the moment all modules have started. |
| PipelineRefinement.StepSparesOthers | dclprocessor/pipeline/src/pipeline_server.c:30-57 | Whoever steps, the chunks of all other modules keep their contents. |
| PipelineRefinement.ReachableContent | dclprocessor/pipeline/src/pipeline_server.c:187-227 | In every reachable state each module has been given what its predecessor sent, in order, and lets through what its action lets through. |
| PipelineSequential.SequentialMeetsStages | dclprocessor/pipeline/src/pipeline_server.c:272-313 | Taking items one by one through all modules gives the same as letting each module work off all its input in turn. |
| PipelineSequential.OneItemMore | dclprocessor/pipeline/src/pipeline_server.c:299-306 | In the sequential run an item more is given to module 1; whatever a middle module is given goes on, as the result of its action, if and only if the status is 0 or -1; what the last module is given is finished. |
| PipelineSequential.NothingRejected | dclprocessor/pipeline/src/pipeline_server.c:299-306 | If all statuses are 0 or -1 every module is given as many items as were captured, and as many are finished. |
| PipelineSequential.AllRejected | dclprocessor/pipeline/src/pipeline_server.c:299-306 | If no status of one middle module is, no module behind it is given anything, and nothing is finished. |
| PipelineSequential.SequentialRefinement | dclprocessor/pipeline/src/pipeline_server.c:187-227 | In every interleaving the contents that reached the finalization are a prefix of those of the sequential run on the captured items (see OneItemMore), and so is what each child was given; the status of the source is not looked at. |
| PipelineLiveness.NoDeadlock | dclprocessor/pipeline/src/pipeline_server.c:187-242 | For any chain and any number of chunks: in every reachable state that is live or exiting, some thread or child can make a step that is more than polling, or all threads have ended, or a child has left. |
| PipelineLiveness.StuckMeansDone | dclprocessor/pipeline/src/pipeline_server.c:30-62 | If nobody can step and no child has left, all threads have ended. |
| PipelineLiveness.StepRankFalls | dclprocessor/pipeline/src/pipeline_server.c:229-237 | Once exit is set, every step of a thread or child lowers a ranking of chunks times remaining hops. |
| PipelineShutdown.DrainingShutdown | dclprocessor/pipeline/src/pipeline_server.c:229-242 | After exit the threads and children take a bounded number of steps in any order; where they stop, all have ended if and only if no child has left, and then every module was given exactly what it is given in the sequential run. |
| PipelineShutdown.TerminalAccounting | dclprocessor/pipeline/src/pipeline_server.c:299-326 | When all threads have ended every offset is in the ring, captured = dropped + finalized, every module was given and the finalization got exactly the sequential result, and each child got one STOP after all its jobs. |
| PipelineShutdown.TeardownSafe | dclprocessor/pipeline/src/pipeline.c:88-95 | Once a thread can be joined, no thread touches its module's semaphores or mailbox in any continuation. |
| PipelineFlags.NotLiveNoCapture | dclprocessor/pipeline/src/pipeline_server.c:188-195 | After a run in which the pipeline was last set not live, while nobody sets it live: a source at the head of its loop reaches neither the ring nor its child, captures nothing and posts nothing but its STOP. |
| PipelineFlags.HaltsOnlyOnExit | dclprocessor/pipeline/src/pipeline_server.c:187-187 | No thread, the source or one behind it, leaves its loop before exit has been raised. |
| PipelineFlags.EndInReach | dclprocessor/pipeline/src/pipeline_server.c:229-242 | Every reachable state, live or not, has a continuation in which exit is raised and then threads and children alone get to where all threads have ended, or a child has left. |
| PipelineThroughput.Throughput | dclprocessor/pipeline/src/pipeline_server.c:272-313 | In every run, live or not, exit set or not: after a reachable state threads and children make, but for the tests of the source, at most 64 * modules steps for every chunk that comes back to the ring, and once that for every chunk there is plus 24 * modules. |
| PipelineLost.LeavingIsFinal | dclprocessor/pipeline/src/pipeline_client.c:124-129 | After a child has left with status -1 no continuation ends all threads. |
| PipelineLost.ChildMayLeave | dclprocessor/pipeline/src/pipeline_client.c:114-137 | In every configuration there is a run that gets there. |
| PipelineLost.NoStatusNoLoss | dclprocessor/pipeline/src/pipeline_client.c:124-129 | If no capture and no action returns -1, a run that has seen exit and cannot go on has ended all threads, and every module was given what it is given in the sequential run. |
| PipelineObjects.Pipeline.constructor | dclprocessor/pipeline/src/pipeline_module.c:13-29 | The started objects are in the initial state of the model. |
| PipelineObjects.Pipeline.Others | dclprocessor/pipeline/src/pipeline.c:51-70 | Interference: everybody but the thread or child one looks at makes any steps that are enabled; the objects stay in a state of a run, which grows by these steps, and position, locals and history of that thread or child are kept. |
| PipelineThreads.ServerThread.Receive | dclprocessor/pipeline/src/pipeline_server.c:275-282 | One message is taken from the own mailbox by the four accesses in order, under interference, and noted as read; where none is, the thread is blocked. The run before is continued, and nothing is posted or dropped. |
| PipelineThreads.ServerThread.TestLive | dclprocessor/pipeline/src/pipeline_server.c:188-196 | The source goes on to the ring if and only if the pipeline is live, with the command in its mailbox; the run grows by this step. |
| PipelineThreads.ServerThread.TestResult | dclprocessor/pipeline/src/pipeline_server.c:299-299 | A middle thread goes on if and only if the result in its slot is 0, the source always; the run grows by this step. |
| PipelineThreads.ServerThread.RunChild | dclprocessor/pipeline/src/pipeline_server.c:287-296 | The same for a job of the own child: the run is continued to the answer or to where the thread is blocked, and nothing is taken, posted or dropped. |
| PipelineThreads.ServerThread.Forward | dclprocessor/pipeline/src/pipeline_server.c:309-312 | The chunk is posted to the next module, once, or the thread is blocked; the run is continued. |
| PipelineThreads.ServerThread.StopNext | dclprocessor/pipeline/src/pipeline_server.c:316-318 | STOP is posted to the next module, once, or the thread is blocked; the run is continued. |
| PipelineThreads.ServerThread.StopChild | dclprocessor/pipeline/src/pipeline_server.c:320-322 | STOP is given to the own child and its answer taken, or the thread is blocked; the run is continued, and nothing is taken, posted or dropped. |
| PipelineThreads.ServerThread.SourceThread | dclprocessor/pipeline/src/pipeline_server.c:187-237 | The loop of the source and its end, access by access under interference, continue the run; a turn has at least two own accesses; `sent` of the turns have posted one chunk each and found the pipeline live at some moment of this run, the others have found it not live; STOP is posted only after exit was raised, and is the last message; it has ended, is blocked, or has made all its turns. |
| PipelineThreads.ServerThread.ProcessThread | dclprocessor/pipeline/src/pipeline_server.c:272-322 | The same for a middle module: a turn takes one message and posts or drops one chunk; at the end STOP is the last message taken and the last posted. |
| PipelineThreads.ServerThread.FinalizationThread | dclprocessor/pipeline/src/pipeline_server.c:30-57 | The same for the last module: as many messages taken as turns, and STOP at the end. |
| PipelineChild.ChildProcess.Act | dclprocessor/pipeline/src/pipeline_client.c:114-132 | The chunk becomes the result of the action; the child leaves if and only if the status is -1, and stores 0 then and the status otherwise. |
| PipelineChild.ChildProcess.PipelineProcess | dclprocessor/pipeline/src/pipeline_client.c:105-137 | The same for a child: as many commands worked off as turns; it ends only after STOP or a status -1, and in the source's child no earlier input had the status -1. |
| PipelineLayout.FillRing | dclprocessor/pipeline/src/pipeline.c:34-36 | The ring is filled with the offsets of all chunks, in order, computed in size_t without wrapping. |
| PipelineLayout.WorkedOnExclusively | dclprocessor/shmem/include/shmem/memory_map.h:61-78 | In every reachable state a byte of a chunk being worked on is in no other held chunk, no process slot and no description. |
| PipelineBytes.StepShows | dclprocessor/shmem/include/shmem/memory_map.h:60-78 | The stores of a step of any thread or child lie in its module's slot and chunk; if the bytes showed the slots and chunks of the model before, they do after. |
| PipelineBytes.SegmentAfterRun | dclprocessor/processor/src/dclprocessor.c:206-214 | After any run the bytes of the segment are those of the model's slots and chunks, and the map and the description written at initialisation are unchanged. |
| CollectorObjects.PublishOnlyWhenComplete | dclprocessor/processor/src/dclprocessor.c:36-67 | In every run: when first_action takes a name, every source has settled its number of frames for that object, and one still running has been told to exit; unless a watchdog was hasty, none is about to add a frame. |
| CollectorObjects.PublishedNeverChanges | dclprocessor/collector/src/source.c:49-71 | In any continuation, exit flags raised or not, a published object keeps its frames, in runs in which no watchdog posts during add_frame. |
| CollectorObjects.AtMostOneLateFrame | dclprocessor/collector/src/source.c:49-71 | In every run: after an object was published a TCP source adds no frame to it and a camera at most one, the one inside whose add_frame it was when its watchdog posted. |
| CollectorObjects.FramesPerObject | dclprocessor/collector/src/source.c:49-82 | In every run: the name present at start and the first object dispatched have no frames; every later one has between 1 and the limit from each source not told to exit, exactly the limit without a detection callback, and never more than the limit. |
| CollectorVerdicts.ConsecutiveFrames | dclprocessor/collector/src/source.c:49-71 | In every run with an add_frame callback, as long as the source has not been told to exit: its first frame goes to object 2; a later one to the object of the frame before if the detection callback did not report it and fewer than `limit` frames have gone there, and otherwise to the next object. |
| CollectorVerdicts.AssignedObjects | dclprocessor/collector/src/source.c:49-82 | So the objects of all frames are those that the answers of the callback assign to them, and at most one judged frame has not been added yet. |
| CollectorObjects.BarrierToken | dclprocessor/collector/src/collector.c:24-81 | In every run: data_ready, empty_ready, first_action and the collector share one token, and each source that has not given it up has its own; collector->data is not read while it is written, a source that has not given up its token does not use its name while it is copied, and no two sources are more than one round apart. |
| CollectorObjects.NameHandedOut | dclprocessor/collector/src/collector.c:66-81 | In every run: when the collector thread has copied the name to all sources and is not told to exit, it is the name of every source. |
| CollectorObjects.TcpSourcesAreSafe | dclprocessor/collector/src/source.c:135-215 | With TCP sources only, no run at all changes a published object, for any number of sources. |
| CollectorCamera.SafeWithoutCameras | dclprocessor/collector/src/source.c:94-133 | All runs keep published objects unchanged if and only if there is no camera source or no add_frame callback. |
| CollectorCamera.CameraIsUnsafe | dclprocessor/collector/src/source.c:110-123 | With a camera among any number of sources there is a run in which it is told to exit, all others complete their object, and it gets a frame after it was published. |
| CollectorCamera.SafeByItself | dclprocessor/collector/src/source.c:110-123 | In runs in which flags are set only by failed reads no published object changes, with any sources. |
| CollectorInvariant.StepKeeps | dclprocessor/collector/src/collector.c:18-109 | Every step of every thread keeps the token and frame-count invariants, hasty watchdogs and the collector's shutdown included. |
| CollectorProgress.NoDeadlock | dclprocessor/collector/src/collector.c:36-90 | In every reachable state some thread can make a step that is more than polling, or the collector thread has ended, or it waits for a source that cannot step: one that has ended, or has been told to exit and waits for the collector. |
| CollectorProgress.InVainForEver | dclprocessor/collector/src/collector.c:39-46 | Such a wait lasts for ever: in any continuation if the source has been told to exit, otherwise as long as nobody outside sets its flag. |
| CollectorProgress.ToldFromOutside | dclprocessor/collector/src/source.c:110-123 | Setting the flag of a camera whose thread has ended untold ends that wait. |
| CollectorProgress.CaptureStops | dclprocessor/collector/src/collector.c:39-60 | In every run with several sources of which one has ended, a camera whose thread ended untold included, any continuation publishes only what is under way, at most two objects if that source kept to its token. |
| CollectorProgress.OneReadFails | dclprocessor/collector/src/source.c:170-174 | For every TCP source among several there is a run, of the modelled code alone, in which its first read fails and after which no continuation has more than two published objects. |
| CollectorProgress.CameraBreaks | libcapture/GigE/src/gige_camera.c:112-147 | For every camera among any number of sources there is a run, of the modelled code alone, in which its first read fails and after which no continuation of that code has more than one published object. |
| CollectorThroughput.Publications | dclprocessor/collector/src/collector.c:36-90 | From any reachable state without exit flags, as long as frames arrive, the threads make at most RoundSteps + 7 steps, in whatever order, for every object published, and once 3 * RoundSteps + 8. |
| CollectorThroughput.BudgetIs | dclprocessor/collector/src/source.c:49-82 | RoundSteps is the number of sources times 6 * limit + 13, plus 7; the budget of Publications written out. |
| CollectorEnd.EndsWithOneSource | dclprocessor/collector/src/collector.c:53-60 | If exit flags may be set from outside at any moment, the collector thread can end if and only if there is exactly one source. |
| CollectorEnd.EndsOnlyAfterQuit | dclprocessor/collector/src/collector.c:92-103 | In every run, whatever flags are set: the thread has ended only if there is exactly one source and that source has posted data_ready without its token. |
| CollectorEnd.NeverEndsByItself | dclprocessor/collector/src/source.c:170-174 | In no run in which flags are set only by failed reads does it end, for any number and kinds of sources. |
| CollectorEnd.EndsIffPosted | dclprocessor/collector/src/collector.c:92-103 | In every reachable state with the collector's exit flag set: every continuation can be extended to the end of the thread if and only if the last post has been taken or will come (watchdog not done, or at a boundary; TCP source not ended and not waiting for empty_ready); some continuation ends it if and only if, besides, the detection callback may still begin an object. |
| CollectorEnd.FailedReadHangs | dclprocessor/collector/src/source.c:170-174 | With one TCP source whose first read fails the collector reaches its last wait, with the source ended and nothing posted, and no continuation leaves that wait. |
| CollectorEnd.CameraHangs | dclprocessor/collector/src/source.c:110-123 | The same for one camera that is told to exit while its thread waits for a frame, although it has posted without its token and has no empty_ready left. |
| CollectorLoops.LeavesOnlyIfTold | dclprocessor/collector/src/source.c:152-176 | In every run: a source has left its receive loop only if a read of it failed, or its stream was stopped (camera), or its exit flag set (TCP). |
| CollectorLoops.ToldTakesNone | dclprocessor/collector/src/source.c:152-152 | A source told to leave while it stands at the head of its loop judges and adds no frame in any continuation. |
| CollectorParts.Collector.constructor | dclprocessor/collector/src/collector.c:176-185 | The objects start in the initial state of the model: data_ready 1, all other semaphores 0. |
| CollectorParts.Collector.Others | dclprocessor/collector/src/source.c:94-133 | Interference: everybody but the thread one looks at makes any enabled steps; the objects stay in a state of a run, which grows by these steps, and what only that thread changes is kept. |
| SourceThreads.ObservedSource.NewFrame | dclprocessor/collector/src/source.c:49-82 | new_frame_action, access by access under interference, continues the run to the head of the loop, or the source is blocked; the frame is added once, surely if the source has not been told to exit and there is a callback, and not if it was told before. The count becomes 1 if the frame is reported or the limit was reached, and one more otherwise; a frame added by a source not told to exit goes to the next object in the first case and to the same in the second. |
| SourceThreads.ObservedSource.Receive | dclprocessor/collector/src/source.c:152-211 | The receiving thread continues the run by at least four accesses a turn; of the frames that arrived it adds a first part, in order: all, unless it has been told to exit, and none without a callback; those of a source not told to exit go to the objects that the answers of the detection callback assign to them; it has ended, by a failed read or told to, is blocked, or has had all frames. |
| SourceThreads.ObservedSource.Watch | dclprocessor/collector/src/source.c:110-123 | The watchdog continues the run: its loop and the three accesses after it, after which the stream is stopped and the exit flag set, or it still watches and nobody has told it to exit. |
| CollectorThreads.CollectorThread.HandOut | dclprocessor/collector/src/collector.c:66-81 | The collector waits for a name, copies it to one source after the other and posts each, so that every source has the name in the end, or is blocked; the run is continued, without a post of data_ready. |
| CollectorThreads.CollectorThread.Collect | dclprocessor/collector/src/collector.c:39-60 | It waits for all sources, posts data_ready once, and sets its exit flag as the code does, or is blocked and has not posted; the run is continued. |
| CollectorThreads.CollectorThread.Finish | dclprocessor/collector/src/collector.c:92-103 | It stops every source and waits for its last post, and posts data_ready once, or is blocked and has not; the run is continued. |
| CollectorThreads.CollectorThread.CollectData | dclprocessor/collector/src/collector.c:24-104 | The whole thread continues the run under interference; every turn has posted data_ready once, and so has the end; it has ended, is blocked, or has made all its turns. |
| CollectorThreads.FirstAction.Run | dclprocessor/processor/src/dclprocessor.c:29-69 | A call of first_action continues the run under interference: it publishes the name it took, in seven own steps, or waits for data_ready after one, or finds the exit flag set, as it does if it was set before, and makes one step, the test with the post of empty_ready, and publishes nothing. |
| Processor.Projects | dclprocessor/pipeline/src/pipeline_client.c:114-132 | A run of the whole is a run of the pipeline and a run of the collector, so what is proved of either holds of the whole. |
| Processor.CapturedNames | dclprocessor/processor/src/dclprocessor.c:29-69 | In every run of the whole the source's child has captured the published names, each once, in order of their generation, all but at most the last; and nothing else unless the collector has been told to exit. Its status is always 0, and it does not leave on its own. |
| Processor.CallReturns | dclprocessor/processor/src/dclprocessor.c:29-50 | When first_action returns, the chunk holds the name it took, or, if it took none, what it held before; no other chunk changes. |
| Processor.PublishedInOrder | dclprocessor/processor/src/dclprocessor.c:50 | Until then what has reached the finalization is a prefix of what the sequential program yields on the published names. |
| Processor.NoDeadlock | dclprocessor/processor/src/dclprocessor.c:36 | In every reachable state of the whole in which the pipeline is live or has been told to exit, some thread or child on either side can work, or all threads of the pipeline have ended, or a child has left, or the source's child waits in first_action while the collector waits in vain. |
| Processor.HangIsFinal | dclprocessor/processor/src/dclprocessor.c:36 | In that last case no continuation brings the call back, captures anything or ends all threads of the pipeline, unless somebody outside sets the flag of an untold source. |
| Processor.CapturesStop | dclprocessor/processor/src/dclprocessor.c:36-50 | With several sources of which one has ended, the child captures in any continuation at most as many items as objects are published or under way. |
| ProcessorRuns.ChildHangs | libcapture/GigE/src/gige_camera.c:112-147 | That case is reached by the modelled code alone, with any pipeline of two chunks or more, if the first source is a camera whose first read fails. |
| TcpReassembly.DataSource.OnBytes | dclprocessor/collector/src/source.c:183-208 | The branches after a read, on the packet buffers in place, compute the specified next state. |
| TcpReassembly.DataSource.ReceiveLoop | dclprocessor/collector/src/source.c:143-210 | The loop computes the specified run for every sequence of results of read(). |
| Bytes.LeastFirst | dclprocessor/collector/src/source.c:188-189 | Integers are stored with the least significant byte first. |
| TcpFrames.HeaderFields | libcapture/FakeTCP/src/cvgenerator.cpp:36-52 | The size and id read from a header are those the sender wrote. |
| TcpFrames.StreamReassembled | dclprocessor/collector/src/source.c:143-210 | However read() cuts the payloads, empty reads included, the frames delivered are exactly the records that arrived completely, in order, provided no header is cut. |
| TcpFrames.WholeWire | dclprocessor/collector/src/source.c:203-208 | Once all bytes have arrived all records have been delivered. |
| TcpFrames.HeaderInPieces | dclprocessor/collector/src/source.c:184-202 | After a header in pieces the loop asks for as much too much as the last piece was shorter than the header. |
| TcpFrames.DeliveredIffHeaderWhole | dclprocessor/collector/src/source.c:187-202 | The frame is delivered whatever read() does next if and only if its header came in one piece. |
| TcpSizes.AnyHeaderInPieces | dclprocessor/collector/src/source.c:187-202 | After any header, in however many pieces, the loop has its id and asks for the size in it minus the length of the last piece, in size_t. |
| TcpSizes.DeliveredIffSizeMeets | dclprocessor/collector/src/source.c:187-208 | For every size in the header and every way the header is cut: the payload is delivered, with the id in the header, whatever read() does next, if and only if that request plus a whole number of header lengths is the length of the payload. |
| Gvsp.Camera.OnPacket | libcapture/GigE/src/gige_camera.c:149-277 | The work on one packet, in place, computes the next grouping state and delivers the frame it ends. |
| Gvsp.Camera.OnDatagram | libcapture/GigE/src/gige_camera.c:131-151 | A short packet leaves the rest of the receive buffer as it was. |
| Gvsp.Camera.GvspThread | libcapture/GigE/src/gige_camera.c:104-278 | The loop delivers the specified frames for every sequence of arrivals, and stays inside the image buffer exactly when the specification says so. |
| GvspWire.FieldsReadBack | libcapture/GigE/include/udpcapture/gvsp.h:64-150 | For all values of the fields, in either header format: status, content type and payload of a packet are read as a sender wrote them in network order, a 16-bit frame id too, and a 64-bit one with its bytes reversed; a packet is an error if and only if its status is 0x80. |
| GvspFrames.EmittedIsGrouping | libcapture/GigE/src/gige_camera.c:159-175 | The frames delivered are the packets grouped by frame id (see FieldsReadBack for the id), without leading packets of id 0 and without the unfinished last group, each with its own id and its non-error data blocks in order of arrival. |
| GvspFrames.BoundedIffFits | libcapture/GigE/src/gige_camera.c:238-241 | The image buffer is not exceeded if and only if the blocks of every group fit it. |
| GvspFrames.BoundedIffFewBlocks | libcapture/GigE/src/gige_camera.c:238-241 | The same as a count: no group has so many data blocks that their number times the receive buffer without header exceeds the image buffer. |
| GvspSender.FrameTooBig | libcapture/GigE/src/gige_camera.c:238-241 | 80428 data blocks in packets of 1500 bytes fit it, 80429 exceed it. |
| GvspSender.ReceivedFills | libcapture/GigE/src/gige_camera.c:131-151 | Each datagram is the beginning of the receive buffer of packet_size bytes that is worked on. |
| GvspSender.SenderRoundTrip | libcapture/GigE/src/gige_camera.c:239-241 | What a camera sends, given by the values of the header fields and payloads, as datagrams of at most packet_size bytes, is delivered frame by frame but for the last: with the ids sent, 64-bit ones byte-reversed; an image is the one sent if and only if every packet with image data was packet_size bytes long, and otherwise not shorter and different. |
| GvspSender.ShortBlockIsPadded | libcapture/GigE/src/gige_camera.c:239-241 | A one-byte block is delivered with the rest of the receive buffer behind it. |
| GvspSender.UnavailableIsUsed | libcapture/GigE/include/udpcapture/gvsp.h:84-86 | What a packet of status PACKET_UNAVAILABLE carries is delivered if and only if it is a data block. |
| GvspSender.UnavailableByte | libcapture/GigE/include/udpcapture/gvsp.h:44-48 | Such a packet with one byte, whose byte is delivered as the image of its frame. |
| GvspIds.ExtendedIdUnconverted | libcapture/GigE/include/udpcapture/gvsp.h:119-129 | A 64-bit id is delivered as sent if and only if it is a palindrome of bytes; ids stay distinct. |
| GvspIds.IdReadBackwards | libcapture/GigE/include/udpcapture/gvsp.h:119-129 | Id 2^56 is delivered as 1. |
| GvspTimestamp.TicksOfHalves | libcapture/GigE/include/udpcapture/gvsp.h:200-200 | timestamp_high is the quotient and timestamp_low the remainder of the ticks by 2^32, and the ticks are the only number of which this holds. |
| GvspTimestamp.SplitQuotient | libcapture/GigE/include/udpcapture/gvsp.h:200-204 | Whole seconds and rest add up to floor(t * 10^9 / f). |
| GvspTimestamp.TimestampExact | libcapture/GigE/include/udpcapture/gvsp.h:190-207 | The 64-bit computation equals that quotient if and only if neither the product of the rest nor the result reaches 2^64. |
| GvspTimestamp.TimestampInRange | libcapture/GigE/include/udpcapture/gvsp.h:190-207 | From the two halves of the ticks comes the exact time, for every frequency with (f - 1) * 10^9 < 2^64 and every result below 2^64. |
| GvspTimestamp.TimestampMonotone | libcapture/GigE/include/udpcapture/gvsp.h:190-207 | In that range pairs of halves that are not later in lexicographic order never give a later time. |
| GvspTimestamp.TimestampWraps | libcapture/GigE/include/udpcapture/gvsp.h:190-207 | Two clocks and times for which it wraps. |
| SharedMemory.AlignMeans | dclprocessor/shmem/include/shmem/memory_map.h:8 | MEMORY_ALIGN gives the smallest multiple of 256 that is not less. |
| SharedMemory.RegionsTile | dclprocessor/shmem/include/shmem/memory_map.h:33-78 | Map, process table, chunks and descriptions follow each other without gap or overlap, fill the segment and have room for their contents. |
| SharedMemory.SlotInside | dclprocessor/shmem/include/shmem/memory_map.h:61-64 | A process slot lies behind the map and before the chunks, at its number times the size of a slot. |
| SharedMemory.ChunkInside | dclprocessor/shmem/include/shmem/memory_map.h:66-70 | A chunk lies inside the data region, at its number times the size of a chunk. |
| SharedMemory.StoreBetween | dclprocessor/shmem/include/shmem/memory_map.h:60-70 | A store into a slot or chunk goes to that offset of that slot or chunk, between map and descriptions. |
| SharedMemory.ElementsApart | dclprocessor/pipeline/src/pipeline_client.c:99 | Different slots, and different chunks, share no byte. |
| SharedMemory.StoresSpareEnds | dclprocessor/shmem/include/shmem/memory_map.h:60-78 | Any stores into slots and chunks leave the map and the descriptions as they were. |
| SharedMemory.DescriptionSurvives | dclprocessor/processor/src/dclprocessor.c:206-214 | The description written at initialisation is read back unchanged after any such stores: eight bytes with the length of the text, and the text behind them, at the beginning of its zone. |
| SharedMemory.DescriptionRoom | dclprocessor/processor/src/dclprocessor.c:183-185 | There is room for it if and only if the text has at most 16376 bytes. |
| SharedMemory.TextTooLong | dclprocessor/processor/src/dclprocessor.c:206-214 | The last byte of a text of 16377 bytes would be stored behind the segment. |
| SharedMemory.PatchedAt | dclprocessor/shmem/src/shared_memory.c:128-133 | A patched segment has the new bytes at their places and all others unchanged. |
| SharedMemory.Segment.WriteData | dclprocessor/shmem/src/shared_memory.c:128-133 | Exactly the addressed bytes of the segment change. |
| SharedMemory.Segment.WriteDescriptions | dclprocessor/shmem/src/shared_memory.c:142-147 | The same in the description region. |
| SharedMemory.Segment.WriteProcesses | dclprocessor/shmem/src/shared_memory.c:156-161 | The same in the process table. |
| SharedMemory.Segment.ReadDescriptions | dclprocessor/shmem/src/shared_memory.c:149-154 | Returns the addressed bytes. |
| SharedMemory.Segment.PutDescription | dclprocessor/processor/src/dclprocessor.c:206-214 | The server's two writes give the described segment. |
| SharedMemory.Segment.GetDescription | dclprocessor/processor/src/dclprocessor.c:279-285 | The client's two reads give the description. |
| ProcessTable.Table.InitSlot | dclprocessor/process/src/process_mngr.c:19-32 | A slot gets both semaphores or none. |
| ProcessTable.Table.Init | dclprocessor/process/src/process_mngr.c:42-58 | All slots are ready and the limit is set if and only if every sem_init works; otherwise no semaphore is left and the limit stays. |
| ProcessTable.Table.Start | dclprocessor/process/src/process_mngr.c:72-150 | The next number, or -1; a slot is used up even when the program cannot be started. |
| ProcessTable.Table.StartModules | dclprocessor/pipeline/src/pipeline.c:51-77 | The numbers given out are consecutive and inside the table, for the longest startable prefix of the modules; the pipeline reports a proper start from two on. |
| ProcessTable.Table.Destroy | dclprocessor/process/src/process_mngr.c:60-70 | No semaphore is left and no slot can be given out. |
| ProcessTable.AllStart | dclprocessor/pipeline/src/pipeline.c:51-70 | All modules start if and only if the slots suffice and every launch works; otherwise the first failure is one of the two. |
| ProcessTable.SecondPipeline | dclprocessor/process/src/process_mngr.c:95-97 | A second pipeline of n modules with n + 2 slots starts completely if and only if n <= 2. |
| ModuleList.Get | dclprocessor/pipeline/src/pipeline_module.c:40-56 | The first module with the id, or none. |
| ModuleList.LinksMean | dclprocessor/pipeline/src/pipeline_module.c:40-56 | The link of a module leads to the first module in the list with the id it names, and nowhere if and only if there is none. |
| ModuleList.LinkInOrder | dclprocessor/pipeline/src/pipeline_module.c:116-133 | The loop sets the links in order, up to and including the second module whose successor is missing. |
| ModuleList.Update | dclprocessor/pipeline/src/pipeline_module.c:113-135 | 0 if and only if at most one successor is missing, all links set; otherwise it stops at the second one, which alone is marked, and later links keep their values. |
| ModuleChain.AcyclicMeansOneTail | dclprocessor/pipeline/src/pipeline_module.c:113-135 | After a successful update of a non-empty list the links are acyclic if and only if there is a tail that every module reaches in fewer hops than there are modules; it is the only one. |
| ModuleChain.NoTailMeansCycle | dclprocessor/pipeline/src/pipeline_module.c:121-131 | Without a tail there is a cycle. |
| ModuleChain.ChainIff | dclprocessor/pipeline/src/pipeline_module.c:113-135 | The links are one chain through all modules if and only if they are acyclic, have at most one tail and no module has two predecessors. |
| ModuleChain.TwoWriters | dclprocessor/pipeline/src/pipeline_module.c:113-135 | Three modules of which two have the same successor pass the update and are no chain. |
| ModuleChain.OwnSuccessor | dclprocessor/pipeline/src/pipeline_module.c:113-135 | So does one module that is its own successor. |

## Assumptions

- A semaphore is a natural number; waiting for it and decrementing it is one step
  (sem_wait and sem_post of POSIX.1-2017). `sem_wait` is not interrupted.
- The ring of free chunks is a blocking first-in first-out sequence whose operations are
  atomic; its implementation is not part of this model. That it is big enough is proved.
- A module's action on its chunk is one step. That this loses nothing follows from
  `OnlyHolderWrites` and `ExclusiveBytes`: nobody else touches that chunk meanwhile.
- How the content of a chunk and the fields of a slot are laid out in bytes is arbitrary.
- A source's data arrives sooner or later or its read fails, and callbacks return; that
  `first_action` may not return is part of `Processor`.
- The chain is well formed (see `ChainIff`) and all modules have started (see `AllStart`).
- Generated object names never repeat; they are modelled as numbers.
- The host is little-endian, `size_t` has 8 bytes, `int` 4, `memory_map_t` 48.

## Left out

- PublishedNeverChanges: restricted to runs in which no watchdog posts during add_frame; `SafeWithoutCameras` says for which configurations that is every run, and `AtMostOneLateFrame` what holds in the others.
- StreamReassembled: requires that no header is cut; `DeliveredIffHeaderWhole` shows that this is needed.
- PipelineThreads, PipelineChild, SourceThreads, CollectorThreads: a loop is observed for a given number of turns and as long as the steps of the others are given; that it blocks for ever is not expressed in these methods but in the results on the step systems.
- `initial_thread`, a placeholder source that waits on a slot without a child.
- A pipeline that runs although a module failed to start, and `pipeline_destroy`.
- Destruction of the collector and its sources: `source_destroy`, the only place outside the modelled code where a source's exit flag is set, also posts its empty_ready and closes its descriptors.
- `process_kill_all` and waiting for children; fork and exec beyond their outcome; signals; `shm_open`, `mmap`, environment variables, sleeps, logging.
- The reading counterparts for process slots and chunks in `shared_memory.c`, which mirror the writing ones.
- In `camera_gvsp_thread` the tracking of received packets: `n_packets` stays 0, so these branches are never taken. The path after an interrupted `recvfrom`, which goes on with a freed buffer. GVSP leader and trailer contents, except the timestamp.
- Ring buffer, list, file and log helpers; they are not part of this model.
- The TCP server and client plumbing, GVCP, device discovery, JSON descriptions, OpenCV and boost parts.
