# Video processing engine: models and proofs

A Dafny model of the stateful parts of the video processing engine, with proofs about every run.
`dafny verify dfyconfig.toml` checks the whole project.

## What is modelled

* **The frame pipeline** (`PipelineSpec`, `PipelineInvariant`, `PipelineHistory`, `PipelineTheorems`, `ProducerCache`,
  `VpeVideo`). A worker thread moves buffers between a consumer queue, a producer queue, a render map, a flush queue, an
  attach queue with a mirror set of ids, and a bounded producer cache, while API calls and surface callbacks run at the
  same time. Each region under a lock is one action of a state machine; a test made before the lock is taken is no part
  of it. Any interleaving of actions is a run. `VpeVideoImpl` is the object itself, with the fields under one lock kept
  in one record: `Valid()` says that its fields are where a legal run leads, and every method keeps that and names the
  actions by which the run goes on, so what is proved of all runs is true of every object. `PipelineRuns` holds the runs
  that show where a promise fails.
* **The older pipelines** (`PoolSpec`, `PoolTheorems`, `PoolHistory`, `PoolRuns`, `PoolVideo`): AI-HDR enhancer,
  colour-space converter and metadata generator share a nine-state life cycle; the first two recycle a pool of output
  buffers. The class has the same kind of `Valid()`.
* **The client registry** (`ClientIds`, `RegistrySpec`, `RegistryTheorems`, `RegistryRuns`, `RegistryServer`): two maps in
  the server, one client table in each algorithm, packed and wrapping client numbers. The server class holds references
  to algorithm objects, which calls in flight share.
* **The extension manager** (`InstanceTable`, `CapabilityIndex`) and **packed colour-space keys** (`ColorSpaceKey`).
* **Plane copying** between pixelmaps and surface buffers (`PlaneRows`, `PlaneLayout`, `PlanePlaces`, `PlaneCopy`).
* **Quality fallback of the detail enhancer** (`DetailLevels`, `DetailEnhancer`).

Each method states the new state of its object field by field. Theorems about runs are also said of the calls alone:
`PipelineHistory` and `PoolHistory` read what came in, and since when something is so, off the steps of a run
(`Histories`).

Surfaces, processing libraries, hooks and factories appear as parameters of the operations: whether a call succeeded,
which buffer it yielded, which buffers were refused. The order in which a hash map is walked is arbitrary.

## Assumptions about the surroundings

* Pipeline: the input surface hands out no buffer that it believes is held; a successful request yields a buffer in a new
  record; only buffers taken from the render map are rendered; Initialize is not called while Deinitialize runs. Locks
  are not modelled, so runs include interleavings that the locks forbid.
* Older pipelines: the pool is filled with different buffers that it does not know, and a request yields a buffer
  recorded as flushed, or an unknown one. FlushBuffer and the recording are one step; `ReturnConservesIff` shows that
  this is exactly what conservation needs.
* Registry: exact agreement needs working context hooks; `CreateKeepsExactIff` and `DestroyKeepsExactIff` say precisely
  where. Everything else holds whatever the hooks answer.
* Classes start as their headers initialise them (for the frame pipeline algorithm_video_impl.h, the members after
  "Common"): counters and cursors at 0, containers empty, processing enabled.
* Plane copying: the memories of the two objects are different (a pixelmap that is itself DMA memory is never copied)
  and the addressed rows lie inside them. `memcpy_s` refuses a size that is not positive.

## What the proofs bring to light

* A buffer request that releases attach entries overwrites its buffer variable with the last of them
  (algorithm_video_impl.cpp:691-698), and the caller then pops the flush queue by that number (517-518):
  `RequestedKeyIff`, `FlushQueueAfterReturnIff`, `ReturnLosesFlushed`.
* A worker that finds the processor dead in the bypass branch neither releases nor keeps its input buffer
  (algorithm_video_impl.cpp:944-947): `DropIff`, `DeinitializeReleasesAllIff`, `DeinitializeDropsFrame`.
* In the older pipelines a flush with a pending EOS marker, or with a refused release, returns an error and loses the
  frames behind it (`FlushLosesFrame`); a flush has no check of the state, so it can lead to RUNNING without a callback
  (`EarlyFlushRunsWithoutCallback`), and it can meet an input surface that is gone (`FlushMeetsNoSurface`); and a
  colour-space flush can reclaim a wrapper that is marked EOS, after which a frame is announced as the end of the stream
  (`FlaggedFlushMisleads`).
* Feature bytes of client numbers collide from 257 features on, and then a new client can take the place of a live one
  (`ManyFeaturesOverwrite`).
* A context hook that fails on creation leaves a client that only the algorithm knows (`CreateHookLeaksClient`); one that
  fails for the last client leaves a listed algorithm without clients (`DestroyHookLeavesEmpty`).
* Colour-space fields that are too wide spill over, because the packed fields are added; each such description then falls
  together with a valid one.
* Without plane information the Y rows are counted by the pixelmap but the UV offset by the buffer, so a taller pixelmap
  overlaps its own UV plane and is lost (`TallPixelmapIsLost`). The height taken from plane information is
  the number of rows before the plane.
* Restoring the detail enhancer after a lost service runs at the level to which the failed pass had already fallen
  (`RestoreKeepsLevelIff`), and a second loss during the restore waits for a lock that the caller holds
  (`ProcessBlocksIff`, `LostTwiceBlocks`; detail_enhancer_image_fwk.cpp:215 and 325).

## Model

| member | source | states |
|---|---|---|
| PipelineTheorems.InputBuffersOwnedOnce | framework/algorithm/common/algorithm_video_impl.cpp:453-501 | After any run, every acquired and not yet released input buffer is in exactly one of consumer queue, worker's hand, attach queue, pending drain, or is the one frame a Deinitialize may drop; released at most once per acquisition; the mirror id set is exactly the ids of the attach queue |
| PipelineTheorems.DeinitializeSettles | framework/algorithm/common/algorithm_video_impl.cpp:298-334 | When Deinitialize returns everything acquired has been released, except at most one dropped frame for each Deinitialize; the state is IDLE and every RUNNING report has its STOPPED |
| PipelineTheorems.DeinitializeReleasesAllIff | framework/algorithm/common/algorithm_video_impl.cpp:298-334 | When Deinitialize returns, acquired equals released if and only if the worker never gave up a frame in the bypass branch of the run |
| PipelineRuns.DeinitializeDropsFrame | framework/algorithm/common/algorithm_video_impl.cpp:939-945 | A legal run in which Deinitialize begins while a frame is about to be bypassed: it returns with that buffer acquired, not released, and nowhere in the pipeline |
| PipelineTheorems.RequestedKeyIff | framework/algorithm/common/algorithm_video_impl.cpp:660-705 | After a request the buffer variable still names the returned buffer if and only if the mode is bypass, or nothing or that very buffer stands first in the attach queue |
| PipelineTheorems.FlushQueueAfterReturnIff | framework/algorithm/common/algorithm_video_impl.cpp:503-529 | The flush queue loses exactly what was flushed up to the returned buffer if and only if it is popped by that number or neither number stands before its last entry; popped by a number it does not hold, it is lost whole |
| PipelineRuns.ReturnLosesFlushed | framework/algorithm/common/algorithm_video_impl.cpp:503-529 | A legal run to a state in which a returned buffer makes the queue lose an entry that should stay |
| PipelineTheorems.FramesAnnouncedInOrder | framework/algorithm/common/algorithm_video_impl.cpp:840-937 | Against the sequence of accepted arrivals, read off the calls alone (a buffer with its own timestamp while RUNNING, a marker while not IDLE): announcements are a strictly increasing selection of it, each with its own timestamp and flag, and the consumer queue is its tail, through processing, bypass, failure and flush |
| PipelineTheorems.IndicesAreOneShot | framework/algorithm/common/algorithm_video_impl.cpp:587-635 | Per index: successful lookups, counted by the calls, plus one if the index is still in the render map never exceed the announcements of it (counting the one in progress); each key is the sequence number of its buffer |
| PipelineTheorems.ReportsAlternate | framework/algorithm/common/algorithm_video_impl.cpp:134-157 | Reports strictly alternate RUNNING, STOPPED from RUNNING on, and the state is IDLE exactly when none is unanswered, however Start, Stop, Deinitialize and the stop check interleave |
| PipelineTheorems.GuardsNeverFire | framework/algorithm/common/algorithm_video_impl.cpp:894-916 | Null-buffer guards are dead: only EOS markers lack a buffer, all output queues hold real buffers, and a search for an attached id always ends at that buffer |
| PipelineTheorems.SwapKeepsEnoughBuffers | framework/algorithm/common/algorithm_video_impl.cpp:725-772 | A successful surface swap empties the flush queue; the producer queue is old real producer entries, old real flush entries, then cache entries in neither; queue plus render map reach the cache size on both return paths |
| PipelineTheorems.SwapRefills | framework/algorithm/common/algorithm_video_impl.cpp:725-772 | On the queues that runs have: a new surface's producer queue is the old queue, then the old flush queue, in order, and, where these and the render map are fewer than the cache, every cached buffer in neither, once |
| PipelineHistory.HistoryIsTrue | framework/algorithm/common/algorithm_video_impl.cpp:453-501 | What came in, which lookups succeeded and how often Deinitialize had something to end, each exactly as the calls say it |
| PipelineHistory.PhaseSince | framework/algorithm/common/algorithm_video_impl.cpp:134-157 | RUNNING exactly since a Start that found everything ready, until Stop or a Deinitialize; STOPPING exactly since it was ended while RUNNING, until that is answered |
| PipelineHistory.FlagsSince | framework/algorithm/common/algorithm_video_impl.cpp:199-228 | Enabled, initialised, callback and both surfaces: each exactly as the last call that had a say in it left it, an invalid input buffer disabling like Disable |
| PipelineHistory.IndexSince | framework/algorithm/common/algorithm_video_impl.cpp:587-604 | An index can be looked up exactly since the worker put an image up under it, until it is looked up, flushed or cleared |
| PipelineHistory.ImageOfLastAnnounced | framework/algorithm/common/algorithm_video_impl.cpp:918-988 | The image found under an index carries the timestamp of the frame last announced under it |
| PipelineHistory.MarkedSince | framework/algorithm/common/algorithm_video_impl.cpp:606-635 | A cached buffer is marked as flushed exactly since it was handed to the surface, with the time of that, until the surface grants it again or takes it as an attached one |
| PipelineHistory.EvictsFirstHandedOver | framework/algorithm/common/algorithm_video_impl.cpp:800-828 | In any run, for any hash-map order: the trim removes min(handed over and not granted since, surplus) buffers, those handed over first |
| PipelineHistory.GrantedIsCached | framework/algorithm/common/algorithm_video_impl.cpp:774-789 | A buffer just granted or attached is in the cache, whatever is evicted on the way |
| PipelineHistory.FlushMovesAll | framework/algorithm/common/algorithm_video_impl.cpp:164-197 | While processing, a flush puts every image of the render map, each once, behind the producer queue and gives up all input in order; in bypass mode it empties both sides; without an output surface it does nothing |
| PipelineHistory.EmptiesAll | framework/algorithm/common/algorithm_video_impl.cpp:1135-1153 | Deinitialize, Enable, a refresh and a bypass flush leave all queues, the render map and the cache empty; buffers that callers have in hand stay theirs |
| PipelineHistory.FlushQueueInOrder | framework/algorithm/common/algorithm_video_impl.cpp:606-635 | The flush queue is the tail of what was handed to the surface, first in, first out |
| PipelineHistory.ProducerQueueStep | framework/algorithm/common/algorithm_video_impl.cpp:894-916 | Apart from flush, surface swap and clearing: granted, given-back and unprocessed buffers go to the end of the producer queue, and only the worker takes from its front, together with the first frame |
| PipelineInvariant.InvStep | framework/algorithm/common/algorithm_video_impl.cpp:164-197 | All pipeline invariants (life cycle, ownership, drops, order, render accounting, announcement accounting) survive every single action, whatever it is |
| PipelineInvariant.InvRun | framework/algorithm/common/algorithm_video_impl.cpp:840-879 | and hence every run of actions |
| PipelineInvariant.InputStep | framework/algorithm/common/algorithm_video_impl.cpp:1121-1153 | Ownership of input buffers survives acquire, process, bypass, request, flush, clear and drain |
| PipelineInvariant.OrderStep | framework/algorithm/common/algorithm_video_impl.cpp:840-879 | Positions announced stay strictly increasing and behind the head of the consumer queue |
| PipelineInvariant.OutputStep | framework/algorithm/common/algorithm_video_impl.cpp:181-184 | Render-map keys stay the sequence numbers of their buffers and lookups never outnumber insertions |
| PipelineInvariant.AnnounceStep | framework/algorithm/common/algorithm_video_impl.cpp:973-988 | Every insertion into the render map is announced or about to be |
| PipelineInvariant.DropStep | framework/algorithm/common/algorithm_video_impl.cpp:939-971 | The dropped frames, plus the one a worker of a dead processor may still drop, never outnumber the Deinitialize calls |
| PipelineInvariant.DropIff | framework/algorithm/common/algorithm_video_impl.cpp:939-945 | A step drops a frame if and only if it is the worker finding the processor dead with a frame to bypass, and then it drops just that one |
| PipelineInvariant.LifeStep | framework/algorithm/common/algorithm_video_impl.cpp:1093-1111 | The report history always matches the state |
| VpeVideo.ObjectKeepsPromises | framework/algorithm/common/algorithm_video_impl.cpp:164-197 | Any object that calls have led anywhere satisfies the whole invariant: ownership, order, one-shot keys, alternating reports, and dropped frames only by the one step |
| ProducerCache.EvictsOldestFlushed | framework/algorithm/common/algorithm_video_impl.cpp:800-828 | For any cache and any hash-map iteration order: the trim removes exactly min(flushed, surplus over 5) entries, only flushed ones, and none that stays was flushed earlier than one that goes |
| ProducerCache.CandidatesEarlierFirst | framework/algorithm/common/algorithm_video_impl.cpp:803-817 | The deletion list, duplicates and all, has every earlier-flushed entry in front of each later one, and lists exactly the flushed entries |
| ProducerCache.TrimErasesPrefix | framework/algorithm/common/algorithm_video_impl.cpp:818-827 | Erasing along that list with duplicates removes the ids of a prefix and stops as soon as five entries are left |
| ProducerCache.AddKeepsKeyed | framework/algorithm/common/algorithm_video_impl.cpp:774-789 | Adding a buffer, with its eviction, keeps every key equal to its buffer's number |
| ProducerCache.EvictKeepsUnmarked | framework/algorithm/common/algorithm_video_impl.cpp:800-828 | A buffer without a mark is never evicted |
| VpeVideo.InsertFlushed | framework/algorithm/common/algorithm_video_impl.cpp:805-816 | The loop that inserts into the list it walks terminates and yields: the entry before each later-flushed element and once at the end |
| VpeVideo.VpeVideoImpl.Start | framework/algorithm/common/algorithm_video_impl.cpp:134-146 | succeeds exactly when IDLE, initialised, with both surfaces and a callback |
| VpeVideo.VpeVideoImpl.CheckStopping | framework/algorithm/common/algorithm_video_impl.cpp:1093-1111 | the test without the lock, then the locked region, which is also a method of its own; it answers a pending stop once |
| VpeVideo.VpeVideoImpl.FinishDeinitialize | framework/algorithm/common/algorithm_video_impl.cpp:311-334 | after the join: the clearing action, one drain for each held input buffer, then the surfaces go; all queues, the render map and the cache are empty, the callback is gone, the state is IDLE, and the hook's answer is returned |
| VpeVideo.VpeVideoImpl.Enable | framework/algorithm/common/algorithm_video_impl.cpp:199-220 | refused if the test finds it enabled; otherwise the locked region, also a method of its own: enables, empties the queues for an unchanged configuration and drains them, and returns what the configuration update answers |
| VpeVideo.VpeVideoImpl.Flush | framework/algorithm/common/algorithm_video_impl.cpp:164-197 | enabled: both input queues released, every rendered image once behind the producer queue, flush queue and cache untouched; disabled with a surface: all queues emptied; otherwise refused without effect |
| VpeVideo.VpeVideoImpl.ClearConsumerLocked | framework/algorithm/common/algorithm_video_impl.cpp:1121-1133 | releases every drained buffer once, or, without an input surface, none, and changes nothing else |
| VpeVideo.VpeVideoImpl.RequestBuffer | framework/algorithm/common/algorithm_video_impl.cpp:660-705 | the buffer is last in the producer queue and unmarked in the cache; attach entries up to its own id are released in bypass mode, one in processing mode; the returned number is that of the last released entry |
| VpeVideo.VpeVideoImpl.OnProducerBufferReleased | framework/algorithm/common/algorithm_video_impl.cpp:503-529 | a request, then the flush queue is popped up to the number the request left in its buffer variable |
| VpeVideo.VpeVideoImpl.PrepareBuffers | framework/algorithm/common/algorithm_video_impl.cpp:707-723 | as many requests as the cache lacks to the queue size; the granted buffers are in the producer queue, in order |
| VpeVideo.VpeVideoImpl.PopAttached | framework/algorithm/common/algorithm_video_impl.cpp:1006-1022 | releases the attach entries up to and including the id and removes exactly their ids from the mirror |
| VpeVideo.VpeVideoImpl.CheckAndUpdateProducerCache | framework/algorithm/common/algorithm_video_impl.cpp:800-828 | the cache after the eviction for some iteration order |
| VpeVideo.VpeVideoImpl.AddBufferToCache | framework/algorithm/common/algorithm_video_impl.cpp:774-789 | known buffers only lose their flushed mark; a new one is added and the cache trimmed |
| VpeVideo.VpeVideoImpl.AddProducerBuffers | framework/algorithm/common/algorithm_video_impl.cpp:761-772 | moves the real buffers of a queue in order and collects their numbers |
| VpeVideo.VpeVideoImpl.AttachAndRefreshProducerBuffers | framework/algorithm/common/algorithm_video_impl.cpp:725-759 | fails exactly when a cached buffer is refused, after trimming the cache; otherwise rebuilds the queues |
| VpeVideo.VpeVideoImpl.SetOutputSurface | framework/algorithm/common/algorithm_video_impl.cpp:75-120 | a bad argument is refused before and a failed registration after the same-surface test, with different codes and without effect; a failed attach leaves the trimmed cache; a swap refills the producer queue; then the answers of the two updates decide the code |
| VpeVideo.VpeVideoImpl.FinishRendered | framework/algorithm/common/algorithm_video_impl.cpp:606-635 | an accepted buffer is last in the flush queue and its cache entry has the mark and the time; an unrendered one is last in the producer queue; a refused one is in neither; nothing else changes |
| VpeVideo.VpeVideoImpl.OnConsumerBufferAvailable | framework/algorithm/common/algorithm_video_impl.cpp:453-501 | while RUNNING with an input surface the buffer is queued last with its own timestamp, and an invalid one disables processing; otherwise nothing changes |
| VpeVideo.VpeVideoImpl.NotifyEos | framework/algorithm/common/algorithm_video_impl.cpp:230-252 | unless IDLE, a marker is queued last |
| VpeVideo.VpeVideoImpl.TakeRendered | framework/algorithm/common/algorithm_video_impl.cpp:587-604 | hands out the image under an index once |
| VpeVideo.VpeVideoImpl.ProcessBuffer | framework/algorithm/common/algorithm_video_impl.cpp:918-937 | the image gets the frame's timestamp and the input buffer is released, whether processing works or not |
| VpeVideo.VpeVideoImpl.GetConsumerAndProducerBuffer | framework/algorithm/common/algorithm_video_impl.cpp:894-916 | the first entry of each queue or none, with the null guards' exact losses |
| VpeVideo.VpeVideoImpl.OutputBypassed | framework/algorithm/common/algorithm_video_impl.cpp:956-971 | the input buffer itself enters attach queue, mirror, render map and cache |
| VpeVideo.VpeVideoImpl.HandleFrame | framework/algorithm/common/algorithm_video_impl.cpp:856-872 | one frame from the worker's hand: a marker, a processed or a bypassed frame is announced under its buffer's number with its own timestamp, a failed or dropped one is not; which buffers are released; the worker parks exactly for a marker |
| VpeVideo.VpeVideoImpl.ProcessBuffers | framework/algorithm/common/algorithm_video_impl.cpp:840-879 | The loop: it leaves only because the processor died or a surface is missing, a queue is empty, or an EOS marker was just announced |
| PoolTheorems.OutputBuffersConserved | framework/algorithm/aihdr_enhancer_video/aihdr_enhancer_video_impl.cpp:250-271 | After any run each registered output buffer is in exactly one of free queue, worker's hand, user map, caller's hand, flushed map or the lost ones; the pool is filled at most once and its size never changes afterwards, even when an unknown buffer replaces one |
| PoolTheorems.ReturnConservesIff | framework/algorithm/aihdr_enhancer_video/aihdr_enhancer_video_impl.cpp:555-591 | A returned buffer keeps conservation if and only if it was recorded as flushed or is unknown |
| PoolTheorems.PoolStep | framework/algorithm/aihdr_enhancer_video/aihdr_enhancer_video_impl.cpp:350-420 | Conservation survives every step and only filling changes the number of registered buffers |
| PoolTheorems.InputBuffersAccounted | framework/algorithm/aihdr_enhancer_video/aihdr_enhancer_video_impl.cpp:593-626 | Every acquired input buffer is released, queued, in the worker's hand, or lost to a flush that stopped early |
| PoolTheorems.FlushLosesFramesBehindMarker | framework/algorithm/aihdr_enhancer_video/aihdr_enhancer_video_impl.cpp:350-379 | A flush reaches FLUSHED exactly when no queued entry is a marker or is refused, and loses no frame exactly when none stands at or behind such an entry |
| PoolRuns.FlushLosesFrame | framework/algorithm/colorspace_converter_video/colorspace_converter_video_impl.cpp:523-552 | A legal run: a frame that arrives after NotifyEos stands behind the marker, and a flush neither releases nor keeps it |
| PoolRuns.FlushMeetsNoSurface | framework/algorithm/aihdr_enhancer_video/aihdr_enhancer_video_impl.cpp:350-379 | A legal run to a state in which a flush would give a queued frame back through an input surface that Release has removed |
| PoolTheorems.FlushKeepsPlainIff | framework/algorithm/colorspace_converter_video/colorspace_converter_video_impl.cpp:523-552 | A flush keeps EOS flags away from buffers for frames exactly when it stops early or the user holds no flagged buffer |
| PoolTheorems.FlagsAreHonest | framework/algorithm/colorspace_converter_video/colorspace_converter_video_impl.cpp:671-703 | In runs whose flushes reclaim no flagged buffer, a buffer is announced as EOS exactly when it stands for the marker |
| PoolRuns.FlaggedFlushMisleads | framework/algorithm/colorspace_converter_video/colorspace_converter_video_impl.cpp:523-552 | A concrete legal run in which a flush reclaims the EOS buffer and a later frame is announced as EOS |
| PoolTheorems.EosOncePerReset | framework/algorithm/colorspace_converter_video/colorspace_converter_video_impl.cpp:759-775 | RUNNING excludes the EOS flag in all three pipelines, so NotifyEos succeeds at most once between completed Resets |
| PoolTheorems.NothingMissing | framework/algorithm/colorspace_converter_video/colorspace_converter_video_impl.cpp:366-381 | If Flush is called only from CONFIGURED to FLUSHED, those states always have callback, input and output surface |
| PoolTheorems.ReadyStepIff | framework/algorithm/colorspace_converter_video/colorspace_converter_video_impl.cpp:523-552 | Every other step keeps that; a flush keeps it exactly when it stops early or nothing is missing |
| PoolTheorems.EarlyFlushRunsWithoutCallback | framework/algorithm/aihdr_enhancer_video/aihdr_enhancer_video_impl.cpp:350-379 | Init, Flush, Start reaches RUNNING with neither callback nor surfaces |
| PoolHistory.BufferSince | framework/algorithm/aihdr_enhancer_video/aihdr_enhancer_video_impl.cpp:503-591 | Where each output buffer is, from the calls alone: with the surface exactly since it was accepted for showing and until it comes back, is replaced or is reclaimed by a new surface; likewise for the user map, a caller's hand, the worker, the free queue and the lost ones |
| PoolHistory.SurfaceBuffersApart | framework/algorithm/aihdr_enhancer_video/aihdr_enhancer_video_impl.cpp:521-591 | What the surface has is recorded as flushed, and is neither free nor with the worker, nor up for the user, nor in a caller's hand |
| PoolHistory.FramesInOrder | framework/algorithm/aihdr_enhancer_video/aihdr_enhancer_video_impl.cpp:593-626 | The input queue is always the tail of the sequence of accepted arrivals, read off the calls, each with its own timestamp: frames reach the worker in order |
| PoolHistory.QueueStep | framework/algorithm/aihdr_enhancer_video/aihdr_enhancer_video_impl.cpp:444-460 | Only a flush and the worker take from the input queue, the worker the first frame together with the first free buffer |
| PoolHistory.LifeSince | framework/algorithm/aihdr_enhancer_video/aihdr_enhancer_video_impl.cpp:273-348 | RUNNING exactly since a Start that found the stream not ended, until Stop, NotifyEos, Reset, Release, a complete flush or refused colour-space parameters; likewise the end-of-stream flag, callback and surfaces |
| PoolVideo.ObjectKeepsPool | framework/algorithm/aihdr_enhancer_video/aihdr_enhancer_video_impl.cpp:250-271 | Any object that calls have led anywhere has each registered buffer in exactly one place, accounts for its input buffers, and is not RUNNING with the EOS flag set |
| PoolVideo.PoolVideoImpl.SetOutputSurface | framework/algorithm/aihdr_enhancer_video/aihdr_enhancer_video_impl.cpp:113-181 | before CONFIGURED the surface is set; while active the flushed buffers return behind the free queue, each once, in number order, even if an attach fails |
| PoolVideo.PoolVideoImpl.Flush | framework/algorithm/aihdr_enhancer_video/aihdr_enhancer_video_impl.cpp:350-379 | gives back queued inputs up to the first marker or refused one; only a complete flush reaches FLUSHED and puts the user's buffers, each once, in number order, behind the free queue |
| PoolVideo.PoolVideoImpl.FillBuffers | framework/algorithm/aihdr_enhancer_video/aihdr_enhancer_video_impl.cpp:250-271 | up to five requested buffers enter free queue and registry, in new wrappers, once |
| PoolVideo.PoolVideoImpl.DoTask | framework/algorithm/aihdr_enhancer_video/aihdr_enhancer_video_impl.cpp:462-490 | the marker and a processed frame, with the frame's timestamp, go to the user map and are announced; after a failure the buffer is last in the free queue; a frame's input is released either way |
| PoolVideo.PoolVideoImpl.OnConsumerBufferAvailable | framework/algorithm/aihdr_enhancer_video/aihdr_enhancer_video_impl.cpp:593-626 | while it takes input, the buffer is queued last with its own timestamp, and the first one makes the pool be filled |
| PoolVideo.PoolVideoImpl.AcquireInputOutputBuffers | framework/algorithm/aihdr_enhancer_video/aihdr_enhancer_video_impl.cpp:444-460 | the worker gets the first frame together with the first free buffer, or nothing changes |
| PoolVideo.PoolVideoImpl.Start | framework/algorithm/aihdr_enhancer_video/aihdr_enhancer_video_impl.cpp:273-288 | to RUNNING, or to EOS if the stream has ended, exactly from CONFIGURED, STOPPED and FLUSHED |
| PoolVideo.PoolVideoImpl.NotifyEos | framework/algorithm/aihdr_enhancer_video/aihdr_enhancer_video_impl.cpp:538-553 | only while RUNNING: the marker is queued last and the state is EOS |
| PoolVideo.PoolVideoImpl.TakeOutputBuffer | framework/algorithm/aihdr_enhancer_video/aihdr_enhancer_video_impl.cpp:503-520 | an index is taken once; the colour-space kind retires EOS buffers instead |
| PoolVideo.PoolVideoImpl.FinishOutputBuffer | framework/algorithm/aihdr_enhancer_video/aihdr_enhancer_video_impl.cpp:521-536 | unrendered: last in the free queue; taken by the surface: in the flushed map and not free; refused: lost; nothing else changes |
| PoolVideo.PoolVideoImpl.OnProducerBufferReleased | framework/algorithm/aihdr_enhancer_video/aihdr_enhancer_video_impl.cpp:555-591 | the buffer is last in the free queue and no longer flushed; an unknown one replaces the flushed buffer with the least number |
| ClientIds.CandidatesDiffer | services/algorithm/video_processing_algorithm_base.cpp:194-225 | The 501 numbers tried in one search are pairwise different, also across the 32-bit wrap of the counter |
| ClientIds.FreeCandidateExists | services/algorithm/video_processing_algorithm_base.cpp:194-210 | With at most 500 live clients one of them is free |
| ClientIds.ClientIdInjective | services/algorithm/video_processing_algorithm_base.cpp:212-225 | Two ids are equal exactly when feature byte and low 24 counter bits are |
| ClientIds.GenerateFeatureIDs | services/algorithm/video_processing_algorithm_factory.cpp:100-108 | Features get the numbers 1 to n, each once, in whatever order the map is walked |
| ClientIds.BytesDifferIff | services/algorithm/video_processing_algorithm_factory.cpp:100-108 | Feature bytes are distinct exactly for up to 256 features |
| RegistryTheorems.RegistryAgrees | services/src/video_processing_server.cpp:199-255 | After any run of Create, Destroy and Clear with working context hooks: an id belongs to F in the server exactly when F has a listed initialised algorithm whose table holds it; every listed algorithm has a client; isWorking_ is exactly that clients_ is non-empty |
| RegistryTheorems.MissingNeverHappens | services/src/video_processing_server.cpp:324-348 | Whatever the hooks answer, the algorithm-missing branches are unreachable and a new id overwrites no live client |
| RegistryTheorems.StaleCallsAreRefused | services/src/video_processing_server.cpp:324-348 | Lookup, then any run, then the check: it passes only on an object that is still listed, and with working context hooks exactly while that client is registered on it |
| RegistryTheorems.CreateKeepsExactIff | services/algorithm/include/video_processing_algorithm_with_data.h:166-178 | Create keeps the agreement unless the feature is listed, the client named, a number free and the context hook fails |
| RegistryRuns.CreateHookLeaksClient | services/algorithm/include/video_processing_algorithm_with_data.h:166-178 | A run that ends with a client number in the table of the listed algorithm that the server does not know |
| RegistryRuns.DestroyHookLeavesEmpty | services/algorithm/include/video_processing_algorithm_with_data.h:180-189 | A run that ends with a listed algorithm without clients |
| RegistryRuns.ManyFeaturesOverwrite | services/src/video_processing_server.cpp:199-222 | For any table of more than 256 numbered features: two creations of which the second overwrites a live client of another feature |
| RegistryTheorems.DestroyKeepsExactIff | services/algorithm/include/video_processing_algorithm_with_data.h:180-189 | Destroy keeps it if and only if the context hook works or the algorithm keeps another client |
| RegistryTheorems.FreshEverywhere | services/src/video_processing_server.cpp:199-222 | A number free in its algorithm's table is free in the whole server |
| RegistryTheorems.AddSucceeds | services/algorithm/video_processing_algorithm_base.cpp:67-77 | A named client is always accepted while the algorithm has at most 500 clients and hooks work |
| RegistryTheorems.CreateOk | services/src/video_processing_server.cpp:199-222 | Create adds exactly one new id on success and changes neither server map on failure |
| RegistryTheorems.DestroyOk | services/src/video_processing_server.cpp:224-255 | Destroy removes exactly its id, always reaches the algorithm, and refuses exactly unknown ids |
| RegistryTheorems.DestroySettles | services/src/video_processing_server.cpp:224-255 | How Destroy ends: the client leaves its algorithm's table; when its hook works and it was the last, the algorithm is unlisted, empty, and uninitialised exactly if its own hook works; OK exactly if every hook asked works; an unknown id changes nothing |
| RegistryTheorems.ClearSettles | services/src/video_processing_server.cpp:305-322 | How Clear ends: every listed object is empty and uninitialised exactly if its hook works, the others are untouched, both maps are empty |
| RegistryTheorems.CreateFirstSettles | services/src/video_processing_server.cpp:199-222 | The first client of a feature: which code, and on success one new initialised algorithm with exactly this client under its first number |
| RegistryTheorems.CreateNextSettles | services/src/video_processing_server.cpp:199-222 | A further client: the first free number from the counter on, written out, and the counter behind it; with a failing hook only the algorithm knows it |
| RegistryTheorems.ClearOk | services/src/video_processing_server.cpp:305-322 | After Clear the two levels agree even if hooks had failed before |
| RegistryTheorems.InvRun | services/src/video_processing_server.cpp:199-255 | The registry invariant survives every run, and exact agreement every run with working context hooks |
| RegistryServer.Algorithm.GenerateClientID | services/algorithm/video_processing_algorithm_base.cpp:194-210 | The search loop returns the first free of at most 501 consecutive candidates, fails only if all are taken, and moves the counter behind the last one tried |
| RegistryServer.Algorithm.Add | services/algorithm/include/video_processing_algorithm_with_data.h:166-178 | the code, the number added and hasClient_; a context whose hook fails stays in the table |
| RegistryServer.Algorithm.Del | services/algorithm/video_processing_algorithm_base.cpp:79-89 | the client goes whatever its hook says; hasClient_ is cleared only after a successful removal of the last client |
| RegistryServer.Algorithm.Initialize | services/algorithm/video_processing_algorithm_base.cpp:29-43 | idempotent; fails exactly when the hook does |
| RegistryServer.Algorithm.Deinitialize | services/algorithm/video_processing_algorithm_base.cpp:45-60 | an initialised object loses its clients even if the hook fails, and is uninitialised and answers OK exactly if it works; an uninitialised one answers OK and stays as it is |
| RegistryServer.Algorithm.Check | services/algorithm/include/video_processing_algorithm_with_data.h:205-223 | passes exactly for an initialised object, a registered id and a named client; which error otherwise |
| RegistryServer.VideoProcessingServer.CreateLocked | services/src/video_processing_server.cpp:199-222 | on shared algorithm objects: finds or makes the algorithm, adds the client through it, and lists a new one only then; server, maps and every object end where the registry's Create leads, with its code |
| RegistryServer.VideoProcessingServer.DestroyLocked | services/src/video_processing_server.cpp:224-255 | the client goes through its shared algorithm object, which is shut and unlisted with its last client; code, maps and every object's fields end as `DestroySettles` says |
| RegistryServer.VideoProcessingServer.ClearAlgorithms | services/src/video_processing_server.cpp:305-322 | every listed object is shut, in any order, and no other object changes: empty, and uninitialised exactly if its hook works; both maps empty, not working |
| RegistryServer.VideoProcessingServer.Find | services/src/video_processing_server.cpp:324-340 | the object a call goes on with, or which of the two errors |
| RegistryServer.VideoProcessingServer.Execute | services/src/video_processing_server.cpp:324-348 | undisturbed, an operation is reached exactly for a client whose listed algorithm lets it pass |
| RegistryServer.VideoProcessingServer.NoNull | services/src/video_processing_server.cpp:199-255 | null references are never listed |
| RegistryServer.DroppedObjectsRefuse | services/src/video_processing_server.cpp:324-348 | whatever reference a call still holds, its object lets a client pass only while the server lists that object |
| InstanceTable.ExtensionManager.NewInstanceId | framework/algorithm/extension_manager/extension_manager.cpp:192-208 | Terminates on every reachable state; with max slots it fills slot (cursor + e) % max, which is empty while (cursor + k) % max is taken for every k < e, moves the cursor behind it and changes no other slot; -1 exactly when every slot is taken, and then nothing changes |
| InstanceTable.ProbeFromCursor | framework/algorithm/extension_manager/extension_manager.cpp:192-208 | The search in terms of table and cursor alone: which attempt finds which slot, and that it fails exactly when all are taken |
| InstanceTable.ProbeFindsFirst | framework/algorithm/extension_manager/extension_manager.cpp:192-208 | That slot is empty and all slots between the start and it are taken |
| InstanceTable.ProbeFailsWhenFull | framework/algorithm/extension_manager/extension_manager.cpp:192-208 | -1 exactly when every slot is taken |
| InstanceTable.BackAtStartIff | framework/algorithm/extension_manager/extension_manager.cpp:192-208 | A search that never meets an empty slot returns to its start exactly when the cursor was not 0: why the history of the cursor is needed |
| InstanceTable.ExtensionManager.RemoveInstanceReference | framework/algorithm/extension_manager/extension_manager.cpp:210-218 | empties exactly one slot, for in-range numbers only |
| InstanceTable.ExtensionManager.GetInstance | framework/algorithm/extension_manager/extension_manager.cpp:220-225 | slot content, or nothing out of range |
| CapabilityIndex.FindConverter | framework/algorithm/extension_manager/extension_manager.cpp:564-596 | The colour-space lookup, index and nested loops included, returns the first converter in registration order with a high-rank conversion between the two colour spaces whose format map pairs the two formats, else the first with any such conversion; nothing exactly when there is none or an entry is null |
| CapabilityIndex.ConvertsIsOffers | framework/algorithm/extension_manager/extension_manager.cpp:628-646 | Offering the key of a conversion is having a conversion between those spaces whose format map pairs those formats |
| CapabilityIndex.BuildConverterCaps | framework/algorithm/extension_manager/extension_manager.cpp:628-646 | The index built from the format maps of all converters holds exactly the entries of the list; a null extension leaves it empty |
| CapabilityIndex.FindExtension | framework/algorithm/extension_manager/extension_manager.cpp:613-634 | The map-based lookup for keys that are listed one by one returns the first high-rank supporter in registration order, else the first supporter; nothing exactly when there is none or an entry is null |
| CapabilityIndex.BestAgrees | framework/algorithm/extension_manager/extension_manager.cpp:588-595 | Picking in the entries of a key is the plain scan of the extension list |
| CapabilityIndex.ConversionKeysIff | framework/algorithm/extension_manager/extension_manager.cpp:694-711 | A conversion capability stands for exactly the conversions between its colour spaces whose formats it pairs |
| CapabilityIndex.ExtractColorSpaceConverterCap | framework/algorithm/extension_manager/extension_manager.cpp:694-711 | The nested loops over the format map enter the capability once under each of those keys, behind what was there |
| CapabilityIndex.ListEntries | framework/algorithm/extension_manager/extension_manager.cpp:495-545 | The entries of a key stand in list order, and there is one of rank r for extension i exactly when i offers the key with that rank |
| CapabilityIndex.BuildCaps | framework/algorithm/extension_manager/extension_manager.cpp:495-545 | The index built by the nested loops holds exactly those entries; a null extension anywhere leaves it empty |
| CapabilityIndex.FindDetailEnhancer | framework/algorithm/extension_manager/extension_manager.cpp:647-658 | The last high-rank supporter of the level, else the first supporter |
| CapabilityIndex.SlotAgrees | framework/algorithm/extension_manager/extension_manager.cpp:753-769 | Overwriting a slot only by high ranks amounts to that scan |
| CapabilityIndex.BuildDetailEnhancerCaps | framework/algorithm/extension_manager/extension_manager.cpp:753-769 | One extension takes over a taken slot only with high rank, an empty one with any |
| ColorSpaceKey.UnpackThenPack | framework/algorithm/common/algorithm_common.cpp:74-96 | Unpack then pack is the identity on every 32-bit value |
| ColorSpaceKey.PackThenUnpackIff | framework/algorithm/common/algorithm_common.cpp:74-96 | Pack then unpack is the identity exactly on descriptions whose fields fit their bits |
| ColorSpaceKey.FieldBits | framework/algorithm/common/algorithm_common.cpp:86-96 | Which bits are whose: eight for primaries, eight for transfer function, five for matrix, eleven for range, from the lowest on |
| ColorSpaceKey.LessIsLexicographic | framework/algorithm/common/algorithm_common.cpp:98-104 | In range, operator< goes by range, then matrix, then transfer function, then primaries, then metadata type |
| ColorSpaceKey.LessIsStrictOrder | framework/algorithm/common/algorithm_common.cpp:98-104 | operator< is a strict order on all descriptions whose equivalence is same packed value and same metadata type |
| ColorSpaceKey.EquivalentIsEqualInRange | framework/algorithm/common/algorithm_common.cpp:98-104 | In range, equivalence is equality |
| ColorSpaceKey.WideFieldsCollide | framework/algorithm/common/algorithm_common.cpp:74-104 | Every description out of range is equivalent to a different one in range |
| PlaneRows.CopyKeepsOthers | framework/algorithm/common/vpe_utils_common.cpp:162-263 | A plane copy changes no byte outside the rows it addresses |
| PlaneRows.CopyIsExact | framework/algorithm/common/vpe_utils_common.cpp:162-263 | and makes every destination row the source row of the same number |
| PlaneRows.CopyChangesNothingIff | framework/algorithm/common/vpe_utils_common.cpp:162-263 | It changes nothing if and only if the rows already agree |
| PlaneLayout.Nv12RoundTrip | framework/algorithm/common/vpe_utils_common.cpp:162-263 | Pixelmap to buffer and back leaves the whole pixelmap unchanged, for all strides, offsets and heights at which the rows fit and the buffer's UV plane starts after its Y rows; nothing is asked of the pixelmap's own planes |
| PlaneLayout.RoundTripIff | framework/algorithm/common/vpe_utils_common.cpp:162-263 | With the pixelmap's planes apart: restored if and only if Y and UV bytes that share a buffer byte are equal |
| PlaneLayout.OnlyPlanesChange | framework/algorithm/common/vpe_utils_common.cpp:214-263 | Failed or not, a two-plane copy changes nothing outside the two planes |
| PlaneLayout.LayoutIsTidy | framework/algorithm/common/vpe_utils_common.cpp:189-201 | The copied rows never exceed either stride |
| PlaneLayout.PlanesApartIff | framework/algorithm/common/vpe_utils_common.cpp:228-242 | Without plane information the buffer's planes are apart exactly when the pixelmap is not taller than the buffer |
| PlaneLayout.TallPixelmapOverlaps | framework/algorithm/common/vpe_utils_common.cpp:228-250 | Otherwise the first row too many lands on the first UV byte |
| PlaneLayout.TallPixelmapIsLost | framework/algorithm/common/vpe_utils_common.cpp:228-250 | Then no round trip gives the pixelmap back, unless those two bytes of it are equal |
| PlaneLayout.RgbaRoundTripIff | framework/algorithm/common/vpe_utils_common.cpp:130-160 | The RGBA round trip changes nothing if and only if the padding of the copied rows was the same on both sides |
| PlaneLayout.RgbaPixelsSurvive | framework/algorithm/common/vpe_utils_common.cpp:130-160 | and keeps every pixel in any case |
| PlanePlaces.BytesInBuffer | framework/algorithm/common/vpe_utils_common.cpp:214-263 | After a copy into the buffer, with the offsets written out: byte n of UV row m stands in plane 1 for NV12 and plane 2 for NV21, or behind the buffer's Y rows; byte j of Y row i at i * stride + j, unless a UV byte has its place there |
| PlanePlaces.BytesInPixelmap | framework/algorithm/common/vpe_utils_common.cpp:162-212 | After a copy into the pixelmap: the same bytes at the pixelmap's places |
| PlanePlaces.EmptyRowsFail | framework/algorithm/common/vpe_utils_common.cpp:244-263 | A copy fails exactly for a plane with rows but no bytes in them |
| PlanePlaces.RgbaByteAtPlace | framework/algorithm/common/vpe_utils_common.cpp:146-160 | Byte j of pixel row i goes from i * pixelmap stride + j to i * buffer stride + j, four bytes for each pixel |
| PlanePlaces.RgbaByteComesBack | framework/algorithm/common/vpe_utils_common.cpp:130-144 | and back, for all rows of the buffer and whole rows of the smaller stride |
| PlaneCopy.CopyRows | framework/algorithm/common/vpe_utils_common.cpp:190-197 | The row loop on memory: fails before touching anything exactly when there is a row and its size is not positive; otherwise all rows are copied in order |
| PlaneCopy.CopyNV12PixelmapToSurfaceBuffer | framework/algorithm/common/vpe_utils_common.cpp:214-263 | Y then UV, a refused Y plane stops before UV; succeeds exactly when no plane has empty rows, and then every byte is at its written-out place |
| PlaneCopy.CopyNV12SurfaceBufferToPixelmap | framework/algorithm/common/vpe_utils_common.cpp:162-212 | the same rows and places in the other direction |
| PlaneCopy.CopyRGBAPixelmapToSurfaceBuffer | framework/algorithm/common/vpe_utils_common.cpp:146-160 | rows of width * 4 bytes, as many as the pixelmap has, each byte at its place |
| PlaneCopy.CopyRGBASurfaceBufferToPixelmap | framework/algorithm/common/vpe_utils_common.cpp:130-144 | rows of the smaller stride, as many as the buffer has, each byte at its place |
| DetailLevels.TopLevel | framework/algorithm/detail_enhancer/detail_enhancer_image_fwk.cpp:169-187 | The first level asked is the one that is set, and for HIGH the AISR level unless both sides shrink alike; an unscaled picture below AISR is merely copied |
| DetailLevels.OutcomeIff | framework/algorithm/detail_enhancer/detail_enhancer_image_fwk.cpp:229-272 | A pass succeeds if and only if the highest level that is neither missing nor failing does its work; it blocks if and only if, during a restore, that level finds the client forgotten |
| DetailLevels.HighestLevelDecides | framework/algorithm/detail_enhancer/detail_enhancer_image_fwk.cpp:243-270 | That level fixes the code, the parameter that stays and the algorithm remembered |
| DetailLevels.NotedIff | framework/algorithm/detail_enhancer/detail_enhancer_image_fwk.cpp:318-329 | A pass leaves the flag set if and only if it was set before or a level that was tried found its client forgotten, whatever ended the pass |
| DetailLevels.LeftIs | framework/algorithm/detail_enhancer/detail_enhancer_image_fwk.cpp:243-270 | A pass that tries any level leaves the parameter at the lowest one it tried |
| DetailLevels.LoadsTried | framework/algorithm/detail_enhancer/detail_enhancer_image_fwk.cpp:243-270 | A pass loads the algorithms of exactly the levels it tries |
| DetailLevels.LastIs | framework/algorithm/detail_enhancer/detail_enhancer_image_fwk.cpp:243-270 | The algorithm remembered as the last one is that of the lowest level that worked on the picture, or the old one if none did |
| DetailLevels.NoneTried | framework/algorithm/detail_enhancer/detail_enhancer_image_fwk.cpp:243-271 | A pass that tries no level changes nothing and fails |
| DetailLevels.FirstPass | framework/algorithm/detail_enhancer/detail_enhancer_image_fwk.cpp:211-218 | Code, flag and parameter after the first pass, each exactly, from what the pass meets; it never blocks |
| DetailLevels.NothingRepeated | framework/algorithm/detail_enhancer/detail_enhancer_image_fwk.cpp:211-227 | Without a failure and a forgotten client the first pass is all there is |
| DetailLevels.RestoreStartsAtLowest | framework/algorithm/detail_enhancer/detail_enhancer_image_fwk.cpp:211-227 | Every restore, however the first pass failed and whenever the flag was set, starts from the lowest level that pass tried (the old one if none) and keeps nothing else |
| DetailLevels.ProcessBlocksIff | framework/algorithm/detail_enhancer/detail_enhancer_image_fwk.cpp:211-227 | The call waits for its own lock if and only if the picture is restored and the level that ends the second pass finds its client forgotten |
| DetailLevels.LostTwiceBlocks | framework/algorithm/detail_enhancer/detail_enhancer_image_fwk.cpp:318-329 | Inputs at which it does: whenever every level is there and finds its client forgotten in both passes, from any state |
| DetailLevels.RestoreKeepsLevelIff | framework/algorithm/detail_enhancer/detail_enhancer_image_fwk.cpp:211-227 | With the service fully back every restore succeeds, and this picture and the parameter get the level asked for if and only if the first pass tried no lower one |
| DetailLevels.LevelNeverRises | framework/algorithm/detail_enhancer/detail_enhancer_image_fwk.cpp:252-253 | Without a new parameter the level never rises again over any run of pictures |
| DetailLevels.NothingDecides | framework/algorithm/detail_enhancer/detail_enhancer_image_fwk.cpp:268-271 | If every level is skipped the code tells whether level NONE was tried at all |
| DetailEnhancer.DetailEnhancerImageFwk.SetParameter | framework/algorithm/detail_enhancer/detail_enhancer_image_fwk.cpp:138-148 | only levels NONE to HIGH and short addresses; the one way to raise the level |
| DetailEnhancer.DetailEnhancerImageFwk.GetAlgorithm | framework/algorithm/detail_enhancer/detail_enhancer_image_fwk.cpp:98-119 | loaded once per level, and kept only if it can be created |
| DetailEnhancer.DetailEnhancerImageFwk.TryFrom | framework/algorithm/detail_enhancer/detail_enhancer_image_fwk.cpp:243-271 | the loop over the levels computes the recursive specification, including its early exits |
| DetailEnhancer.DetailEnhancerImageFwk.Process | framework/algorithm/detail_enhancer/detail_enhancer_image_fwk.cpp:211-227 | a failed pass is repeated once, from cleared algorithms, if any pass so far found the client forgotten |

## Left out

- Output buffers of the frame pipeline: no claim of unique ownership, since a surface swap may put cache entries that are still in the render map into the producer queue.
- Frame pipeline: request configuration, formats, fences, transforms, metadata and the auto-effect switch; the waits for a running call; when PrepareBuffers runs is left open.
- Older pipelines: the window between FlushBuffer and its recording; Flush, which takes several locks in turn, is one step.
- Metadata generator: the recycling of its output buffers follows another scheme; life cycle, EOS and input queue only.
- Older pipelines: the format checks of Configure and SetParameter are an arbitrary outcome.
- PoolVideo.PoolVideoImpl.Flush: in a state without input surface the source would call through a null reference at the first queued frame (aihdr_enhancer_video_impl.cpp:366), as `PoolRuns.FlushMeetsNoSurface` shows it can; the model releases the frames.
- PoolVideo.PoolVideoImpl.Start: the report to the callback is not modelled; without a callback the source calls through a null reference after the state is set (`EarlyFlushRunsWithoutCallback`).
- PoolVideo.PoolVideoImpl.Stop: the report, which depends on whether the worker is between two checks, is not modelled.
- PoolVideo.PoolVideoImpl.AcquireInputOutputBuffers: the STOPPED report for an empty queue is not modelled.
- PoolVideo.PoolVideoImpl.SetOutputSurface: a swap while active without an old surface would call through a null reference in the source; the answers after the attach are not modelled.
- PoolTheorems.InputBuffersAccounted: says where every input buffer is, not that it is there once, because the older pipelines take any number that the surface hands out.
- Registry: the model's object references are indices into a growing sequence, a null reference an index outside it; the server class maps its references to them.
- Registry: the operations that Execute runs, the environment service, IPC and its retry.
- CapabilityIndex.FindConverter: the inverted answer of the support query (extension_manager.cpp:98) is not modelled.
- InstanceTable.ExtensionManager.NewInstanceId: the number of slots is any positive constant.
- Plane copying: offsets and strides that exceed 31 bits, the rounding of the row size computed in floating point, and the allocation of buffers.
- Detail enhancer: the ratio tests are Boolean parameters; the video type, which has one level, and protection are left out; a call that waits for its own lock is the result Blocked.
- Liveness, time-outs and freedom from deadlock of the condition variables.
- Surfaces, IPC, dynamic loading, graphics, XML, logging, the C API tables and the pixel algorithms themselves.
