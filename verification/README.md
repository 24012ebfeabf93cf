# A model of the virtio-video driver

A Linux guest reaches the host's video codec through this driver. Between the V4L2 calls above it and the
host's socket below it there are several protocols whose correctness is not visible in any one function.
This project models them in Dafny and proves what they keep.

* **Commands** (`HabVirtqueue`, `CommandQueue`, `CommandSafety`, `CommandLifetimes`, `CommandResults`,
  `KeyedLists`, `CommandDelivery`, `DeliveryRuns`, `DeliveryTheorems`, `CommandDriver`). Submitters put a
  command on a pending list and on a three-list emulated virtqueue, drop the lock while it is sent, and may wait
  with a timeout. A response thread matches each reply by (stream id, type), oldest first, and a callback
  completes or frees the command. Every critical section is one step of a state machine, with submitters,
  response thread, timed-out waiters, queue failure and teardown interleaved in any order.
* **Events** (`EventQueue`, `ErrorBroadcast`, `EventOrder`, `EventTheorems`, `EventDriver`). 512 event buffers
  circulate over the 512 nodes of a second virtqueue between a receiver thread and a worker; when the receiver
  dies it sends every open stream an ERROR event in the same buffers.
* **Buffers and exports** (`ExportCache`, `CacheSections`, `CacheSteps`, `CacheEffects`, `PlaneLoops`,
  `BufferOwnership`, `OwnershipProofs`, `QueuedOnce`, `QueueTheorems`, `Leftovers`, `ReleaseEffects`,
  `DeviceEffects`, `CompletionEffects`, `StreamOffEffects`, `DeviceCaches`, `BufferDriver`). vb2 hands the
  driver buffers; the driver exports their dma-bufs to the host through a cache, keeps them on a pending list
  and gives them back on completion, on errors or when a queue stops.
* **Negotiation** (`Masks`, `FormatNegotiation`, `FrameRate`). Frame sizes are clamped and aligned with masks;
  frame intervals go through two integer divisions.
* **Wire formats** (`Wire`, `CapabilityParser`, `CapabilityDriver`, `ControlMenu`). The nested capability reply,
  the chunked control records, and a menu whose offsets are rewritten in place into pointers.
* **Stream state** (`StreamState`). The compare-and-swap loop under any number of threads.

The state machines are functions over values, so that runs can be quantified over. The driver's own functions
appear as methods of classes that update fields in place (`HabQueue`, `CommandDevice`, `EventDevice`,
`BufExportCache`, `VideoDevice`, `FormatStream`, `EncoderStream`, `FormatList`, `ControlList`, `Stream`), each
proved to compute the step of the state machine, or the specification function, that the theorems are about.

## What the code does, where that is not what one would expect

The model follows the code. These points shape the theorems:

* The receiver's wait for a free event buffer never waits: its guard asks for more retries than the maximum
  before the first (`driver/virtio_video_msm_hab.c:330`).
* A submission that fails leaves its command on the pending list, and a failed add still calls `kick`. The
  `broken` flag is read twice in one submission, without a lock, so it can change in between; the command then
  stays on the vbuf list.
* `kick` reads the message after dropping the lock. If two commands with one key overlap, the reply to the
  second can complete and free the first while it is being sent (`OverlapFreesUnderSender`). With the device
  ready, that is so exactly when nobody waits for the command, a reply has been matched to it, and the callback
  for that reply is over (`SenderReadsFreedExact`).
* If a reply comes after its waiter has given up, it answers the next command with the same key
  (`LateReplyMisdelivers`). When calls with one key do not overlap and the host answers in order, every reply
  reaches its command if and only if none comes after its command was given up (`FifoPerKey`).
* A waiter that teardown overtakes waits on a freed command: its command is allocated exactly while it is
  pending (`WaiterReadsLiveExact`).
* `(state & ACTIVE) > 0` in the release loop also matches DONE and ERROR buffers.
* A buffer whose submission fails is returned to vb2 but stays on the pending list, with its stream in ERROR.
  This is the only way the list and the ACTIVE buffers come apart, and closing the stream with such an entry on
  the list is the only way an entry outlives its buffer (`DanglesExact`).
* Releasing a queue type ignores refused unexports, and a completion un-marks the first plane's export only.
* `virtio_video_enum_framemintervals` lets its index reach the number of frames, so without a match it reads one
  frame too far; `SearchFrame` reports exactly when.
* `do_div` cuts its divisor to 32 bits: an interval of a multiple of 2^32 microseconds divides by zero
  (`TrapsExact`), and a longer one gives the right rate, which is 0, exactly when its low 32 bits exceed a
  million (`RightRateExact`). The rate for k frames a second is k if and only if k and k + 1 have different
  intervals in microseconds, which k(k + 1) <= 10^6 implies but is not implied by (`NotOnlyLowRates`).
* The guards that the codec calls read before a state update are not part of the compare-and-swap
  (`GuardIsNotAtomic`). What the swap overwrites is the state the guard saw if and only if the updates logged in
  between are none, or end in that state (`GuardedUpdateExact`).
* A format without frames still has its first frame read by `virtio_video_try_fmt`.

## Assumptions

Command buffers can be allocated and have identities that are never reused. The host hands out fresh nonzero
export ids. vb2 marks a buffer ACTIVE before `buf_queue` and has no buffer without planes. An event handler and
a `buf_queue` call are one step each. A file descriptor names one dma-buf during one call. The host's messages
are well formed; the parsers' preconditions say in what sense.

## Model

| member | source | states |
|---|---|---|
| HabVirtqueue.HabQueue.constructor | driver/virtio_video_msm_hab.c:75-99 | the pool starts with n distinct nodes, all unused, counts in step |
| HabVirtqueue.HabQueue.Attach | driver/virtio_video_msm_hab.c:101-127 | the first unused node carries the buffer to the tail of the list; with none unused nothing changes and the call fails |
| HabVirtqueue.HabQueue.Unattach | driver/virtio_video_msm_hab.c:129-152 | hands out the oldest buffer and puts its node at the tail of the unused list |
| HabVirtqueue.HabQueue.AddSgs | driver/virtio_video_msm_hab.c:657-704 | adds unless broken or out of nodes |
| HabVirtqueue.HabQueue.DetachUnusedBuf | driver/virtio_video_msm_hab.c:638-655 | vbuf list before response list; when both are empty the pool goes |
| HabVirtqueue.HabQueue.GetOneEvtBuf | driver/virtio_video_msm_hab.c:324-340 | never waits, whatever the retry limit |
| HabVirtqueue.AttachConserves | driver/virtio_video_msm_hab.c:101-127 | no node is lost or duplicated, and the list grows by the buffer at its tail |
| HabVirtqueue.UnattachConserves | driver/virtio_video_msm_hab.c:129-152 | no node is lost or duplicated, and the list is first in, first out |
| HabVirtqueue.AttachUnattach | driver/virtio_video_msm_hab.c:564-618 | adding to an empty list and taking off gives back that very buffer and only rotates the pool |
| HabVirtqueue.DetachConserves | driver/virtio_video_msm_hab.c:638-655 | teardown hands out every listed buffer, offered ones first, each list oldest first, and loses no node before the lists are empty |
| CommandSafety.NoUseAfterFree | driver/virtio_video_vq.c:92-150 | over every run, no buffer is freed twice and no list walk, response copy, callback or completion touches a freed one |
| CommandSafety.FreedOnceAndOnlyWhilePending | driver/virtio_video_vq.c:92-150 | whatever any next step frees was allocated and pending; it touches nothing freed |
| CommandSafety.QueueInvHolds | driver/virtio_video_msm_hab.c:577-610 | over every run, while not broken the vbuf list is empty whenever the lock is free, and no node is lost while ready |
| CommandSafety.KickSendsWhatWasAdded | driver/virtio_video_vq.c:279-331 | kick sends the command just added, exactly when the add worked and the queue did not break in between; otherwise it sends nothing |
| CommandSafety.BrokenSendsNothingNew | driver/virtio_video_msm_hab.c:577-610 | once broken, only commands whose send had begun still reach the host |
| CommandLifetimes.SenderReadsFreedExact | driver/virtio_video_msm_hab.c:583-600 | while the device is ready, a command being sent has been freed if and only if nobody waits for it, a reply was matched to it and that reply's callback is over |
| CommandLifetimes.WaiterReadsLiveExact | driver/virtio_video_vq.c:333-357 | a waiter's command is allocated exactly while pending, always so while ready, and a step takes it away exactly if it is the waiter's reclaiming or a teardown that detaches it |
| CommandLifetimes.DrainFrees | driver/virtio_video_vq.c:114-150 | a drain of the response list frees exactly its asynchronous pending commands |
| CommandResults.SyncCallExact | driver/virtio_video_vq.c:333-357 | over every run, a synchronous call whose command was sent reports failure exactly if its waiter timed out and success exactly if it was woken by the completion; one that was not sent reports failure |
| CommandResults.SuccessMeansAnswered | driver/virtio_video_vq.c:333-357 | a call that reports success was sent; a synchronous one was also matched to a reply and completed |
| CommandResults.AsyncCallExact | driver/virtio_video_vq.c:279-331 | an asynchronous call reports success exactly if its command was sent |
| CommandResults.ReplyTakesOldest | driver/virtio_video_msm_hab.c:252-298 | a reply takes the oldest pending command with its key; without one the queue is broken and the response thread is gone |
| CommandResults.ReceiverEndsExact | driver/virtio_video_msm_hab.c:384-425 | the response thread ends exactly when receiving fails or a reply matches nothing, and leaves the queue broken |
| CommandResults.UnreadyExact | driver/virtio_video_vq.c:221-231 | once not ready, every call that begins is refused, and only reclaiming waiters and teardown free commands |
| CommandSafety.SendReadsLiveIffPending | driver/virtio_video_msm_hab.c:583-600 | a command being sent is allocated if and only if it is still pending |
| CommandSafety.OverlapFreesUnderSender | driver/virtio_video_msm_hab.c:254-287 | a concrete run with two overlapping same-key commands in which a send reads a freed one |
| DeliveryTheorems.FifoPerKey | driver/virtio_video_msm_hab.c:254-298 | on runs without overlap, and answered in order, every i-th reply for a key reaches the i-th command sent with it if and only if none comes after its command was given up; timeouts, failed sends, any mix of sync and async commands and any interleaving across keys included |
| DeliveryTheorems.WithoutTimeoutsInOrder | driver/virtio_video_msm_hab.c:254-298 | so when no waiter times out every reply reaches the command it answers |
| CommandDelivery.DueIsFirst | driver/virtio_video_msm_hab.c:254-262 | the command a reply is due to is given up, or it is the oldest pending one of its key, which the search takes |
| DeliveryTheorems.DeliveredIsFinished | driver/virtio_video_vq.c:114-150 | when the response thread is idle, each answered command is freed, or completed and waiting for its own submitter |
| DeliveryTheorems.SendsReadLiveBuffers | driver/virtio_video_msm_hab.c:583-600 | on such runs, with no reply late, a send never reads a freed command |
| DeliveryTheorems.LateReplyMisdelivers | driver/virtio_video_vq.c:333-357 | such late replies happen: a concrete run in which one reaches the next command |
| CommandDriver.CommandDevice.VbufIsPending | driver/virtio_video_vq.c:92-104 | true exactly for listed commands |
| CommandDriver.CommandDevice.FreeVbuf | driver/virtio_video_vq.c:106-112 | takes the one entry off the list and frees it; safety is kept |
| CommandDriver.CommandDevice.QueueLocked | driver/virtio_video_vq.c:279-331 | the locked part of a submission computes the machine's step |
| CommandDriver.CommandDevice.ProcessCmdResp | driver/virtio_video_msm_hab.c:252-298 | the oldest pending command with the reply's key goes on the response list; a session error matches none |
| CommandDriver.CommandDevice.CmdCb | driver/virtio_video_vq.c:114-150 | drains the response list as the machine's step does, each command completed or freed if still pending |
| CommandDriver.CommandDevice.Reclaim | driver/virtio_video_vq.c:347-356 | a waiter frees its command exactly when it is still pending, and reports a timeout exactly if no time was left |
| CommandDriver.CommandDevice.FreeVbufs | driver/virtio_video_vq.c:221-231 | detaches until both lists are empty, freeing what is pending |
| CommandDriver.TeardownFreesListed | driver/virtio_video_vq.c:221-231 | teardown frees each listed pending command once and nothing else, and empties lists and pool |
| EventTheorems.EveryBufferInOnePlace | driver/virtio_video_msm_hab.c:342-430 | in every interleaving each of the 512 buffers, and each node, is in exactly one place; none is lost for want of a node; whoever needs a node finds one, the two-section add included |
| EventQueue.MoveKeeps | driver/virtio_video_msm_hab.c:657-690 | no step makes a buffer or a node appear or vanish |
| EventTheorems.EveryOpenStreamIsTold | driver/virtio_video_msm_hab.c:423-441 | with as many free event buffers as streams, each stream open throughout gets one ERROR event, none two; after the drain each is in ERROR with no ACTIVE buffer of any queue type |
| EventTheorems.ShortBroadcast | driver/virtio_video_msm_hab.c:423-441 | with fewer, at least as many streams are told as there were free buffers, and each other one was passed over |
| EventOrder.HandledInOrder | driver/virtio_video_vq.c:152-174 | over every interleaving without teardown, the events handled are those that have come, in order and once each, less the ones outstanding; once the queue is drained, all of them |
| EventOrder.OffersAreBlank | driver/virtio_video_vq.c:359-381 | until the queue breaks, every buffer offered to the host is zeroed |
| EventOrder.HandsExact | driver/virtio_video_msm_hab.c:324-340 | the receiver takes the oldest offered buffer and fails at once without one; a handled buffer goes back zeroed, or is given up on a broken queue |
| ErrorBroadcast.HandleQuiets | driver/virtio_video_vq.c:471-547 | handling an ERROR event quiets its stream; no event wakes a quiet stream |
| EventDriver.EventDevice.constructor | driver/virtio_video_vq.c:549-580 | all 512 buffers are queued, each over its own node |
| EventDriver.EventDevice.QueueEventBuffer | driver/virtio_video_vq.c:359-381 | zeroes the buffer and adds it, failing when broken or out of nodes |
| EventDriver.EventDevice.HandleEvent | driver/virtio_video_vq.c:471-547 | an event changes the device as its type says, and not at all for a stream that is gone |
| EventDriver.EventDevice.ProcessEvents | driver/virtio_video_vq.c:152-174 | handles all filled buffers oldest first and gives each back unless the queue is broken |
| EventDriver.EventDevice.RecvFailed | driver/virtio_video_msm_hab.c:423-441 | the first streams, as many as there are free buffers, each get an ERROR event in those buffers, oldest first |
| EventDriver.EventDevice.SendError | driver/virtio_video_msm_hab.c:432-440 | the oldest free buffer becomes the stream's ERROR event; without one nothing happens |
| ExportCache.GetIdTransparent | driver/virtio_video_msm_mem.c:119-175 | on a hit or a miss, the id denotes at the host the inode and size asked for, and its entry is in use |
| ExportCache.GetIdFails | driver/virtio_video_msm_mem.c:119-175 | no id exactly for size 0, or for an unknown buffer that could not be exported or had no room |
| ExportCache.GetIdAgain | driver/virtio_video_msm_mem.c:119-175 | asking again gives the same id and changes nothing |
| CacheEffects.GetIdExact | driver/virtio_video_msm_mem.c:119-175 | a hit marks exactly the key's entry; a miss appends one entry under the id of the first attempt that worked; a failure caches nothing and takes back what it exported unless refused |
| ExportCache.TryExportExact | driver/virtio_video_msm_mem.c:140-157 | the retries succeed exactly when some attempt does before one runs out of memory |
| ExportCache.PutIdKeeps | driver/virtio_video_msm_mem.c:209-242 | giving an id back keeps cache and host agreeing and leaks nothing |
| CacheEffects.UnmarkExact | driver/virtio_video_msm_mem.c:209-242 | un-marking leaves the id's entry idle, every other entry and the host as they were |
| CacheEffects.PutAwayExact | driver/virtio_video_msm_mem.c:209-242 | the cleaning form leaves the id neither cached nor exported and changes nothing else; if the host refuses, or never had the id, nothing changes |
| ExportCache.CleanupKeeps | driver/virtio_video_msm_mem.c:244-283 | a clean-up asked for by the host drops only entries not in use |
| CacheEffects.CleanupExact | driver/virtio_video_msm_mem.c:244-283 | a clean-up drops and unexports exactly the idle entries whose ids the host has named and gives up |
| ExportCache.PutTypeKeeps | driver/virtio_video_msm_mem.c:285-303 | releasing a queue type drops exactly its entries; only refused unexports leak |
| CacheEffects.PutTypeExact | driver/virtio_video_msm_mem.c:285-303 | exactly the type's entries leave the cache, and exactly those the host gives up are unexported |
| ExportCache.CachedAreExported | driver/virtio_video_msm_mem.c:119-303 | over every sequence of calls the cached ids are exported, and are all that is exported unless the host refuses an unexport |
| ExportCache.DestroyUnexports | driver/virtio_video_msm_mem.c:325-340 | destroying the cache leaves at the host only what it refuses to give up |
| ExportCache.BufExportCache.GetEntryFromFd | driver/virtio_video_msm_mem.c:29-66 | finds the first entry with inode, type and size and marks it in use |
| ExportCache.BufExportCache.AllocOneExportEntry | driver/virtio_video_msm_mem.c:68-117 | appends an entry in use unless the cache is full, the buffer is gone or allocation fails |
| ExportCache.BufExportCache.GetExportId | driver/virtio_video_msm_mem.c:119-175 | computes the specified result with lookup, retry loop and undo |
| ExportCache.BufExportCache.PutExportId | driver/virtio_video_msm_mem.c:209-242 | unexports and drops, or un-marks, the entry with the id |
| ExportCache.BufExportCache.CleanupOne | driver/virtio_video_msm_mem.c:264-279 | the safe walk for one id |
| ExportCache.BufExportCache.CleanupBuffers | driver/virtio_video_msm_mem.c:244-283 | the walk for every nonzero id |
| ExportCache.BufExportCache.PutExportQueueType | driver/virtio_video_msm_mem.c:285-303 | drops every entry of the type |
| ExportCache.BufExportCache.Destroy | driver/virtio_video_msm_mem.c:325-340 | the cache ends empty and the host keeps only what it refused to unexport |
| CacheSections.CacheStaysSound | driver/virtio_video_msm_mem.c:68-117 | with one adder and any removers interleaved section by section: used_count is the length and at most 256 though tested unlocked, keys and ids are unique, ids denote what is cached |
| CacheSections.GetIdLeads | driver/virtio_video_msm_mem.c:119-175 | without interruption the adder's sections, retries and undo included, come to what the whole call computes |
| CacheSections.PutIdLeads | driver/virtio_video_msm_mem.c:209-242 | so do the sections of giving an id back, in both forms |
| DeviceCaches.ExportsBalance | driver/virtio_video_msm_mem.c:119-340 | over every run of the device each open stream's cache agrees with the host; and with a host that refuses no unexport, what is exported is exactly what open streams have cached |
| OwnershipProofs.OwnedHolds | driver/virtio_video_msm_vb2.c:275-373 | over every run each ACTIVE buffer is on the pending list, and hand-overs and returns differ only by it |
| OwnershipProofs.StopStreamingEmptiesQueues | driver/virtio_video_msm_vb2.c:191-273 | on the error and failed-streamoff paths no ACTIVE buffer of the queue or its meta queue is left to wait for |
| OwnershipProofs.ErrorOwned | driver/virtio_video_device.c:795-817 | handling an error leaves no ACTIVE buffer of any queue type of the stream, and touches no other stream |
| OwnershipProofs.ErrorEventQuiets | driver/virtio_video_vq.c:514-518 | after an ERROR event the stream is in ERROR and the driver owns none of its buffers |
| OwnershipProofs.QuietStays | driver/virtio_video_msm_vb2.c:297-301 | nothing but closing wakes such a stream: buffers queued on it are refused |
| BufferOwnership.ReleaseEmptiesQueue | driver/virtio_video_device.c:868-884 | the release loop, deleting as it walks, leaves no ACTIVE buffer of the queue and keeps every other entry |
| ReleaseEffects.ReleaseExact | driver/virtio_video_device.c:819-890 | on a list without duplicates the release takes off exactly the queue's entries that pass the state test, returns the ACTIVE ones in ERROR, changes no other buffer, and draws a vb2 warning exactly if it took one that was not ACTIVE |
| ReleaseEffects.TestsActiveExact | driver/virtio_video_device.c:868-884 | the bit test on the kernel's numbers passes ACTIVE, DONE and ERROR |
| CacheSteps.GetIdsStep | driver/virtio_video_msm_vb2.c:307-323 | the plane loop's ids stand for the planes' dma-bufs and are in use; no other stream's or buffer's entry is disturbed |
| CacheSteps.PutIdsStep | driver/virtio_video_msm_vb2.c:361-368 | undoing a failed queueing takes back only its own ids |
| PlaneLoops.GetIdsLoops | driver/virtio_video_msm_vb2.c:307-323 | the ids are those the planes get when asked from left to right, up to the first that gets none; success exactly if there is no such plane |
| PlaneLoops.PutIdsExact | driver/virtio_video_msm_vb2.c:361-368 | giving ids back leaves none of them cached or exported unless refused, and all else as it was |
| DeviceEffects.QueueExact | driver/virtio_video_msm_vb2.c:275-373 | a buffer is accepted exactly if its stream is not in ERROR, every plane gets an id and the submission works: then ACTIVE, last on the list, under the exported first plane; otherwise returned in ERROR with none of its ids left cached or exported unless refused |
| CompletionEffects.CompletionReturnsExactly | driver/virtio_video_vq.c:384-468 | on orderly runs a completion takes off the one entry with the id and returns its buffer as DONE, or ERROR if flagged, stopping the stream at its end; without such an entry no buffer changes; either way the id is un-marked and exactly the named idle entries go |
| CompletionEffects.EventExact | driver/virtio_video_vq.c:471-547 | each event type does what it says: completion, INIT to DYNAMIC_RES_CHANGE and nothing else, or ERROR with every ACTIVE buffer of the stream returned; unknown ones and those for a stream that is gone do nothing |
| StreamOffEffects.StreamOffExact | driver/virtio_video_msm_vb2.c:191-273 | an accepted streamoff of a data queue gives up exactly the exports of the queue and its meta queue and changes no buffer; of a meta queue it does nothing |
| StreamOffEffects.FailedStreamOffExact | driver/virtio_video_msm_vb2.c:191-273 | a failed one gives up the same exports, puts the stream in ERROR and leaves no ACTIVE buffer of the pair |
| StreamOffEffects.CloseExact | driver/virtio_video_msm_mem.c:325-340 | closing unexports exactly the stream's cached ids, as far as the host gives them up, and touches no other stream |
| QueueTheorems.EachQueuedBufferReturnedOnce | driver/virtio_video_msm_vb2.c:275-373 | on orderly runs the pending list holds exactly the ACTIVE buffers, once each, under distinct ids, and each hand-over is answered by exactly one return |
| QueueTheorems.SubmitFailureIsTheOnlyLeftover | driver/virtio_video_msm_vb2.c:355-372 | a queued buffer is left on the list after being returned if and only if its submission failed |
| Leftovers.DanglesExact | driver/virtio_video_msm_vb2.c:355-372 | over every run, no entry is listed twice, a returned buffer is left on the list exactly by a failed submission, its stream then stays in ERROR, and an entry outlives its buffer exactly when the stream is closed with it on the list |
| QueueTheorems.CleanupSafe | driver/virtio_video_msm_mem.c:244-283 | a clean-up asked for by the host leaves exported the first-plane id of every pending buffer of any stream |
| QueueTheorems.CompletionKeepsExports | driver/virtio_video_vq.c:427-467 | nothing a completion event does unexports the first-plane id of a buffer still pending |
| QueuedOnce.DistinctIds | driver/virtio_video_msm_vb2.c:355-358 | two pending buffers never share their first-plane id, so an event's search finds the right one |
| BufferDriver.VideoDevice.PendingBufListDel | driver/virtio_video_device.c:128-156 | takes off the first entry with the id, if there is one |
| BufferDriver.VideoDevice.QueueReleaseBuffers | driver/virtio_video_device.c:819-890 | the walk over the list computes the specified release |
| BufferDriver.VideoDevice.HandleError | driver/virtio_video_device.c:795-817 | meta queues are released before data queues |
| BufferDriver.VideoDevice.BufDone | driver/virtio_video_device.c:892-1004 | an EOS buffer stops its stream before it is returned; ERROR decides how |
| BufferDriver.VideoDevice.HandleBufDone | driver/virtio_video_vq.c:384-468 | search, second search, return, un-mark and clean-up compute one completion |
| BufferDriver.VideoDevice.ExportPlanes | driver/virtio_video_msm_vb2.c:307-323 | the id array holds the ids obtained, then zeros; stops at the first plane without one |
| BufferDriver.VideoDevice.UnexportPlanes | driver/virtio_video_msm_vb2.c:361-368 | every slot that holds an id is given back, and no other |
| BufferDriver.VideoDevice.BufQueue | driver/virtio_video_msm_vb2.c:275-373 | the three outcomes: refused, accepted, returned after a failed submission |
| BufferDriver.VideoDevice.StopStreaming | driver/virtio_video_msm_vb2.c:191-273 | computes the specified stop, and on the releasing paths leaves nothing to wait for |
| StreamState.Linearizable | driver/virtio_video_device.c:58-69 | the word is always the replay of completed updates as atomic "unless ERROR, set", each thread's once |
| StreamState.ErrorAbsorbsIdleLeftForGood | driver/virtio_video_device.c:58-69 | after open, ERROR absorbs, IDLE is never re-entered, decoders never reach RESET, and a failed command leaves ERROR |
| StreamState.DecidePerCall | driver/virtio_video_msm_vq.c:42-52 | no call asks for IDLE, no decoder call for RESET, a failed command asks for ERROR |
| StreamState.UninterruptedExact | driver/virtio_video_device.c:58-69 | a call that nothing interrupts leaves the state its kind says, for each call and each state |
| StreamState.AsksExactly | driver/virtio_video_enc.c:36-44 | per call, the target and exactly the readings that lead to asking for it |
| StreamState.GuardedUpdateExact | driver/virtio_video_vq.c:507-511 | over every run, a guarded compare-and-swap that succeeds overwrites what the updates since the guard's reading made of the value read; so it is the value read if and only if there were none or the last one set it again |
| StreamState.UndisturbedGuardHolds | driver/virtio_video_device.c:58-69 | the guard still holds at the swap whenever no other thread's update came in between |
| StreamState.GuardIsNotAtomic | driver/virtio_video_vq.c:507-511 | a concrete run in which a resolution change overwrites RUNNING although it had seen INIT |
| StreamState.Stream.StateUpdate | driver/virtio_video_device.c:58-69 | the retry loop ends as one atomic update of what it last found |
| Masks.AlignedIsDivisible | driver/virtio_video.h:398-404 | for powers of two the mask test is divisibility |
| Masks.AlignIsCeiling | driver/virtio_video_device.c:704-713 | mask ALIGN on 32 bits is the least multiple above, wrapping only when that is 2^32 |
| FormatNegotiation.SettleLands | driver/virtio_video_device.c:698-713 | clamp and ALIGN land in range and aligned, keep what is acceptable, move up by less than a step |
| FormatNegotiation.SettleIsNearest | driver/virtio_video_device.c:698-713 | a dimension settles on the least accepted value not below the request, or on the maximum above the range |
| FormatNegotiation.AlwaysInRangeExact | driver/virtio_video_device.c:698-713 | every request lands in range if and only if the step divides the maximum or its round-up overflows onto an allowed 0 |
| FormatNegotiation.ChooseExact | driver/virtio_video_device.c:673-696 | the loop ends on the first accepting frame, else on the last containing one, else on frame 0 |
| FormatNegotiation.TryFmtLands | driver/virtio_video_device.c:640-715 | the size returned is acceptable to the frame made current |
| FormatNegotiation.TryFmtNearest | driver/virtio_video_device.c:640-715 | every request becomes, in each dimension, the nearest size the current frame accepts; a size no frame contains is settled by frame 0 |
| FormatNegotiation.TryFmtUnchangedExact | driver/virtio_video_device.c:640-715 | a size is left alone if and only if some frame accepts it, and the first such becomes current |
| FormatNegotiation.TryFmtRoundsUp | driver/virtio_video_device.c:640-715 | a contained but misaligned size goes up to the nearest acceptable one, by less than a step |
| FormatNegotiation.TryFmtIdempotent | driver/virtio_video_device.c:640-715 | negotiating the result changes nothing |
| FormatNegotiation.NegotiatedIsEnumerable | driver/virtio_video_device.c:420-452 | with regular ranges every negotiated size is found by the interval enumeration |
| FormatNegotiation.AlwaysEnumerableExact | driver/virtio_video_device.c:405-452 | for one frame, every request is made enumerable if and only if both ranges are regular |
| FormatNegotiation.SteppedExact | driver/virtio_video_device.c:405-418 | an acceptable point is stepped exactly when the range is a point or starts at a whole step |
| FormatNegotiation.FormatStream.TryFmt | driver/virtio_video_device.c:640-715 | the method computes the negotiated size and current frame, with its error and unknown-format branches; a format without frames is read past its end |
| FormatNegotiation.SearchFrame | driver/virtio_video_device.c:438-452 | finds the first stepped frame; reads past the frames exactly when there is none |
| FormatNegotiation.IrregularIsNotEnumerable | driver/virtio_video_device.c:405-452 | a concrete size that negotiation returns and enumeration does not find |
| FrameRate.InvalidExact | driver/virtio_video_enc.c:628-631 | an interval is refused exactly when shorter than a microsecond |
| FrameRate.RateAtLeastAsked | driver/virtio_video_enc.c:627-635 | whenever there is a rate it is at least the one asked for, for every 32-bit interval |
| FrameRate.TrapsExact | driver/virtio_video_enc.c:628-634 | division by zero exactly for a zero denominator or a positive multiple of 2^32 microseconds |
| FrameRate.RightRateExact | driver/virtio_video_enc.c:633-634 | the cut divisor gives the true quotient exactly if the interval fits 32 bits or its low 32 bits exceed a million |
| FrameRate.WholeRateExact | driver/virtio_video_enc.c:627-635 | asking for k gives k if and only if k and k + 1 have different intervals |
| FrameRate.LowRatesAreWhole | driver/virtio_video_enc.c:627-635 | that is so whenever k(k + 1) <= 10^6 |
| FrameRate.NotOnlyLowRates | driver/virtio_video_enc.c:627-635 | 1000 comes out right above that bound, 1500 comes out as 1501 |
| FrameRate.LongIntervalsGoWrong | driver/virtio_video_enc.c:633-634 | two instances: 2^32 microseconds divide by zero, one more gives a million frames a second |
| FrameRate.ReportedRateRoundTrips | driver/virtio_video_enc.c:584-589 | setting the interval reported for a computed rate gives that rate again |
| FrameRate.EncoderStream.TryFramerate | driver/virtio_video_enc.c:563-582 | accepts exactly the rates in some range of the current frame |
| FrameRate.EncoderStream.SetParm | driver/virtio_video_enc.c:613-654 | which requests are sent, refused or divide by zero, and what is reported |
| Wire.Get32Exact | driver/virtio_video_caps.c:57-63 | a field reads n exactly where n's little-endian bytes stand |
| Wire.Get64Exact | driver/virtio_video_caps.c:135 | the same for 64 bits |
| CapabilityParser.CapabilityRoundTrip | driver/virtio_video_caps.c:162-220 | parsing any tree's serialization, whatever follows it, yields the tree and consumes exactly 16 + sum(24 + sum(40 + 16 rates)) bytes |
| CapabilityParser.CapabilitySound | driver/virtio_video_caps.c:162-220 | whatever the parser accepts is the serialization of the tree it returns |
| CapabilityParser.DescsRoundTrip | driver/virtio_video_caps.c:123-160 | the same for descriptors at any offset |
| CapabilityParser.FrameRoundTrip | driver/virtio_video_caps.c:78-121 | the same for one frame |
| CapabilityDriver.ParseVirtioFrame | driver/virtio_video_caps.c:78-121 | the offset loop computes the parsed frame and its size |
| CapabilityDriver.ParseVirtioFmt | driver/virtio_video_caps.c:123-160 | the offset loop computes the parsed format and its size |
| CapabilityDriver.FormatList.ParseVirtioCapability | driver/virtio_video_caps.c:162-220 | formats are prepended, so they come out reversed in front of the old list; no descriptors means EINVAL and no change |
| CapabilityDriver.ListedInReverse | driver/virtio_video_caps.c:189-212 | from bytes to list: entry i is the tree's descriptor n - 1 - i, translated |
| CapabilityDriver.ControlRange | driver/virtio_video_caps.c:336-350 | no value, no result; otherwise min and max are attained bounds, and for values below 32 the skip mask clears exactly their bits |
| CapabilityDriver.Enumerator.EnumFmtVidCap | driver/virtio_video_dec.c:400-441 | index i names the i-th list position whose mask bit is set; the error cases |
| CapabilityDriver.AllowedExact | driver/virtio_video_dec.c:430-439 | the positions counted are the set bits, ascending |
| CapabilityDriver.MaskForExact | driver/virtio_video_dec.c:418-427 | the mask is that of the first input format with the format, and empty without one |
| ControlMenu.ParseQmenu | driver/virtio_video_device.c:1289-1306 | in place: slot i is base plus offset i, slot n is NULL, all bytes after it are untouched; counts out of bounds rewrite nothing |
| ControlMenu.MenuMeans | driver/virtio_video_device.c:1284-1306 | in a well-formed menu each pointer names the bytes its offset named before, and the first NULL ends the list |
| ControlMenu.GuardExact | driver/virtio_video_device.c:1296-1297 | the unsigned guard admits a non-negative count exactly when there is room for it |
| ControlMenu.ControlList.ParseControls | driver/virtio_video_device.c:1308-1376 | appends the reply's records up to the zero size, which alone ends the query |
| ControlMenu.ControlList.QueryCapability | driver/virtio_video_device.c:1391-1431 | collects over replies until one ends; a failed command keeps what is there |
| ControlMenu.ChunkRoundTrip | driver/virtio_video_device.c:1325-1368 | a reply that carries records parses to them |
| ControlMenu.CuttingDoesNotMatter | driver/virtio_video_device.c:1406-1423 | however the records are cut into replies, the list is all of them in order |

## Left out

- The V4L2 ioctl wrappers, probing, registration, the camera file, tracing and name copying: plumbing without invariants of its own.
- HAB sockets, dma-buf, idr, slab and vb2 internals: they appear as parameters that say whether a call works and what it returns.
- Allocation failure and thread teardown beyond the drop steps: `msm_hab_del_vqs`, `kthread_stop` and socket close are not part of the model.
- The error path's loop over the open streams also runs when the command queue's receiver fails, because it is not inside the test above it. Only a command left on the vbuf list of a broken queue is affected; the command model ends the receiver without that loop.
- CommandDriver.CommandDevice.ProcessCmdResp: the response bytes copied to the submitter's buffer.
- CommandDriver.CommandDevice.CmdCb: the `resp_cb` function a command may carry; what it does with the response is its submitter's.
- EventDriver.EventDevice.HandleEvent: the GVM_SSR event, which only queues a notification for the session layer.
- EventDriver.EventDevice.ProcessEvents: nothing interleaves with the method's drain; every interleaving is in `EventTheorems`.
- EventDriver.EventDevice.RecvFailed: nothing interleaves with the method's round, and the open streams are a fixed list; every interleaving is in `EventTheorems`.
- ExportCache.GetIdTransparent: the hit path reads the entry's id after dropping the lock; the model reads it with the lookup.
- CacheSections.CacheStaysSound: one adder at a time; two adders of one new key could both miss and both insert it.
- QueueTheorems.EachQueuedBufferReturnedOnce: buffers queued at the same time lie in distinct dma-bufs; the driver identifies a pending buffer by its first plane's export alone.
- QueueTheorems.CleanupSafe: the other planes' ids of a pending buffer; an event that names one un-marks it.
- QueueTheorems.CompletionKeepsExports: likewise the first plane's id only.
- BufferDriver.VideoDevice.HandleError: the branch for a device that is not memory-to-memory, which has output queues only.
- BufferDriver.VideoDevice.HandleBufDone: the un-mark and clean-up are the functions that `BufExportCache`'s methods are proved to compute, because the caches of all streams share one host; the V4L2 fields copied into the buffer.
- BufferDriver.VideoDevice.StopStreaming: likewise for the release of a queue type's exports.
- BufferDriver.VideoDevice.ExportPlanes: likewise for the plane's id.
- BufferDriver.VideoDevice.BufQueue: the submission's command traffic is one outcome, sent or not; a completion cannot interleave with the call.
- BufferDriver.VideoDevice.BufDone: the V4L2 flags, timestamps and byte counts copied into the buffer.
- ControlMenu.ControlList.ParseControls: the list holds the records as sent; that a menu record's copy is then rewritten is `ParseQmenu`.
- ControlMenu.ControlList.QueryCapability: the path on which a record cannot be allocated, which empties the list.
- CapabilityDriver.Enumerator.EnumFmtVidCap: a mask is a set of positions; positions past the 64 bits of the source's word are taken as not set by the host.
- FrameRate.EncoderStream.SetParm: the rate the host reports afterwards is a parameter.
- EventTheorems.EveryBufferInOnePlace: freeing the node pool at the end of teardown.
- The request framing of `virtio_video_v4l2_to_hab` and the conversion tables: field copies, and finite tables settled by enumeration.
- The pending SSR events and the session bookkeeping of `driver/virtio_video_msm_hw_virt.c`: a single-consumer list.
- The encoder's mask enumeration: the same loops as the decoder's.
