# virtio-media: verified model

virtio-media lets a guest use a host's media devices. A guest kernel driver forwards V4L2 ioctls over
a command queue and receives completed buffers over an event queue; host devices answer them. This
project models the places where the two sides share state, and proves what every run keeps.

| file | models |
|---|---|
| `QueueSpec`, `GuestQueue`, `QueueRuns` | a buffer queue of a guest session; its in-place form; all its interleavings with a device |
| `QueueCounter`, `QueueGenerations`, `QueueIdentity`, `QueueReports` | what holds of those interleavings: the counter, which QBUF a completion lands on, what DQBUF hands back of a QBUF and what it tells of a completion |
| `DequeueRace` | several callers of DQBUF on one queue |
| `Imports`, `ImportingQueue` | the DMA-BUF imports of one buffer, with rollback; a queue together with the imports of its slots |
| `CommandTeardown`, `CommandOutcomes` | command submission against queue teardown, as a concurrent protocol; what its threads return |
| `Scatterlist`, `ScatterlistBuilder`, `CommandBuilder` | descriptor chains, the builder that fills them, the helpers that add to them |
| `CommandResponse`, `Commands` | where the device's answer goes and what is copied back; whole commands |
| `WireFormat`, `IoctlPayload` | the bytes of buffer and control ioctls, the driver's layout and the device's parser |
| `MmapSpec`, `MmapManager`, `MmapRuns`, `MappingConservation` | the host's MMAP range as a map, as the sorted vector that implements it, over any operations, and together with the guest's mapping objects |
| `DecoderSpec`, `DecoderSession`, `DecoderRuns`, `DecoderIdle`, `DecoderEvents` | a session of the FFmpeg decoder; its in-place form and work loop; all sequences of client calls; what they leave undone; the events the client gets |
| `CaptureSession`, `SimpleDevice` | the simple capture device with any number of sessions |
| `CaptureEnvironment` | the guest's queue together with a session of that device |
| `ProxyPolling` | when the proxy device polls for CAPTURE buffers |
| `PlaneCheck` | the overlap check on frame planes |
| `Prelude` | shared constants and `Option` |

Code that updates state in place is a class or a method with loops, proved against functions on
values; the theorems over runs are about those functions. `dafny verify dfyconfig.toml` checks
everything.

## What is assumed of the environment

- A device answers an accepted QBUF at most once and sends nothing for cancelled work after it has
  acknowledged STREAMOFF or REQBUFS. Nothing more is assumed for the queue's counter, list, fences and
  what DQBUF returns, nor for anything on DMABUF queues. That a completion lands on the QBUF it answers
  needs, on the other queues, that a failed QBUF reply means the device is done with the buffer
  (`QueueGenerations.Honest`); `HonestyIsExact` shows that exactly this is needed. The simple capture
  device is proved to keep to all of this: `CaptureDeviceIsSafe`.
- Locks exclude each other; deleting the virtqueues waits for a running callback and takes all
  descriptors back; a thread that goes to sleep does not miss a wake-up.
- The host memory mapper returns addresses that are not in use.
- Completing an import whose fence is not pending has no effect.
- Page frame numbers fit the driver's `int`; data passed to the builder is not in the free part of the
  shadow buffer, and is classified by the kernel as what it is.
- Structures have the layout of the 64-bit little-endian Linux interface. `V4l2Buffer::try_from`, which
  is not part of this model, accepts what it is given.
- The codec yields finitely many results per packet and per flush, refuses packets only while results
  wait, and stays at the end of the stream after a flush.

## Where the code departs from its own words

- The counter of queued buffers can go below zero, for as long as a QBUF has marked its slot and not yet
  counted it, when a completion of an earlier, failed QBUF arrives: `CounterUnderflows`. `CounterIsExact`
  says exactly when.
- DQBUF hands back the `m` values of an older QBUF if an earlier completion left PREPARED on the slot:
  `PreparedEventKeepsOldValue`. `DequeueIdentity` says exactly when.
- The response section is addressed by descriptor index, which is right exactly when every payload
  item but the last takes one descriptor: `ResponseReusesPayload`. `SplitStructure` builds a command
  for which it is wrong, `AnswerMisplaced` says where the answer goes then.
- `retrieve_data` rejects a piece that ends exactly at the end of the shadow buffer: `ShadowRoundTrip`,
  and `FillShadow` for a build that does so.
- The MMAP range documents unregistered but mapped buffers as taking no space, and unregistering as
  telling whether a buffer was registered. Such buffers keep their offset occupied and can be
  unregistered again: `OrphanStaysOccupied`. `OrphansAreTheException` and `AutoOffsetSkipsOrphans` say
  that this is the only exception.
- A drain does not complete when a buffer is offered, but at the next `decode` or `drain`:
  `LateBufferLeavesMarker`. `UnrunWork` says exactly when work is left like this. After the flush no
  input is taken any more: `FlushIsFinal`.
- DQBUF does not look at the list again after its wait: with two callers, or a STREAMOFF in between, it
  takes from an empty list: `EmptyTakeReached`, `StreamoffOvertakes`. `EmptyWithoutClear` and
  `EmptyAfterClear` say exactly when.
- `build_owned` lets the buffer index equal to the number of buffers through its range test; indexing
  then panics: `IndexOfNoBuffer`. The contract of `BuildOwned` says exactly when.
- An automatic offset after the last page overflows: `PastLastPage`. The contract of `RegisterBuffer` says
  exactly when; a build with overflow checks panics, one without starts again at page 0.

## Model

| member | source | states |
|---|---|---|
| `QueueRuns.StepKeeps` | driver/virtio_media_ioctls.c:942-1010 | every step of QBUF, its reply, the completion event, cancel, STREAMON and DQBUF keeps flags, counter, list, fences and history consistent, whatever the device replies |
| `QueueRuns.QueueConservation` | driver/virtio_media_ioctls.c:984-1006 | in every run: the counter is the number of QUEUED and not DONE slots less the one just marked, the list is duplicate-free and holds exactly the DONE slots, imports are prepared exactly on active DMABUF slots |
| `QueueCounter.CounterIsExact` | driver/virtio_media_ioctls.c:984-987 | in every run: the counter never goes below zero if and only if the last slot on the device is never completed between the two halves of a QBUF; a completion that does so leaves a QBUF DONE that the device has not seen |
| `QueueCounter.CounterUnderflows` | driver/virtio_media_driver.c:551-554 | a run from a new queue, with a failed reply for a buffer the device keeps, that takes the counter to -1 |
| `QueueGenerations.CounterOfHonestRuns` | driver/virtio_media_ioctls.c:984-1006 | when failed replies can be trusted the counter never goes below zero |
| `QueueGenerations.GenerationSafety` | driver/virtio_media_driver.c:504-510 | in every run with trustworthy failed replies: a completion that is applied answers the very QBUF its slot waits for, which has not been answered before |
| `QueueGenerations.ImportGenerationSafety` | driver/virtio_media_ioctls.c:989-994 | in every run of a queue that only imports, whatever the replies say: the same, and the counter never goes below zero |
| `QueueRuns.FailedImportClosesGate` | driver/virtio_media_ioctls.c:989-1005 | a failed DMABUF QBUF leaves the slot off the device and requires a cancel, whatever the device did before the reply |
| `QueueRuns.CancelGate` | driver/virtio_media_ioctls.c:720-728 | while a cancel is required and none completes, no QBUF and no STREAMON succeeds, over any number of steps |
| `QueueRuns.CancelDrains` | driver/virtio_media_ioctls.c:743-752 | the cancel that lifts the requirement leaves no completion outstanding and every slot free, unprepared and unfenced |
| `QueueRuns.QbufIsExact` | driver/virtio_media_ioctls.c:953-983 | for every queue and argument: QBUF goes through if and only if the slot exists and is free, no cancel is required, the memory type is that of the queue, the imports could be prepared and the planes fit; EIO exactly for a required cancel, EINVAL otherwise; a refusal changes nothing but the `m` of an unprepared slot whose planes do not fit |
| `QueueIdentity.DequeueIdentity` | driver/virtio_media_ioctls.c:1065-1088 | in every run: DQBUF returns buffers in event-arrival order; it hands back the `m` of the matching QBUF, or on a multiplanar queue those of its planes, whatever events contained, if and only if the slot was not PREPARED at that QBUF or held the same values already; the `m` of a multiplanar buffer is the caller's own |
| `QueueIdentity.UnpreparedHandsBack` | driver/virtio_media_ioctls.c:969-983 | as long as no completion since the last clear carried PREPARED, every DQBUF hands back the `m`, or the planes' `m`, of the matching QBUF |
| `QueueIdentity.PreparedEventKeepsOldValue` | driver/virtio_media_ioctls.c:1074-1075 | a run in which a buffer queued with 2 comes back with 1, after a completion that carried PREPARED |
| `QueueReports.CompletionReachesUser` | driver/virtio_media_driver.c:514-533 | in every run: the DQBUF that returns the QBUF an event completed hands out that event's payload, its flags other than QUEUED and DONE, and on a multiplanar queue its data for every plane the event names and the caller has room for |
| `QueueReports.LastClosesQueue` | driver/virtio_media_ioctls.c:1031-1088 | in every run: the flag for which DQBUF answers EPIPE is set if and only if a buffer whose completion carried LAST has been dequeued from a CAPTURE queue since the last clear |
| `QueueGenerations.HonestyIsExact` | driver/virtio_media_ioctls.c:988-1007 | after a failed reply no trustworthy continuation lets a completion land on a QBUF it does not answer, if and only if the queue imports or the failed QBUF cannot be completed any more |
| `QueueGenerations.StaleCompletionLands` | driver/virtio_media_ioctls.c:988-1007 | otherwise, from every such state, whether the device holds the buffer or its completion is on the way, there are steps after which the completion is applied to the next QBUF of the slot |
| `GuestQueue.BufferQueue.Qbuf` | driver/virtio_media_ioctls.c:953-986 | QBUF up to its command, with the plane loop, is exactly marking then counting |
| `GuestQueue.BufferQueue.FailQbuf` | driver/virtio_media_ioctls.c:988-1007 | the failed QBUF is taken back: its slot is off the device and without fence, a completion that beat the reply stays, all else is untouched, and counter, list and fences agree if they did before |
| `QueueRuns.FailureTakesBack` | driver/virtio_media_ioctls.c:988-1007 | the same of the specification, for every queue |
| `GuestQueue.BufferQueue.ProcessDqbufEvent` | driver/virtio_media_driver.c:487-557 | an event is applied or ignored as a whole, as the specification of the runs says: the fields of the event, `m` values kept, DONE set |
| `GuestQueue.BufferQueue.ClearQueue` | driver/virtio_media_ioctls.c:463-490 | the loops over list and slots leave the cleared queue |
| `GuestQueue.BufferQueue.ReplaceSlots` | driver/virtio_media_ioctls.c:790-812 | REQBUFS after its acknowledgement yields a fresh generation of slots, or none without memory |
| `GuestQueue.BufferQueue.Dqbuf` | driver/virtio_media_ioctls.c:1026-1092 | when DQBUF fails, waits, is interrupted, finds the device gone or takes the head of the list, and what it returns, with the caller's planes pointer put back, if nobody else takes buffers meanwhile |
| `GuestQueue.BufferQueue.DqbufChecks` | driver/virtio_media_ioctls.c:1030-1047 | which calls are refused before the wait |
| `GuestQueue.BufferQueue.DqbufTakes` | driver/virtio_media_ioctls.c:1058-1090 | after the wait, in whatever state the queue is then: ENODEV, EINTR, the head of the list with the caller's planes pointer put back, and undefined exactly if the list is empty |
| `DequeueRace.EmptyWithoutClear` | driver/virtio_media_ioctls.c:1054-1069 | for any number of callers and any steps between a caller's wake-up and its take, without a clear: it takes from an empty list if and only if others took as many buffers as were there and have arrived |
| `DequeueRace.EmptyAfterClear` | driver/virtio_media_ioctls.c:1054-1069 | with a clear in between: if and only if others took as many as have arrived since the last one |
| `DequeueRace.AloneIsDefined` | driver/virtio_media_ioctls.c:1054-1069 | a caller that neither a take nor a clear overtakes always finds a buffer |
| `DequeueRace.EmptyTakeReached` | driver/virtio_media_ioctls.c:1065-1069 | a run from a new queue with two callers and one buffer that takes from an empty list |
| `DequeueRace.StreamoffOvertakes` | driver/virtio_media_ioctls.c:743-752 | from every state with a sleeping caller and a buffer, a STREAMOFF after the wake-up leads there as well |
| `Imports.BufferImports.PrepareImports` | driver/virtio_media_dmabuf.c:45-113 | success fences exactly the planes of the call, on pairwise distinct DMA-BUFs, and sends for each the UUID of the import it kept or of the new one; failure fences none and either releases every import or, if only a fence could not be prepared, keeps them; references always balance; with working services it succeeds exactly on importable planes |
| `Imports.BufferImports.ImportPlane` | driver/virtio_media_dmabuf.c:57-95 | one plane: an import of the same DMA-BUF and length is kept with its UUID, another one replaced; all other planes keep their imports, a DMA-BUF named twice is refused, references balance |
| `Imports.BufferImports.FencePlanes` | driver/virtio_media_dmabuf.c:97-104 | preparing planes succeeds if and only if each can be prepared, and is all or nothing: the fences before the first failure are signalled as cancelled |
| `Imports.BufferImports.CompleteImports` | driver/virtio_media_dmabuf.c:19-28 | every import stays and every pending fence is signalled with the given outcome |
| `Imports.BufferImports.ReplaceImport` | driver/virtio_media_dmabuf.c:78-95 | an import of the same DMA-BUF and length stays as it is; otherwise the plane gets the new import and its UUID |
| `ImportingQueue.ImportingQueue.Qbuf` | driver/virtio_media_ioctls.c:964-986 | a slot has a prepared import exactly while it is on the device of a DMABUF queue, before and after; a QBUF that succeeds has fenced the DMA-BUFs it names, pairwise distinct |
| `ImportingQueue.ImportingQueue.ProcessEvent` | driver/virtio_media_driver.c:511-512 | the same of a completion event; an applied one signals the pending fences of its slot, as an I/O error exactly if the event carries ERROR, and keeps all imports |
| `ImportingQueue.ImportingQueue.Fail` | driver/virtio_media_ioctls.c:988-1007 | the same of a failed QBUF, which releases the imports |
| `ImportingQueue.ImportingQueue.Clear` | driver/virtio_media_ioctls.c:479-482 | the same of STREAMOFF, which signals the pending fences of every slot as cancelled and keeps all imports |
| `ImportingQueue.ImportingQueue.Reallocate` | driver/virtio_media_ioctls.c:790-812 | the same of REQBUFS, which releases all imports of the old slots |
| `CommandTeardown.NoDanglingFrame` | driver/virtio_media_driver.c:315-362 | in every interleaving: neither the device nor the callback can reach the stack frame of a thread that has returned |
| `CommandTeardown.NoCommandAfterStop` | driver/virtio_media_driver.c:328-345 | once the queues are stopped no command is added and nothing is lent to the device |
| `CommandTeardown.RunsAreFinite` | driver/virtio_media_driver.c:347-356 | every run of any number of submitters, removals, workers and sleepers ends |
| `CommandTeardown.EveryWaiterReleased` | driver/virtio_media_driver.c:83-107 | a run that cannot be continued, even with a device that never answers, has returned every thread, through the wait for the event work and the wake-up of the sleepers; only while nobody has disconnected the device may a thread still sleep for a buffer |
| `CommandTeardown.SomeoneCanMove` | driver/virtio_media_driver.c:83-99 | no deadlock: while a thread has not returned, some thread or the callback can move without the device |
| `CommandOutcomes.Outcomes` | driver/virtio_media_driver.c:328-357 | in every run: a thread that returns a reply or a buffer has got one, one that returns that there is no device does so after a disconnection, one that returns from a teardown leaves no event work; until the queues stop no command is lost; at the end of its wait a submitter returns the reply if and only if they have not been stopped |
| `CommandOutcomes.RolesOverRuns` | driver/virtio_media_driver.c:328-357 | over any steps: the outcomes a command, a removal, a worker and a sleeper can have; a command that begins after the disconnection is never added and can only return that there is no device |
| `Scatterlist.AppendPiece` | driver/scatterlist_builder.c:138-139 | adding a piece appends its bytes to the linear view and disturbs nothing before it |
| `ScatterlistBuilder.Builder.PushPages` | driver/scatterlist_builder.c:79-113 | the page loop with merging of consecutive frames covers exactly the virtual bytes, with one descriptor if and only if all frames are consecutive and never more than pages |
| `ScatterlistBuilder.Builder.PlaceInShadow` | driver/scatterlist_builder.c:114-136 | the copy goes to the free part of the shadow buffer, if it fits, and one descriptor covers it |
| `ScatterlistBuilder.Builder.AddData` | driver/scatterlist_builder.c:56-140 | on success the device reads the added bytes after all earlier ones, whichever strategy was used, and only copied data touches the shadow buffer; they take one descriptor if and only if they are copied, linear or in consecutive frames; what is in the shadow buffer stays apart from everything else |
| `ScatterlistBuilder.ShadowPieceApart` | driver/scatterlist_builder.c:126-135 | a piece added to a chain keeps every piece in the shadow buffer a list of its own that shares no byte with any other descriptor |
| `CommandBuilder.AddAll` | driver/scatterlist_builder.c:56-140 | linearization: after any sequence of successful additions the chain reads as their concatenation, and the pieces in the shadow buffer are pairwise apart |
| `CommandBuilder.AddUserptr` | driver/scatterlist_builder.c:283-341 | the array of scatter-gather entries is staged in the shadow buffer and chained |
| `CommandBuilder.AddStructure` | driver/scatterlist_builder.c:486-510 | a structure and its array are laid out one after the other |
| `IoctlPayload.FixupPlanes` | driver/scatterlist_builder.c:364-374 | the loop over the planes zeroes, in place, exactly the lengths of NULL user pointers on a USERPTR buffer; every other byte of every plane is unchanged |
| `CommandBuilder.AddUserMemory` | driver/scatterlist_builder.c:398-432 | one entry list per element of non-zero length, in order |
| `Commands.SendBuffer` | driver/virtio_media_ioctls.c:272-314 | from the driver's memory to the device's parser: the device finds the header, the buffer and planes as user space gave them (lengths of NULL pointers zeroed), and the list of every user pointer with a length, followed by the UUIDs of a DMABUF buffer; the response section follows, and the pieces in the shadow buffer are pairwise apart |
| `Commands.SendControls` | driver/virtio_media_ioctls.c:384-413 | the same for extended controls |
| `CommandResponse.AddResponse` | driver/virtio_media_ioctls.c:304-314 | the writable section is the response header and descriptors 1 to the end of the payload; what the device reads is unaffected |
| `CommandResponse.ResponseReusesPayload` | driver/virtio_media_ioctls.c:309-314 | in every command built: the answer to each payload entry goes to that entry's own list if and only if every item but the last is copied, linear, or in consecutive page frames |
| `CommandResponse.AnswerMisplaced` | driver/virtio_media_ioctls.c:309-314 | otherwise the answer to the entry after the first such item is written into the second descriptor of that item |
| `Commands.SplitStructure` | driver/virtio_media_ioctls.c:309-314 | a build: a structure in two frames that are not adjacent, whose plane's answer goes to its second half |
| `CommandResponse.AnswersComeBack` | driver/scatterlist_builder.c:158-181 | in every command built: whatever the device writes through all writable lists, the driver copies back its answer to every shadowed payload entry if and only if the entry's piece ends before the end of the shadow buffer |
| `CommandResponse.ShadowRoundTrip` | driver/scatterlist_builder.c:171-178 | the same for any chain with pieces apart and any number of lists; a piece that ends with the buffer is rejected |
| `Commands.FillShadow` | driver/scatterlist_builder.c:174-175 | a build: a piece copied into a shadow buffer of any size comes back, unless it fills it to the end |
| `WireFormat.GetUserptrRegions` | device/src/ioctl.rs:69-83 | the loop reads entries up to and including the one that reaches the size |
| `WireFormat.RegionsRoundTrip` | device/src/ioctl.rs:69-83 | an encoded list, followed by anything, is recovered if and only if its total reaches the size and no proper prefix does |
| `WireFormat.SgRoundTrip` | device/src/protocol.rs:128-134 | an entry is recovered, and its start and length are little-endian numbers at bytes 0 and 8 |
| `IoctlPayload.BufferRoundTrip` | device/src/ioctl.rs:106-157 | parsing a laid-out buffer returns the structure and the planes as given, up to the lengths of NULL user pointers, and for every plane with a user pointer and a length exactly its list |
| `IoctlPayload.BufferRefused` | device/src/ioctl.rs:112-121 | unknown queues and more than eight planes are refused |
| `IoctlPayload.FixupIsExact` | driver/scatterlist_builder.c:355-375 | for every buffer and plane: the length sent is zero if and only if it was zero, or the memory is USERPTR and the pointer NULL; otherwise the bytes sent are the bytes given, and in every case those outside the length field are |
| `IoctlPayload.ControlsRoundTrip` | device/src/ioctl.rs:161-184 | the same round trip for any number of extended controls |
| `MmapSpec.CreateKeeps` | device/src/mmap.rs:200-259 | mapping keeps the range well formed, tells the host mapper exactly of first mappings, and never reports `SizeOutOfBounds` |
| `MmapSpec.RemoveKeeps` | device/src/mmap.rs:263-289 | unmapping keeps the range well formed, tells the host mapper exactly of last unmappings |
| `MmapSpec.CreateIsExact` | device/src/mmap.rs:200-259 | mapping succeeds if and only if the buffer is registered and ends within 32 bits, and is unmapped with a mapper that agrees or mapped with the same access; it then returns the size of the registration and the address of the mapping; every error with its exact condition |
| `MmapSpec.RemoveChanges` | device/src/mmap.rs:263-289 | unmapping takes one from the count of its buffer and leaves the others; a registered buffer outlives its last mapping, an unregistered one does not |
| `MmapSpec.RegisterIsExact` | device/src/mmap.rs:167-190 | registration at an offset: success and each error with its exact condition, and what is registered |
| `MmapRuns.AccessAndSize` | device/src/mmap.rs:225-259 | over any operations on an empty range: all requests that the live mappings of an address go back to asked for the access that it is mapped with, and a mapping reports the size given at registration |
| `MmapSpec.OrphansAreTheException` | device/src/mmap.rs:144-161 | unregistering answers whether a buffer was registered, and an offset is occupied whether a buffer is registered there, each if and only if the offset is not unregistered and still mapped |
| `MmapSpec.AutoOffsetSkipsOrphans` | device/src/mmap.rs:131-138 | the automatic offset is that of the registered buffers alone if and only if the last buffer is registered |
| `MmapSpec.UnregisterOrphans` | device/src/mmap.rs:150-156 | an offset becomes unregistered and still mapped exactly by unregistering a mapped buffer |
| `MmapSpec.OnlyUnregisterOrphans` | device/src/mmap.rs:263-289 | it stays so until its last mapping goes, and no other operation makes it so |
| `MmapSpec.OrphanStaysOccupied` | device/src/mmap.rs:27-31 | a run: registered, mapped, unregistered, then unregistered again with success and refused as occupied |
| `MmapManager.MmapMappingManager.BinarySearch` | device/src/mmap.rs:182-183 | bisection finds the offset or the only place to insert it |
| `MmapManager.MmapMappingManager.RegisterBuffer` | device/src/mmap.rs:126-142 | refines registration in the map; the automatic offset is the page after the last one; it overflows if and only if the last page is taken, whatever the size: a panic with overflow checks, page 0 without |
| `MmapManager.MmapMappingManager.PastLastPage` | device/src/mmap.rs:131-138 | a run that reaches the overflow, in both kinds of build |
| `MmapManager.MmapMappingManager.RegisterBufferByOffset` | device/src/mmap.rs:167-190 | refines registration at a given offset, with its three errors |
| `MmapManager.MmapMappingManager.UnregisterBuffer` | device/src/mmap.rs:146-161 | refines unregistration; a mapped buffer stays until its last mapping |
| `MmapManager.MmapMappingManager.CreateMapping` | device/src/mmap.rs:200-259 | the sorted vector refines mapping in the map; success and a refused access with their exact conditions, and the call to the host mapper |
| `MmapManager.MmapMappingManager.RemoveMapping` | device/src/mmap.rs:263-289 | refines unmapping; the scan finds the only buffer at the address |
| `MmapManager.MmapMappingManager.IsMapped` | device/src/mmap.rs:291-300 | tells whether the offset is mapped |
| `MappingConservation.MunmapUndoesMmap` | driver/virtio_media_driver.c:1040-1117 | MUNMAP after a successful MMAP leaves the host exactly as before |
| `MappingConservation.CreateCounts` | device/src/mmap.rs:225-258 | a successful MMAP adds one to the count of its address and to no other |
| `MappingConservation.MunmapCounts` | device/src/mmap.rs:263-289 | a MUNMAP takes one from the count of its address and from no other |
| `MappingConservation.ReplyFitsExactly` | driver/virtio_media_driver.c:1046-1074 | the driver's comparisons, which avoid 64-bit overflow, hold exactly if the reply's whole pages lie in the region and the area in them |
| `MappingConservation.Device.Mmap` | driver/virtio_media_driver.c:999-1121 | succeeds if and only if the host maps, the reply is a page-aligned, non-empty range within the region, the area fits it and the services work; host counts equal guest objects plus exports afterwards; the commands sent are one MMAP, and one MUNMAP exactly if the host mapped and the call fails, which restores the host |
| `MappingConservation.Device.FinishClose` | driver/virtio_media_driver.c:967-984 | the last reference removes the object, the counter and one host mapping, by one MUNMAP |
| `MappingConservation.Device.Expbuf` | driver/virtio_media_driver.c:862-945 | an open export of the same plane and mode is used again and the host left alone; otherwise it succeeds if and only if the host maps, the reply lies in the region and is as long as the plane, and the services work; exports are counted like mappings, with one MUNMAP exactly if the host mapped and the call fails; no plane ever has two open exports of one mode |
| `MappingConservation.Device.ExportRelease` | driver/virtio_media_driver.c:816-829 | releasing an export removes one host mapping, by one MUNMAP |
| `MappingConservation.Device.Reqbufs` | driver/virtio_media_ioctls.c:1382-1393 | a REQBUFS let through meets a host with nothing mapped, so the buffers it drops are really gone |
| `DecoderSpec.TurnConsumes` | extras/ffmpeg-decoder/src/lib.rs:635-643 | a turn that does something lowers the lexicographic measure; one that does nothing leaves the session unchanged |
| `DecoderSession.FfmpegDecoderSession.TryDecode` | extras/ffmpeg-decoder/src/lib.rs:635-643 | the loop terminates and does what the specification says |
| `DecoderSession.FfmpegDecoderSession.TrySendInputJob` | extras/ffmpeg-decoder/src/lib.rs:376-427 | a refused packet is put back in front; an accepted one is reported done |
| `DecoderSession.FfmpegDecoderSession.TryReceiveFrame` | extras/ffmpeg-decoder/src/lib.rs:430-527 | keeps the session's invariant and does what `ReceiveMeaning` says |
| `DecoderRuns.ReceiveMeaning` | extras/ffmpeg-decoder/src/lib.rs:430-527 | receiving does nothing exactly if a frame is held or the codec has nothing and no drain asks; otherwise it takes exactly the next result of the codec, flushed if need be, and a drain goes on only when none is left |
| `DecoderRuns.SendMeaning` | extras/ffmpeg-decoder/src/lib.rs:376-427 | sending does nothing exactly if no job waits or the codec cannot take the first packet, fails exactly on a fatal packet, and otherwise takes the first job: a drain begins, or the input buffer is reported done and the results of an accepted packet become available |
| `DecoderSession.FfmpegDecoderSession.TryOutputFrame` | extras/ffmpeg-decoder/src/lib.rs:531-632 | a buffer that cannot be used is put back in front |
| `DecoderSession.FfmpegDecoderSession.ClearOutputBuffers` | extras/ffmpeg-decoder/src/lib.rs:745-752 | buffers and the frame completions that wait are dropped, the other events and the held frame are kept |
| `DecoderSession.FfmpegDecoderSession.NextEvent` | extras/ffmpeg-decoder/src/lib.rs:754-756 | the event that has waited longest is taken, or none |
| `DecoderEvents.EventsReachClient` | extras/ffmpeg-decoder/src/lib.rs:745-756 | over any calls: the events the client has taken followed by those waiting are exactly the events queued, in order, without those dropped; only frame completions are dropped, so every input buffer done was reported or waits to be, in order |
| `DecoderEvents.OnlyClearDrops` | extras/ffmpeg-decoder/src/lib.rs:745-752 | a clear drops exactly the frame completions that wait, and none waits afterwards; no other call drops anything |
| `DecoderRuns.WorkEndsQuiescent` | extras/ffmpeg-decoder/src/lib.rs:635-643 | when the loop ends without error no attempt can do anything |
| `DecoderRuns.BuffersLeftMeansIdle` | extras/ffmpeg-decoder/src/lib.rs:543-566 | a work loop that ends with a buffer left leaves no frame and no drain pending |
| `DecoderIdle.BuffersInOrder` | extras/ffmpeg-decoder/src/lib.rs:531-632 | an offered buffer goes behind all others if and only if the session accepts any; delivering uses the first one, for the held frame or the LAST marker |
| `DecoderIdle.OutputFails` | extras/ffmpeg-decoder/src/lib.rs:568-605 | nothing is delivered exactly if no buffer is there or nothing is due; delivering fails exactly if a frame is due that cannot be converted |
| `DecoderIdle.OldestWorkFirst` | extras/ffmpeg-decoder/src/lib.rs:635-643 | a job is taken only when nothing can be delivered or received, a result of the codec only when nothing can be delivered |
| `DecoderIdle.UnrunWork` | extras/ffmpeg-decoder/src/lib.rs:694-752 | over any calls since the last `decode` or `drain`: work that could be done is left unrun if and only if a frame or LAST marker was waiting then and the calls leave a buffer behind |
| `DecoderIdle.NextCallCatchesUp` | extras/ffmpeg-decoder/src/lib.rs:720-743 | the next `decode` or `drain` leaves nothing that wants a buffer together with one |
| `DecoderIdle.LateBufferLeavesMarker` | extras/ffmpeg-decoder/src/lib.rs:694-716 | a run: decode, drain, then a buffer is offered, and LAST is not sent |
| `DecoderRuns.JobsLeftMeansBlocked` | extras/ffmpeg-decoder/src/lib.rs:386-415 | a waiting job means that a frame waits for a buffer or the codec was flushed for good |
| `DecoderIdle.FlushIsFinal` | extras/ffmpeg-decoder/src/lib.rs:376-427 | once the codec is flushed, under any further calls no input buffer is reported done and all those submitted wait |
| `DecoderRuns.CallKeeps` | extras/ffmpeg-decoder/src/lib.rs:649-752 | every client call keeps the invariant, through the whole work loop |
| `DecoderRuns.DrainMarkers` | extras/ffmpeg-decoder/src/lib.rs:543-566 | LAST markers never outnumber drain jobs taken, and a marker is never held back by a frame |
| `DecoderRuns.LastComesLast` | extras/ffmpeg-decoder/src/lib.rs:543-566 | when LAST is queued, every picture the codec produced was queued before it, in order |
| `DecoderRuns.InputOrder` | extras/ffmpeg-decoder/src/lib.rs:402-412 | absent fatal errors, input buffers are reported done in the order of the calls, and the rest still waits |
| `DecoderRuns.BufferConservation` | extras/ffmpeg-decoder/src/lib.rs:535-632 | every accepted output buffer is available, completed, discarded, or lost to a failed conversion |
| `CaptureSession.ProcessQueue` | device/src/devices/simple_device.rs:131-169 | the whole FIFO is completed in QBUF order with consecutive sequence numbers; each buffer holds its frame and is the guest's again, the others are as before |
| `CaptureSession.Cancel` | device/src/devices/simple_device.rs:572-583 | nothing stays queued, every buffer is new |
| `SimpleDevice.SendingContinues` | device/src/devices/simple_device.rs:137-164 | each session numbers its completions 0, 1, 2, ... over the whole run |
| `SimpleDevice.OwnerReplaced` | device/src/devices/simple_device.rs:440-456 | a session that may allocate becomes the only owner of buffers |
| `SimpleDevice.SimpleCaptureDevice.Reqbufs` | device/src/devices/simple_device.rs:423-516 | at most one session owns buffers, exactly these are registered and with the size of a frame, before and after; the new buffers are new; who is refused; when an automatic offset overflows; what is left when the last page and page 0 are both taken |
| `SimpleDevice.SimpleCaptureDevice.Qbuf` | device/src/devices/simple_device.rs:534-559 | the FIFO stays duplicate-free and equal to the incoming buffers; a streaming session gives the buffer the next frame and completes it at once; no other buffer changes |
| `SimpleDevice.SimpleCaptureDevice.Streamon` | device/src/devices/simple_device.rs:561-570 | the buffers queued so far are filled and completed in order, no other buffer changes |
| `SimpleDevice.SimpleCaptureDevice.Streamoff` | device/src/devices/simple_device.rs:572-583 | cancels what is queued and keeps the device consistent |
| `SimpleDevice.SimpleCaptureDevice.Open` | device/src/lib.rs:282-312 | a new session gets a fresh id and disturbs no other |
| `SimpleDevice.SimpleCaptureDevice.Close` | device/src/devices/simple_device.rs:224-232 | the registrations of a closed session go with it |
| `SimpleDevice.SimpleCaptureDevice.DoMmap` | device/src/devices/simple_device.rs:244-268 | only a buffer of the calling session is mapped, with the size of a frame |
| `CaptureEnvironment.CallAgrees` | device/src/devices/simple_device.rs:534-583 | the device and the guest's queue agree, before and after every call, on which QBUFs the device holds; what the two do in a call is a run of the queue whose replies can be trusted |
| `CaptureEnvironment.CaptureDeviceIsSafe` | device/src/devices/simple_device.rs:131-169 | through any calls, at every moment: the device completes each accepted QBUF at most once and nothing it cancelled, no completion lands on a QBUF it does not answer, and the counter is not negative |
| `CaptureEnvironment.NeverRefused` | device/src/devices/simple_device.rs:534-559 | the device accepts every QBUF that the driver sends |
| `ProxyPolling.CaptureSide.CaptureReady` | device/src/devices/v4l2_device_proxy.rs:553-567 | the count never goes below zero; polling is on exactly when streaming with buffers queued, except after LAST |
| `ProxyPolling.CaptureSide.Qbuf` | device/src/devices/v4l2_device_proxy.rs:748-757 | polling is switched on with the first buffer of a streaming queue |
| `ProxyPolling.CaptureSide.Streamon` | device/src/devices/v4l2_device_proxy.rs:672-693 | polling is switched on if buffers are queued |
| `ProxyPolling.CaptureSide.Cancel` | device/src/devices/v4l2_device_proxy.rs:695-717 | STREAMOFF and REQBUFS(0) reset count, streaming and polling |
| `PlaneCheck.NeighboursDecide` | extras/ffmpeg-decoder/src/ffmpeg/avcodec.rs:1041-1057 | in sorted order, comparing neighbours decides disjointness of all pairs |
| `PlaneCheck.SortAllApart` | extras/ffmpeg-decoder/src/ffmpeg/avcodec.rs:1043 | sorting does not change whether ranges overlap |
| `PlaneCheck.BuildOwned` | extras/ffmpeg-decoder/src/ffmpeg/avcodec.rs:1004-1067 | succeeds if and only if every plane fits its buffer, every stride covers a line and, of two planes in a buffer, one ends before the other begins; otherwise reports the first failing plane or the overlap; panics exactly if the first plane to fail has the number of buffers as index, or no size |
| `PlaneCheck.IndexOfNoBuffer` | extras/ffmpeg-decoder/src/ffmpeg/avcodec.rs:1030-1034 | a plane whose index is the number of buffers panics, for any buffers |

## Left out

- PREPARE_BUF and CREATE_BUFS: the first overwrites flags of queued buffers, the second copies linked list nodes; the queue model has neither.
- Granularity of the queue model: applying a completion event and each half of QBUF are single steps; the driver's memory accesses inside them are not interleaved. `QueueRuns` takes a buffer only from a non-empty list; `DequeueRace` has the wait and the take as separate steps.
- The device lock in the teardown model: submitters and sleepers are not serialised by it, which only adds interleavings of commands; that a sleeper takes it again before it returns is not modelled.
- AddStructure: takes a `v4l2_buffer` after its fixup; the fixup itself is `FixedBuffer` on the structure and `FixupPlanes` on the planes.
- Timestamps overridden on dequeue, session error events inside the queue model: easy members or no shared state.
- `SizeOutOfBounds` and `NoFreeSpace` of the mapping manager: kept as unreachable or dropped, since the code never returns them.
- `scatterlist_builder_retrieve_buffer` and `_retrieve_ext_ctrls`: they call `retrieve_data` for entries 1 and 2 of the response and restore pointers.
- Reqbufs: when the MMAP range is full the simple device is left inconsistent; `LeftAfterFailure` says with what, and later calls are not covered. It applies where the wrapped offset is taken; where overflow panics nothing is claimed. Failing memory files are not modelled.
- CaptureDeviceIsSafe: a REQBUFS that fails because the MMAP range is full is not among the calls.
- Frame formats, pixel conversion, the codec itself, memory files, virtqueue rings, page pinning and file reference counts of sessions: abstract values or assumed services.
- Wrap-around of 64-bit counters and of `usize` sums in `BuildOwned`.
- The proxy device's buffer maps and pass-through ioctls, and `video_decoder.rs`, whose reallocation path is marked unfinished.
- Event queues of the decoder signal a file descriptor; only their FIFO order is modelled.
