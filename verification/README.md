# Verified model of the sharing framework's core

This project models the parts of the sharing framework that carry state across calls, and proves what they keep over
every run. `dafny verify dfyconfig.toml` covers all of it.

- **Buffer dispatcher** (`Media`, `CircularBuffer`, `Dispatcher*`, `BitRefs`). A bounded ring of audio and video
  frames, written by one producer and read by up to sixteen receivers. Every public operation is one atomic step of
  the pure machine in `DispatcherSpec`; the class `BufferDispatcher` performs the same steps in place, with the loops
  of the source, and every method is proved to refine its step. Counters and the sums of the resizing are 32 bits wide
  and wrap around. Two invariants are kept: a core (`DispatcherCore`), for every configuration and every run, and the
  whole invariant (`DispatcherInvariant`, `DispatcherSafety`), for the runs in which no sum of counter and increment
  wraps around. `DispatcherResults` reads them off in the callers' terms, and `DispatcherOverrun` proves where the
  capacity bound ends. `DispatcherDelivery` proves in-order delivery and `DispatcherOnce` at-most-once delivery, both
  from the core alone. `DispatcherWrites` says which inputs are written and what each of them removes, from history
  and frames alone, `DispatcherWakes` which bits and indices a frame moves, `DispatcherCalls` what the calls of
  receivers do, `DispatcherReading` what reads hand over, `DispatcherRedirect` what a key redirect does,
  `DispatcherReady` what the data bit tells, and `DispatcherStranded` which receivers never get video. Each frame
  carries the number of the input it came from, which exists for the proofs only. The flag words are sets of bit
  positions; `BitRefs` proves that the 32-bit words of the source stand for those sets over every run.
- **Agent** (`AgentSpec`, `AgentSafety`, `AgentBehaviour`, `Agent`). The step and status machine with its ordered
  cache of deferred events and the mutual recursion of handling and popping. `AgentBehaviour` says what becomes of
  each event, by its name. The session is an environment: for each call it is given, it answers with any finite list of errors, or with confirmations of an interrupt it was told to make. The pop on a
  confirmation is in services/sink/agent/sinkagent/sink_agent.cpp and services/source/agent/srcagent/src_agent.cpp, and
  a session confirms only what it was told (services/sink/impl/wfd/wfd_sink/wfd_sink_session.cpp). The trace of
  dispatches, acknowledgements and interrupts exists for the proofs only.
- **H.264 splitting and frame merging** (`H264`, `FrameMergerSpec`, `PrefixedOutput`, `FrameMerger`, `DataBuffer`,
  `Bytes`).
- **Context** (`ContextSpec`, `Context`). Creation and ordered teardown of source and sink agents.
- **Codecs** (`Parcel`, `IpcCodec`, `SceneFormat`, `Base64`).

Where the pure machine and a class appear together, the class states each new state as the machine's function of the
old one, and the properties are proved about the machine.

## Findings

- The capacity bound, and with it exact counters, an exact key list and the absence of silent evictions, hold for a
  maximum of at least 500 in runs of n operations with n + increment below 2^32 (`DispatcherResults.CapacityBound` and
  its neighbours). The increment is configured as a signed number and stored unsigned, and its sum with the frame
  counter wraps around: with maximum 800 and increment -50 the bound fails after 550 frames
  (`DispatcherOverrun.OverrunHappens`). Over runs of any length it holds exactly for a maximum of 500 and for
  audio-only dispatchers with a larger one (`DispatcherOverrun.BoundForAllRuns`). Delivery in order and at most once
  does not depend on any of this.
- Reporting readiness sets the data bit by what lies behind one index of the receiver: for a mixed receiver the video
  index, although its reads start at the smaller of its two. With a video index that is ahead or invalid both bits may
  be down while frames are unread (`DispatcherReady.MixedBitsHideFrames`). Where reads start at the index of the bit, a
  bit that is down means that no later frame of the kind is unread; the frame at the index itself is not looked at
  (`DispatcherReady.DataBitIgnoresCurrentFrame`), so a receiver without the bit has nothing to read if and only if that
  frame is not due to it (`DispatcherReady.DownBitMeansRead`). A raised bit may leave nothing to hand over
  (`DispatcherReady.DataBitMayBeIdle`); `DispatcherReady.RaisedBitPromises` says what it does promise, and
  `DispatcherReady.DataBitIsExact` when it tells exactly whether more can be read.
- A receiver outside key mode that is attached while frames but no key frame are buffered gets no video index, and the
  key frames that follow do not give it one, unless it is redirected or the buffer is flushed
  (`DispatcherStranded.AttachStrands` says exactly when, `DispatcherStranded.AttachedTooLate` is a run).
- Back-to-back start codes yield segments without payload (`H264.BackToBackCodes`); `H264.PayloadsUnlessAdjacent` says
  exactly when.
- In the output with start codes, a payload that ends in a zero loses it to a three-byte code behind it when the output
  is split again (`PrefixedOutput.ZeroIsLost`); `PrefixedOutput.PayloadsComeBack` says exactly when nothing is lost.
- Destroying a sink that still has sources stops the sources of all sinks of the context
  (`ContextSpec.OtherSinksSourceIsStopped`); `ContextSpec.DestroyStopsOwnSources` says exactly when only its own are
  stopped.
- A vector of 2^31 or more elements does not survive the IPC codec (`IpcCodec.RoundTrip`), and a scene map of more than
  100 entries is written but never read back (`SceneFormats.RoundTrip`).

## Model

| member | source | states |
|---|---|---|
| `DispatcherCore.ReachableCore` | services/mediachannel/buffer_dispatcher.cpp:924-1083 | after every sequence of operations, for every configuration and however long the run, the frames are ordered, indices stay in range and receivers own their slots, silent evictions included |
| `DispatcherSafety.ReachableInv` | services/mediachannel/buffer_dispatcher.cpp:924-1083 | after every run in which no sum of counter and increment can wrap around the whole invariant holds: capacity, counters, key list, ordering, indices, slots |
| `DispatcherResults.CapacityBound` | services/mediachannel/buffer_dispatcher.cpp:1436-1472 | size <= capacity <= configured maximum after every such run |
| `DispatcherOverrun.BoundForAllRuns` | services/mediachannel/buffer_dispatcher.cpp:1436-1472 | over all runs of any length, every state is within capacity with room for the next frame, if and only if the maximum is exactly 500, or is larger and the dispatcher is for audio only |
| `DispatcherOverrun.OverrunHappens` | services/mediachannel/buffer_dispatcher.cpp:1453-1468 | with maximum 800 and increment -50, stored in 32 bits, 550 frames lead to a silent eviction: more frames than capacity, and a frame counter one too high |
| `DispatcherResults.NoSilentEviction` | services/utils/circular_buffer.h:81-88 | wherever a run without wrapped sums admits a frame, the ring has room for it when it is pushed, so push_back does not drop the head behind the dispatcher's back |
| `DispatcherResults.SumsDoNotWrap` | services/mediachannel/buffer_dispatcher.cpp:1436-1472 | after a run of n operations with n + 1 + increment below 2^32, no 32-bit sum of the resizing wraps around, whatever the width of the capacity |
| `DispatcherResults.CounterBoundsBuffer` | services/mediachannel/buffer_dispatcher.cpp:963-985 | while a group of pictures is measured and no key frame is awaited, the buffer holds at most baseCounter_ frames, in runs of fewer than 2^32 operations |
| `DispatcherResults.CountersAreExact` | services/mediachannel/buffer_dispatcher.cpp:1055-1083 | audioFrameCnt_ and videoFrameCnt_ are the numbers of audio and of other frames buffered, after every run without wrapped sums |
| `DispatcherInvariant.RestoreKeeps` | services/mediachannel/buffer_dispatcher.cpp:1000-1026 | when the restore loop is entered every buffered frame is audio, so its untyped decrement is right, and the pops keep the queue consistent |
| `DispatcherInvariant.PopAudiosIsPopHeads` | services/mediachannel/buffer_dispatcher.cpp:1000-1020 | on an all-audio buffer, popping with the audio counter only equals popping with the counter of each frame's kind |
| `DispatcherResults.KeyListIsAccurate` | services/mediachannel/buffer_dispatcher.cpp:1085-1103 | after every run without wrapped sums, keyIndexList_ is strictly increasing, names key video frames only, and ends with the last key frame whenever one is buffered |
| `DispatcherInvariant.ShiftKeysKeeps` | services/mediachannel/buffer_dispatcher.cpp:1190-1203 | re-basing after a pop keeps the key list accurate for the shortened buffer |
| `DispatcherInvariant.PopKeeps` | services/mediachannel/buffer_dispatcher.cpp:1190-1221 | a head pop with its re-basing keeps every index, counter and list consistent with the frames left |
| `DispatcherInvariant.EraseOldGopPops` | services/mediachannel/buffer_dispatcher.cpp:1111-1188 | erasing old pictures removes exactly the frames before the last key frame up to the first one whose reserveFlag differs from readRefFlag_, and behind these what is not video; a video frame is left at the head whenever one was buffered, and otherwise nothing is erased |
| `DispatcherInvariant.PoliteDeletion` | services/mediachannel/buffer_dispatcher.cpp:1119-1134 | the polite deletion ends exactly at the last key frame or at the first frame that is not marked by exactly the live receivers, whichever comes first |
| `DispatcherInvariant.ForcedDeletion` | services/mediachannel/buffer_dispatcher.cpp:1135-1136 | the forced deletion takes exactly the frames before the first video frame |
| `DispatcherInvariant.ReadGroupGoes` | services/mediachannel/buffer_dispatcher.cpp:1119-1136 | when everything before the last key frame is marked by exactly the live receivers, erasing removes exactly that |
| `DispatcherSafety.MakeRoomKeeps` | services/mediachannel/buffer_dispatcher.cpp:994-1064 | extending, restoring, erasing and evicting only remove frames from the head, and leave the size below the capacity |
| `DispatcherSafety.RecalculateKeeps` | services/mediachannel/buffer_dispatcher.cpp:1436-1472 | adaptive resizing keeps the buffered size within the capacity, and that within the maximum, exactly unless a key frame confirms a base capacity below the size |
| `DispatcherSafety.AdmitReady` | services/mediachannel/buffer_dispatcher.cpp:963-985 | every frame that passes the key-frame gate, and whose base capacity fits, is written in a state that is ready for it |
| `DispatcherSafety.AppendKeeps` | services/mediachannel/buffer_dispatcher.cpp:1066-1109 | a push with its activation and key redirect keeps the invariant and adds exactly one frame |
| `DispatcherSafety.StepKeeps` | services/mediachannel/buffer_dispatcher.cpp:659-1109 | each single operation keeps the invariant, an input provided that its base capacity fits |
| `DispatcherWrites.InputWrites` | services/mediachannel/buffer_dispatcher.cpp:924-985 | after every run, for every configuration: an input is buffered last, unmarked, exactly if the dispatcher is for audio only, a key video frame was input since the last flush, or the input is audio or a key video frame; otherwise it changes nothing |
| `DispatcherWrites.WaitingIsHistory` | services/mediachannel/buffer_dispatcher.cpp:963-985 | waitingKey_ is up exactly until the first key video frame after the start or the last flush, and always in an audio-only dispatcher |
| `DispatcherWrites.AdmittedState` | services/mediachannel/buffer_dispatcher.cpp:963-985 | the first key frame after a gap flushes and starts to measure; a key frame ends the group with a base capacity of count plus increment between 500 and the maximum; other frames are counted and raise the capacity; without a measured group nothing changes |
| `DispatcherWrites.NothingLost` | services/mediachannel/buffer_dispatcher.cpp:994-998 | a frame that erases nothing costs no buffered frame while the ring has room, or while its head is needed and its capacity can be doubled |
| `DispatcherWrites.FullRingEvicts` | services/mediachannel/buffer_dispatcher.cpp:1028-1064 | a full ring that cannot be extended loses its frames up to and including the first video frame to a video frame, and two frames to any other |
| `DispatcherWrites.FullOfAudioRestores` | services/mediachannel/buffer_dispatcher.cpp:1000-1026 | a full ring of audio above the initial capacity is cut back to 500 frames and 500 places, and then loses one frame or two |
| `DispatcherWrites.KeyFrameErases` | services/mediachannel/buffer_dispatcher.cpp:1022-1064 | a key frame outside key mode removes what is read before the last key frame and what precedes the first video frame, no more and no less, and the head if a full ring would lose nothing otherwise |
| `DispatcherWrites.EraseLeavesOneKey` | services/mediachannel/buffer_dispatcher.cpp:1119-1131 | erasing old pictures leaves one entry in keyIndexList_, the last key frame at its new position |
| `DispatcherWrites.AudioOnlyFlushes` | services/mediachannel/buffer_dispatcher.cpp:1114-1117 | a key video frame sent to an audio-only dispatcher is the only frame left |
| `DispatcherWakes.FramesRaiseBits` | services/mediachannel/buffer_dispatcher.cpp:1569-1595 | an audio frame raises every audio bit; another frame raises the video bits of all receivers if it is a key frame, and else, outside key mode, of those not in key mode; no other bit changes |
| `DispatcherWakes.PushMovesIndices` | services/mediachannel/buffer_dispatcher.cpp:1738-1757 | the four cases, and no others, in which a push moves an index of a receiver to the new frame |
| `DispatcherWakes.VideoIndexAfterKey` | services/mediachannel/buffer_dispatcher.cpp:1085-1103 | after a key frame a receiver has a video index if and only if it had one, is redirected, is in key mode with no key frame buffered, or an activation was pending |
| `DispatcherWakes.FramesAreCounted` | services/mediachannel/buffer_dispatcher.cpp:1055-1083 | each push and each pop changes the counter of its kind by one, modulo 2^32 |
| `DispatcherWakes.RequestsEnd` | services/mediachannel/buffer_dispatcher.cpp:1738-1757 | a pending activation ends with the frame that meets a receiver without the index, and a pending redirect with the next key frame |
| `DispatcherStranded.AttachStrands` | services/mediachannel/buffer_dispatcher.cpp:696-740 | a receiver outside key mode, attached while no key frame is awaited, is left without a video index and without a pending activation if and only if frames but no key frame are buffered and none was pending |
| `DispatcherStranded.StrandedGetsNoVideo` | services/mediachannel/buffer_dispatcher.cpp:1085-1103 | such a receiver is handed no video, however many frames follow, key frames included |
| `DispatcherStranded.AttachedTooLate` | services/mediachannel/buffer_dispatcher.cpp:730-740 | a concrete run: 501 video frames with maximum 500, then a second receiver, which never gets video |
| `DispatcherDelivery.DeliveryInOrder` | services/mediachannel/buffer_dispatcher.cpp:863-922 | over every run and for every configuration, a receiver that stays attached and reads in one mode is handed frames with strictly increasing input numbers: in order, and none twice |
| `DispatcherOnce.DeliveredAtMostOnce` | services/mediachannel/buffer_dispatcher.cpp:863-922 | over every run and for every configuration, a receiver that stays attached is handed no frame twice, in whatever modes it reads |
| `DispatcherOnce.StepFollows` | services/mediachannel/buffer_dispatcher.cpp:1763-1779 | no operation takes the mark of a receiver off a buffered frame, lets a frame reappear, or moves an attached receiver to another slot |
| `DispatcherDelivery.ReadDelivers` | services/mediachannel/buffer_dispatcher.cpp:863-922 | one read hands over at most one frame, newer than all handed over before, and leaves the receiver ahead of it |
| `DispatcherDelivery.StepKeepsAhead` | services/mediachannel/buffer_dispatcher.cpp:1190-1221 | no other operation, by any receiver or the producer, lets a receiver fall back behind what it was handed |
| `DispatcherReading.DeliveredAreInputs` | services/mediachannel/buffer_dispatcher.cpp:924-961 | what a receiver is handed is, unaltered, the input of that number: nothing is invented or replaced |
| `DispatcherReading.DrainIsFilter` | services/mediachannel/buffer_dispatcher.cpp:1245-1341 | without writes in between, enough reads hand over the frame at the read index and then exactly the unmarked frames of the requested type, key frames only where the dispatcher or the receiver is in key mode, in buffer order and nothing else |
| `DispatcherReading.Exhausted` | services/mediachannel/buffer_dispatcher.cpp:1245-1279 | once everything wanted is read, further reads hand over nothing |
| `DispatcherReading.KeyModeRead` | services/mediachannel/buffer_dispatcher.cpp:880-885 | in key mode a video read hands over key frames only, its index moves to the next key frame, and every frame in between is marked as read by this receiver |
| `DispatcherRedirect.RedirectServesKeyFrame` | services/mediachannel/buffer_dispatcher.cpp:1819-1846 | after every run, for every configuration: while a redirect is wanted, the first video read of a redirected receiver after the next key frame was input is handed exactly that key frame |
| `DispatcherRedirect.KeyRedirectMarks` | services/mediachannel/buffer_dispatcher.cpp:1066-1109 | in every reachable state, pushing a key frame while a redirect is wanted moves each redirected receiver to it with all it skips marked read, except a key-mode receiver for which this is the only key frame buffered, and leaves the others and their marks alone |
| `DispatcherResults.ReceiversOwnSlots` | services/mediachannel/buffer_dispatcher.cpp:672-690 | live receivers own distinct slots below 16, readRefFlag_ is exactly the union of their bits, and free slots have both recvBitRef_ bits clear |
| `DispatcherResults.AttachTakesLowestSlot` | services/mediachannel/buffer_dispatcher.cpp:672-692 | a new receiver gets the lowest free slot, and is refused if and only if sixteen are attached |
| `DispatcherCalls.AttachStarts` | services/mediachannel/buffer_dispatcher.cpp:696-740 | a new receiver starts at the last key frame and at the next audio frame behind it with both data bits up; without a key frame at the last audio frame; in an empty buffer nowhere, asking for activation |
| `DispatcherCalls.BitCalls` | services/mediachannel/buffer_dispatcher.cpp:1509-1543 | readiness raises exactly the receive bits 2k and 2k + 1 of slot k that serve the media type, and the clearing calls clear exactly these |
| `DispatcherCalls.DetachLeaves` | services/mediachannel/buffer_dispatcher.cpp:745-773 | detaching removes the receiver, its slot and its receive bits, and nothing else |
| `DispatcherCalls.SwitchesOf` | services/mediachannel/buffer_dispatcher.cpp:155-234 | key mode and redirect are switched for one receiver alone; key mode takes its video data bit down, and a redirect is remembered |
| `DispatcherCalls.Switches` | services/mediachannel/buffer_dispatcher.cpp:653-657 | key mode, redirect and rapid mode of the dispatcher are plain switches |
| `DispatcherCalls.FlushEmpties` | services/mediachannel/buffer_dispatcher.cpp:532-562 | a flush empties ring, counters, key list and indices and awaits a key frame; receivers, slots and bits stay |
| `DispatcherResults.OthersKeepTheirBits` | services/mediachannel/buffer_dispatcher.cpp:1597-1671 | attach, detach, readiness and bit clearing by one receiver leave both bits of every other live receiver unchanged in both fields |
| `DispatcherReady.DownBitMeansRead` | services/mediachannel/buffer_dispatcher.cpp:1509-1543 | after every run without wrapped sums: if readiness leaves the data bit down and reads start at the index the bit goes by (for a mixed receiver: its video index), nothing behind that index is unread, any number of reads hands over at most the frame at the index, and nothing if and only if that frame is not due to the receiver |
| `DispatcherReady.RaisedBitPromises` | services/mediachannel/buffer_dispatcher.cpp:319-341 | the data bit is raised if and only if the index is valid and a later frame of the kind is buffered, read or not, or the next frame is unread, or no frame of the kind is left and the last index is stale |
| `DispatcherReady.DataBitIsExact` | services/mediachannel/buffer_dispatcher.cpp:319-375 | where no frame behind the read index is marked, the bit is raised exactly when reads hand over more than the frame at the index, if and only if there is a next stop, or the index is at the newest frame and the last index is not stale; for a mixed receiver if and only if its video index is before the end or its read index at the end |
| `DispatcherReady.MixedBitsHideFrames` | services/mediachannel/buffer_dispatcher.cpp:335-374 | a mixed receiver without a video index: two audio frames are unread, reporting readiness takes both data bits down, and two reads hand over both frames |
| `DispatcherReady.DataBitIgnoresCurrentFrame` | services/mediachannel/buffer_dispatcher.cpp:319-341 | the bit says nothing about the frame at the index: with a single unread key frame, reporting readiness takes the bit down and the next read hands the frame over |
| `DispatcherReady.DataBitMayBeIdle` | services/mediachannel/buffer_dispatcher.cpp:319-341 | the converse fails: after a key frame was read and only an audio frame is left, the video data bit is raised and the next read hands over nothing |
| `BitRefs.WordsFollowRuns` | services/mediachannel/buffer_dispatcher.cpp:1569-1671 | over every run, for every configuration and every order in which the loops visit the receivers, the three machine words stand for the three sets of the specification |
| `BitRefs.WordsFollowSets` | services/mediachannel/buffer_dispatcher.cpp:1569-1671 | each operation, the raising of data bits by a new frame included, does to the three machine words what its specification does to the sets |
| `BitRefs.SetBitIsUnion` | services/mediachannel/buffer_dispatcher.cpp:1634-1671 | setting a bit in the 32-bit word adds exactly its position |
| `BitRefs.ClearBitIsDifference` | services/mediachannel/buffer_dispatcher.cpp:1597-1632 | clearing a bit of the 32-bit word removes exactly its position |
| `BitRefs.XorIsDifferent` | services/mediachannel/buffer_dispatcher.cpp:1407-1419 | the XOR test of two flag words is non-zero exactly when their bit sets differ |
| `BitRefs.UsableRefIsLowestFree` | services/mediachannel/buffer_dispatcher.cpp:682-692 | the complement-and-negate trick yields the single bit of the lowest free slot, and the word is full exactly when there is none |
| `BitRefs.Log2OfMask` | services/mediachannel/buffer_dispatcher.cpp:690 | the logarithm of a single bit is its position, so the slot of a new receiver is that of the bit it took |
| `Dispatcher.BufferDispatcher.constructor` | services/mediachannel/buffer_dispatcher.cpp:431-455 | a new dispatcher is in the initial state, and the core invariant holds |
| `Dispatcher.BufferDispatcher.InputData` | services/mediachannel/buffer_dispatcher.cpp:924-961 | keeps the core invariant and turns the state into the specified one, the 32-bit sums and a silent eviction included |
| `Dispatcher.BufferDispatcher.PreProcessDataSpec` | services/mediachannel/buffer_dispatcher.cpp:963-985 | drops, restarts, measures and writes in place as specified |
| `Dispatcher.BufferDispatcher.WriteDataIntoBuffer` | services/mediachannel/buffer_dispatcher.cpp:987-1109 | the in-place write refines making room followed by the push |
| `Dispatcher.BufferDispatcher.EraseOldGopDatas` | services/mediachannel/buffer_dispatcher.cpp:1111-1145 | refines the two-stage erasure for which EraseOldGopPops holds |
| `Dispatcher.BufferDispatcher.DeleteHeadDatas` | services/mediachannel/buffer_dispatcher.cpp:1147-1188 | the deletion loop with its two exits refines the specified deletion and shrink |
| `Dispatcher.BufferDispatcher.UpdateIndex` | services/mediachannel/buffer_dispatcher.cpp:1190-1221 | the loops over key list and notifiers refine the re-basing |
| `Dispatcher.BufferDispatcher.ReCalculateCapacity` | services/mediachannel/buffer_dispatcher.cpp:1436-1472 | refines the adaptive sizing with its 32-bit sums |
| `Dispatcher.BufferDispatcher.RestoreCapacity` | services/mediachannel/buffer_dispatcher.cpp:1000-1026 | the restore loop refines the specified pops and the reset of the sizing |
| `Dispatcher.BufferDispatcher.ActiveDataRef` | services/mediachannel/buffer_dispatcher.cpp:1569-1595 | the loop over the notifiers raises exactly the active receivers' bits and moves the waiting key-mode receivers |
| `Dispatcher.BufferDispatcher.ActivateAudioIndex` | services/mediachannel/buffer_dispatcher.cpp:1738-1757 | the loop activates exactly the receivers without an audio index, and drops the flag only if there was one |
| `Dispatcher.BufferDispatcher.OnKeyRedirect` | services/mediachannel/buffer_dispatcher.cpp:1819-1846 | the nested loops over receivers and frames refine the redirect |
| `Dispatcher.BufferDispatcher.FindNextIndex` | services/mediachannel/buffer_dispatcher.cpp:1305-1341 | the search with its marking loop finds the next position at which the receiver stops |
| `Dispatcher.BufferDispatcher.ReadBufferData` | services/mediachannel/buffer_dispatcher.cpp:863-922 | keeps the core invariant and refines a read: the same state and the same frame for the callback |
| `Dispatcher.BufferDispatcher.FlushBuffer` | services/mediachannel/buffer_dispatcher.cpp:532-562 | empties the ring, resets every index, and waits for a key frame |
| `Dispatcher.BufferDispatcher.AttachReceiver` | services/mediachannel/buffer_dispatcher.cpp:659-743 | keeps the core invariant and refines the attachment |
| `Dispatcher.BufferDispatcher.DetachReceiver` | services/mediachannel/buffer_dispatcher.cpp:745-773 | keeps the core invariant and refines the detachment, stale bits in the buffered frames included |
| `Dispatcher.BufferDispatcher.NotifyReadReady` | services/mediachannel/buffer_dispatcher.cpp:1509-1543 | keeps the core invariant and refines the readiness report |
| `CircularBuffers.CircularBuffer.PushBack` | services/utils/circular_buffer.h:81-88 | at capacity the head is dropped before the push |
| `AgentSafety.DispatchesAreLegal` | services/agent/agent.cpp:616-716 | in every run after CreateSession, whatever the session answers: no surface or play step is dispatched before START was acknowledged, what is admitted in ERROR is a destroy event, and after a destroy was dispatched or has interrupted a step only destroy events are dispatched |
| `AgentSafety.InterruptWaitsForDestroy` | services/agent/agent.cpp:646-664 | in every reachable state with status INTERRUPT the step is below DESTROY and a destroy event is first in the ordered cache |
| `AgentSafety.DestroyIsFinal` | services/agent/agent.cpp:616-679 | DESTROY is never left, and once a destroy was dispatched or interrupted a step, the agent is in DESTROY or waits for the interrupt to be confirmed, for ever |
| `AgentSafety.PopAdmits` | services/agent/agent.cpp:681-716 | a popped event is admitted or rejected legally; out of an interrupt the pop puts the agent in (DESTROY, RUNNING) and goes ahead |
| `AgentSafety.InterruptExits` | services/agent/agent.cpp:49-86 | a prosumer error and a pop are the only ways out of an interrupt, and both put the agent in (DESTROY, RUNNING) before anything is dispatched; any other event leaves the agent as it is |
| `AgentSafety.PoppedNeverCached` | services/agent/agent.cpp:681-716 | an event that a pop takes is dispatched or rejected, never cached again, which is why the recursion ends |
| `AgentSafety.PopTakesLeast` | services/agent/agent.cpp:681-716 | after every run, a pop of the current step handles the least cached event and takes that event alone out of the cache |
| `AgentSafety.LessIsStrictTotalOrder` | services/agent/agent_def.h:52-68 | the key comparison is a strict total order |
| `AgentSafety.InsertKeeps` | services/agent/agent.cpp:637-668 | caching keeps the order, adds exactly the event, and leaves the cache alone when its key is present |
| `AgentSafety.DestroyIsFirst` | services/agent/agent.cpp:591-614 | a destroy event is cached ahead of everything else |
| `AgentSafety.AdmitKeeps` | services/agent/agent.cpp:616-679 | admission keeps the invariant and lets only legal events through, prosumer errors included |
| `AgentSafety.HandleKeeps` | services/agent/agent.cpp:49-204 | handling an event, with all it pops and all the session answers meanwhile, keeps the invariant and never leaves DESTROY or an unfinished interrupt |
| `AgentSafety.PopKeeps` | services/agent/agent.cpp:681-716 | the same for popping the next step |
| `AgentSpec.HandleEvent` | services/agent/agent.cpp:49-204 | handling terminates and leaves no more events cached than admission did |
| `AgentSpec.PopNextStep` | services/agent/agent.cpp:681-716 | popping terminates, and the cache never grows |
| `AgentBehaviour.StepEvents` | services/agent/agent.cpp:616-679 | in every reachable state, by the names of the events: when each event that starts a step is refused, deferred or dispatched, if and only if, and what that changes |
| `AgentBehaviour.StepOrders` | services/agent/agent.cpp:96-103 | a dispatched step event puts the agent in (its step, RUNNING); START orders the session to start, DESTROY to stop, the others nothing |
| `AgentBehaviour.DestroyInterrupts` | services/agent/agent.cpp:653-664 | a destroy event that meets a running step is cached and the session is ordered to interrupt |
| `AgentBehaviour.InterruptRepeats` | services/agent/agent.cpp:79-86 | while an interrupt waits, every event but a prosumer error only repeats that order |
| `AgentBehaviour.ProsumerErrors` | services/agent/agent.cpp:206-243 | a prosumer error always puts the agent in (DESTROY, RUNNING) and orders a stop, or the destruction of the session when the stop failed |
| `AgentBehaviour.OtherOrders` | services/agent/agent.cpp:104-133 | what the events that start no step order: pause, resume, information of the session, and its destruction once the prosumer stopped |
| `AgentBehaviour.Acknowledgements` | services/agent/agent.cpp:288-326 | which event acknowledges which step: it ends that step and no other, and the next cached event is handled; a reported failure puts the agent in ERROR |
| `AgentBehaviour.SessionReplies` | services/agent/agent.cpp:348-371 | a session error ends the current step in ERROR, and the confirmation of an ordered interrupt ends it acknowledged |
| `AgentBehaviour.SessionAnswers` | services/agent/agent.cpp:373-381 | the replies of a session to one call take effect in their order |
| `AgentBehaviour.EarlierEvent` | services/agent/agent_def.h:52-68 | of two cached events DESTROY goes first, then START, then append, remove, play and stop; equal steps go by request |
| `AgentBehaviour.StartsAndPlays` | services/agent/agent.cpp:616-716 | a concrete run: a play order that comes too early waits, START is ordered, and its acknowledgement starts the play |
| `Agents.Agent.constructor` | services/agent/agent.cpp:33-47 | the state after CreateSession |
| `Agents.Agent.HandleEvent` | services/agent/agent.cpp:49-204 | the in-place handler refines the specified machine |
| `Agents.Agent.CheckRunStep` | services/agent/agent.cpp:616-679 | the in-place admission yields the specified state and the specified verdict |
| `Agents.Agent.Cache` | services/agent/agent.cpp:637-668 | the walk through the ordered map inserts at the place of the key |
| `Agents.Agent.PopNextStep` | services/agent/agent.cpp:681-716 | refines the specified pop |
| `Agents.Agent.PushNextStep` | services/agent/agent.cpp:288-326 | refines the specified acknowledgement of a step |
| `Agents.Agent.HandleProsumerState` | services/agent/agent.cpp:245-286 | refines the specified report to the session and the push |
| `Agents.Agent.HandleProsumerError` | services/agent/agent.cpp:206-243 | refines the specified reaction to a prosumer error |
| `Agents.Agent.OnSessionNotify` | services/sink/agent/sinkagent/sink_agent.cpp:61-66 | the confirmation of an interrupt pops with DONE, and an error pops with ERROR |
| `H264.SegmentsPartitionInput` | services/protocol/frame/h264_frame.cpp:59-90 | the segments cut the whole input into consecutive pieces: concatenated they are the input |
| `H264.CutsAreStartCodes` | services/protocol/frame/h264_frame.cpp:66-88 | each later segment begins, where its predecessor ends, with a three- or four-byte start code, and a cut is made exactly at every start code before the last position of the input |
| `H264.PayloadsHoldNoCode` | services/protocol/frame/h264_frame.cpp:44-57 | no start code begins inside a payload, except possibly in the last three bytes of the input |
| `H264.PayloadsUnlessAdjacent` | services/protocol/frame/h264_frame.cpp:66-88 | a later segment is without payload exactly when its start code is followed at once by another; all later segments have a payload if and only if no two codes of the stream are adjacent |
| `H264.BackToBackCodes` | services/protocol/frame/h264_frame.cpp:66-88 | a concrete stream with adjacent codes yields a segment without payload |
| `H264.PrefixSizeSpec` | services/protocol/frame/h264_frame.cpp:22-42 | the leading prefix is 3 or 4 exactly for the start codes that stand at the front |
| `H264.MemFind` | services/protocol/frame/h264_frame.cpp:44-57 | finds the first occurrence, the last position not being looked at, or reports that there is none |
| `H264.SplitH264` | services/protocol/frame/h264_frame.cpp:59-90 | the scanner loop yields exactly the specified segments and stays in bounds |
| `FrameMergerSpec.RunKeepsAllFrames` | services/protocol/frame/frame_merger.cpp:35-70 | a run that ends with a null frame hands out exactly the frames it was given, in order |
| `FrameMergerSpec.RunEmitsAllFrames` | services/protocol/frame/frame_merger.cpp:35-70 | the bytes of all callbacks of such a run are the concatenated encodings of its frames |
| `FrameMergerSpec.GroupsHaveShape` | services/protocol/frame/frame_merger.cpp:72-110 | a group, or the cache, holds at most 101 frames; plain groups share one time stamp; in the other modes no decodable and no configuration frame follows a decodable one, and what follows has its time stamp |
| `FrameMergerSpec.RunMakesGreedyGroups` | services/protocol/frame/frame_merger.cpp:35-110 | the groups of a run are as long as the rules allow: each is broken by the first frame of the next |
| `FrameMergerSpec.GreedyIsUnique` | services/protocol/frame/frame_merger.cpp:72-110 | there is only one such grouping of the same frames, so the grouping is fully determined |
| `FrameMergerSpec.LengthsReadBack` | services/protocol/frame/frame_merger.cpp:127-135 | a reader that follows the big-endian lengths of the MP4 output finds exactly the payloads |
| `FrameMergerSpec.SplitThenMerge` | services/protocol/frame/frame_merger.cpp:112-120 | splitting a stream and merging the pieces in plain mode gives the stream back, byte for byte |
| `PrefixedOutput.SplitFindsPayloads` | services/protocol/frame/frame_merger.cpp:121-126 | splitting the start-code output finds the payloads of its frames in order, each without the zero it loses to a short code behind it |
| `PrefixedOutput.PayloadsComeBack` | services/protocol/frame/frame_merger.cpp:121-126 | exactly the payloads come back if and only if none ends in a zero in front of a three-byte code |
| `PrefixedOutput.RunComesBack` | services/protocol/frame/frame_merger.cpp:35-126 | the output of a whole run, over all its groups, read back |
| `PrefixedOutput.ZeroIsLost` | services/protocol/frame/frame_merger.cpp:121-126 | two concrete frames whose output is split without the zero between them |
| `PrefixedOutput.BareFrameIsPrefixed` | services/protocol/frame/frame_merger.cpp:124-127 | a frame without a start code is written with the four-byte code in front and all its data behind it |
| `FrameMergerSpec.FramesJoin` | services/protocol/frame/frame_merger.cpp:72-110 | after every run, for each mode: exactly which frames end the group collected so far, and that all others join it |
| `FrameMergerSpec.UnknownEmitsNothing` | services/protocol/frame/frame_merger.cpp:112-140 | an unknown mode writes nothing, and the plain mode the data as it is |
| `FrameMergerSpec.RunConserves` | services/protocol/frame/frame_merger.cpp:35-70 | at any point of a run, the groups handed out followed by the cache are the frames received |
| `FrameMergers.FrameMerger.WillFlush` | services/protocol/frame/frame_merger.cpp:72-110 | the in-place decision agrees with the grouping rule |
| `FrameMergers.FrameMerger.DoMerge` | services/protocol/frame/frame_merger.cpp:112-140 | appends exactly the encoding of the frame |
| `FrameMergers.FrameMerger.InputFrame` | services/protocol/frame/frame_merger.cpp:35-70 | refines the specified step, appends exactly the group's encoding, and reports the last frame's times and whether there is a key frame; without a buffer nothing happens |
| `DataBuffers.DataBuffer.PushData` | services/utils/data_buffer.cpp:154-188 | appends the bytes, growing exactly to fit, and ignores an empty push |
| `DataBuffers.DataBuffer.Resize` | services/utils/data_buffer.cpp:116-152 | growing keeps the contents, shrinking drops them, invalid sizes change nothing |
| `DataBuffers.DataBuffer.ReplaceData` | services/utils/data_buffer.cpp:190-212 | the bytes become the contents and the capacity never shrinks |
| `ContextSpec.SinkStoppedIffUnlinked` | services/context/context.cpp:353-373 | in every reachable state, the context has issued its own DESTROY to a sink if and only if the sink is marked for destruction and no source is linked to it |
| `ContextSpec.NeverLinkedAgain` | services/context/context.cpp:270-289 | once a sink was stopped, no later run links a source to it |
| `ContextSpec.NoNewLinks` | services/context/context.cpp:270-289 | a sink marked for destruction gets no new source: its links only go away |
| `ContextSpec.DestroyStopsOwnSources` | services/context/context.cpp:104-121 | destroying a sink stops no sources but its own if and only if it has none, or the context has no other source left to stop |
| `ContextSpec.OtherSinksSourceIsStopped` | services/context/context.cpp:112-118 | in a concrete reachable state with two sinks of one source each, destroying the first sink stops the source of the second |
| `ContextSpec.SourcesShareChannel` | services/context/context.cpp:282-286 | in every reachable state a source has the media channel of the agent it is linked to |
| `ContextSpec.DestroyIsExact` | services/context/context.cpp:84-122 | destroying a source stops that source alone; destroying a sink marks it, and stops it if no source is linked to it and otherwise all sources of the context, and no other agent |
| `ContextSpec.DestroyedIsExact` | services/context/context.cpp:328-373 | a destroyed agent is removed and reported once, and its sink is stopped exactly if it was the last source of a marked sink |
| `ContextSpec.CreateIsExact` | services/context/context.cpp:240-304 | a sink is always created and a source only for a live sink, under a fresh identifier and with the channel of its sink |
| `Contexts.Context.IsEmptySrcAgent` | services/context/context.cpp:136-150 | the loop over the agents decides whether no source is linked |
| `Contexts.Context.HandleCreateAgent` | services/context/context.cpp:240-304 | creates, or refuses a source without a live sink, as specified |
| `Contexts.Context.HandleAgentDestroy` | services/context/context.cpp:84-122 | refines the specified teardown |
| `Contexts.Context.HandleStateDestroyAgent` | services/context/context.cpp:328-351 | refines the specified removal, with the check of the sink |
| `Contexts.Context.CheckNeedDestroySink` | services/context/context.cpp:353-373 | stops the sink exactly when it is marked and unlinked |
| `Contexts.Context.HandleEvent` | services/context/context.cpp:47-82 | refuses everything once the context is destroying |
| `IpcCodec.RoundTrip` | services/interaction/ipc_codec/ipc_codec.h:41-103 | deserialising what was serialised gives the same message and leaves exactly the rest of the parcel, if and only if every vector at every depth is shorter than 2^31 |
| `IpcCodec.ReadsBack` | services/interaction/ipc_codec/ipc_codec_bind_macros.h:34-75 | the same, as a round trip for messages of short vectors |
| `IpcCodec.OnlyShortReadsBack` | services/interaction/ipc_codec/ipc_codec.h:88-103 | a message that comes back unchanged has only short vectors: longer sizes wrap around |
| `IpcCodec.MalformedFails` | services/interaction/ipc_codec/ipc_codec.h:63-103 | decoding fails exactly where the next cell is missing or of another type, or a size is negative, and leaves what is behind that |
| `IpcCodec.KnownCells` | services/interaction/ipc_codec/ipc_codec.h:41-61 | the cells of a concrete message: two's complement, the length before the elements, the attributes in order |
| `IpcCodec.EncodeAttr` | services/interaction/ipc_codec/ipc_codec.h:49-61 | writes exactly the encoding of the attribute behind what the parcel holds |
| `IpcCodec.DecodeAttr` | services/interaction/ipc_codec/ipc_codec.h:88-103 | reads exactly what the specification decodes, and stops where it fails |
| `IpcCodec.Serialize` | services/interaction/ipc_codec/ipc_codec_bind_macros.h:40-56 | the recursion over the attribute list writes the attributes in order |
| `IpcCodec.Deserialize` | services/interaction/ipc_codec/ipc_codec_bind_macros.h:58-75 | the recursion over the attribute list reads them in order and stops at the first failure |
| `Parcels.WordReadsBack` | services/interaction/ipc_codec/ipc_codec.cpp:22-86 | a scalar in range survives the parcel, with two's complement for the signed types |
| `SceneFormats.RoundTrip` | services/interaction/scene/scene_format.cpp:264-364 | a map marshalled in any order and read into an empty format comes back, leaving exactly the rest of the parcel, if and only if it has at most 100 entries, all of encodable types |
| `SceneFormats.UnmarshalMerges` | services/interaction/scene/scene_format.cpp:314-364 | read into a format that holds entries already, a map is merged with the existing entries winning; a map with an entry that cannot be encoded is refused |
| `SceneFormats.NumberReadsBack` | services/interaction/scene/scene_format.cpp:289-291 | an unsigned 64-bit number survives being written as a signed one |
| `SceneFormats.BadInputEnds` | services/interaction/scene/scene_format.cpp:314-364 | more than 100 entries are refused at once, and an entry of no known type ends the reading with failure, keeping what was read |
| `SceneFormats.KnownEntries` | services/interaction/scene/scene_format.cpp:269-305 | the cells of entries without a scalar: key, number of the type, value |
| `SceneFormats.KnownNumbers` | services/interaction/scene/scene_format.cpp:269-305 | the number of each scalar type and the width of its cell |
| `SceneFormats.SceneFormat.PutValue` | services/interaction/scene/scene_format.cpp:23-131 | a put inserts and never overwrites |
| `SceneFormats.Marshalling` | services/interaction/scene/scene_format.cpp:264-312 | the loop writes the entries in some order up to the first one without an encodable type, and says whether there was none |
| `SceneFormats.Unmarshalling` | services/interaction/scene/scene_format.cpp:314-364 | the loop refines the specified reading: the same format, the same rest, the same verdict |
| `Base64.RoundTrip` | services/utils/base64.h:34-95 | decoding the encoding of any octets gives these octets |
| `Base64.EncodedIsReference` | services/utils/base64.h:34-61 | section 4 of RFC 4648: character k is the letter for bits 6k to 6k+5 of the input, continued with zeros, and exactly the characters behind the last bit are padding |
| `Base64.Encoded` | services/utils/base64.h:34-61 | the length is 4*ceil(n/3) |
| `Base64.Decoded` | services/utils/base64.h:63-95 | any input yields at most three octets for four characters |
| `Base64.JoinUndoesSplit` | services/utils/base64.h:40-44 | the shifts of the decoder undo those of the encoder |
| `Base64.QuadruplesDecode` | services/utils/base64.h:63-95 | decoding goes on behind four letters only, and ends with two octets, one or none elsewhere; a length that is no multiple of four yields nothing |
| `Base64.Encode` | services/utils/base64.h:34-61 | the loop writes exactly the encoding and nothing behind it |
| `Base64.Decode` | services/utils/base64.h:63-95 | the loop, with its early exits, writes exactly what the specification decodes |

## Left out

- Dispatcher.BufferDispatcher.constructor: takes a maximum below 2^31 other than 1; with a maximum of 1 an eviction pops an empty ring, and from 2^31 on the signed size of the restore loop overflows.
- Dispatcher.BufferDispatcher.ReCalculateCapacity: takes the capacity as wider than 32 bits; `DispatcherResults.SumsDoNotWrap` shows where a 32-bit size type gives the same sums.
- DispatcherDelivery.DeliveryInOrder: covers a receiver that reads in one mode, because an AV read moves both of its indices; `DispatcherOnce.DeliveredAtMostOnce` covers mixed modes.
- Base64.Encode: takes characters as unsigned octets and texts whose code fits the 32-bit length counter.
- Base64.Decode: takes ASCII codes, since the reverse table has 128 entries.
- DataBuffers.DataBuffer.PushData: requires that the new size fits 32 bits, where the source's sum overflows.
- DataBuffers.DataBuffer.ReplaceData: requires a non-negative length; the effect of a negative one lies in the copy routine, which is not part of this model.
- IpcCodec.DecodeAttr: a size that cannot be read, and a negative one, end the decoding; the source leaves the first undefined and throws on the second.
- IpcCodec.RoundTrip: does not cover remote objects and vectors of bool.
- SceneFormats.Unmarshalling: a read that fails ends the reading, where the parcel class of the platform, which is not part of this model, would hand out a default value.
- SceneFormats.Marshalling: writes the entries in an arbitrary order, which includes the ascending order of the source's map; null remote objects are not modelled.
- The parcel is a queue of typed cells; its byte layout and its capacity are not part of this model.
- Notifiers, frame records and the agents of a context are values held in maps and sequences, so aliasing between them is not modelled.
- The map loops visit the notifiers and agents in an arbitrary order, as an unordered map may.
- Threads, locks, the notification worker and the waiting in RequestRead: every public operation is one atomic step.
- Changing the data mode during a run, setting the capacity from outside, CancelReserve, and calls for a receiver after it was detached.
- Idle buffer pools, logging, statistics, acceleration notices, SPS/PPS storage, and the write-only needUpdate flags.
- Failure of allocation and of memory copies, null pointers and expired weak references, except the null buffer of FrameMerger and its null frame.
- The 32-bit wrap of the identifier counter of contexts and agents.
- Sessions, sockets, event transport, media channels, RTSP and WFD negotiation, configuration and storage.
- Frames in the merger carry their key, configuration and decodability flags; how H.264 frames derive them from the NAL type is a table that adds no harder property.
- Copying, moving and UpdateSize of the data buffer.
