# Verified models of the promeki media core

Dafny models of ten parts of the promeki library and its demonstrations, and
proofs of what each of them keeps, over every input, every run and every
interleaving. Objects with mutable state are classes with loops, proved
against functions on values; the laws are lemmas about those functions.

| files | part | main results |
|---|---|---|
| `Amf0*.dfy` | AMF0 writer and reader | round trip if and only if no key is empty; the wire form byte by byte and exactly what the reader accepts; every cut reads as truncated |
| `AudioBuffer.dfy`, `AudioFifo*.dfy`, `Timeline.dfy` | ring FIFO with timestamp anchors | refinement of a plain FIFO; every frame keeps its date over every run; exactly what failed calls leave behind, pushes and silence |
| `Drift.dfy` | PI clock-drift controller | exact energy balance of whole runs, bounds on the summed squared error, which exist exactly while the drift is within the gain; the exact resting states |
| `Broadcast*.dfy`, `EventBroadcaster.dfy` | web-socket event broadcaster | no use after delete, each socket deleted once, delivery in order and by filter, under any interleaving |
| `FrameSync*.dfy`, `AncFrameSync.dfy`, `DemoSchedule.dfy` | ANC frame synchroniser and its demo | latest-wins stash, conservation of packets over runs, the closed form of the schedule |
| `Bits.dfy`, `AacConfig*.dfy`, `Adts*.dfy` | AAC descriptor and ADTS framing | exact round-trip conditions, accepted streams characterised, every cut classified |
| `Text.dfy`, `Channel*.dfy` | audio channel maps | exact round-trip conditions of two text grammars and one binary form |
| `AsyncQueue*.dfy`, `StreamParking.dfy` | segment queue and the connection that parks on it | byte-stream refinement; exactly when a wake-up can be lost |
| `CowPacket*.dfy`, `CowLoans.dfy`, `AncPacketHandle.dfy` | copy-on-write packet handle | handles behave as independent values under any interleaving of their atomic steps; when a held reference breaks that or dangles |
| `PipelineManager.dfy`, `PipelineLifetime.dfy` | pipeline manager | order and lock discipline, snapshot delivery, guarded `run`; exactly when a call outlives its pipeline |

`Bytes.dfy` and `Numbers.dfy` hold the shared vocabulary. `dafny verify
dfyconfig.toml` checks the project.

## Where the code and its documentation differ

The models follow the code. Where a promise about behaviour fails, a lemma under
Model gives the exact condition under which it holds; the remaining entries are
wordings that do not match the code.

- AMF0: a field with an empty key is written, but its key reads as the start of
  the end sentinel, so the body is reported as corrupt. Array counts are
  narrowed to 32 bits.
- `AudioBuffer::push` is said to refresh the channel map on each successful push;
  the code refreshes it before the checks for rate, space and conversion, so a
  refused push relabels the frames already buffered.
- `AudioBuffer::pushSilence` lays its anchor before it can fail, and `push` lays
  it before a conversion that refuses compressed formats. Either way a failed
  stamped call redates later unstamped samples. `setInputFormat` clears the
  anchors but not the counters its header says it resets.
- Silence: with more than 4096 channels the chunk loop of `pushSilence` never ends.
- Drift: the integral is clamped to 1000, so a constant drift is removed if and
  only if it is at most the gain; beyond that the loop rests off target and its
  errors add up without bound. A push refused for space moves the integral.
- `AncFrameSync`: the header says each stash collision is logged once; the code
  logs every one. A drop whose policy fails stops half way with part of the
  frame stashed.
- AAC: the comment calls for a 0x2B7 sync extension; the code reads and writes
  the explicit layout without it. The last byte of a serialized SBR or PS config
  is never read, so a config cut by one byte is accepted. `serialize` emits
  object types 5, 29 and 31 that `parse` reads as something else.
- ADTS: `wrapFrame` keeps object types 1 to 4, not only LC. A framed stream cut
  to its first byte is taken for raw data, not reported as truncated. `strip`
  accepts the reserved rate indices 13 and 14, and derives from them a
  descriptor that `parse` refuses.
- Channel orders: the library's 7.1 layout is said to format as `(U08)`; the
  code gives `(51,U02)`. The empty map formats as the empty text, which does not
  parse.
- Channel maps: `toString` is said to round trip always; stream names with outer
  white space and unregistered roles do not survive. In the binary form a stream
  named "Undefined" reads back as no stream.
- Segment queue: a segment enqueued before `open` is accepted and then dropped.
  `HttpConnection` hooks the ready signal only after its first empty read, so a
  segment signalled in between leaves it parked with data queued.
- Pipeline manager: a lifecycle call uses its pipeline after releasing the lock,
  so a removal that starts meanwhile leaves it with a dangling pointer. A
  generated id is not checked against the existing ones. The start route lets a
  stopped pipeline through, which the pipeline then refuses.

## Model

| member | source | states |
|---|---|---|
| `Amf0Codec.Writer.AppendShortString` | src/proav/amf0.cpp:440-450 | appends the 16-bit length and the bytes, or fails and appends nothing when the name exceeds 65535 bytes |
| `Amf0Codec.Writer.WriteString` | src/proav/amf0.cpp:476-485 | picks the short or the long marker by length and appends exactly the string encoding |
| `Amf0Codec.Writer.WriteStrictArray` | src/proav/amf0.cpp:498-508 | appends the count narrowed to 32 bits and the items; on a failing item keeps what was written before it |
| `Amf0Codec.Writer.WriteFields` | src/proav/amf0.cpp:523-534 | appends each key and value, stopping at the first failure, with the bytes of the fields before it kept |
| `Amf0Codec.Writer.WriteObject` | src/proav/amf0.cpp:523-534 | appends an object: marker, fields, empty key and end marker |
| `Amf0Codec.Writer.WriteEcmaArray` | src/proav/amf0.cpp:536-549 | appends an ECMA array with the caller's count hint |
| `Amf0Codec.Writer.WriteTypedObject` | src/proav/amf0.cpp:551-565 | appends a typed object, refusing an over-long class name |
| `Amf0Codec.Writer.WriteValue` | src/proav/amf0.cpp:573-596 | for every tree: the buffer grows by exactly `Emit` of it, the byte counter by the same amount, and the error is that of `Emit`, including partial output on failure |
| `Amf0Laws.EmitFailsOnlyOnLength` | src/proav/amf0.cpp:440-462 | serializing fails if and only if some name exceeds 65535 bytes or some string 2^32-1 |
| `Amf0Laws.NeverStartsWithObjectEnd` | src/proav/amf0.cpp:573-596 | no encoded value begins with 0x09, so a field is never mistaken for the end sentinel |
| `Amf0Codec.ReadShortString` | src/proav/amf0.cpp:620-625 | reads at an offset exactly what the grammar says, and the offset of what follows |
| `Amf0Codec.ReadObjectBody` | src/proav/amf0.cpp:640-661 | the field loop: stops at the empty key and end marker, reports the first error with the fields read so far dropped |
| `Amf0Codec.ReadItems` | src/proav/amf0.cpp:663-783 | the counted-array loop, for any announced count, even one larger than the input |
| `Amf0Codec.ReadValue` | src/proav/amf0.cpp:663-783 | the recursive reader at any offset of any bytes: same value, same next offset, same error as the grammar; it terminates because every success advances |
| `Amf0Codec.Read` | src/proav/amf0.cpp:789-801 | the whole-buffer loop: the values decoded before the first error, and that error |
| `Amf0Laws.ReadsBackFaithful` | src/proav/amf0.cpp:600-787 | a tree without empty keys, followed by any bytes, reads back as itself and the reader stops exactly after it |
| `Amf0Laws.OnlyFaithfulReadsBack` | src/proav/amf0.cpp:640-661 | a tree that reads back as itself has no empty key and no array of 2^32 items or more |
| `Amf0Laws.RoundTripExactlyWhenFaithful` | src/proav/amf0.cpp:600-787 | for every tree the writer accepts: `readOne(serialize(v) + rest)` gives v and its length if and only if no field key anywhere is empty and no array has 2^32 items or more |
| `Amf0Laws.EmptyKeyReadsAsCorrupt` | src/proav/amf0.cpp:640-661 | the failing family: a body with an empty key, after any good fields, is reported as corrupt |
| `Amf0Framing.ReadsNoFurther` | src/proav/amf0.cpp:785-787 | the reader's answer does not depend on any byte after the value |
| `Amf0Framing.EveryCutIsOutOfRange` | src/proav/amf0.cpp:614-787 | any strict prefix of any accepted bytes is reported as out of range, never as success or corruption |
| `Amf0Framing.EncodingsArePrefixFree` | src/proav/amf0.cpp:600-603 | no encoding is a proper prefix of another |
| `Amf0Framing.DecodeEncodeDecode` | src/proav/amf0.cpp:600-787 | whatever bytes the reader accepts, the value can be written in no more bytes and reads back the same |
| `Amf0Framing.ReadCutMessage` | src/proav/amf0.cpp:789-801 | a message of many values cut anywhere: exactly the whole values come back, and the error tells whether the cut fell inside one |
| `Amf0Framing.ReadWholeMessage` | src/proav/amf0.cpp:789-801 | reading the concatenated encodings of a list of values gives the list |
| `Amf0Wire.StoredWords` | src/proav/amf0.cpp:72-89 | 16-, 32- and 64-bit words are stored most significant byte first |
| `Amf0Wire.WritesTheWireForm` | src/proav/amf0.cpp:440-596 | for every tree the writer accepts, the bytes, every one in figures: the marker of its kind, big-endian lengths, counts and numbers, 00 00 09 behind the fields of each object |
| `Amf0Wire.ReadsExactlySpellings` | src/proav/amf0.cpp:600-787 | the reader takes a byte string for a tree if and only if it spells the tree, again in figures: any byte but zero is true, and a short string may stand behind the long marker |
| `Amf0Wire.EmptyObjectReads` | src/proav/amf0.cpp:640-661 | 03 00 00 09, whatever follows, is the empty object |
| `Amf0Wire.FirstBytes` | src/proav/amf0.cpp:663-783 | which first bytes begin no tree, and with which error |
| `AudioBuffer.AudioBuffer.WriteAtTail` | src/proav/audiobuffer.cpp:370-384 | the two-piece copy at the tail: the ring read from the head is the old contents followed by the new frames |
| `AudioBuffer.AudioBuffer.ReadFromHead` | src/proav/audiobuffer.cpp:386-404 | the two-piece copy from the head, with a skip: exactly that stretch of the contents, rest of the destination untouched |
| `AudioBuffer.AudioBuffer.LayAnchor` | src/proav/audiobuffer.cpp:310-330 | appends an anchor at the producing index, its date put back by the filter delay |
| `AudioBuffer.AudioBuffer.PtsAt` | src/proav/audiobuffer.cpp:332-353 | the backward search: the date of an index by the latest anchor at or before it, equal to the answer over the unpruned history |
| `AudioBuffer.AudioBuffer.PruneAnchors` | src/proav/audiobuffer.cpp:355-368 | drops anchors from the front without changing any date at or after the consuming index |
| `AudioBuffer.AudioBuffer.RefreshMap` | src/proav/audiobuffer.cpp:495-522 | the cached channel map becomes the source's, entry by entry, with unused channels where the source has none |
| `AudioBuffer.AudioBuffer.Push` | src/proav/audiobuffer.cpp:478-784 | every push, converted, resampled or copied: result and new state as functions of the old state, the batch and what the resampler answers; the map refresh stays when a later check fails, and so does the anchor when the conversion is refused |
| `AudioBuffer.AudioBuffer.StoreResampled` | src/proav/audiobuffer.cpp:450-557 | the resampled frames are stored before their anchor is laid, with the state of laying it first |
| `AudioBuffer.AudioBuffer.PopPayload` | src/proav/audiobuffer.cpp:950-975 | between two counts of frames, as a payload that carries the date of its first frame and the format as it is at that moment |
| `AudioBuffer.AudioBuffer.PushSilence` | src/proav/audiobuffer.cpp:810-865 | silence as a run of chunks, whenever the loop ends: the contents grow by that many silent frames; its anchor is laid before the checks that may fail |
| `AudioFifo.SilenceStallsExactlyPast4096` | src/proav/audiobuffer.cpp:823-864 | an iteration of the chunk loop changes nothing, so that the loop never ends, if and only if there are more than 4096 channels |
| `AudioBuffer.AudioBuffer.Pop` | src/proav/audiobuffer.cpp:867-878 | hands over the oldest frames and their date, and dates of what remains are unchanged |
| `AudioBuffer.AudioBuffer.Peek` | src/proav/audiobuffer.cpp:898-909 | same frames as a pop, no change of state |
| `AudioBuffer.AudioBuffer.Drop` | src/proav/audiobuffer.cpp:911-924 | discards the oldest frames, keeping the dates of the rest |
| `AudioBuffer.AudioBuffer.Reserve` | src/proav/audiobuffer.cpp:271-293 | growth linearizes the ring without changing contents, dates or counters; a smaller request is refused or ignored as written |
| `AudioBuffer.AudioBuffer.Clear` | src/proav/audiobuffer.cpp:295-308 | empties contents, anchors and counters, keeping the capacity |
| `AudioBuffer.AudioBuffer.SetFormat` | src/proav/audiobuffer.cpp:96-109 | a new format discards everything |
| `AudioBuffer.AudioBuffer.NextSamplePts` | src/proav/audiobuffer.cpp:1012-1016 | the date of the next frame out |
| `Timeline.PrunedAgrees` | src/proav/audiobuffer.cpp:332-368 | pruning agrees with never pruning for every index the front anchor covers |
| `Timeline.NewAnchorDates` | src/proav/audiobuffer.cpp:310-353 | a new anchor dates indices from its own on and no others |
| `Timeline.StepIsWholeNanoseconds` | src/proav/audiobuffer.cpp:347-351 | the date of a sample is its anchor plus the whole number of nanoseconds in the sample periods between |
| `Timeline.StepInParts` | src/proav/audiobuffer.cpp:347-351 | rounding does not build up: a step in two parts is at most one nanosecond short |
| `Timeline.SecondsApart` | src/proav/audiobuffer.cpp:332-353 | under one anchor, a second's worth of samples later is dated 1 000 000 000 ns later, exactly |
| `AudioFifoLaws.FifoOrder` | src/proav/audiobuffer.cpp:478-924 | over any run of pushes, silence, pops, drops, growth and clears, failing ones included: delivered followed by buffered is what was accepted, in order; produced minus consumed is the fill and never exceeds capacity |
| `AudioFifoLaws.RunConserves` | src/proav/audiobuffer.cpp:478-924 | the same from any consistent state, with the counters equal to the bytes accepted and delivered |
| `AudioFifoLaws.RunDates` | src/proav/audiobuffer.cpp:310-597 | over every run, failed calls included: every accepted frame keeps the date it was accepted with, and future indices read as the clock, which every call that lays its anchor sets, even one that then fails |
| `AudioFifoLaws.BufferedFramesKeepTheirDates` | src/proav/audiobuffer.cpp:867-924 | the date a pop or peek reports for any buffered frame is the one recorded when it was pushed |
| `AudioFifoLaws.FailuresDateNothingExactlyWhenHarmless` | src/proav/audiobuffer.cpp:578-821 | throughout a run, the dates are those of the successful calls alone if and only if every failed call that got as far as its anchor - stamped silence, or a stamped push that does not convert - repeats what the clock reads |
| `AudioFifoLaws.FailedSilenceChangesNothing` | src/proav/audiobuffer.cpp:810-821 | a failed push of silence changes nothing if and only if it carried no timestamp |
| `AudioFifoLaws.FailedPushChangesNothing` | src/proav/audiobuffer.cpp:478-784 | a failed push leaves samples, counters, anchors and format as they were if and only if it failed before the channel map is refreshed, or its source's map is the cached one and it laid no anchor or had no stamp (what it does to the drift controller is Drift.RefusedPushChangesNothingExactlyWhen) |
| `AudioFifoLaws.FailedPushLeavesMarksOnly` | src/proav/audiobuffer.cpp:495-784 | all a failed push can leave behind: a new channel map, which labels whatever payload leaves next, and exactly when it got that far with a stamp, one anchor at the producing index; frames and dates already buffered stay |
| `AudioFifoLaws.FailsAfterAnchorExactlyWhenUnconvertible` | src/proav/audiobuffer.cpp:578-784 | a push fails after its anchor is laid if and only if there is room, no resampler is needed and the formats do not convert |
| `AudioFifoLaws.PushSucceedsExactlyWhen` | src/proav/audiobuffer.cpp:478-784 | the exact condition for a push to succeed, in the fields of buffer, source and resampler answer |
| `AudioFifoLaws.PushErrors` | src/proav/audiobuffer.cpp:478-784 | which error a push without resampling fails with, exactly |
| `AudioFifoLaws.TakesTheLesser` | src/proav/audiobuffer.cpp:867-975 | pops, drops and payloads take what was asked for or what there is, whichever is less, off the front |
| `AudioFifoLaws.RefusedPushRelabels` | src/proav/audiobuffer.cpp:495-578 | a full stereo buffer refuses a frame and then hands out the frame it held under the refused frame's channel map |
| `AudioFifoLaws.StrayAnchorRedatesTheFuture` | src/proav/audiobuffer.cpp:578-821 | what the stray anchor of a failed call does, push or silence: buffered frames keep their dates, later unstamped ones are redated, unless the stamp agrees with the clock |
| `AudioFifoLaws.StrayAnchorExample` | src/proav/audiobuffer.cpp:810-821 | a concrete run in which a failed push of silence dates a later frame |
| `AudioFifoLaws.UnconvertiblePushExample` | src/proav/audioformat.cpp:1113-1143 | the same with a push of a compressed format, refused by the conversion after its anchor is laid |
| `Drift.Controller.ComputeRatio` | src/proav/audiobuffer.cpp:194-214 | the PI step: the integral is updated and clamped to 1000 before the ratio uses it; disabled or without target the ratio is nominal |
| `Drift.Controller.Enable` | src/proav/audiobuffer.cpp:142-158 | stores target and gain and restarts the integral |
| `Drift.Controller.Disable` | src/proav/audiobuffer.cpp:160-168 | back to the nominal ratio, integral cleared |
| `Drift.NextError` | include/promeki/audiobuffer.h:86-108 | one push in error coordinates: the new relative error is e - p e - q J |
| `Drift.EnergyIsNonNegative` | include/promeki/audiobuffer.h:86-108 | the energy e^2 + q(1 - p/2)J^2 + qJe is non-negative whenever p + q/2 <= 2 |
| `Drift.FreeStepEnergy` | include/promeki/audiobuffer.h:86-108 | away from the clamp a push lowers the energy by exactly p(2 - p - q/2)e^2 |
| `Drift.ClampedStepEnergy` | src/proav/audiobuffer.cpp:201-210 | a push whose integral is cut short by the clamp still lowers the energy, all but a term of q(1-p)e^2 |
| `Drift.PushShedsEnergy` | src/proav/audiobuffer.cpp:194-214 | every accepted push, clamped or not, sheds energy in proportion to the squared error |
| `Drift.RefusedPushChangesNothingExactlyWhen` | src/proav/audiobuffer.cpp:417-427 | a push refused for space has moved the integral already; it leaves the controller as it was if and only if the fill is on target or the integral is at its limit on that side |
| `Drift.RefusalsWindUp` | src/proav/audiobuffer.cpp:417-427 | refusals in a row add the same error each time, as far as the clamp |
| `Drift.RefusedPushEnergy` | src/proav/audiobuffer.cpp:417-427 | what one refusal away from the clamp adds to the energy, exactly |
| `Drift.FreeRunEnergy` | include/promeki/audiobuffer.h:86-108 | over any run of accepted pushes that stays off the clamp, whatever the gain and drift: final energy plus p(2 - p - q/2) times the summed squared errors equals the starting energy |
| `Drift.FreeRunErrorIsBounded` | include/promeki/audiobuffer.h:86-108 | for p + q/2 < 2 the squared errors of such a run, of any length, sum to at most H0/(p(2 - p - q/2)) |
| `Drift.LowEnergyNeverClamps` | src/proav/audiobuffer.cpp:201-210 | a run of accepted pushes that starts below a stated energy never touches the clamp, however long |
| `Drift.RunErrorIsBounded` | src/proav/audiobuffer.cpp:194-214 | with the clamp, over any number of accepted pushes the squared errors sum to at most the starting energy over a slightly smaller rate |
| `Drift.OffTargetPushesAreFew` | include/promeki/audiobuffer.h:86-108 | for every tolerance, boundedly many of an endless run of accepted pushes are off target by it or more |
| `Drift.CorrectableMeansReachable` | src/proav/audiobuffer.cpp:201-210 | the integral that matches the drift is within the clamp if and only if the relative drift is within the gain |
| `Drift.RestsExactlyThere` | src/proav/audiobuffer.cpp:194-214 | the loop has exactly one resting state, given in closed form, on or off target |
| `Drift.SettlesOnTargetExactlyWhenCorrectable` | include/promeki/audiobuffer.h:93-108 | the promise that no steady offset remains holds if and only if the relative drift does not exceed the gain |
| `Drift.TwoErrorsInARow` | include/promeki/audiobuffer.h:86-108 | two successive squared errors sum to at least (q x)^2/2, where x is how far the setpoint lies beyond the clamp |
| `Drift.ErrorsAreBoundedExactlyWhenCorrectable` | include/promeki/audiobuffer.h:93-108 | for every stable loop and every start: the squared errors of its runs stay below some bound, however many pushes, if and only if the relative drift does not exceed the gain |
| `Drift.ProportionalRestsOffTarget` | include/promeki/audiobuffer.h:93-98 | without the integral the loop rests on target if and only if there is no drift |
| `EventBroadcaster.EventBroadcaster.OnUpgrade` | demos/promeki-pipeline/eventbroadcaster.cpp:142-160 | registers a socket: the upgrade step of the protocol |
| `EventBroadcaster.EventBroadcaster.MatchingSubscribers` | demos/promeki-pipeline/eventbroadcaster.cpp:69-78 | the locked loop: exactly the subscribers whose filter matches, each once |
| `EventBroadcaster.EventBroadcaster.OnEvent` | demos/promeki-pipeline/eventbroadcaster.cpp:51-97 | the event callback is the snapshot step followed by one post step per target |
| `EventBroadcaster.EventBroadcaster.DropSubscriber` | demos/promeki-pipeline/eventbroadcaster.cpp:162-184 | removes a member and posts one delete, or does nothing: the signal step followed by its post |
| `EventBroadcaster.EventBroadcaster.RunTask` | demos/promeki-pipeline/eventbroadcaster.cpp:82-95 | one loop task: a delete, or a send that re-checks membership and may itself drop the subscriber |
| `BroadcastSafety.StepIsSafe` | demos/promeki-pipeline/eventbroadcaster.cpp:62-184 | every step of every thread keeps the invariant and touches no deleted socket |
| `BroadcastSafety.RunsAreSafe` | demos/promeki-pipeline/eventbroadcaster.cpp:62-184 | the invariant holds after every interleaving |
| `BroadcastSafety.NeverTouchesDeleted` | demos/promeki-pipeline/eventbroadcaster.cpp:82-95 | in every run no step dereferences a deleted socket, and every subscribed socket is alive |
| `BroadcastSafety.DeletedExactlyOnce` | demos/promeki-pipeline/eventbroadcaster.cpp:162-184 | no socket is deleted twice, and once the loop is idle exactly the dropped ones have been |
| `BroadcastDelivery.RunsDeliver` | demos/promeki-pipeline/eventbroadcaster.cpp:51-97 | for every publishing thread and socket: what was received, is queued and is still to be posted add up to what the socket is owed, in order |
| `BroadcastDelivery.ReceivesAPrefix` | demos/promeki-pipeline/eventbroadcaster.cpp:51-97 | what a socket has received from one publisher is a prefix of the matching events published while it was subscribed, in publish order |
| `BroadcastDelivery.QuietMeansDelivered` | demos/promeki-pipeline/eventbroadcaster.cpp:51-97 | once nothing is under way, a socket still subscribed and connected has received all of them |
| `BroadcastDelivery.SinglePublisherReceivesAPrefix` | demos/promeki-pipeline/eventbroadcaster.cpp:51-97 | with one publishing thread the same holds of the whole event stream |
| `BroadcastDelivery.OwedHasNoDuplicates` | demos/promeki-pipeline/eventbroadcaster.cpp:51-97 | no event is owed twice |
| `BroadcastDelivery.OwedByPipeline` | demos/promeki-pipeline/eventbroadcaster.cpp:69-78 | over every run: a socket without a filter is owed every event published while it was subscribed, one with a filter those whose pipeline is that name |
| `BroadcastDelivery.ReceivesItsPipelineOnly` | demos/promeki-pipeline/eventbroadcaster.cpp:69-78 | over every run: each event a socket received was published, and on the pipeline it asked for if it asked for one |
| `BroadcastDelivery.SocketsComeAndGo` | demos/promeki-pipeline/eventbroadcaster.cpp:51-184 | a possible run from upgrade to deletion in which one event is delivered and one is not asked for |
| `AncFrameSync.AncFrameSync.WarnFallbackOnce` | src/proav/ancframesync.cpp:202-208 | each unregistered format is logged once, ever |
| `AncFrameSync.AncFrameSync.StashPackets` | src/proav/ancframesync.cpp:96-105 | a non-empty result replaces the format's entry; an empty one changes nothing |
| `AncFrameSync.AncFrameSync.StashedPacketCount` | src/proav/ancframesync.cpp:107-113 | the number of packets held |
| `AncFrameSync.AncFrameSync.DrainStashInto` | src/proav/ancframesync.cpp:115-147 | appends the stash, in format order, to the first ANC payload or to a fresh one, and empties it |
| `AncFrameSync.AncFrameSync.ApplyToFrame` | src/proav/ancframesync.cpp:149-200 | every ANC packet replaced by its policy's result, failed ones lost, other payloads untouched |
| `AncFrameSync.AncFrameSync.ApplyDropAndStash` | src/proav/ancframesync.cpp:69-94 | the drop walk stops at the first failing policy, with the results before it stashed |
| `AncFrameSync.AncFrameSync.Apply` | src/proav/ancframesync.cpp:22-67 | one slot: output frames, error, new stash and new warnings as functions of the slot and the old stash |
| `FrameSyncLaws.InsertKeepsOnePerFormat` | src/proav/ancframesync.cpp:96-105 | the stash stays sorted with one entry per format; an insert adds its entry and removes only that format's |
| `FrameSyncLaws.StashIsTheLatestWord` | include/promeki/ancframesync.h:38-69 | after any run, an entry is in the stash if and only if it is the last non-empty drop result for its format since the last slot that produced output |
| `FrameSyncLaws.WholeFrameDispatched` | src/proav/ancframesync.cpp:69-94 | every packet of a dropped frame goes through its policy if and only if none but possibly the last fails there |
| `FrameSyncLaws.OutputFrames` | src/proav/ancframesync.cpp:22-67 | 0, 1 or N frames; media payloads unchanged on all of them; each ANC payload walked with its own repeat index; the stash on frame 0 alone, at the end of the first ANC payload or in a fresh last payload |
| `FrameSyncLaws.PayloadsByPolicy` | src/proav/anctranslator.cpp:461-477 | on every output frame: payloads of formats without a policy are copied, payloads of formats with one hold what their policies return for that disposition and repeat index |
| `FrameSyncLaws.UnregisteredDropLeavesNothing` | src/proav/anctranslator.cpp:461-477 | a dropped frame of formats without a policy leaves the stash as it was and reports no error |
| `FrameSyncLaws.RegisteredDropStashesItsResult` | src/proav/ancframesync.cpp:69-105 | what a policy returns for a drop takes its format's place in the stash, nothing leaves it alone, and its error is reported |
| `FrameSyncLaws.SlotConserves` | src/proav/ancframesync.cpp:22-147 | one slot: held plus returned equals emitted plus superseded plus still held |
| `FrameSyncLaws.RunConserves` | include/promeki/ancframesync.h:38-69 | over any run, every packet any policy returned is exactly one of emitted, held, or superseded by a later drop of its format |
| `DemoSchedule.Lcm` | demos/anc-framesync/main.cpp:258-269 | the least common multiple: common, and below it nothing positive is |
| `DemoSchedule.CommonMultiples` | demos/anc-framesync/main.cpp:258-269 | a frame is both dropped-every and repeated-every if and only if the least common multiple divides it |
| `DemoSchedule.NextCount` | demos/anc-framesync/main.cpp:258-269 | each frame moves the closed forms by exactly its disposition |
| `DemoSchedule.Run` | demos/anc-framesync/main.cpp:490-530 | the main loop over the real synchroniser: repeats = F/r - F/lcm(d,r), plays = F - F/d - repeats, outputs = plays + K repeats, and drops = F/d unless a drop policy fails; zero or negative means never |
| `Bits.BitReader.Read` | src/proav/aacbitstream.cpp:58-71 | n bits, most significant first, from any bit position; what is left of them when the input ends, with the truncation flag set |
| `Bits.BitWriter.Write` | src/proav/aacbitstream.cpp:89-96 | appends the n low bits of a value, flushing whole bytes |
| `Bits.BitWriter.Finalize` | src/proav/aacbitstream.cpp:98-108 | pads with zero bits to a byte boundary |
| `Bits.ValueOfField` | src/proav/aacbitstream.cpp:58-96 | writing a value in n bits and reading it gives the value |
| `Bits.BitsOfPack` | src/proav/aacbitstream.cpp:85-117 | packing any bit string into bytes and reading all bits gives the string and zero padding |
| `Bits.FieldJoin` | src/proav/aacbitstream.cpp:85-96 | two fields written one after the other are one wider field |
| `AacConfig.FindIndex` | src/proav/aacbitstream.cpp:133-138 | the table search: the first index with that rate, 15 if none |
| `AacDescriptor.RatesOfTheStandard` | src/proav/aacbitstream.cpp:27-30 | the sample rates in figures: three rates over four octaves, 7350 Hz, and none for the reserved indices |
| `AacDescriptor.IndexOfARate` | src/proav/aacbitstream.cpp:128-138 | each of the 13 rates has its own index, and every other rate 15 |
| `AacConfig.ParseInto` | src/proav/aacbitstream.cpp:140-205 | the descriptor parser on any bytes and any starting config: same fields, same error, including fields set before a failure |
| `AacConfig.SerializeTo` | src/proav/aacbitstream.cpp:207-250 | appends exactly the packed fields, or the verbatim bytes when the config carries them |
| `AacDescriptor.PlainDescriptorParses` | src/proav/aacbitstream.cpp:140-168 | two bytes in figures, five bits of object type, four of rate index and four of channels, and what they parse to, whatever follows and whatever config is passed in |
| `AacDescriptor.PlainDescriptorBytes` | src/proav/aacbitstream.cpp:212-258 | the two bytes such a config is written as |
| `AacDescriptor.EscapedDescriptorParses` | src/proav/aacbitstream.cpp:154-168 | five bytes with a rate of 24 bits behind index 15 |
| `AacDescriptor.ExtendedDescriptorParses` | src/proav/aacbitstream.cpp:170-197 | three bytes with an SBR or PS layer: both rates and the type extended |
| `AacDescriptor.FreshIsLowComplexity` | src/proav/aacbitstream.cpp:140-143 | a descriptor too short leaves a fresh config at its defaults |
| `AacConfigLaws.ParsedIsCanonical` | src/proav/aacbitstream.cpp:140-205 | whatever it is given, a successful parse returns a canonical config, up to an inner object type of 0 |
| `AacConfigLaws.RoundTripExactlyWhenCanonical` | src/proav/aacbitstream.cpp:140-250 | parse(serialize(c)) returns c if and only if c is canonical: rates from the table or 24-bit, channel configuration below 16, object type below 31 and not 5 or 29 without SBR, no PS without SBR |
| `AacConfigLaws.ParsedFieldsRoundTrip` | src/proav/aacbitstream.cpp:140-250 | parse then serialize gives the same bytes; the fields alone still describe the same config if and only if an SBR or PS layer does not wrap object type 0 |
| `AacConfigLaws.CutBits` | src/proav/aacbitstream.cpp:140-198 | cut anywhere past the rate index, any accepted bits parse to the same config while the bits read are all there, and to out of range otherwise |
| `AacConfigLaws.CutConfig` | src/proav/aacbitstream.cpp:140-250 | every strict prefix of a serialized config is out of range, except that the last byte of an SBR or PS config is never read |
| `Adts.WrapFrame` | src/proav/aacbitstream.cpp:349-401 | the 7-byte header and the unit, or out of range above 8184 bytes with the output untouched |
| `Adts.StripInto` | src/proav/aacbitstream.cpp:282-347 | the frame walk on any bytes: payloads appended, config of the first header, first error; raw input copied unchanged |
| `AdtsLaws.HeadByFields` | src/proav/aacbitstream.cpp:300-320 | for any field values behind a sync word: layer, length and protection_absent decide whether the header is taken, with which error not, and its 7 or 9 bytes, and the fields come back |
| `AdtsLaws.HeadWithoutSync` | src/proav/aacbitstream.cpp:276-304 | what is said of bytes without a sync word, or too few |
| `AdtsLaws.FramesWhatFits` | src/proav/aacbitstream.cpp:349-401 | a unit is framed if and only if it has at most 8184 bytes |
| `AdtsLaws.WrappedFields` | src/proav/aacbitstream.cpp:349-401 | the fields a wrapped unit carries, with low complexity for types the header cannot name and the rate's index where the config has none |
| `AdtsLaws.AcceptsExactlyFrameRuns` | src/proav/aacbitstream.cpp:282-347 | a framed stream is accepted if and only if it is a concatenation of whole frames, and then yields their payloads in order |
| `AdtsLaws.HeaderIsHeader` | src/proav/aacbitstream.cpp:349-401 | a wrapped unit is a whole frame whose header reads back as the profile, rate index, channels and length it was made from |
| `AdtsLaws.HeaderFollowsTheStandard` | src/proav/aacbitstream.cpp:349-401 | for every config and length the header is, bit for bit, the field sequence of section 6.2 of ISO/IEC 13818-7 |
| `AdtsLaws.StripUndoesWrap` | src/proav/aacbitstream.cpp:282-401 | for every non-empty list of units of at most 8184 bytes, with any configs: strip of the concatenated wraps is the concatenated units, with the config of the first |
| `AdtsLaws.RecoversExactly` | src/proav/aacbitstream.cpp:282-401 | object type, rate index, rate and channels come back unchanged if and only if the header can carry them |
| `AdtsLaws.DerivedDescriptorParses` | src/proav/aacbitstream.cpp:322-335 | the descriptor strip derives parses back to its config if and only if the rate index is not one of the two reserved ones |
| `AdtsLaws.CutFrames` | src/proav/aacbitstream.cpp:300-346 | a cut stream yields the payloads of its whole frames and out of range if the cut is inside one |
| `AdtsLaws.StripOfCut` | src/proav/aacbitstream.cpp:282-347 | the whole of strip on a cut stream: empty and one-byte cuts succeed as raw, cuts between frames succeed, all others are out of range |
| `ChannelOrder.MatchesGrouping` | src/proav/audiochannelmap.cpp:290-297 | whether a fixed sequence lies at an offset |
| `ChannelOrder.Detect` | src/proav/audiochannelmap.cpp:280-330 | the first fixed sequence of the table that matches, longest first |
| `ChannelOrder.UnlabelledRun` | src/proav/audiochannelmap.cpp:332-347 | how far the unlabelled run reaches: to the next match, the end, or 64 channels |
| `ChannelOrder.ToChannelOrder` | src/proav/audiochannelmap.cpp:309-353 | the formatted text is the symbols of the greedy grouping, joined by commas in parentheses |
| `ChannelOrder.FromChannelOrder` | src/proav/audiochannelmap.cpp:355-436 | the parser on any text, with its convention prefixes, lenient two-character counts and comma checks |
| `ChannelOrderLaws.GroupsCoverTheMap` | src/proav/audiochannelmap.cpp:309-353 | for every map the group sizes add up to its channel count, no group exceeds 64, and no label is invented |
| `ChannelOrderLaws.FormattedTextReads` | src/proav/audiochannelmap.cpp:309-436 | for every non-empty map, dressed in any outer white space and either convention prefix, the formatted text parses to the map with the channels outside fixed groups unlabelled |
| `ChannelOrderLaws.DescribedExactlyByGroups` | src/proav/audiochannelmap.cpp:309-436 | a map is unchanged by this if and only if it is a concatenation of the grammar's groups |
| `ChannelOrderLaws.RoundTripExactlyWhenDescribed` | src/proav/audiochannelmap.cpp:309-436 | parse(format(m)) is m if and only if m is non-empty, carries no streams and is made of the grammar's groups |
| `ChannelOrderLaws.ParsedMapsRoundTrip` | include/promeki/audiochannelmap.h:351-442 | whatever text a non-empty map was parsed from, DM, SGRP and 222 included, it survives formatting and parsing |
| `ChannelOrderLaws.LibrarySurroundOrder` | src/proav/audiochannelmap.cpp:233-286 | the library's own 7.1 layout groups as 51 and U02 |
| `ChannelNames.SymbolsInFigures` | src/proav/audiochannelmap.cpp:392-420 | each fixed symbol of the grammar with the role numbers it stands for |
| `ChannelNames.UnlabelledInFigures` | src/proav/audiochannelmap.cpp:392-430 | U and two digits is that many unused channels from 1 to 64 and refused otherwise, with the lenient digits named |
| `ChannelNames.StrayCommasAreRefused` | src/proav/audiochannelmap.cpp:377-381 | leading, trailing and doubled commas are refused in every text |
| `ChannelMapCodec.FindWellKnownName` | src/proav/audiochannelmap.cpp:193-207 | the layout shortcut of a single-stream map, or nothing |
| `ChannelMapCodec.ToText` | src/proav/audiochannelmap.cpp:209-226 | the shortcut, or one role a channel, comma separated |
| `ChannelMapCodec.FromText` | src/proav/audiochannelmap.cpp:103-148 | the text parser on any text |
| `ChannelTables.RoleReads` | include/promeki/enums_audio.h:432-467 | every registered role name is found again at its own value |
| `ChannelTables.LayoutReads` | src/proav/audiochannelmap.cpp:18-79 | every layout name is found again at its own entry |
| `ChannelTables.RolesAreNoLayouts` | src/proav/audiochannelmap.cpp:18-79 | no role but Mono shares its name with a layout |
| `ChannelNames.RolesInFigures` | include/promeki/enums_audio.h:434-467 | each role number is written as its registered name, on any stream, and read from it |
| `ChannelNames.LayoutsInFigures` | src/proav/audiochannelmap.cpp:25-70 | each layout name is read as its role numbers, on any stream, and written for them, 4.0 as Quad |
| `ChannelNames.DressedRoleReads` | src/proav/audiochannelmap.cpp:103-148 | white space around the parts of an entry is ignored, and an empty stream name is no stream |
| `ChannelNames.TrimTakesSpaces` | include/promeki/string.h:149-150 | the white space is six ASCII characters and no others |
| `ChannelTextLaws.RoundTripExactlyWhenSayable` | src/proav/audiochannelmap.cpp:103-226 | fromString(toString(m)) is m if and only if every role is registered and no stream name begins or ends with white space |
| `ChannelTextLaws.ParsedMapsRoundTrip` | src/proav/audiochannelmap.cpp:103-226 | whatever text a map was parsed from, it survives formatting and parsing |
| `ChannelMapCodec.WriteToStream` | include/promeki/audiochannelmap.h:468-475 | writes the 32-bit count and a name and role per channel |
| `ChannelMapCodec.ReadFromStream` | include/promeki/audiochannelmap.h:477-495 | the counted loop over the typed words, which keeps looping after a failure and then reports it |
| `ChannelMapCodec.StreamRoundTripExactly` | include/promeki/audiochannelmap.h:468-495 | a map followed by anything reads back as itself if and only if it has fewer than 2^32 channels and no stream named "Undefined" |
| `ChannelNames.OneChannelInWords` | include/promeki/audiochannelmap.h:468-475 | a count, and for a channel its stream's name, or Undefined, and its role's number |
| `AsyncQueue.AsyncBufferQueue.DoOpen` | src/core/asyncbufferqueue.cpp:21-47 | refuses every mode but read-only, and resets the queue |
| `AsyncQueue.AsyncBufferQueue.DoClose` | src/core/asyncbufferqueue.cpp:49-60 | drops what is queued and latches the writer closed |
| `AsyncQueue.AsyncBufferQueue.DoEnqueue` | src/core/asyncbufferqueue.cpp:156-174 | appends a segment's bytes unless the writer is closed; the empty segment is accepted and ignored |
| `AsyncQueue.AsyncBufferQueue.DoCloseWriting` | src/core/asyncbufferqueue.cpp:176-190 | closes the writer, signalling on the transition only |
| `AsyncQueue.AsyncBufferQueue.DoRead` | src/core/asyncbufferqueue.cpp:66-103 | drains whole and partial segments: exactly the first bytes of the queued stream, with both counters moved |
| `AsyncQueue.AsyncBufferQueue.IsAtEnd` | src/core/asyncbufferqueue.cpp:147-150 | closed and drained |
| `AsyncQueue.AsyncBufferQueue.BytesAvailable` | src/core/asyncbufferqueue.cpp:117-120 | the counter is the number of unread bytes |
| `AsyncQueueLaws.OpenQueueIsAStream` | include/promeki/asyncbufferqueue.h:33-50 | in every interleaving, while open: bytes read followed by bytes queued are the accepted segments end to end, the position counts them, and the end is seen if and only if the writer has closed and all accepted bytes were read |
| `AsyncQueueLaws.SignalsWhatIsNew` | src/core/asyncbufferqueue.cpp:156-190 | the ready signal is raised by exactly the calls that add bytes or end the writing |
| `AsyncQueueLaws.FailedCallsChangeNothing` | src/core/asyncbufferqueue.cpp:21-190 | a failed call changes nothing, and each error has exactly one cause |
| `AsyncQueueLaws.ReadsTheFront` | src/core/asyncbufferqueue.cpp:66-103 | a read hands over the front of the queue, no more than asked for and no less than there is |
| `AsyncQueueLaws.NothingAfterClose` | src/core/asyncbufferqueue.cpp:156-174 | nothing is accepted after the writer closes until the queue is reopened |
| `AsyncQueueLaws.OpeningDropsExactlyEarlySegments` | src/core/asyncbufferqueue.cpp:21-47 | from any state: the next successful open finds bytes to drop if and only if an accepted segment came while the queue was not open; that segment is among them and none of it was delivered |
| `StreamParking.TurnKeepsCovered` | src/network/httpconnection.cpp:588-771 | with the signal hooked, every step of producers and pump keeps unseen work covered by a signal on its way |
| `StreamParking.SignalLost` | src/network/httpconnection.cpp:638-671 | the interleaving that strands the pump: a segment signalled between the first empty read and the hook |
| `StreamParking.StuckExactlyAfterALostSignal` | src/network/httpconnection.cpp:588-771 | the connection as written: a run strands it if and only if it parks with every signal spent and one lost between an empty read and the hook that no later one made up for |
| `StreamParking.QuietGapIsSafe` | src/network/httpconnection.cpp:638-771 | a run in which no signal is raised in that gap strands nothing |
| `StreamParking.GapCanStrand` | src/network/httpconnection.cpp:638-771 | conversely, wherever a run stands in the gap with something to announce, it can be continued to strand the connection |
| `StreamParking.FinishedProducerIsSafe` | src/network/httpconnection.cpp:588-771 | a producer that has finished before the first read is safe |
| `StreamParking.NeverStuckExactlyWhenHooked` | src/network/httpconnection.cpp:638-771 | the remedy: no run at all strands the connection if and only if the signal is hooked before its first read |
| `StreamParking.LaterParksAreSafe` | src/network/httpconnection.cpp:731-771 | once hooked, no later park can be stranded |
| `AncPacketHandle.AncPacket.Copy` | include/promeki/sharedptr.h:358-358 | a copy shares the body and raises its count |
| `AncPacketHandle.AncPacket.Assign` | include/promeki/sharedptr.h:401-407 | releases the old body, shares the new one; every other handle reads what it read |
| `AncPacketHandle.AncPacket.Release` | include/promeki/sharedptr.h:484-491 | gives up the body, deletes it with its last reference, and leaves the others' counts right |
| `AncPacketHandle.AncPacket.Detach` | include/promeki/sharedptr.h:425-432 | afterwards this handle is alone on a body with the same fields |
| `AncPacketHandle.AncPacket.Set` | src/proav/ancpacket.cpp:37-58 | a setter changes what this handle reads and nothing any other handle reads; the count of every body stays the number of its handles |
| `CowPacketLaws.StepKeeps` | include/promeki/sharedptr.h:425-491 | under any interleaving of probe, clone, release and write steps: the step touches only live bodies and keeps every handle equal to its own plain value |
| `CowPacketLaws.HandlesAreValues` | include/promeki/ancpacket.h:44-52 | in every reachable state each handle reads what an independent value would hold, each count is the number of references, and each body is freed once; references from `dataMut` and `metaMut` are taken up in CowLoans |
| `CowPacketLaws.FramingIsFiveSetters` | src/proav/ancpacket.cpp:51-58 | one framing call equals the five setters in sequence |
| `CowPacketLaws.SettersSetTheirFields` | include/promeki/ancpacket.h:214-272 | every getter after every setter: the field set is new and each other field old |
| `CowPacketLaws.CreatedIsBlank` | include/promeki/ancpacket.h:338-352 | in every reachable state a new handle gets a body of its own with the default fields |
| `CowLoans.LoanStartsExclusive` | src/proav/ancpacket.cpp:60-62 | the reference `dataMut` or `metaMut` returns leads to a body that is its handle's alone |
| `CowLoans.LoanStaysExclusive` | include/promeki/ancpacket.h:278-293 | it stays so through every step of every other handle except copying this one |
| `CowLoans.WriteThroughIsSafeExactlyWhenExclusive` | include/promeki/ancpacket.h:274-293 | an effective write through the reference finds its body there and keeps every handle equal to its own value if and only if the reference is still exclusive |
| `CowLoans.DanglesExactlyWhenUnheld` | include/promeki/ancpacket.h:274-293 | in every state that keeps the invariant, a reference dangles if and only if no handle and no clone in the making leads to its body |
| `CowLoans.FreedExactlyByTheLastHolder` | include/promeki/sharedptr.h:484-492 | the step that takes a held body away is exactly the last holder leaving: its handle is destroyed, or moves on to its own clone |
| `CowLoans.CopiedLoanLeaks` | include/promeki/ancpacket.h:278-283 | the case the header warns of: a copy taken while the reference is held changes with it |
| `PipelineManager.PipelineManager.Create` | demos/promeki-pipeline/pipelinemanager.cpp:73-95 | adds the id at the end of the order, which stays a duplicate-free list of the entries if and only if no entry had that id |
| `Pipelines.Recreated` | demos/promeki-pipeline/pipelinemanager.cpp:73-95 | why, for new ids and for ids handed out again after a removal |
| `PipelineManager.PipelineManager.Remove` | demos/promeki-pipeline/pipelinemanager.cpp:97-126 | removes the entry and its place in the order, closes the pipeline if it is open in any way, or reports an unknown id |
| `PipelineManager.PipelineManager.DescribeAll` | demos/promeki-pipeline/pipelinemanager.cpp:327-338 | one description per entry, in creation order |
| `Pipelines.KeptIsListed` | demos/promeki-pipeline/pipelinemanager.cpp:73-126 | the order lists the keys of the entries, each once |
| `PipelineManager.PipelineManager.Publish` | demos/promeki-pipeline/pipelinemanager.cpp:382-396 | each event reaches exactly the subscribers of its snapshot, once and in order, whatever their callbacks add or remove; the lock is free during callbacks |
| `Pipelines.TablesAreOrderly` | demos/promeki-pipeline/pipelinemanager.cpp:340-354 | subscription ids ascend and the next is new, after any run of subscribing and unsubscribing |
| `Pipelines.LeaveRemovesExactlyOne` | demos/promeki-pipeline/pipelinemanager.cpp:340-354 | unsubscribing removes that subscriber and leaves the others in order |
| `PipelineManager.PipelineManager.Lifecycle` | demos/promeki-pipeline/pipelinemanager.cpp:165-254 | looks up under the lock and calls the pipeline outside it, so what it publishes never meets the lock; a build the planner refuses makes no call |
| `PipelineManager.PipelineManager.Run` | demos/promeki-pipeline/pipelinemanager.cpp:256-299 | makes a prefix of the plan for the starting state, stops at the first failing call with its error and the state that call left, and otherwise leaves the pipeline running |
| `Pipelines.PlansAreAllowed` | demos/promeki-pipeline/apiroutes.cpp:287-301 | every call of every plan is one the route guards allow in the state it is made in, and the plan ends in Running |
| `Pipelines.LifeCycle` | demos/promeki-pipeline/apiroutes.cpp:287-301 | the life cycle the routes allow as a graph of ten edges |
| `Pipelines.GuardsMeetThePipeline` | src/proav/mediapipeline.cpp:715-719 | a route lets through a call the pipeline refuses if and only if it is a start after a stop, and no plan makes that call |
| `PipelineManager.RunIsGuarded` | demos/promeki-pipeline/apiroutes.cpp:287-301 | so is every call a run has recorded |
| `PipelineLifetime.NeverDestroyedTwice` | demos/promeki-pipeline/pipelinemanager.cpp:97-126 | however many removals race, no pipeline is destroyed twice |
| `PipelineLifetime.DanglesExactlyWhenGone` | demos/promeki-pipeline/pipelinemanager.cpp:97-254 | the raw pointer a call holds outside the lock dangles if and only if its pipeline has left the manager and no removal is still closing it |
| `PipelineLifetime.UndisturbedCallsAreSafe` | demos/promeki-pipeline/pipelinemanager.cpp:97-254 | if no removal starts while a call holds the pipeline, no call finds it destroyed |
| `PipelineLifetime.RemovalDuringACallDangles` | demos/promeki-pipeline/pipelinemanager.cpp:97-254 | and a removal that does start then leaves the call dangling, from another thread or from a callback |

## Left out

- Sample values: frames are opaque, as they read in the storage format. What the resampler makes of a push, its errors and its filter delay are inputs of the model, as are whether drift correction, gains or a meter are on; the ratio it is driven at is modelled in Drift. A build without resampling answers every push it would have resampled with the refusal the model takes as an input, and has no drift correction.
- Conversions: the built-in formats, where a compressed one converts into itself only. Converters and formats an application registers are not modelled.
- The statistic of resampled minus predicted samples.
- `AudioBuffer::popWait` and the payload-level wrappers: timeouts and condition variables on top of `pop`.
- Counter overflow: 64-bit sample totals, byte positions and sizes are unbounded integers here; widths are modelled where a value is written to the wire or narrowed by the code.
- Timestamps are whole nanoseconds; a span of samples is computed over exact reals and truncated, where the source computes it in doubles.
- AudioBuffer.AudioBuffer.PushSilence: only where the source's loop ends, which `AudioFifo.SilenceStallsExactlyPast4096` makes exact. Run laws speak of calls that return.
- Drift.Controller.Enable: the reset of the resampler is not modelled.
- Drift.Controller.Disable: the reset of the resampler is not modelled.
- AudioBuffer.AudioBuffer.Push: no channel remap and no null data pointer, which is refused before anything changes.
- AudioBuffer.AudioBuffer.RefreshMap: no channel remap, so each channel takes the entry of its own place.
- Amf0Codec.Read: the offset a failed read leaves behind is not modelled, only the error and the values before it.
- AMF0 strings are byte strings and doubles opaque 64-bit words; UTF-8 normalisation, NaN comparison, AMF3 and debug rendering are not modelled.
- Amf0Laws.RoundTripExactlyWhenFaithful: a string stored as Latin-1 with a byte above 0x7F is not one of the model's values. It is written raw and reads back with the replacement character U+FFFD, so such a tree does not come back equal.
- `Amf0Value::setField` and `find`: linear searches over the field list, which would only add easy members.
- Views of more than one slice, which the AMF0 and AAC readers refuse before reading anything, and allocation failures.
- The broadcaster's destructor, a missing event loop and reuse of socket addresses: one loop, and sockets with fresh identities.
- Drift.PushShedsEnergy: stated for the clamped integral the code has, so the shed rate is smaller by a thousandth than away from the clamp, where `Drift.FreeStepEnergy` gives the exact fall.
- The translator's policy registry: policies are any total function of packet, disposition and repeat index.
- The text of warnings, and everything the frame-sync demonstration prints besides its totals.
- `AacDecoderConfig::fromAudioDesc` and `toAudioDesc`, and `AudioChannelMap`'s setters and role searches: one-line members.
- White space is the ASCII kind; stream names are the registered strings themselves, so the name registry's hashing is not modelled.
- The data stream's frame headers: the binary channel map is a sequence of typed words.
- AsyncQueue.AsyncBufferQueue.DoRead: the device's error state and signals other than ready-to-read are not modelled.
- StreamParking models the body pump of one connection with a bottomless socket; socket back-pressure and fixed-length bodies are not part of it.
- CowPacketLaws.HandlesAreValues: atomic steps are sequentially consistent, and bodies marked immortal are not modelled.
- PipelineManager.PipelineManager.Lifecycle: its callbacks subscribe and unsubscribe but do not create, remove or drive pipelines; removal during a call is the subject of PipelineLifetime. Settings and configuration contents are not modelled.
- PipelineManager.PipelineManager.Run: another thread driving the same pipeline between two calls of a run is not modelled.
- HTTP routes, JSON, sockets, the terminal interface, signal handling and the planner.
