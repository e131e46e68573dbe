# Verified model of the Opus playout path and its measurements

The repository streams audio, video and input across a LAN and measures what the
path did to them. This project models its hardest parts and proves what their
documentation promises.

- **The jitter buffer** (`SlotBuffer`, `Jitter`, `SeenWindow`): an unordered slot
  array, a wrapping 32-bit cursor, a duplicate ring, a ceiling held by skipping
  forward, and thirteen counters. `JitterBuffer` and `SeenWindow` are classes over
  real arrays whose methods equal value-level functions.
- **What it stands for** (`Playout`, `Refinement`, `StreamRuns`): a
  map from unwrapped tick to payload with an integer cursor. The slot array
  refines it; samples and delivery are accounted for over whole runs.
- **What its counters mean** (`BufferRuns`, `BufferTallies`): every packet is in one
  place, and each counter, the anchor, the ring and the reordered packets are read off
  the packets given and the answers got, over every run.
- **Where that ends** (`Limits`): the exact condition under which the refinement
  holds, what happens outside it, and how the grid test reads a stream that has
  run past half its timestamp range.
- **Slots with copies in them** (`Spans`, `Disorder`): what the same buffer keeps of
  one stream when nothing at all is asked of the ring, when exactly its cursor moves
  back, and a run in which it does and frames come out of order.
- **The system around it** (`Packetizer`, `Probe`, `Networks`): a sender, a network that
  loses, copies and reorders, a receiver that publishes the playout instant under
  the lock, and a sink that reads `sent_all`, asks `drained` in one lock section
  and pulls in the next. Threads are interleaved steps of one state machine and
  the theorems quantify over every sequence of enabled steps: content and no underrun
  with any network, order under the exact condition, and both order and the end on
  every network that tells packets apart.
- **Delivery statistics** (`LinkMetrics`): every figure the stream keeps, of a whole
  run and of each window, against a batch reading of the instants; and windows against
  totals.
- **The packet probe** (`RtpProbe`, `RtpReadings`, `VerificationRuns`): the whole
  report against what was heard, the digest ledger, and loss against Appendix A.3 of
  RFC 3550.
- **The capturing sender** (`Sender`): split, encode, send, with every frame
  accounted for and every counter read off the outcomes.
- **The input wire format** (`BigEndian`, `KeyBits`, `InputWire`,
  `InputRoundTrip`): encoding into a caller's buffer, byte for byte, decoding, what
  is refused and why, and the normal form of everything that is accepted.

Where the program loops over state in place, the model is a class or an array
method proved equal to a function; the theorems are about the functions. Check
everything with `dafny verify dfyconfig.toml`.

## Assumptions

- *Half the range.* A wire timestamp stands for one tick only while that tick is
  within 2^31 of the cursor, of the anchor and of the furthest frame, and a
  sequence number for one packet only within 2^15 of the highest. `Fits`,
  `Followed`, `Followable` and `AllNear` say so at each arrival; `BufferRuns` needs
  none of them and holds for every packet, and so do the counters of `BufferTallies`
  but for the reordered ones.
- *No repeated timestamp.* `Fits` also asks that a packet the ring calls new does
  not repeat a queued tick. `Limits.RefinesExactly` proves this is the weakest
  such condition for the refinement. `Probe` does not need it.
- *Order and the end.* `Probe.HandedInOrder` asks that no arrival moves the cursor
  back, a condition `Probe.MovesBackExactly` reads off the buffer before the arrival.
  `Networks` derives it, and the conditions of `Probe.CleanFinish`, from what arrives
  alone: they hold on every network that copies nothing, on every one that stays
  within 1024 packets of the newest, and wherever a copy comes before another packet
  of its class modulo 1024.
- *Horizon.* In `Probe` the stream is shorter than 2^31 ticks and the sink does not
  pull past 2^31 ticks from the stream's start. While a frame is at or ahead of the
  cursor that is proved rather than assumed (`Probe.SinkNeverStuck`).
- *Payloads are not empty.* `parse_opus_packet` refuses empty ones
  (crates/transport/src/opus.rs:269-271). An empty payload would leave its slot
  marked free while counted as occupied.
- *A frame is shorter than 2^31 samples*, as every configuration is.
- *A described capture packet has its samples*: the endpoint hands over at least
  `frames * channels` of them (`Captured.Described`).
- 64-bit counters are unbounded naturals.

## Where the code and its comments differ

- crates/audio-codec/src/jitter.rs:50-56 says a copy the ring has forgotten is
  then refused as late. It need not be: after a straggler one window older, a copy
  of a frame still queued is accepted and stored again, and the second slot keeps
  the buffer from being drained for a whole turn of the timestamp
  (`Limits.CopyReachesStuck`, `Limits.OneCopyStopsTheEnd`). Enough such slots and an
  overrun takes the cursor back, and frames are then handed over out of order and
  twice (`Disorder.OrderFails`).
- crates/audio-codec/src/jitter.rs:84-89 names one cause of an off-grid packet.
  There is another: the test is against a fixed anchor, 2^32 is not a whole number
  of frames, and from 2^31 ticks after the anchor every packet on the sender's
  grid is refused for a whole turn (`Limits.RefusedPastHalfTheRange`).
- crates/audio-codec/src/rtp_probe.rs:191-201 says an entry not found has aged
  out. A lost packet's entry need not age out, and then disagrees with the intact
  packet that carries its number a cycle later
  (`RtpProbe.LostPacketMismatchesItsSuccessor`). `VerificationRuns.ClaimExactly` is
  the exact condition, and `VerificationRuns.MismatchesAreClashes` counts it over
  every run.
- crates/audio-codec/src/e2e_sender.rs:571 says the encoded samples are those the
  encoder was handed. Frames it failed on are handed over and not counted;
  `Sender.DisagreementIsWhatWasLost` counts them where they go.

## Model

| member | source | states |
|---|---|---|
| `Wrap.DistanceIsDifference32` | crates/transport/src/rtp.rs:86-94 | the signed 32-bit wrapped distance is the true difference if and only if that difference fits in half the range |
| `Wrap.DistanceIsDifference16` | crates/transport/src/rtp.rs:61-71 | the same of the signed 16-bit distance between sequence numbers |
| `SeenWindows.SeenWindow.constructor` | crates/audio-codec/src/jitter.rs:223-228 | a new ring remembers no number |
| `SeenWindows.SeenWindow.Arrived` | crates/audio-codec/src/jitter.rs:230-238 | an arrival answers and overwrites exactly as `Arrive`: a copy changes nothing, a first sighting takes the slot its number picks |
| `SeenWindows.SlotHoldsLast` | crates/audio-codec/src/jitter.rs:230-238 | after any history, each slot holds the latest arrival of its residue class, wrapped |
| `SeenWindows.LastSharingIsItself` | crates/audio-codec/src/jitter.rs:50-61 | within one window, the last arrival sharing a slot with a number already seen is that number |
| `SeenWindows.FreshReadsLast` | crates/audio-codec/src/rtp_probe.rs:882-890 | the ring calls a number fresh exactly when the last arrival in its slot carries another number on the wire |
| `SeenWindows.FreshExactly` | crates/audio-codec/src/jitter.rs:218-239 | against the unbounded set of unwrapped numbers: on every history inside one window, fresh if and only if never seen and the slot was not last visited a whole number of 16-bit cycles ago; for both ring sizes |
| `SeenWindows.StragglerEvicts` | crates/audio-codec/src/jitter.rs:230-238 | outside the window the agreement fails: 1024, 0, 1024 passes for three first arrivals |
| `SlotBuffer.ShapeFor` | crates/audio-codec/src/jitter.rs:273-290 | the target is the nearest whole number of frames for every target of half a frame or more, and one frame below that; period and frame length are those of the configured duration; ceiling and slots follow |
| `SlotBuffer.New` | crates/audio-codec/src/jitter.rs:292-321 | a new buffer is well formed, all its slots free, nothing counted, its ring empty, with no anchor, no highest sequence number or timestamp, and not drained |
| `SlotBuffer.AllFree` | crates/audio-codec/src/jitter.rs:207-216 | nothing is counted as occupied exactly when every slot is free |
| `SlotBuffer.NoneFree` | crates/audio-codec/src/jitter.rs:476-487 | the occupied count reaches the number of slots exactly when no slot is free |
| `SlotBuffer.UsedAfter` | crates/audio-codec/src/jitter.rs:582-606 | rewriting one slot changes the number of used slots by that slot alone |
| `SlotBuffer.FreeFrom` | crates/audio-codec/src/jitter.rs:582-588 | the slot `store` picks is the first free one |
| `SlotBuffer.HoldingFrom` | crates/audio-codec/src/jitter.rs:597-601 | the slot `take` finds is the first used one with that timestamp |
| `SlotBuffer.OldestIn` | crates/audio-codec/src/jitter.rs:568-580 | the slot `oldest` finds is used and no used slot is less far ahead of the cursor |
| `SlotBuffer.Filled` | crates/audio-codec/src/jitter.rs:588-591 | a stored slot reads back the timestamp and the payload, whatever bytes it held before |
| `SlotBuffer.SkipOldest` | crates/audio-codec/src/jitter.rs:548-566 | a skip frees exactly one slot, or none when none is used |
| `Jitter.JitterBuffer.constructor` | crates/audio-codec/src/jitter.rs:273-321 | construction gives the empty buffer of the sizes computed from rate, frame and target |
| `Jitter.JitterBuffer.Drained` | crates/audio-codec/src/jitter.rs:405-410 | answers what the contents say: occupied is zero and the cursor is past the furthest timestamp |
| `Jitter.JitterBuffer.Push` | crates/audio-codec/src/jitter.rs:416-486 | arrays, ring, cursor and counters become, and the admission is, what the value-level push says, for every packet and instant |
| `Jitter.JitterBuffer.AdmitFrame` | crates/audio-codec/src/jitter.rs:445-485 | the grid, order and deadline tests in the program's order, each with its own counter |
| `Jitter.JitterBuffer.EnqueueFrame` | crates/audio-codec/src/jitter.rs:471-484 | furthest timestamp, slot bound, store, ceiling, in that order |
| `Jitter.JitterBuffer.PullFrame` | crates/audio-codec/src/jitter.rs:494-523 | the new contents, the outcome and the caller's bytes after a pull: a payload over the front of them or nothing |
| `Jitter.JitterBuffer.ServeFrame` | crates/audio-codec/src/jitter.rs:495-515 | frame, conceal or underrun, decided by the slot at the cursor and by what was held |
| `Jitter.JitterBuffer.HoldCeiling` | crates/audio-codec/src/jitter.rs:532-540 | the contents after holding the ceiling |
| `Jitter.JitterBuffer.SkipDown` | crates/audio-codec/src/jitter.rs:537-539 | the skipping loop ends, and computes skipping down to the target |
| `Jitter.JitterBuffer.SkipOldest` | crates/audio-codec/src/jitter.rs:548-566 | the contents after one skip: slot freed, cursor past it, travelled ticks counted |
| `Jitter.JitterBuffer.Oldest` | crates/audio-codec/src/jitter.rs:568-580 | the scan finds the slot the specification names |
| `Jitter.JitterBuffer.StoreFrame` | crates/audio-codec/src/jitter.rs:582-593 | the scan finds a free slot within bounds and fills it alone |
| `Jitter.JitterBuffer.Take` | crates/audio-codec/src/jitter.rs:597-606 | frees the first slot holding the timestamp, or changes nothing |
| `BufferRuns.SkipToTargetCounts` | crates/audio-codec/src/jitter.rs:532-540 | skipping down leaves exactly the target queued and counts every frame given up |
| `BufferRuns.SlotBoundUnreachable` | crates/audio-codec/src/jitter.rs:476-487 | while occupancy holds to the ceiling, the slot-bound branch changes nothing and `store` always finds a slot |
| `BufferRuns.EnqueueCounts` | crates/audio-codec/src/jitter.rs:471-485 | one enqueue either adds one frame or is one overrun that leaves the target and counts ceiling + 1 - target frames |
| `BufferRuns.PushPlaces` | crates/audio-codec/src/jitter.rs:416-486 | for every packet, one push puts it in exactly one place |
| `BufferRuns.PushRemembers` | crates/audio-codec/src/jitter.rs:416-460 | what one push knows and keeps of its packet: a copy if and only if it fits and the ring knows it; the ring keeps every number that fits, the first packet to enter fixes the anchor, and the highest number moves only with a packet on the grid that is not behind it |
| `BufferRuns.PullBalances` | crates/audio-codec/src/jitter.rs:494-523 | a pull moves a frame from queued to played, or counts a concealment, bridged or starved, and touches no other counter but the expected samples; the account is kept |
| `BufferRuns.StepBalances` | crates/audio-codec/src/jitter.rs:416-523 | every call keeps the account and counts itself |
| `BufferRuns.EveryRunBalances` | crates/audio-codec/src/jitter.rs:138-192 | over every run of any packets and pulls: received is oversize + duplicate + off-grid + late + played + skipped + queued; skipped is overruns times (ceiling + 1 - target); occupancy stays at or under the ceiling; played samples are one frame per pull that was no underrun; the saturating subtraction never clips |
| `BufferRuns.UncountedIsBalanced` | crates/audio-codec/src/jitter.rs:306-320 | a new buffer satisfies the account |
| `BufferRuns.ArrivalInstantsDoNotMatter` | crates/audio-codec/src/jitter.rs:412-416 | two runs with the same packets and pulls, at any arrival instants, answer alike at every call and end alike in everything but the playout instant |
| `BufferRuns.PushIgnoresInstants` | crates/audio-codec/src/jitter.rs:416-443 | one push: the same admission and state whatever the instant, but for the playout instant of the first |
| `BufferTallies.PushTallies` | crates/audio-codec/src/jitter.rs:416-469 | for every packet, each refusal moves the counter of its own name and no other; a packet on the grid, in time or late, counts as reordered if and only if its number is behind, and is queued as such |
| `BufferTallies.AnsweredExactly` | crates/audio-codec/src/jitter.rs:62-96 | what every packet is answered, if and only if, in its own tick: too large, then a copy, then off the grid, then late; the packet that anchors the stream is neither of the last two |
| `BufferTallies.CountersAreAnswers` | crates/audio-codec/src/jitter.rs:138-173 | over every run of any packets and pulls, each refusal counter is how often that was the answer, underruns and concealments are the pulls answered so, and all other pulls were played |
| `BufferTallies.AnchorIsFirst` | crates/audio-codec/src/jitter.rs:194-205 | over every run the anchor is the first packet that entered: its timestamp, and its arrival plus the target; nothing later moves it |
| `BufferTallies.RingIsHistory` | crates/audio-codec/src/jitter.rs:218-239 | over every run the ring is the one left by every packet that fitted, whatever became of it, and copies are answered exactly where it knows the number |
| `BufferTallies.ReorderedAreStragglers` | crates/audio-codec/src/jitter.rs:450-460 | over every run within half the sequence range, through the wrap: what is counted as reordered, and queued as such, is exactly what reached the deadline test behind the highest number that had reached it before |
| `Playout.SkipDownKeepsNewest` | crates/audio-codec/src/jitter.rs:525-540 | skipping down keeps exactly the target's newest ticks |
| `Playout.SkipDownMoves` | crates/audio-codec/src/jitter.rs:542-566 | skipping moves the cursor forward along the grid, past everything given up and to no later than anything kept, and counts every tick travelled |
| `Playout.NewestAfterOldest` | crates/audio-codec/src/jitter.rs:542-553 | giving up the oldest frame does not change which are the newest |
| `Playout.HoldKeepsNewest` | crates/audio-codec/src/jitter.rs:525-540 | a breach of the ceiling is one overrun that keeps exactly the target's newest ticks; under the ceiling nothing happens |
| `Playout.HoldMoves` | crates/audio-codec/src/jitter.rs:532-566 | after holding the ceiling every kept frame is on the grid at or past the cursor |
| `Playout.QueueMoves` | crates/audio-codec/src/jitter.rs:471-484 | queueing adds the frame and then at most skips forward; something always stays queued; with no overrun the cursor does not move |
| `Playout.FirstIsQueued` | crates/audio-codec/src/jitter.rs:428-485 | the packet that anchors the stream is always queued, alone |
| `Playout.PushKeepsInv` | crates/audio-codec/src/jitter.rs:416-486 | every arrival keeps the invariant: grid, order, ceiling, and the furthest frame queued or behind the cursor |
| `Playout.PullKeepsInv` | crates/audio-codec/src/jitter.rs:494-523 | every pull keeps it |
| `Playout.DrainedExactly` | crates/audio-codec/src/jitter.rs:398-410 | once anchored, nothing is queued if and only if the cursor has passed the furthest timestamp, so both halves of `drained` agree |
| `Refinement.UnwrapInverts` | crates/transport/src/rtp.rs:86-94 | within half the range, a wrapped timestamp unwraps to the tick it stands for |
| `Refinement.FoundIsQueued` | crates/audio-codec/src/jitter.rs:597-606 | searching the slots by wrapped timestamp finds a slot exactly when the tick is queued, and that slot holds its payload |
| `Refinement.FreeingRepresents` | crates/audio-codec/src/jitter.rs:597-606 | freeing the slot of a tick removes that tick and nothing else |
| `Refinement.FillingRepresents` | crates/audio-codec/src/jitter.rs:582-593 | filling a free slot with a new tick adds that tick and nothing else |
| `Refinement.OldestIsLeast` | crates/audio-codec/src/jitter.rs:568-580 | the slot least far ahead by wrapped distance holds the least queued tick |
| `Refinement.SkipRefines` | crates/audio-codec/src/jitter.rs:548-566 | a skip of the slots is a skip of the timeline |
| `Refinement.SkipDownRefines` | crates/audio-codec/src/jitter.rs:537-539 | so is the whole skipping loop |
| `Refinement.HoldRefines` | crates/audio-codec/src/jitter.rs:532-540 | and holding the ceiling |
| `Refinement.GridAgrees` | crates/audio-codec/src/jitter.rs:445-449 | within 2^31 ticks of the anchor, off-grid is answered exactly for ticks not a whole number of frames away |
| `Refinement.LateAgrees` | crates/audio-codec/src/jitter.rs:462-469 | within 2^31 ticks of the cursor, late is answered exactly for ticks behind it |
| `Refinement.AdmitRefines` | crates/audio-codec/src/jitter.rs:445-485 | the same admission and the same state for a first arrival |
| `Refinement.PushRefines` | crates/audio-codec/src/jitter.rs:416-486 | a push on slots and wrapped timestamps does what the timeline does: same admission, same counters, same contents |
| `Refinement.PullRefines` | crates/audio-codec/src/jitter.rs:494-523 | a pull does too: same outcome, same state |
| `Refinement.DrainedRefines` | crates/audio-codec/src/jitter.rs:405-410 | the wrapped end-of-stream test reads as the unwrapped one |
| `Refinement.NewRefines` | crates/audio-codec/src/jitter.rs:273-321 | a new buffer is the empty timeline |
| `StreamRuns.RunRefines` | crates/audio-codec/src/jitter.rs:416-606 | over every run within half the range: every answer the same, and the slots still represent the timeline, counters included |
| `StreamRuns.NextRefines` | crates/audio-codec/src/jitter.rs:416-523 | one call of such a run |
| `StreamRuns.NewIsUnused` | crates/audio-codec/src/jitter.rs:306-320 | a new buffer beside the empty timeline is where the accounts below start |
| `StreamRuns.ExpectedOverRuns` | crates/audio-codec/src/jitter.rs:517-518 | expected samples grow by one frame per pull plus every tick skipped |
| `StreamRuns.LeadOverRuns` | crates/audio-codec/src/jitter.rs:542-566 | the cursor lags anchor plus expected by exactly the pulls made before the anchor |
| `StreamRuns.CursorAccount` | crates/audio-codec/src/jitter.rs:161-163 | over every fitting run the wrapped cursor is the anchor plus the expected samples, modulo 2^32, less what was pulled before the anchor |
| `StreamRuns.HeardAccount` | crates/audio-codec/src/jitter.rs:165-172 | played samples are one frame for each of played + concealed - underruns, and every pull is one of played or concealed |
| `StreamRuns.ExpectedAccount` | crates/audio-codec/src/jitter.rs:161-163 | expected samples are one frame per pull plus the ticks skipped |
| `StreamRuns.ConcealedAccount` | crates/audio-codec/src/jitter.rs:175-191 | concealed samples are exactly one frame per underrun plus all ticks skipped |
| `StreamRuns.PushMovesClock` | crates/audio-codec/src/jitter.rs:416-486 | an arrival moves the cursor only by an overrun, and the expected samples with it |
| `StreamRuns.PullMeans` | crates/audio-codec/src/jitter.rs:98-119 | a frame is the payload of the cursor's tick; conceal is answered only with a strictly later frame queued; underrun exactly on an empty queue |
| `StreamRuns.PushContents` | crates/audio-codec/src/jitter.rs:471-485 | what an arrival leaves queued was there before or is its own payload under its own tick |
| `StreamRuns.DeliveryStep` | crates/audio-codec/src/jitter.rs:494-566 | in one call a queued tick draws a frame nearer, is handed over on time, or is given up in a counted overrun |
| `StreamRuns.BoundedDelivery` | crates/audio-codec/src/jitter.rs:494-566 | on the timeline, a frame queued `ahead` frames past the cursor is handed over byte for byte at pull `ahead + 1` or sooner, or given up in a counted overrun; with no overrun, at exactly that pull |
| `StreamRuns.DeliveryIsAnswered` | crates/audio-codec/src/jitter.rs:494-566 | the same of the slot buffer's own answers and counters |
| `StreamRuns.SlotIsQueued` | crates/audio-codec/src/jitter.rs:207-216 | and every used slot is such a frame: some whole number of frames past the cursor, holding the payload owed |
| `Limits.RefinesExactly` | crates/audio-codec/src/jitter.rs:423-426 | within half the range a push refines if and only if the ring does not call a copy of a queued frame new |
| `Limits.CopyIsQueued` | crates/audio-codec/src/jitter.rs:423-485 | such a copy is on the grid and not late, so it is stored |
| `Limits.CopyBreaksRefinement` | crates/audio-codec/src/jitter.rs:582-593 | and takes a second slot where the timeline keeps one entry |
| `Limits.StragglerLetsACopyIn` | crates/audio-codec/src/jitter.rs:230-238 | on the timeline, in every stream three arrivals bring it about: a packet, one a window older, the first again |
| `Limits.CopyReachesStuck` | crates/audio-codec/src/jitter.rs:416-523 | on the code's own state: from a new buffer of any shape those three pushes and one pull hand over the frame and leave its copy in a slot behind the cursor |
| `Limits.OneCopyStopsTheEnd` | crates/audio-codec/src/jitter.rs:398-410 | and from there every further pull conceals and the buffer is not drained, for a whole turn of the timestamp |
| `Limits.CopyLeavesStuck` | crates/audio-codec/src/jitter.rs:494-523 | any such copy of the only frame queued is left behind when the frame is handed over |
| `Limits.StaleCopyNeverDrains` | crates/audio-codec/src/jitter.rs:398-410 | with nothing but pulls, each of them conceals and the buffer is not drained, for a whole turn of the timestamp |
| `Limits.StaleSlotNeverDrains` | crates/audio-codec/src/jitter.rs:398-523 | through any run of pulls and arrivals, a slot left behind the cursor keeps the buffer from being drained and every pull from underrunning, until an overrun gives it up or a whole turn has passed |
| `Limits.SkipMovesForwardExactly` | crates/audio-codec/src/jitter.rs:562-564 | a skip moves the cursor forward if and only if the oldest slot is less than a frame behind it |
| `Limits.DistanceLosesTurns` | crates/transport/src/rtp.rs:86-94 | for any two ticks, the wrapped distance is the true one less a whole number of turns |
| `Limits.OnGridExactly` | crates/audio-codec/src/jitter.rs:445-449 | a tick truly on the grid is judged on it if and only if the turns lost are a whole number of frames |
| `Limits.FramesAreFives` | crates/audio-codec/src/config.rs:65-71 | at every rate and duration a frame is a multiple of five samples |
| `Limits.GridFailsPastHalfTheRange` | crates/audio-codec/src/jitter.rs:445-449 | so at every configuration the test fails for every tick on the grid between 2^31 and 2^31 + 2^32 ticks past the anchor |
| `Limits.RefusedPastHalfTheRange` | crates/audio-codec/src/jitter.rs:416-449 | and a push refuses every first arrival there as off the grid, counting it and changing nothing else but the ring |
| `Limits.EmptyIsDrainedExactly` | crates/audio-codec/src/jitter.rs:398-410 | an empty buffer reads as drained if and only if the cursor is past the furthest frame by less than half the range |
| `Packetizer.OpusPacketizer.Next` | crates/transport/src/opus.rs:205-241 | writes or refuses as its three guards say, at the counters it was constructed with or the last write left; a refusal moves neither |
| `Packetizer.WritesExactly` | crates/transport/src/opus.rs:205-223 | a frame is written if and only if it is not empty, not over the limit and 2.5, 5, 10, 20, 40 or 60 ms long at 48 kHz; otherwise it is refused for the first of those it fails |
| `Packetizer.StampsAreAffine` | crates/transport/src/opus.rs:225-240 | through both wraps, the datagram after n others carries start + n and start + n frames, and leaves the counters one further |
| `Spans.Apart` | crates/transport/src/rtp.rs:86-94 | between any two frames of a stream shorter than 2^31 ticks the wrapped distance is the true one, so it orders their places and tells them apart |
| `Spans.SkipPlaces` | crates/audio-codec/src/jitter.rs:548-566 | a skip frees the slot of least place, copies or not, and leaves the cursor one frame past it, wherever the cursor was |
| `Spans.SkipDownLands` | crates/audio-codec/src/jitter.rs:532-566 | skipping down leaves the cursor at or before a place if and only if at least as many used slots lie before it as are given up |
| `Spans.StoredPlaces` | crates/audio-codec/src/jitter.rs:471-483 | a stored frame leaves the furthest timestamp in a used slot |
| `Spans.EnqueueLeads` | crates/audio-codec/src/jitter.rs:471-484 | after the ceiling is held the furthest frame is still in a used slot, and every used slot held what it holds or holds the arrival |
| `Spans.EnqueueLands` | crates/audio-codec/src/jitter.rs:471-484 | where an arrival leaves the cursor, told by the slots before it |
| `Spans.PushLines` | crates/audio-codec/src/jitter.rs:416-486 | any packet of the stream, copy or straggler, with no hypothesis on the ring: the slots hold only what they held and its own payload, and the furthest frame is held or behind the cursor |
| `Spans.TakesExactly` | crates/audio-codec/src/jitter.rs:419-485 | which packets are queued, told by the buffer before them, if and only if; any other leaves slots and cursor alone |
| `Spans.CursorMovesBackExactly` | crates/audio-codec/src/jitter.rs:532-566 | a push moves the cursor back if and only if the packet is queued, the buffer is at its ceiling, and at least ceiling + 1 - target used slots lie more than one frame behind the cursor |
| `Spans.PullServes` | crates/audio-codec/src/jitter.rs:494-523 | on any buffer a pull hands over the payload of a slot that held the cursor's timestamp, and underruns if and only if nothing is held |
| `Spans.PullLines` | crates/audio-codec/src/jitter.rs:494-523 | a pull moves the cursor on by one place and keeps the furthest frame held or behind |
| `Spans.DrainedIsEmpty` | crates/audio-codec/src/jitter.rs:398-410 | on any such buffer, copies or not, drained is exactly an empty buffer |
| `Spans.PushKeepsClear` | crates/audio-codec/src/jitter.rs:416-486 | a first arrival, or a copy the ring refuses, keeps every slot distinct and at or ahead of the cursor, and the cursor from moving back |
| `Probe.InitialInv` | crates/audio-codec/src/jitter_probe.rs:385-399 | the system starts in its invariant |
| `Probe.EmitKeeps` | crates/audio-codec/src/jitter_probe.rs:495-505 | the sender's step keeps the invariant |
| `Probe.DeliverKeeps` | crates/audio-codec/src/jitter_probe.rs:527-567 | a delivery of any sent datagram keeps it, whatever came before and however often |
| `Probe.AskKeeps` | crates/audio-codec/src/jitter_probe.rs:630-636 | the sink's drained test keeps it |
| `Probe.PullKeeps` | crates/audio-codec/src/jitter_probe.rs:644-647 | the sink's pull keeps it, with any pushes in between |
| `Probe.StepKeeps` | crates/audio-codec/src/jitter_probe.rs:405-437 | every enabled step of any thread keeps it; nothing is asked of the network |
| `Probe.PullIsAsSent` | crates/audio-codec/src/jitter_probe.rs:644-659 | the frame a pull hands over is the payload sent for the cursor's place |
| `Probe.HandedAsSent` | crates/audio-codec/src/jitter_probe.rs:474-691 | for every loss, copy and reordering and every interleaving within the horizon: each frame handed over is byte for byte the one sent for its place, none is taken back, and no pull underruns once the sink has read that all was sent |
| `Probe.HistoryIsOfTheRun` | crates/audio-codec/src/jitter_probe.rs:474-691 | what the state remembers is of the run: every frame emitted was sent, every frame a pull answered was handed over for the place of the cursor, and final pulls and underruns are counted one by one |
| `Probe.FinalPullsAreServed` | crates/audio-codec/src/jitter_probe.rs:626-659 | so of all pulls of any run, none made after the sink saw the sender finish answers underrun |
| `Probe.EndIsSeen` | crates/audio-codec/src/jitter_probe.rs:626-634 | the sender has finished exactly when its last step was taken, and the sink has seen it exactly when it read so afterwards |
| `Probe.SinkRereads` | crates/audio-codec/src/jitter_probe.rs:602-647 | over every run the sink reads `sent_all` before its first pull and again between any two |
| `Probe.MovesBackExactly` | crates/audio-codec/src/jitter.rs:532-566 | in every reachable state, which arrivals move the cursor back, if and only if, told by the buffer before them |
| `Probe.HandedInOrder` | crates/audio-codec/src/jitter_probe.rs:474-691 | over every interleaving in which no arrival moves the cursor back: the sink is handed each frame at most once, in the order sent |
| `Probe.StepKeepsPace` | crates/audio-codec/src/jitter_probe.rs:626-647 | a pull made after the end was seen, with a frame at or ahead of the cursor, is one of at most as many as there are frames |
| `Probe.StepCountsDown` | crates/audio-codec/src/jitter_probe.rs:626-647 | each step taken after that brings the sink nearer its end, whatever the other threads do |
| `Probe.CleanFinish` | crates/audio-codec/src/jitter_probe.rs:626-647 | over every interleaving in which moreover no final pull finds only copies left behind: no underrun, at most as many more pulls as there are frames, and at most three sink steps for each, plus two |
| `Probe.SinkNeverStuck` | crates/audio-codec/src/jitter_probe.rs:602-636 | until it is done the sink has a step to take if and only if it is not about to pull past the horizon, once any publication under way is made; the horizon never holds it while a frame is at or ahead of the cursor |
| `Probe.DoneMeansDrained` | crates/audio-codec/src/jitter_probe.rs:630-636 | in every reachable state the sink stops if and only if the buffer is empty |
| `Networks.ToldApartExactly` | crates/audio-codec/src/jitter.rs:230-238 | in a stream of at most 2^16 packets the ring calls no copy of a packet new if and only if that packet is the latest arrival of its class modulo 1024 |
| `Networks.FreshIsNew` | crates/audio-codec/src/jitter.rs:423-426 | packetiser and ring together: over any history in which packets are told apart so, what the ring calls new has not arrived before |
| `Networks.NoCopiesAreToldApart` | crates/audio-codec/src/jitter.rs:50-61 | a network that copies nothing tells packets apart, however late and disordered |
| `Networks.WindowIsToldApart` | crates/audio-codec/src/jitter.rs:50-61 | so does one that stays inside the window, with any number of copies |
| `Networks.PromptCopyIsToldApart` | crates/audio-codec/src/jitter.rs:50-61 | so is every copy that comes before another packet of its class |
| `Networks.StepIsTidy` | crates/audio-codec/src/jitter_probe.rs:527-567 | on such a network no two slots hold one frame, none is behind the cursor, and no arrival moves the cursor back |
| `Networks.ToldApartIsSteady` | crates/audio-codec/src/jitter_probe.rs:405-437 | so every run over it meets the conditions for order and for the end |
| `Networks.EndToEnd` | crates/audio-codec/src/jitter_probe.rs:474-691 | end to end over every such network: frames byte for byte as sent, each at most once, in the order sent, and no underrun once the sink has seen the sender finish |
| `Networks.EndIsReached` | crates/audio-codec/src/jitter_probe.rs:626-647 | and the sink then pulls at most once per frame, takes at most three steps for each plus two, and is never held by the horizon |
| `Networks.StartsTidy` | crates/audio-codec/src/jitter_probe.rs:385-399 | the start of every run is a state both hold from |
| `Disorder.OrderFails` | crates/audio-codec/src/jitter.rs:416-566 | from a new buffer at every configuration that targets two frames, a run whose answers are frame 0, a gap, frame 2, frame 1, frame 2 again: order and at most once both fail |
| `Disorder.OverrunGoesBack` | crates/audio-codec/src/jitter.rs:532-566 | in it, an overrun of stale copies takes the cursor back two frames |
| `Disorder.ScenesExist` | crates/audio-codec/src/jitter.rs:273-290 | ten milliseconds of 5 ms frames is such a configuration at every sample rate |
| `LinkMetrics.Delivery.Completed` | crates/link-metrics/src/lib.rs:107-269 | the whole state after a completion, through the marking of the series, the crossings, the stall, the catch-up and its closing |
| `LinkMetrics.Delivery.CountCrossings` | crates/link-metrics/src/lib.rs:240-245 | the loop counts each crossed threshold once in both tails |
| `LinkMetrics.Delivery.Take` | crates/link-metrics/src/lib.rs:284-314 | the window reported and the state left |
| `LinkMetrics.Quick` | crates/link-metrics/src/lib.rs:262-267 | the length of the leading stretch of intervals under the period, and that it is maximal |
| `LinkMetrics.CrossesExactly` | crates/link-metrics/src/lib.rs:49-59 | the integer tests are 1.25, 1.5, 2, 3, 4 and 6 times the period, each reached at exactly that multiple, and a stall is twice the period |
| `LinkMetrics.StreamCreditsBlocks` | crates/link-metrics/src/lib.rs:247-268 | from any open catch-up, the stream credits exactly the closed blocks of the run |
| `LinkMetrics.StreamEqualsBatch` | crates/link-metrics/src/lib.rs:247-268 | from new, clusters, total and largest catch-up are the number, the sum and the largest of the closed stall-then-catch-up blocks |
| `LinkMetrics.CreditedFigures` | crates/link-metrics/src/lib.rs:325-329 | closing blocks one after another adds their number, their sum and their largest |
| `LinkMetrics.StreamCountsCrossings` | crates/link-metrics/src/lib.rs:240-245 | each threshold's count is the number of intervals that reach it |
| `LinkMetrics.StartsBounded` | crates/link-metrics/src/lib.rs:197-214 | a new delivery satisfies the bounds |
| `LinkMetrics.EveryRunIsBounded` | crates/link-metrics/src/lib.rs:124-138 | over every run: counts do not increase from one threshold to the next, clusters plus an open catch-up are at most the crossings of twice the period, and the largest catch-up is at most the total |
| `LinkMetrics.CompletionPartitions` | crates/link-metrics/src/lib.rs:229-269 | one completion keeps the windows and the open one adding up to the cumulative figures |
| `LinkMetrics.TakingPartitions` | crates/link-metrics/src/lib.rs:285-314 | so does taking a window, wherever it cuts a catch-up |
| `LinkMetrics.WindowsPartition` | crates/link-metrics/src/lib.rs:229-314 | over every interleaving on non-decreasing instants: crossings, clusters, totals, gaps, intervals and spans summed over windows and the open one are the cumulative ones, and windowed deliveries sum to one less |
| `LinkMetrics.NewPartitions` | crates/link-metrics/src/lib.rs:197-214 | a new delivery satisfies the partition |
| `LinkMetrics.WindowsSumToCumulative` | crates/link-metrics/src/lib.rs:271-314 | read through the two calls: every window taken, and one taken now, add up to the cumulative figures, one completion short |
| `LinkMetrics.CompletionReads` | crates/link-metrics/src/lib.rs:107-269 | one completion adds to everything kept exactly what its instant says: its interval, clipped; the gap from the last stall if it is one; the tail; and the span |
| `LinkMetrics.RunReads` | crates/link-metrics/src/lib.rs:107-330 | over every run from any state, both cadences, the stall gaps, the tail and the span depend on the instants alone, however windows cut them |
| `LinkMetrics.TailIsBatch` | crates/link-metrics/src/lib.rs:240-330 | the tail of any run of intervals, from any open catch-up, is the batch reading of it |
| `LinkMetrics.DeliveryEqualsBatch` | crates/link-metrics/src/lib.rs:107-330 | from new, over every interleaving of completions, openings and windows and on any clock, every cumulative figure is the batch reading of the instants: units, clipped intervals of both cadences, span, crossings, catch-ups, and the gaps between consecutive stalls |
| `LinkMetrics.WindowIsOwnRun` | crates/link-metrics/src/lib.rs:229-314 | what a window holds is what its own events would leave in a stream of their own |
| `LinkMetrics.WindowEqualsBatch` | crates/link-metrics/src/lib.rs:283-314 | so every window is the batch reading of its own instants, beside the open catch-up, the last stall and the last marks before it |
| `LinkMetrics.WindowsOpen` | crates/link-metrics/src/lib.rs:307-312 | a new delivery and every window taken leave the next window in that state |
| `RtpProbe.VerifyLedger.Check` | crates/audio-codec/src/rtp_probe.rs:206-230 | the scan claims the first entry under the number and leaves all others in order |
| `RtpProbe.RecordsKeepNewest` | crates/audio-codec/src/rtp_probe.rs:215-221 | with nothing claimed, the ledger holds the newest 1024 records in the order they were made |
| `RtpProbe.ClaimedOnce` | crates/audio-codec/src/rtp_probe.rs:191-201 | with numbers distinct: the first arrival is compared with what was sent under it, a second finds nothing, no other entry is touched |
| `RtpProbe.IntactVerifies` | crates/audio-codec/src/rtp_probe.rs:223-230 | a claim made straight after the record verifies an intact payload if and only if no entry left under its number comes first with another digest |
| `RtpProbe.LostEntryLingers` | crates/audio-codec/src/rtp_probe.rs:215-221 | the entry of a lost packet is never aged out while what follows is claimed |
| `RtpProbe.LostPacketMismatchesItsSuccessor` | crates/audio-codec/src/rtp_probe.rs:223-230 | so a cycle of 2^16 packets after one loss an intact payload is reported mismatched |
| `RtpProbe.Receiver.Receive` | crates/audio-codec/src/rtp_probe.rs:695-858 | from a zero report the loop takes every datagram in order: each turn classifies, checks, pairs and decodes as the specification says |
| `RtpProbe.InitialIdentities` | crates/audio-codec/src/rtp_probe.rs:695-724 | the identities hold before any datagram |
| `RtpProbe.TakeKeepsIdentities` | crates/audio-codec/src/rtp_probe.rs:786-857 | each datagram keeps them |
| `RtpProbe.IdentitiesOverRuns` | crates/audio-codec/src/rtp_probe.rs:786-857 | over every history: each datagram in one class; packets are the first, the pairs and the reordered; decoded plus failed, and verified plus mismatched plus unverifiable, sum to packets |
| `RtpProbe.VerifyCounts` | crates/audio-codec/src/rtp_probe.rs:255-270 | every check lands in exactly one of the three outcomes |
| `RtpProbe.LossTelescopes` | crates/audio-codec/src/rtp_probe.rs:821-843 | missing plus pairs is highest minus first number, so packets + missing is the span counted inclusively plus the reordered, over every history whose accepted packets stay within half the sequence range |
| `RtpProbe.MissingAgainstA3` | crates/audio-codec/src/rtp_probe.rs:833 | against Appendix A.3 of RFC 3550: the probe's missing exceeds expected less received by the duplicates and the reordered |
| `RtpProbe.StartsInStep` | crates/audio-codec/src/rtp_probe.rs:695-748 | a new receiver is where the span and the timestamp theorems start |
| `RtpProbe.NetworkCannotBreakTimestamps` | crates/audio-codec/src/rtp_probe.rs:801-843 | with the clock of the accepted packets affine, every loss, copy and reordering that keeps each accepted packet within 2^15 of the highest leaves every pair exact, through both wraps, whatever else the port hears |
| `RtpProbe.PairStaysInStep` | crates/audio-codec/src/rtp_probe.rs:824-830 | one pair: exact whatever the gap |
| `RtpProbe.PacketsAreDistinct` | crates/audio-codec/src/rtp_probe.rs:801-814 | of the stream expected, or with none expected the first one heard, staying within one window, the packets counted are the distinct ones and the duplicates all the rest, whatever else the port hears |
| `RtpReadings.PairReads` | crates/audio-codec/src/rtp_probe.rs:821-843 | one packet against the last that moved the stream on, on their true places: ahead it is a pair, exact if and only if its clock moved by its whole frames, a gap if and only if a number was passed over; otherwise it is reordered and moves nothing |
| `RtpReadings.TakeSorts` | crates/audio-codec/src/rtp_probe.rs:784-857 | every datagram moves the figure of its own kind and no other: the parser's three refusals, foreign, copy or packet, decoded or not, and the bytes |
| `RtpReadings.FiguresAreKinds` | crates/audio-codec/src/rtp_probe.rs:784-857 | over every run each figure is how many datagrams were of its kind, and among the packets taken how many decode |
| `RtpReadings.ForeignAreStrangers` | crates/audio-codec/src/rtp_probe.rs:801-808 | and the foreign ones are all packets of any stream but the one expected, or with none expected the first heard |
| `RtpReadings.PairsAreRecords` | crates/audio-codec/src/rtp_probe.rs:821-843 | over every run whose packets stay near the furthest before them: pairs are the packets further on than any before, exact ones those whose clock moved by their whole frames, gaps those that passed over a number, missing the numbers passed over, reordered all the rest |
| `RtpReadings.ClockIsChecked` | crates/audio-codec/src/rtp_probe.rs:824-830 | every pair reads exact if and only if every packet further on than all before moved the clock by exactly its frames: a bad clock is caught |
| `RtpReadings.ReportIsRead` | crates/audio-codec/src/rtp_probe.rs:695-857 | the whole report of a new receiver, each figure read off what it heard |
| `VerificationRuns.ClaimExactly` | crates/audio-codec/src/rtp_probe.rs:223-230 | a claim of an unharmed payload is a mismatch if and only if the first live entry the 16-bit counter cannot tell from it was sent with another payload, and answers nothing if and only if there is none |
| `VerificationRuns.TurnStands` | crates/audio-codec/src/rtp_probe.rs:645-819 | one record or one arrival keeps the ledger a mirror of what was sent, and moves each of the three verdicts exactly as that says |
| `VerificationRuns.MismatchesAreClashes` | crates/audio-codec/src/rtp_probe.rs:645-819 | over every interleaving of records and arrivals, any loss, copies and reordering, and a stream of any length: the mismatches reported of unharmed payloads are exactly the arrivals that clash so |
| `VerificationRuns.IntactIsNeverMismatched` | crates/audio-codec/src/rtp_probe.rs:645-819 | so none is reported while the entries left are of the arriving packet's own 16-bit cycle |
| `VerificationRuns.OneCycleVerifies` | crates/audio-codec/src/rtp_probe.rs:645-819 | and none over any run of at most 2^16 packets |
| `Sender.SplitPacket` | crates/audio-codec/src/e2e_sender.rs:93-105 | whole frames and residue make up the packet, and the residue is less than a frame; a zero frame length is all residue |
| `Sender.WithinPacket` | crates/audio-codec/src/e2e_sender.rs:410-417 | every slice taken of a packet is within its samples |
| `Sender.WholeFramesFit` | crates/audio-codec/src/e2e_sender.rs:407-417 | the whole frames of a described packet are within its samples |
| `Sender.Carrier.Carry` | crates/audio-codec/src/e2e_sender.rs:379-473 | the loop over a packet's frames leaves the state the specification says, for every outcome of encoder, packetiser and socket |
| `Sender.InitialConserves` | crates/audio-codec/src/e2e_sender.rs:345-348 | conservation holds at the start, and so does the clock |
| `Sender.AttemptConserves` | crates/audio-codec/src/e2e_sender.rs:419-471 | one frame moves from owed to encoded or failed, and once encoded to sent or failed |
| `Sender.CarryConserves` | crates/audio-codec/src/e2e_sender.rs:379-473 | one packet conserves, silent, unreadable and failing ones included |
| `Sender.EveryRunConserves` | crates/audio-codec/src/e2e_sender.rs:379-473 | over every run: captured frames are frame length times (encoded + encode failures) plus residue plus unreadable; encoded are sent plus failed; the counters are the start plus the steps, all exact |
| `Sender.EveryRunIsClocked` | crates/audio-codec/src/e2e_sender.rs:434-456 | every datagram the socket took carries its own place in the stream, in order, through both wraps |
| `Sender.AdvanceIsChecked` | crates/audio-codec/src/e2e_sender.rs:450-456 | whatever a write did to the counter, its step counts as exact if and only if it moved the sample clock by exactly a frame |
| `Sender.AttemptIsCounted` | crates/audio-codec/src/e2e_sender.rs:419-471 | one frame: an encode failure, or an encoded frame that made a datagram or not and left or not, is counted as that and nothing else |
| `Sender.CountersAreOutcomes` | crates/audio-codec/src/e2e_sender.rs:379-473 | over every run, every counter past the split is how many attempts ended so, and the payloads on the wire are exactly those that left, in order |
| `Sender.SplitIsCounted` | crates/audio-codec/src/e2e_sender.rs:379-407 | over every run, captured, residue and unreadable frames and packets are those of the packets captured |
| `Sender.RunIsReported` | crates/audio-codec/src/e2e_sender.rs:179-218 | so from the start every counter of a run is read off what was captured and what became of each frame |
| `Sender.DisagreementIsWhatWasLost` | crates/audio-codec/src/e2e_sender.rs:566-581 | over every run the disagreement is a frame for each attempt that failed to encode, the residues and the unreadable frames, and zero if and only if there were none |
| `Sender.EncoderIsHanded` | crates/audio-codec/src/e2e_sender.rs:410-420 | the encoder is handed the packet's frames in order |
| `Sender.FramesRejoin` | crates/audio-codec/src/e2e_sender.rs:412-414 | the frames put end to end are the samples from the first on |
| `Sender.SplitHandsOverThePacket` | crates/audio-codec/src/e2e_sender.rs:407-420 | so what the encoder is handed, joined, is the packet up to its residue: nothing lost, nothing repeated |
| `Sender.SilenceIsHandedOver` | crates/audio-codec/src/e2e_sender.rs:386-417 | a silent packet is as many whole frames of zeroes, whatever its bytes |
| `BigEndian.Writes64` | crates/input-protocol/src/lib.rs:472-473 | an integer read at a place and written back is the bytes that were there |
| `BigEndian.Writes32` | crates/input-protocol/src/lib.rs:471-472 | the same of 32 bits |
| `BigEndian.WritersAreBig` | crates/input-protocol/src/lib.rs:471-542 | every field is written as its low bytes, most significant first, in two's complement when negative |
| `KeyBits.KeyBitset.constructor` | crates/input-protocol/src/lib.rs:226 | an empty bitset holds no key |
| `KeyBits.KeyBitset.Set` | crates/input-protocol/src/lib.rs:228-236 | exactly that key is added or removed |
| `KeyBits.KeyBitset.Contains` | crates/input-protocol/src/lib.rs:238-240 | answers membership, both ways |
| `KeyBits.KeyBitset.IsEmpty` | crates/input-protocol/src/lib.rs:242-244 | answers true if and only if no key is held |
| `KeyBits.KeyBitset.List` | crates/input-protocol/src/lib.rs:246-248 | every held key once, in ascending order |
| `KeyBits.CodesAreBits` | crates/input-protocol/src/lib.rs:228-240 | a key is bit `code % 8`, from the low end, of byte `code / 8` |
| `KeyBits.OneKey` | crates/input-protocol/src/lib.rs:228-236 | rewriting one bit of one byte presses or releases one key and no other |
| `KeyBits.SetBit` | crates/input-protocol/src/lib.rs:231-232 | setting a bit changes that bit alone |
| `KeyBits.ClearBit` | crates/input-protocol/src/lib.rs:233-235 | clearing a bit changes that bit alone |
| `KeyBits.CodesDecide` | crates/input-protocol/src/lib.rs:250-256 | two bitsets hold the same keys if and only if they are the same bytes |
| `InputWire.IndexMapsInvert` | crates/input-protocol/src/lib.rs:99-160 | each index map inverts the other, in the stated order, and accepts exactly 0-4 and 0-8 |
| `InputWire.Encode` | crates/input-protocol/src/lib.rs:462-552 | a buffer too small is left untouched; otherwise its front is the encoding and the rest is as it was |
| `InputWire.PutMessage` | crates/input-protocol/src/lib.rs:475-550 | the payload is written in place and nothing around it changes |
| `InputWire.PutPad` | crates/input-protocol/src/lib.rs:530-542 | the eleven fields of a gamepad state, each in its place |
| `InputWire.Encoded` | crates/input-protocol/src/lib.rs:45-46 | no encoding is longer than the stated largest datagram |
| `InputRoundTrip.MessageRoundTrip` | crates/input-protocol/src/lib.rs:589-711 | every message decodes from its own payload |
| `InputRoundTrip.PadRoundTrip` | crates/input-protocol/src/lib.rs:680-697 | a gamepad state survives, sticks and triggers included |
| `InputRoundTrip.KeyRoundTrip` | crates/input-protocol/src/lib.rs:610-620 | a key survives with both its flags |
| `InputRoundTrip.TrailingIsIgnored` | crates/input-protocol/src/lib.rs:577-588 | bytes past the payload never reach the message |
| `InputRoundTrip.RoundTrip` | crates/input-protocol/src/lib.rs:570-723 | every datagram survives the wire, whatever follows it in the buffer |
| `InputRoundTrip.EveryPrefixIsRefused` | crates/input-protocol/src/lib.rs:571-582 | every proper prefix is refused, and the error says how much was there |
| `InputRoundTrip.AcceptedExactly` | crates/input-protocol/src/lib.rs:570-711 | which bytes are accepted, if and only if |
| `InputRoundTrip.RefusedExactly` | crates/input-protocol/src/lib.rs:570-711 | and what each refusal names, if and only if |
| `InputRoundTrip.Layout` | crates/input-protocol/src/lib.rs:462-552 | what is on the wire, byte for byte: version, the message's number, two zeroes, session, sequence, clock and the message's own fields |
| `InputRoundTrip.MessageWrites` | crates/input-protocol/src/lib.rs:475-550 | a decoded message written again is the payload it came from, its flag byte reduced |
| `InputRoundTrip.ReencodesCanonically` | crates/input-protocol/src/lib.rs:462-552 | re-encoding whatever was accepted gives its normal form |
| `InputRoundTrip.CanonicalMeansTheSame` | crates/input-protocol/src/lib.rs:570-723 | the normal form is accepted, means the same datagram and is its own normal form |
| `InputRoundTrip.NormalFormsDecide` | crates/input-protocol/src/lib.rs:570-723 | two accepted inputs carry the same datagram if and only if their normal forms agree |
| `InputRoundTrip.ReencodesExactly` | crates/input-protocol/src/lib.rs:462-552 | re-encoding reproduces the bytes if and only if nothing trails, the reserved bytes are zero and the flag byte has no spare bits |
| `InputRoundTrip.ReliableCarriesItsId` | crates/input-protocol/src/lib.rs:351-380 | a message is retransmitted if and only if it carries an event id, which are the messages numbered 2, 3, 4, 6, 9 and 10, and that id is the first eight bytes of its payload |

## Left out

- Probe.HandedInOrder: order is not claimed of runs in which an arrival moves the cursor back; in such a run it can fail, and so can at most once (`Disorder.OrderFails`). What the sink is handed is then still byte for byte as sent (`Probe.HandedAsSent`).
- Probe.CleanFinish: the bound on pulls is not claimed of runs whose final pulls find only copies left behind the cursor; the buffer may then conceal for a whole turn of the timestamp (`Limits.OneCopyStopsTheEnd`). It bounds the sink's own steps; that the scheduler keeps giving it turns is not modelled.
- Probe.SinkNeverStuck: a sink with nothing at or ahead of the cursor can be held by the horizon, which is a hypothesis and not in the code.
- StreamRuns.RunRefines: nothing is claimed of the timeline once a stream leaves half its range; `Limits` says what the slots do there.
- Playout.Push: keeps the sequence numbers and the ring at 16 bits as the buffer does, so `reordered` is the wrapped comparison and not an unwrapped one.
- LinkMetrics.WindowsPartition: completions are taken in non-decreasing instants; a clock that runs backwards closes no interval and its span reads as zero.
- RtpProbe.NetworkCannotBreakTimestamps: frame lengths up to 2880 samples, the longest the packetiser accepts.
- InputWire.KeyFlags: bitwise `or` and `and` on the two flag bits are written as sums and remainders; `KeyBits` uses bit vectors.
- Atomics are sequentially consistent steps; the program's relaxed loads of `sent_all` and `stop` may see a store later, which is one more interleaving of the same steps.
- The receiver's stop flag, its socket timeout and what follows the sink's exit in `run`: thread shutdown.
- Playout waiting, pacing and deadlines: a step may be taken whenever it is enabled, so every pacing is covered and none is preferred.
- Opus encoding and decoding, resampling and concealment: an encoder's or decoder's success and output are inputs.
- Sockets, clocks and SHA-256: arrivals, instants and digests are inputs; a failed send is a datagram that never arrives.
- The RTP header's bytes: a datagram is its sequence number, timestamp, SSRC and payload, or one of the parser's refusals.
- Histograms are multisets of clipped values, so the three-digit rounding of recorded values and the percentiles are not modelled; a zero interval is recorded as zero.
- Multiples of the period are exact fractions, so the rounding of the floating-point product is not modelled.
- Tone analysis, reports, verdicts and JSON text: formatting and short case analyses.
- `EventId::next`, `Button::mask`, gamepad neutral states: one-line members.
- The acknowledgement and retransmission protocol described beside the input format: its client and host are not part of this model.
