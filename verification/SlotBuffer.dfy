/**
 The jitter buffer as a value: an unordered sequence of slots, a 32-bit cursor,
 and the counters. Each function is what one call does to that value, for every
 packet whatsoever, with timestamps left wrapped as they are on the wire.
 */
module SlotBuffer {
  import opened Wrappers
  import opened Wrap
  import opened SeenWindows

  const MAX_OPUS_PAYLOAD := 1188
  const SEEN_WINDOW := 1024

  datatype FrameDuration = Ms5 | Ms10 | Ms20 | Ms40 | Ms60 {
    function Millis(): nat {
      match this
      case Ms5 => 5
      case Ms10 => 10
      case Ms20 => 20
      case Ms40 => 40
      case Ms60 => 60
    }
  }

  type SampleRate = rate: nat | rate in {8000, 12000, 16000, 24000, 48000} witness 48000

  /** The sizes fixed at construction. */
  datatype Shape = Shape(frameSamples: uint32, framePeriod: nat, targetFrames: nat, ceilingFrames: nat) {
    predicate Valid() {
      && 0 < frameSamples < HALF32
      && 0 < framePeriod
      && 1 <= targetFrames
      && ceilingFrames == Max(3 * targetFrames, targetFrames + 4)
    }

    function Target(): nat {
      framePeriod * targetFrames
    }
  }

  /** A target in nanoseconds, rounded to the nearest whole frame and at least one. */
  function ShapeFor(rate: SampleRate, frame: FrameDuration, target: nat): (shape: Shape)
    ensures shape.Valid()
    ensures shape.framePeriod == frame.Millis() * 1_000_000
    ensures shape.frameSamples * 1000 == rate * frame.Millis()
    ensures 2 * target < shape.framePeriod ==> shape.targetFrames == 1
    ensures 2 * target >= shape.framePeriod ==>
      2 * shape.Target() <= 2 * target + shape.framePeriod < 2 * shape.Target() + 2 * shape.framePeriod
  {
    var period := frame.Millis() * 1_000_000;
    var whole := (target + period / 2) / period;
    assert period * whole <= target + period / 2 < period * whole + period;
    var frames := Max(whole, 1);
    Shape(rate * frame.Millis() / 1000, period, frames, Max(3 * frames, frames + 4))
  }

  datatype Packet = Packet(sequence: uint16, timestamp: uint32, payload: seq<uint8>)

  datatype Admission = Queued(reordered: bool) | Duplicate | Late | OffGrid | Oversize

  datatype Outcome = Frame(payload: seq<uint8>) | Conceal | Underrun

  datatype Anchor = Anchor(rtp: uint32, playout: nat)

  datatype Slot = Slot(timestamp: uint32, len: nat, bytes: seq<uint8>) {
    predicate Valid() {
      len <= |bytes| == MAX_OPUS_PAYLOAD
    }

    predicate Free() {
      len == 0
    }

    function Payload(): seq<uint8>
      requires Valid()
    {
      bytes[..len]
    }
  }

  datatype Counts = Counts(
    received: nat, late: nat, duplicate: nat, reordered: nat, offGrid: nat, oversize: nat,
    played: nat, concealed: nat, underruns: nat, overruns: nat, overrunFrames: nat,
    expectedSamples: nat, playedSamples: nat)
  {
    /** What was expected and not played, saturating at none. */
    function ConcealedSamples(): (n: nat)
      ensures n + playedSamples == Max(playedSamples, expectedSamples)
    {
      if playedSamples <= expectedSamples then expectedSamples - playedSamples else 0
    }

    /** Frame periods of this stream's audio the sink was handed, decoded or bridged. */
    function Heard(): int {
      played + concealed - underruns
    }

    function Receive(): Counts {
      this.(received := received + 1)
    }

    function Refuse(why: Admission): Counts {
      match why
      case Oversize => this.(oversize := oversize + 1)
      case Duplicate => this.(duplicate := duplicate + 1)
      case OffGrid => this.(offGrid := offGrid + 1)
      case Late => this.(late := late + 1)
      case Queued(_) => this
    }

    function Reorder(): Counts {
      this.(reordered := reordered + 1)
    }

    function Overrun(): Counts {
      this.(overruns := overruns + 1)
    }

    function Skip(travelled: nat): Counts {
      this.(overrunFrames := overrunFrames + 1, expectedSamples := expectedSamples + travelled)
    }

    function Play(samples: nat): Counts {
      this.(played := played + 1, playedSamples := playedSamples + samples)
    }

    function Bridge(samples: nat): Counts {
      this.(concealed := concealed + 1, playedSamples := playedSamples + samples)
    }

    function Starve(): Counts {
      this.(concealed := concealed + 1, underruns := underruns + 1)
    }

    function Expect(samples: nat): Counts {
      this.(expectedSamples := expectedSamples + samples)
    }
  }

  const ZERO := Counts(0, 0, 0, 0, 0, 0, 0, 0, 0, 0, 0, 0, 0)

  function Used(slots: seq<Slot>): (n: nat) {
    if slots == [] then 0
    else Used(slots[..|slots| - 1]) + if slots[|slots| - 1].Free() then 0 else 1
  }

  datatype Buffer = Buffer(
    shape: Shape, slots: seq<Slot>, occupied: nat, anchor: Option<Anchor>, cursor: uint32,
    highestSequence: Option<uint16>, highestTimestamp: Option<uint32>, seen: Ring, counts: Counts)
  {
    predicate Valid() {
      && shape.Valid()
      && |slots| == shape.ceilingFrames + 2
      && (forall i | 0 <= i < |slots| :: slots[i].Valid())
      && occupied == Used(slots)
      && |seen| == SEEN_WINDOW
    }

    predicate Drained() {
      match highestTimestamp
      case None => false
      case Some(highest) => occupied == 0 && Distance32(cursor, highest) > 0
    }
  }

  const EMPTY_SLOT: Slot := Slot(0, 0, seq(MAX_OPUS_PAYLOAD, _ => 0))

  lemma {:induction false} AllFree(slots: seq<Slot>)
    ensures Used(slots) == 0 <==> forall i | 0 <= i < |slots| :: slots[i].Free()
  {
    if slots != [] {
      AllFree(slots[..|slots| - 1]);
      assert forall i | 0 <= i < |slots| - 1 :: slots[..|slots| - 1][i] == slots[i];
    }
  }

  function New(shape: Shape): (b: Buffer)
    requires shape.Valid()
    ensures b.Valid() && b.shape == shape && b.anchor.None? && !b.Drained()
    ensures b.highestSequence.None? && b.highestTimestamp.None? && b.seen == Empty(SEEN_WINDOW)
    ensures b.occupied == 0 && b.counts == ZERO && forall i | 0 <= i < |b.slots| :: b.slots[i].Free()
  {
    var slots := seq(shape.ceilingFrames + 2, _ => EMPTY_SLOT);
    AllFree(slots);
    Buffer(shape, slots, 0, None, 0, None, None, Empty(SEEN_WINDOW), ZERO)
  }

  // Slots

  lemma {:induction false} NoneFree(slots: seq<Slot>)
    ensures Used(slots) <= |slots|
    ensures Used(slots) == |slots| <==> forall i | 0 <= i < |slots| :: !slots[i].Free()
  {
    if slots != [] {
      NoneFree(slots[..|slots| - 1]);
      assert forall i | 0 <= i < |slots| - 1 :: slots[..|slots| - 1][i] == slots[i];
    }
  }

  lemma {:induction false} UsedAfter(slots: seq<Slot>, i: nat, slot: Slot)
    requires i < |slots|
    ensures Used(slots[i := slot])
         == Used(slots) - (if slots[i].Free() then 0 else 1) + if slot.Free() then 0 else 1
  {
    var n := |slots| - 1;
    if i < n {
      assert slots[i := slot][..n] == slots[..n][i := slot];
      UsedAfter(slots[..n], i, slot);
    } else {
      assert slots[i := slot][..n] == slots[..n];
    }
  }

  /** The first free slot at or after `i`, or the length when there is none. */
  function FreeFrom(slots: seq<Slot>, i: nat): (r: nat)
    requires i <= |slots|
    ensures i <= r <= |slots|
    ensures r < |slots| ==> slots[r].Free()
    ensures forall j | i <= j < r :: !slots[j].Free()
    decreases |slots| - i
  {
    if i == |slots| || slots[i].Free() then i else FreeFrom(slots, i + 1)
  }

  /** The first slot at or after `i` holding `timestamp`, or the length when there is none. */
  function HoldingFrom(slots: seq<Slot>, timestamp: uint32, i: nat): (r: nat)
    requires i <= |slots|
    ensures i <= r <= |slots|
    ensures r < |slots| ==> !slots[r].Free() && slots[r].timestamp == timestamp
    ensures forall j | i <= j < r :: slots[j].Free() || slots[j].timestamp != timestamp
    decreases |slots| - i
  {
    if i == |slots| || (!slots[i].Free() && slots[i].timestamp == timestamp) then i
    else HoldingFrom(slots, timestamp, i + 1)
  }

  /** Of the first `n` slots, the used one least far ahead of the cursor. */
  function OldestIn(slots: seq<Slot>, cursor: uint32, n: nat): (best: Option<nat>)
    requires n <= |slots|
    ensures best.None? ==> forall j | 0 <= j < n :: slots[j].Free()
    ensures best.Some? ==> best.value < n && !slots[best.value].Free()
    ensures best.Some? ==> forall j | 0 <= j < n && !slots[j].Free() ::
      Distance32(slots[best.value].timestamp, cursor) <= Distance32(slots[j].timestamp, cursor)
  {
    if n == 0 then None
    else
      var best := OldestIn(slots, cursor, n - 1);
      if slots[n - 1].Free() then best
      else if best.None? || Distance32(slots[n - 1].timestamp, cursor) < Distance32(slots[best.value].timestamp, cursor)
      then Some(n - 1)
      else best
  }

  function Freed(slots: seq<Slot>, i: nat): seq<Slot>
    requires i < |slots|
  {
    slots[i := slots[i].(len := 0)]
  }

  function Filled(slot: Slot, timestamp: uint32, payload: seq<uint8>): (r: Slot)
    requires slot.Valid() && |payload| <= MAX_OPUS_PAYLOAD
    ensures r.Valid() && r.timestamp == timestamp && r.Payload() == payload
  {
    Slot(timestamp, |payload|, payload + slot.bytes[|payload|..])
  }

  /** Frees one used slot. */
  function Vacate(b: Buffer, i: nat): (r: Buffer)
    requires b.Valid() && i < |b.slots| && !b.slots[i].Free()
    ensures r.Valid() && r.occupied == b.occupied - 1
    ensures r == b.(slots := Freed(b.slots, i), occupied := b.occupied - 1)
  {
    UsedAfter(b.slots, i, b.slots[i].(len := 0));
    b.(slots := Freed(b.slots, i), occupied := b.occupied - 1)
  }

  // Skipping

  function SkipOldest(b: Buffer): (r: Buffer)
    requires b.Valid()
    ensures r.Valid() && r.shape == b.shape
    ensures r.occupied == if b.occupied == 0 then 0 else b.occupied - 1
  {
    AllFree(b.slots);
    match OldestIn(b.slots, b.cursor, |b.slots|)
    case None => b
    case Some(oldest) =>
      var timestamp := b.slots[oldest].timestamp;
      var travelled := Max(Distance32(timestamp, b.cursor), 0) + b.shape.frameSamples;
      Vacate(b, oldest).(
         cursor := Wrap32(timestamp + b.shape.frameSamples),
         counts := b.counts.Skip(travelled))
  }

  function SkipToTarget(b: Buffer): (r: Buffer)
    requires b.Valid()
    ensures r.Valid() && r.shape == b.shape
    decreases b.occupied
  {
    if b.occupied > b.shape.targetFrames then SkipToTarget(SkipOldest(b)) else b
  }

  function HoldCeiling(b: Buffer): (r: Buffer)
    requires b.Valid()
    ensures r.Valid() && r.shape == b.shape
  {
    if b.occupied <= b.shape.ceilingFrames then b else SkipToTarget(Overrun(b))
  }

  function Overrun(b: Buffer): Buffer {
    b.(counts := b.counts.Overrun())
  }

  // One arriving packet

  function Store(b: Buffer, timestamp: uint32, payload: seq<uint8>): (r: Buffer)
    requires b.Valid() && b.occupied < |b.slots| && 0 < |payload| <= MAX_OPUS_PAYLOAD
    ensures r.Valid() && r.shape == b.shape && r.occupied == b.occupied + 1
  {
    NoneFree(b.slots);
    var free := FreeFrom(b.slots, 0);
    var filled := Filled(b.slots[free], timestamp, payload);
    UsedAfter(b.slots, free, filled);
    b.(slots := b.slots[free := filled], occupied := b.occupied + 1)
  }

  function Received(b: Buffer): (r: Buffer) {
    b.(counts := b.counts.Receive())
  }

  /** The first accepted packet fixes the anchor, and no later one moves it. */
  function Anchored(b: Buffer, timestamp: uint32, at: nat): (r: Buffer)
    ensures b.Valid() ==> r.Valid()
    ensures r.anchor.Some? && r.shape == b.shape
  {
    if b.anchor.Some? then b
    else b.(anchor := Some(Anchor(timestamp, at + b.shape.Target())), cursor := timestamp)
  }

  predicate OnGrid(b: Buffer, timestamp: uint32)
    requires b.shape.Valid() && b.anchor.Some?
  {
    Distance32(timestamp, b.anchor.value.rtp) % b.shape.frameSamples == 0
  }

  predicate IsReordered(b: Buffer, sequence: uint16) {
    b.highestSequence.Some? && Distance16(sequence, b.highestSequence.value) < 0
  }

  function Sequenced(b: Buffer, sequence: uint16): Buffer {
    if IsReordered(b, sequence) then b.(counts := b.counts.Reorder())
    else b.(highestSequence := Some(sequence))
  }

  function Furthest(b: Buffer, timestamp: uint32): Buffer {
    if b.highestTimestamp.Some? && Distance32(b.highestTimestamp.value, timestamp) >= 0 then b
    else b.(highestTimestamp := Some(timestamp))
  }

  /** The slot bound: the same remedy and counters as the ceiling, from the other bound. */
  function MakeRoom(b: Buffer): (r: Buffer)
    requires b.Valid()
    ensures r.Valid() && r.shape == b.shape && r.occupied < |r.slots|
  {
    NoneFree(b.slots);
    if b.occupied == |b.slots| then Overrun(SkipOldest(b)) else b
  }

  function Enqueue(b: Buffer, timestamp: uint32, payload: seq<uint8>): (r: Buffer)
    requires b.Valid() && 0 < |payload| <= MAX_OPUS_PAYLOAD
    ensures r.Valid() && r.shape == b.shape
  {
    HoldCeiling(Store(MakeRoom(Furthest(b, timestamp)), timestamp, payload))
  }

  /** What becomes of a first arrival, once the stream is anchored. */
  function Admit(b: Buffer, p: Packet): (r: (Buffer, Admission))
    requires b.Valid() && b.anchor.Some? && 0 < |p.payload| <= MAX_OPUS_PAYLOAD
    ensures r.0.Valid() && r.0.shape == b.shape
  {
    if !OnGrid(b, p.timestamp) then
      (b.(counts := b.counts.Refuse(OffGrid)), OffGrid)
    else
      var s := Sequenced(b, p.sequence);
      if Distance32(p.timestamp, s.cursor) < 0 then
        (s.(counts := s.counts.Refuse(Late)), Late)
      else
        (Enqueue(s, p.timestamp, p.payload), Queued(IsReordered(b, p.sequence)))
  }

  function Push(b: Buffer, p: Packet, at: nat): (r: (Buffer, Admission))
    requires b.Valid() && p.payload != []
    ensures r.0.Valid() && r.0.shape == b.shape
  {
    var b := Received(b);
    if |p.payload| > MAX_OPUS_PAYLOAD then
      (b.(counts := b.counts.Refuse(Oversize)), Oversize)
    else
      var (first, seen) := Arrive(b.seen, p.sequence);
      if !first then
        (b.(counts := b.counts.Refuse(Duplicate)), Duplicate)
      else
        Admit(Anchored(b.(seen := seen), p.timestamp, at), p)
  }

  // One pull

  function Advanced(b: Buffer): Buffer {
    b.(cursor := Wrap32(b.cursor + b.shape.frameSamples), counts := b.counts.Expect(b.shape.frameSamples))
  }

  function Serve(b: Buffer): (r: (Buffer, Outcome))
    requires b.Valid()
    ensures r.0.Valid() && r.0.shape == b.shape
  {
    var found := HoldingFrom(b.slots, b.cursor, 0);
    if found < |b.slots| then
      (Vacate(b, found).(counts := b.counts.Play(b.shape.frameSamples)), Frame(b.slots[found].Payload()))
    else if b.occupied > 0 then
      (b.(counts := b.counts.Bridge(b.shape.frameSamples)), Conceal)
    else
      (b.(counts := b.counts.Starve()), Underrun)
  }

  function Pull(b: Buffer): (r: (Buffer, Outcome))
    requires b.Valid()
    ensures r.0.Valid() && r.0.shape == b.shape
  {
    var (served, outcome) := Serve(b);
    (Advanced(served), outcome)
  }
}
