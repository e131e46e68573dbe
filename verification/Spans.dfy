/**
 One stream, shorter than half the timestamp range, on slots that may hold copies.
 A frame is told by its place in the stream, and so is the cursor. Nothing here
 asks that two used slots differ, or that a used slot is ahead of the cursor.
 */
module Spans {
  import opened Wrappers
  import opened Wrap
  import opened SeenWindows
  import opened Grid
  import opened SlotBuffer
  import BufferRuns

  datatype Span = Span(start: uint32, step: uint32) {
    function Tick(k: int): int {
      start + Ticks(step, k)
    }

    /** The timestamp of the frame at place `k`. */
    function At(k: int): uint32 {
      Wrap32(Tick(k))
    }

    predicate Reaches(k: int) {
      0 <= k && Ticks(step, k) < HALF32
    }

    /** The place of a timestamp of this stream. */
    function PlaceOf(timestamp: uint32): int {
      if step == 0 then 0 else (timestamp - start) % MOD32 / step
    }

    /** A timestamp of this stream, at some place before `limit`. */
    predicate Marks(timestamp: uint32, limit: int) {
      0 <= PlaceOf(timestamp) < limit && timestamp == At(PlaceOf(timestamp))
    }
  }

  lemma TicksOrdered(step: int, j: int, k: int)
    requires step > 0
    ensures j < k <==> Ticks(step, j) < Ticks(step, k)
    ensures j < k ==> Ticks(step, j) + step <= Ticks(step, k)
  {
    assert Ticks(step, k) - Ticks(step, j) == step * (k - j);
    assert k - j >= 1 ==> step * (k - j) >= step;
    assert k - j <= 0 ==> step * (k - j) <= 0;
  }

  lemma WholeTurns(start: uint32, ticks: int, tick: int, at: uint32)
    requires 0 <= ticks < MOD32 && tick == start + ticks && at == Wrap32(tick)
    ensures (at - start) % MOD32 == ticks
  {
    assert tick < MOD32 ==> at == tick;
    assert tick >= MOD32 ==> at == tick - MOD32;
  }

  lemma WholeSteps(step: int, k: int, ticks: int)
    requires step > 0 && ticks == Ticks(step, k)
    ensures ticks / step == k
  {
    var q, r := ticks / step, ticks % step;
    assert ticks == step * q + r;
    assert step * (k - q) == r;
    assert k - q >= 1 ==> step * (k - q) >= step;
    assert k - q <= -1 ==> step * (k - q) <= -step;
  }

  lemma PlaceOfAt(sp: Span, k: int)
    requires sp.step > 0 && sp.Reaches(k)
    ensures sp.PlaceOf(sp.At(k)) == k
  {
    var ticks := Ticks(sp.step, k);
    TicksOrdered(sp.step, 0, k);
    assert Ticks(sp.step, 0) == 0;
    WholeTurns(sp.start, ticks, sp.Tick(k), sp.At(k));
    WholeSteps(sp.step, k, ticks);
  }

  lemma ReachesBefore(sp: Span, j: int, k: int)
    requires sp.step > 0 && 0 <= j <= k && sp.Reaches(k)
    ensures sp.Reaches(j)
  {
    TicksOrdered(sp.step, j, k);
  }

  /** Wrapped distances between frames of the stream are the true ones, so they order the places. */
  lemma Apart(sp: Span, j: int, k: int)
    requires sp.step > 0 && sp.Reaches(j) && sp.Reaches(k)
    ensures Distance32(sp.At(j), sp.At(k)) == Ticks(sp.step, j) - Ticks(sp.step, k)
    ensures j < k <==> Distance32(sp.At(j), sp.At(k)) < 0
    ensures j == k <==> sp.At(j) == sp.At(k)
  {
    TicksOrdered(sp.step, 0, j);
    TicksOrdered(sp.step, 0, k);
    TicksOrdered(sp.step, j, k);
    assert Ticks(sp.step, 0) == 0;
    DistanceIsDifference32(sp.Tick(j), sp.Tick(k));
    PlaceOfAt(sp, j);
    PlaceOfAt(sp, k);
  }

  lemma NextAt(sp: Span, k: int, next: int, step: uint32)
    requires next == k + 1 && step == sp.step
    ensures Wrap32(sp.At(k) + step) == sp.At(next)
  {
    TicksNext(sp.step, k, next);
    WrapAdds32(sp.Tick(k), step, sp.Tick(next));
  }

  // The stream on the slots

  ghost predicate Along(sp: Span, slots: seq<Slot>, limit: int) {
    forall i | 0 <= i < |slots| && !slots[i].Free() :: sp.Marks(slots[i].timestamp, limit)
  }

  ghost predicate NoneFurther(sp: Span, slots: seq<Slot>, furthest: uint32) {
    forall i | 0 <= i < |slots| && !slots[i].Free() :: sp.PlaceOf(slots[i].timestamp) <= sp.PlaceOf(furthest)
  }

  /** Some used slot holds the furthest frame, and none is further. */
  ghost predicate Tip(sp: Span, slots: seq<Slot>, furthest: uint32) {
    && (exists i | 0 <= i < |slots| :: !slots[i].Free() && slots[i].timestamp == furthest)
    && NoneFurther(sp, slots, furthest)
  }

  /** Slots and cursor of this stream. */
  ghost predicate Placed(sp: Span, limit: int, b: Buffer) {
    && b.Valid() && sp.step == b.shape.frameSamples
    && 0 <= limit && sp.Reaches(limit)
    && Along(sp, b.slots, limit)
    && sp.Reaches(sp.PlaceOf(b.cursor)) && b.cursor == sp.At(sp.PlaceOf(b.cursor))
  }

  ghost predicate Led(sp: Span, limit: int, slots: seq<Slot>, cursor: uint32, furthest: uint32) {
    && sp.Marks(furthest, limit) && NoneFurther(sp, slots, furthest)
    && (Tip(sp, slots, furthest) || sp.PlaceOf(furthest) < sp.PlaceOf(cursor))
  }

  /**
   A buffer this stream alone has been pushed on: before the first packet empty, after
   it with the furthest frame in a used slot or behind the cursor.
   */
  ghost predicate Lined(sp: Span, limit: int, b: Buffer) {
    && b.Valid() && sp.step == b.shape.frameSamples && 0 <= limit && sp.Reaches(limit)
    && b.occupied <= b.shape.ceilingFrames
    && (b.anchor.None? ==> b.occupied == 0 && b.highestTimestamp.None?)
    && (b.anchor.Some? ==>
          && Placed(sp, limit, b)
          && b.anchor.value.playout > 0
          && b.highestTimestamp.Some?
          && Led(sp, limit, b.slots, b.cursor, b.highestTimestamp.value))
  }

  /** Whatever a used slot holds it held before, or is the packet's own. */
  ghost predicate From(before: seq<Slot>, after: seq<Slot>, p: Packet) {
    && |after| == |before|
    && forall i | 0 <= i < |after| && !after[i].Free() ::
         (after[i] == before[i]) || (after[i].Valid() && after[i].timestamp == p.timestamp
             && after[i].Payload() == p.payload)
  }

  /** Slots freed, and nothing else. */
  ghost predicate Thinned(before: seq<Slot>, after: seq<Slot>) {
    |after| == |before| && forall i | 0 <= i < |after| && !after[i].Free() :: after[i] == before[i]
  }

  // Skipping

  /** The slot a skip frees holds the least place of all. */
  lemma OldestHasLeastPlace(sp: Span, limit: int, b: Buffer) returns (i: nat)
    requires Placed(sp, limit, b) && b.occupied > 0
    ensures OldestIn(b.slots, b.cursor, |b.slots|) == Some(i)
    ensures i < |b.slots| && !b.slots[i].Free() && sp.Marks(b.slots[i].timestamp, limit)
    ensures forall j | 0 <= j < |b.slots| && !b.slots[j].Free() ::
      sp.PlaceOf(b.slots[i].timestamp) <= sp.PlaceOf(b.slots[j].timestamp)
  {
    AllFree(b.slots);
    i := OldestIn(b.slots, b.cursor, |b.slots|).value;
    var least := sp.PlaceOf(b.slots[i].timestamp);
    var n := sp.PlaceOf(b.cursor);
    ReachesBefore(sp, least, limit);
    Apart(sp, least, n);
    forall j | 0 <= j < |b.slots| && !b.slots[j].Free()
      ensures least <= sp.PlaceOf(b.slots[j].timestamp)
    {
      var k := sp.PlaceOf(b.slots[j].timestamp);
      ReachesBefore(sp, k, limit);
      Apart(sp, k, n);
      TicksOrdered(sp.step, k, least);
    }
  }

  /** One skip: the slot of least place is freed and the cursor lands one frame past it. */
  lemma SkipPlaces(sp: Span, limit: int, b: Buffer) returns (i: nat)
    requires Placed(sp, limit, b) && b.occupied > 0
    ensures i < |b.slots| && !b.slots[i].Free() && sp.Marks(b.slots[i].timestamp, limit)
    ensures forall j | 0 <= j < |b.slots| && !b.slots[j].Free() ::
      sp.PlaceOf(b.slots[i].timestamp) <= sp.PlaceOf(b.slots[j].timestamp)
    ensures SkipOldest(b).slots == Freed(b.slots, i)
    ensures sp.PlaceOf(SkipOldest(b).cursor) == sp.PlaceOf(b.slots[i].timestamp) + 1
    ensures Placed(sp, limit, SkipOldest(b))
  {
    i := OldestHasLeastPlace(sp, limit, b);
    var k := sp.PlaceOf(b.slots[i].timestamp);
    var next := k + 1;
    ReachesBefore(sp, next, limit);
    PlaceOfAt(sp, next);
    NextAt(sp, k, next, b.shape.frameSamples);
  }

  /** How many used slots hold a frame before this place. */
  function Before(sp: Span, slots: seq<Slot>, place: int): nat {
    if slots == [] then 0
    else
      var last := slots[|slots| - 1];
      Before(sp, slots[..|slots| - 1], place)
      + if !last.Free() && sp.PlaceOf(last.timestamp) < place then 1 else 0
  }

  lemma {:induction false} BeforeAfter(sp: Span, slots: seq<Slot>, place: int, i: nat, slot: Slot)
    requires i < |slots|
    ensures Before(sp, slots[i := slot], place)
         == Before(sp, slots, place)
            - (if !slots[i].Free() && sp.PlaceOf(slots[i].timestamp) < place then 1 else 0)
            + (if !slot.Free() && sp.PlaceOf(slot.timestamp) < place then 1 else 0)
  {
    var n := |slots| - 1;
    if i < n {
      assert slots[i := slot][..n] == slots[..n][i := slot];
      BeforeAfter(sp, slots[..n], place, i, slot);
    } else {
      assert slots[i := slot][..n] == slots[..n];
    }
  }

  lemma {:induction false} NoneBefore(sp: Span, slots: seq<Slot>, place: int)
    ensures Before(sp, slots, place) == 0 <==>
      forall i | 0 <= i < |slots| && !slots[i].Free() :: sp.PlaceOf(slots[i].timestamp) >= place
  {
    if slots != [] {
      NoneBefore(sp, slots[..|slots| - 1], place);
      assert forall i | 0 <= i < |slots| - 1 :: slots[..|slots| - 1][i] == slots[i];
    }
  }

  /**
   Where skipping down to the target leaves the cursor: at or before a place exactly
   when at least as many used slots hold frames before it as are to be given up.
   */
  lemma {:induction false} SkipDownLands(sp: Span, limit: int, b: Buffer, place: int)
    requires Placed(sp, limit, b) && b.occupied > b.shape.targetFrames
    ensures var r := SkipToTarget(b);
            && Placed(sp, limit, r) && Thinned(b.slots, r.slots)
            && (sp.PlaceOf(r.cursor) <= place <==> Before(sp, b.slots, place) >= b.occupied - b.shape.targetFrames)
    decreases b.occupied
  {
    var i := SkipPlaces(sp, limit, b);
    var next := SkipOldest(b);
    BeforeAfter(sp, b.slots, place, i, b.slots[i].(len := 0));
    NoneBefore(sp, b.slots, place);
    if next.occupied > next.shape.targetFrames {
      SkipDownLands(sp, limit, next, place);
    }
  }

  /** Freeing the slot of least place while another is used leaves the furthest frame held. */
  lemma TipSurvives(sp: Span, limit: int, slots: seq<Slot>, i: nat, furthest: uint32)
    requires Along(sp, slots, limit) && Tip(sp, slots, furthest) && sp.Marks(furthest, limit)
    requires i < |slots| && !slots[i].Free() && Used(slots) > 1
    requires forall j | 0 <= j < |slots| && !slots[j].Free() ::
      sp.PlaceOf(slots[i].timestamp) <= sp.PlaceOf(slots[j].timestamp)
    ensures Tip(sp, Freed(slots, i), furthest)
  {
    var freed := Freed(slots, i);
    UsedAfter(slots, i, slots[i].(len := 0));
    AllFree(freed);
    var j :| 0 <= j < |freed| && !freed[j].Free();
    assert freed[j] == slots[j];
    var at :| 0 <= at < |slots| && !slots[at].Free() && slots[at].timestamp == furthest;
    if at != i {
      assert freed[at] == slots[at];
    } else {
      assert sp.PlaceOf(slots[j].timestamp) == sp.PlaceOf(furthest);
      assert slots[j].timestamp == furthest;
    }
  }

  lemma {:induction false} SkipDownKeepsTip(sp: Span, limit: int, b: Buffer, furthest: uint32)
    requires Placed(sp, limit, b) && b.occupied > 0 && Tip(sp, b.slots, furthest) && sp.Marks(furthest, limit)
    ensures Placed(sp, limit, SkipToTarget(b)) && Thinned(b.slots, SkipToTarget(b).slots)
    ensures Tip(sp, SkipToTarget(b).slots, furthest)
    decreases b.occupied
  {
    if b.occupied > b.shape.targetFrames {
      var i := SkipPlaces(sp, limit, b);
      TipSurvives(sp, limit, b.slots, i, furthest);
      SkipDownKeepsTip(sp, limit, SkipOldest(b), furthest);
    }
  }

  // One arriving packet

  /** What the furthest timestamp is to the slots, whether or not there is one yet. */
  ghost predicate LedOrNew(sp: Span, limit: int, b: Buffer) {
    match b.highestTimestamp
    case None => b.occupied == 0
    case Some(furthest) => Led(sp, limit, b.slots, b.cursor, furthest)
  }

  /** The furthest timestamp after an arrival at or past the cursor: its own, or one still held. */
  lemma FurthestOf(sp: Span, limit: int, b: Buffer, k: int)
    requires Placed(sp, limit, b) && LedOrNew(sp, limit, b)
    requires 0 <= k < limit && sp.PlaceOf(b.cursor) <= k
    ensures var c := Furthest(b, sp.At(k));
            && c.highestTimestamp.Some?
            && sp.Marks(c.highestTimestamp.value, limit) && sp.PlaceOf(c.highestTimestamp.value) >= k
            && NoneFurther(sp, b.slots, c.highestTimestamp.value)
            && (c.highestTimestamp.value == sp.At(k) || Tip(sp, b.slots, c.highestTimestamp.value))
  {
    ReachesBefore(sp, k, limit);
    PlaceOfAt(sp, k);
    AllFree(b.slots);
    if b.highestTimestamp.Some? {
      var h := sp.PlaceOf(b.highestTimestamp.value);
      ReachesBefore(sp, h, limit);
      Apart(sp, h, k);
    }
  }

  /** A frame stored is held, and whatever was held still is. */
  lemma StorePlaces(sp: Span, limit: int, b: Buffer, k: int, payload: seq<uint8>, furthest: uint32)
    requires Placed(sp, limit, b) && b.occupied <= b.shape.ceilingFrames && 0 < |payload| <= MAX_OPUS_PAYLOAD
    requires 0 <= k < limit && sp.Marks(furthest, limit) && sp.PlaceOf(furthest) >= k
    requires NoneFurther(sp, b.slots, furthest) && (furthest == sp.At(k) || Tip(sp, b.slots, furthest))
    ensures var r := Store(b, sp.At(k), payload);
            && Placed(sp, limit, r) && Tip(sp, r.slots, furthest)
            && From(b.slots, r.slots, Packet(0, sp.At(k), payload))
  {
    ReachesBefore(sp, k, limit);
    PlaceOfAt(sp, k);
    NoneFree(b.slots);
    var free, r := FreeFrom(b.slots, 0), Store(b, sp.At(k), payload);
    assert r.slots[free].timestamp == sp.At(k) && !r.slots[free].Free();
    if furthest != sp.At(k) {
      var i :| 0 <= i < |b.slots| && !b.slots[i].Free() && b.slots[i].timestamp == furthest;
      assert r.slots[i] == b.slots[i];
    }
  }

  lemma StoreCounts(sp: Span, b: Buffer, k: int, payload: seq<uint8>, place: int)
    requires b.Valid() && b.occupied < |b.slots| && 0 < |payload| <= MAX_OPUS_PAYLOAD
    requires sp.step > 0 && sp.Reaches(k) && place <= k
    ensures Before(sp, Store(b, sp.At(k), payload).slots, place) == Before(sp, b.slots, place)
  {
    NoneFree(b.slots);
    PlaceOfAt(sp, k);
    var free := FreeFrom(b.slots, 0);
    BeforeAfter(sp, b.slots, place, free, Filled(b.slots[free], sp.At(k), payload));
  }

  /** The buffer as the ceiling is held: the frame stored, nothing given up yet. */
  function Stored(b: Buffer, timestamp: uint32, payload: seq<uint8>): (r: Buffer)
    requires b.Valid() && b.occupied <= b.shape.ceilingFrames && 0 < |payload| <= MAX_OPUS_PAYLOAD
    ensures r.Valid() && r.shape == b.shape && r.occupied == b.occupied + 1 && r.cursor == b.cursor
    ensures Enqueue(b, timestamp, payload) == HoldCeiling(r)
  {
    BufferRuns.SlotBoundUnreachable(Furthest(b, timestamp));
    Store(Furthest(b, timestamp), timestamp, payload)
  }

  lemma StoredPlaces(sp: Span, limit: int, b: Buffer, k: int, payload: seq<uint8>)
    requires Placed(sp, limit, b) && LedOrNew(sp, limit, b)
    requires b.occupied <= b.shape.ceilingFrames && 0 < |payload| <= MAX_OPUS_PAYLOAD
    requires 0 <= k < limit && sp.PlaceOf(b.cursor) <= k
    ensures var r := Stored(b, sp.At(k), payload);
            && Placed(sp, limit, r) && r.highestTimestamp.Some? && sp.Marks(r.highestTimestamp.value, limit)
            && Tip(sp, r.slots, r.highestTimestamp.value)
            && From(b.slots, r.slots, Packet(0, sp.At(k), payload))
  {
    FurthestOf(sp, limit, b, k);
    var c := Furthest(b, sp.At(k));
    StorePlaces(sp, limit, c, k, payload, c.highestTimestamp.value);
  }

  lemma ThinnedFrom(before: seq<Slot>, stored: seq<Slot>, after: seq<Slot>, p: Packet)
    requires From(before, stored, p) && Thinned(stored, after)
    ensures From(before, after, p)
  {
  }

  lemma EnqueueLeads(sp: Span, limit: int, b: Buffer, k: int, payload: seq<uint8>)
    requires Placed(sp, limit, b) && LedOrNew(sp, limit, b)
    requires b.occupied <= b.shape.ceilingFrames && 0 < |payload| <= MAX_OPUS_PAYLOAD
    requires 0 <= k < limit && sp.PlaceOf(b.cursor) <= k
    ensures var r := Enqueue(b, sp.At(k), payload);
            && Placed(sp, limit, r) && r.highestTimestamp.Some? && r.occupied > 0
            && Led(sp, limit, r.slots, r.cursor, r.highestTimestamp.value)
            && From(b.slots, r.slots, Packet(0, sp.At(k), payload))
  {
    var s := Stored(b, sp.At(k), payload);
    StoredPlaces(sp, limit, b, k, payload);
    BufferRuns.EnqueueCounts(b, sp.At(k), payload);
    if s.occupied > s.shape.ceilingFrames {
      BufferRuns.SkipToTargetCounts(Overrun(s));
      SkipDownKeepsTip(sp, limit, Overrun(s), s.highestTimestamp.value);
      ThinnedFrom(b.slots, s.slots, HoldCeiling(s).slots, Packet(0, sp.At(k), payload));
    }
  }

  /** Where an arrival leaves the cursor: where it was, but for an overrun, and then by what lies before a place. */
  lemma EnqueueLands(sp: Span, limit: int, b: Buffer, k: int, payload: seq<uint8>, place: int)
    requires Placed(sp, limit, b) && LedOrNew(sp, limit, b)
    requires b.occupied <= b.shape.ceilingFrames && 0 < |payload| <= MAX_OPUS_PAYLOAD
    requires 0 <= k < limit && sp.PlaceOf(b.cursor) <= k && place <= k
    ensures var r := Enqueue(b, sp.At(k), payload);
            if b.occupied < b.shape.ceilingFrames then r.cursor == b.cursor
            else sp.PlaceOf(r.cursor) <= place <==> Before(sp, b.slots, place) >= BufferRuns.Discard(b.shape)
  {
    var s := Stored(b, sp.At(k), payload);
    StoredPlaces(sp, limit, b, k, payload);
    ReachesBefore(sp, k, limit);
    BufferRuns.SlotBoundUnreachable(Furthest(b, sp.At(k)));
    StoreCounts(sp, Furthest(b, sp.At(k)), k, payload, place);
    if s.occupied > s.shape.ceilingFrames {
      SkipDownLands(sp, limit, Overrun(s), place);
    }
  }

  /** What becomes of a first arrival of the stream, anchored. */
  lemma AdmitLines(sp: Span, limit: int, b: Buffer, p: Packet, k: int)
    requires Placed(sp, limit, b) && LedOrNew(sp, limit, b) && b.anchor.Some? && b.anchor.value.playout > 0
    requires b.highestTimestamp.None? ==> b.anchor.value.rtp == b.cursor == p.timestamp
    requires b.occupied <= b.shape.ceilingFrames && 0 < |p.payload| <= MAX_OPUS_PAYLOAD
    requires 0 <= k < limit && p.timestamp == sp.At(k)
    ensures var r := Admit(b, p).0;
            && Lined(sp, limit, r) && r.anchor == b.anchor && From(b.slots, r.slots, p)
            && (b.occupied > 0 ==> r.occupied > 0)
  {
    var s := Sequenced(b, p.sequence);
    var n := sp.PlaceOf(b.cursor);
    ReachesBefore(sp, k, limit);
    Apart(sp, k, n);
    PlaceOfAt(sp, k);
    assert Placed(sp, limit, s) && LedOrNew(sp, limit, s);
    if OnGrid(b, p.timestamp) && Distance32(p.timestamp, s.cursor) >= 0 {
      EnqueueLeads(sp, limit, s, k, p.payload);
      BufferRuns.EnqueueCounts(s, p.timestamp, p.payload);
      BufferRuns.EnqueueRemembers(s, p.timestamp, p.payload);
      assert From(b.slots, Admit(b, p).0.slots, p);
    } else if b.highestTimestamp.None? {
      assert OnGrid(b, p.timestamp);
    }
  }

  lemma TargetIsPositive(shape: Shape)
    requires shape.Valid()
    ensures shape.Target() > 0
  {
  }

  lemma AnchorPlaces(sp: Span, limit: int, b: Buffer, p: Packet, k: int, at: nat)
    requires Lined(sp, limit, b) && 0 <= k < limit && p.timestamp == sp.At(k)
    ensures var c := Anchored(b, p.timestamp, at);
            && Placed(sp, limit, c) && LedOrNew(sp, limit, c) && c.anchor.Some? && c.anchor.value.playout > 0
            && (c.highestTimestamp.None? ==> c.anchor.value.rtp == c.cursor == p.timestamp)
            && c.slots == b.slots && c.occupied == b.occupied
  {
    ReachesBefore(sp, k, limit);
    PlaceOfAt(sp, k);
    TargetIsPositive(b.shape);
    AllFree(b.slots);
  }

  /** Counted, and remembered by the ring. */
  function Heard(b: Buffer, sequence: uint16): (r: Buffer)
    requires b.Valid()
    ensures r.Valid() && r.slots == b.slots && r.occupied == b.occupied
  {
    Received(b).(seen := Arrive(b.seen, sequence).1)
  }

  /**
   Any packet of the stream, first or copied, prompt or late: the slots hold only what
   they held and its own payload, nothing held is lost to the last frame, and the
   furthest frame is held or behind the cursor.
   */
  lemma PushLines(sp: Span, limit: int, b: Buffer, p: Packet, k: int, at: nat)
    requires Lined(sp, limit, b) && 0 <= k < limit
    requires p.timestamp == sp.At(k) && 0 < |p.payload| <= MAX_OPUS_PAYLOAD
    ensures var r := Push(b, p, at).0;
            && Lined(sp, limit, r) && From(b.slots, r.slots, p)
            && (b.anchor.Some? ==> r.anchor == b.anchor)
            && (b.occupied > 0 ==> r.occupied > 0)
  {
    if Arrive(b.seen, p.sequence).0 {
      var c := Heard(b, p.sequence);
      AnchorPlaces(sp, limit, c, p, k, at);
      AdmitLines(sp, limit, Anchored(c, p.timestamp, at), p, k);
    }
  }

  // Where a packet leaves the cursor

  /** How many used slots lie more than one frame behind the cursor, on the wire's own distances. */
  function Lagging(slots: seq<Slot>, cursor: uint32, step: uint32): nat {
    if slots == [] then 0
    else
      var last := slots[|slots| - 1];
      Lagging(slots[..|slots| - 1], cursor, step)
      + if !last.Free() && Distance32(last.timestamp, cursor) + step < 0 then 1 else 0
  }

  lemma {:induction false} LaggingIsBefore(sp: Span, limit: int, slots: seq<Slot>, n: int, place: int)
    requires sp.step > 0 && Along(sp, slots, limit) && sp.Reaches(limit) && sp.Reaches(n) && place == n - 1
    ensures Lagging(slots, sp.At(n), sp.step) == Before(sp, slots, place)
  {
    if slots != [] {
      var front, last := slots[..|slots| - 1], slots[|slots| - 1];
      assert forall i | 0 <= i < |front| :: front[i] == slots[i];
      LaggingIsBefore(sp, limit, front, n, place);
      if !last.Free() {
        var k := sp.PlaceOf(last.timestamp);
        var next := k + 1;
        ReachesBefore(sp, k, limit);
        Apart(sp, k, n);
        TicksNext(sp.step, k, next);
        TicksOrdered(sp.step, next, n);
      }
    }
  }

  /** What a caller can read off before the push: whether the packet will be queued. */
  predicate Takes(b: Buffer, p: Packet)
    requires b.Valid() && b.anchor.Some?
  {
    && |p.payload| <= MAX_OPUS_PAYLOAD
    && Arrive(b.seen, p.sequence).0
    && OnGrid(b, p.timestamp)
    && Distance32(p.timestamp, b.cursor) >= 0
  }

  lemma TakesExactly(b: Buffer, p: Packet, at: nat)
    requires b.Valid() && b.anchor.Some? && p.payload != []
    ensures Takes(b, p) <==> Push(b, p, at).1.Queued?
    ensures Takes(b, p) ==>
      Push(b, p, at).0 == Enqueue(Sequenced(Heard(b, p.sequence), p.sequence), p.timestamp, p.payload)
    ensures !Takes(b, p) ==>
      var r := Push(b, p, at).0;
      r == b.(counts := r.counts, highestSequence := r.highestSequence, seen := r.seen)
  {
  }

  lemma RingHears(b: Buffer, p: Packet, at: nat)
    requires b.Valid() && b.anchor.Some? && 0 < |p.payload| <= MAX_OPUS_PAYLOAD && !Takes(b, p)
    ensures Push(b, p, at).0.seen == Arrive(b.seen, p.sequence).1
  {
  }

  /**
   When a packet moves the cursor back, exactly: it is one the buffer queues, the
   buffer is at its ceiling, and as many used slots as an overrun gives up lie more
   than one frame behind the cursor.
   */
  lemma CursorMovesBackExactly(sp: Span, limit: int, b: Buffer, p: Packet, k: int, at: nat)
    requires Lined(sp, limit, b) && b.anchor.Some? && 0 <= k < limit
    requires p.timestamp == sp.At(k) && p.payload != []
    ensures Distance32(Push(b, p, at).0.cursor, b.cursor) < 0 <==>
            && Takes(b, p) && b.occupied == b.shape.ceilingFrames
            && Lagging(b.slots, b.cursor, b.shape.frameSamples) >= BufferRuns.Discard(b.shape)
  {
    TakesExactly(b, p, at);
    var n := sp.PlaceOf(b.cursor);
    Apart(sp, n, n);
    if Takes(b, p) {
      var s, place := Sequenced(Heard(b, p.sequence), p.sequence), n - 1;
      ReachesBefore(sp, k, limit);
      Apart(sp, k, n);
      PlaceOfAt(sp, k);
      assert Placed(sp, limit, s) && LedOrNew(sp, limit, s);
      EnqueueLands(sp, limit, s, k, p.payload, place);
      LaggingIsBefore(sp, limit, b.slots, n, place);
      EnqueueLeads(sp, limit, s, k, p.payload);
      Apart(sp, sp.PlaceOf(Push(b, p, at).0.cursor), n);
    }
  }

  // One pull

  /** What a pull does to any buffer at all. */
  lemma PullServes(b: Buffer)
    requires b.Valid()
    ensures var (r, outcome) := Pull(b);
            && Thinned(b.slots, r.slots) && r.anchor == b.anchor && r.seen == b.seen
            && r.highestTimestamp == b.highestTimestamp && r.occupied <= b.occupied
            && r.cursor == Wrap32(b.cursor + b.shape.frameSamples)
            && (outcome.Underrun? <==> b.occupied == 0)
            && (outcome.Frame? ==>
                  exists i | 0 <= i < |b.slots| ::
                    !b.slots[i].Free() && b.slots[i].timestamp == b.cursor && b.slots[i].Payload() == outcome.payload)
  {
    AllFree(b.slots);
  }

  /** Serving the furthest frame leaves it behind the cursor; serving any other leaves it held. */
  lemma PullLeads(sp: Span, limit: int, b: Buffer)
    requires Lined(sp, limit, b) && b.anchor.Some?
    ensures var furthest, slots := b.highestTimestamp.value, Pull(b).0.slots;
            && NoneFurther(sp, slots, furthest)
            && (Tip(sp, slots, furthest) || sp.PlaceOf(furthest) <= sp.PlaceOf(b.cursor))
  {
    var furthest, found := b.highestTimestamp.value, HoldingFrom(b.slots, b.cursor, 0);
    if found < |b.slots| && Tip(sp, b.slots, furthest) {
      var i :| 0 <= i < |b.slots| && !b.slots[i].Free() && b.slots[i].timestamp == furthest;
      if i != found {
        assert Freed(b.slots, found)[i] == b.slots[i];
      }
    }
  }

  /** On a stream's buffer the cursor moves on by one place, and the furthest frame is still held or behind. */
  lemma PullLines(sp: Span, limit: int, b: Buffer, next: int)
    requires Lined(sp, limit, b) && b.anchor.Some? && next == sp.PlaceOf(b.cursor) + 1 && sp.Reaches(next)
    ensures Lined(sp, limit, Pull(b).0) && sp.PlaceOf(Pull(b).0.cursor) == next
  {
    var n, r := sp.PlaceOf(b.cursor), Pull(b).0;
    PlaceOfAt(sp, next);
    NextAt(sp, n, next, b.shape.frameSamples);
    PullServes(b);
    PullLeads(sp, limit, b);
    assert Along(sp, r.slots, limit);
  }

  /** The end of the stream reads as an empty buffer, whatever copies came. */
  lemma DrainedIsEmpty(sp: Span, limit: int, b: Buffer)
    requires Lined(sp, limit, b) && b.anchor.Some?
    ensures b.Drained() <==> b.occupied == 0
  {
    var furthest, n := sp.PlaceOf(b.highestTimestamp.value), sp.PlaceOf(b.cursor);
    AllFree(b.slots);
    ReachesBefore(sp, furthest, limit);
    Apart(sp, furthest, n);
    Apart(sp, n, furthest);
  }

  // Slots with no frame twice

  ghost predicate ClearSlots(sp: Span, slots: seq<Slot>, cursor: uint32) {
    && (forall i | 0 <= i < |slots| && !slots[i].Free() :: sp.PlaceOf(cursor) <= sp.PlaceOf(slots[i].timestamp))
    && (forall i, j | 0 <= i < j < |slots| && !slots[i].Free() && !slots[j].Free() ::
          sp.PlaceOf(slots[i].timestamp) != sp.PlaceOf(slots[j].timestamp))
  }

  /** No frame is held twice and none is behind the cursor. */
  ghost predicate Clear(sp: Span, b: Buffer) {
    ClearSlots(sp, b.slots, b.cursor)
  }

  lemma SkipKeepsClear(sp: Span, limit: int, b: Buffer)
    requires Placed(sp, limit, b) && b.occupied > 0 && Clear(sp, b)
    ensures Placed(sp, limit, SkipOldest(b)) && Clear(sp, SkipOldest(b))
    ensures sp.PlaceOf(SkipOldest(b).cursor) > sp.PlaceOf(b.cursor)
  {
    var i := SkipPlaces(sp, limit, b);
    var r := SkipOldest(b);
    forall j | 0 <= j < |r.slots| && !r.slots[j].Free()
      ensures r.slots[j] == b.slots[j] && sp.PlaceOf(r.cursor) <= sp.PlaceOf(r.slots[j].timestamp)
    {
    }
  }

  lemma {:induction false} SkipDownKeepsClear(sp: Span, limit: int, b: Buffer)
    requires Placed(sp, limit, b) && Clear(sp, b)
    ensures Clear(sp, SkipToTarget(b)) && sp.PlaceOf(SkipToTarget(b).cursor) >= sp.PlaceOf(b.cursor)
    decreases b.occupied
  {
    if b.occupied > b.shape.targetFrames {
      SkipKeepsClear(sp, limit, b);
      SkipDownKeepsClear(sp, limit, SkipOldest(b));
    }
  }

  /** A frame not held, at or past the cursor, keeps the slots clear and the cursor from moving back. */
  lemma EnqueueKeepsClear(sp: Span, limit: int, b: Buffer, k: int, payload: seq<uint8>)
    requires Placed(sp, limit, b) && LedOrNew(sp, limit, b) && Clear(sp, b)
    requires b.occupied <= b.shape.ceilingFrames && 0 < |payload| <= MAX_OPUS_PAYLOAD
    requires 0 <= k < limit && sp.PlaceOf(b.cursor) <= k
    requires forall i | 0 <= i < |b.slots| && !b.slots[i].Free() :: sp.PlaceOf(b.slots[i].timestamp) != k
    ensures var r := Enqueue(b, sp.At(k), payload);
            Clear(sp, r) && sp.PlaceOf(r.cursor) >= sp.PlaceOf(b.cursor)
  {
    var s := Stored(b, sp.At(k), payload);
    StoredPlaces(sp, limit, b, k, payload);
    ReachesBefore(sp, k, limit);
    PlaceOfAt(sp, k);
    assert Clear(sp, s);
    if s.occupied > s.shape.ceilingFrames {
      SkipDownKeepsClear(sp, limit, Overrun(s));
    }
  }

  lemma PushKeepsClear(sp: Span, limit: int, b: Buffer, p: Packet, k: int, at: nat)
    requires Lined(sp, limit, b) && (b.anchor.Some? ==> Clear(sp, b)) && 0 <= k < limit
    requires p.timestamp == sp.At(k) && 0 < |p.payload| <= MAX_OPUS_PAYLOAD
    requires Arrive(b.seen, p.sequence).0 ==>
               forall i | 0 <= i < |b.slots| && !b.slots[i].Free() :: sp.PlaceOf(b.slots[i].timestamp) != k
    ensures var r := Push(b, p, at).0;
            && (r.anchor.Some? ==> Clear(sp, r))
            && (b.anchor.Some? ==> sp.PlaceOf(r.cursor) >= sp.PlaceOf(b.cursor))
  {
    if Arrive(b.seen, p.sequence).0 {
      var c := Anchored(Heard(b, p.sequence), p.timestamp, at);
      var s := Sequenced(c, p.sequence);
      AllFree(b.slots);
      AnchorPlaces(sp, limit, Heard(b, p.sequence), p, k, at);
      assert Clear(sp, s);
      ReachesBefore(sp, k, limit);
      PlaceOfAt(sp, k);
      Apart(sp, k, sp.PlaceOf(c.cursor));
      if OnGrid(c, p.timestamp) && Distance32(p.timestamp, s.cursor) >= 0 {
        EnqueueKeepsClear(sp, limit, s, k, p.payload);
      }
    }
  }

  lemma PullKeepsClear(sp: Span, limit: int, b: Buffer, next: int)
    requires Lined(sp, limit, b) && b.anchor.Some? && Clear(sp, b)
    requires next == sp.PlaceOf(b.cursor) + 1 && sp.Reaches(next)
    ensures Clear(sp, Pull(b).0)
  {
    PullLines(sp, limit, b, next);
    PullServes(b);
    var r, found := Pull(b).0, HoldingFrom(b.slots, b.cursor, 0);
    forall j | 0 <= j < |r.slots| && !r.slots[j].Free()
      ensures r.slots[j] == b.slots[j] && next <= sp.PlaceOf(r.slots[j].timestamp)
    {
    }
  }
}
