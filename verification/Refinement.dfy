/**
 The slot array refines the timeline. While every live tick is within half the
 32-bit range of the cursor, searching unordered slots by wrapped timestamp does
 exactly what looking a tick up in a map does.
 */
module Refinement {
  import opened Wrappers
  import opened Wrap
  import opened SeenWindows
  import opened Grid
  import S = SlotBuffer
  import P = Playout
  import BufferRuns

  /** The tick nearest the cursor that a wire timestamp can stand for. */
  function Unwrap(cursor: int, timestamp: uint32): int {
    cursor + Distance32(timestamp, Wrap32(cursor))
  }

  lemma UnwrapInverts(cursor: int, tick: int)
    requires -HALF32 <= tick - cursor < HALF32
    ensures Unwrap(cursor, Wrap32(tick)) == tick
  {
  }

  lemma UnwrapWraps(cursor: int, timestamp: uint32)
    ensures Wrap32(Unwrap(cursor, timestamp)) == timestamp
    ensures -HALF32 <= Unwrap(cursor, timestamp) - cursor < HALF32
  {
  }

  ghost predicate InReach(cursor: int, tick: int) {
    cursor <= tick < cursor + HALF32
  }

  ghost predicate Distinct(slots: seq<S.Slot>) {
    forall i, j | 0 <= i < j < |slots| && !slots[i].Free() && !slots[j].Free() ::
        slots[i].timestamp != slots[j].timestamp
  }

  /** The used slots are the queue: one slot for each queued tick, and no other. */
  ghost predicate Represents(slots: seq<S.Slot>, cursor: int, queue: map<int, seq<uint8>>) {
    && (forall i | 0 <= i < |slots| :: slots[i].Valid())
    && (forall t | t in queue :: InReach(cursor, t) && S.HoldingFrom(slots, Wrap32(t), 0) < |slots|)
    && (forall i {:trigger Unwrap(cursor, slots[i].timestamp)} | 0 <= i < |slots| && !slots[i].Free() ::
          && Unwrap(cursor, slots[i].timestamp) in queue
          && queue[Unwrap(cursor, slots[i].timestamp)] == slots[i].Payload())
    && Distinct(slots)
  }

  /** Shapes, cursors, counters and contents agree. */
  ghost predicate Tracks(b: S.Buffer, m: P.Timeline) {
    && b.shape == m.shape && b.counts == m.counts
    && b.cursor == Wrap32(m.cursor)
    && b.occupied == |m.queue|
    && Represents(b.slots, m.cursor, m.queue)
  }

  /** What was learned from arrivals agrees: the ring, the anchor and the furthest packet of each kind. */
  ghost predicate Heads(b: S.Buffer, m: P.Timeline) {
    && b.seen == m.seen && b.highestSequence == m.highestSequence
    && b.anchor == (if m.origin.None? then None
                    else Some(S.Anchor(Wrap32(m.origin.value.tick), m.origin.value.playout)))
    && b.highestTimestamp == (if m.furthest.None? then None else Some(Wrap32(m.furthest.value)))
  }

  ghost predicate Refines(b: S.Buffer, m: P.Timeline) {
    b.Valid() && P.Inv(m) && Tracks(b, m) && Heads(b, m)
  }

  lemma NewRefines(shape: S.Shape)
    requires shape.Valid()
    ensures Refines(S.New(shape), P.New(shape))
  {
  }

  // Slots

  /** The slot found for a queued tick is the one that holds it. */
  lemma FoundIsQueued(slots: seq<S.Slot>, cursor: int, queue: map<int, seq<uint8>>, tick: int)
    requires Represents(slots, cursor, queue) && -HALF32 <= tick - cursor < HALF32
    ensures var i := S.HoldingFrom(slots, Wrap32(tick), 0);
            && (i < |slots| <==> tick in queue)
            && (i < |slots| ==> queue[tick] == slots[i].Payload())
  {
    UnwrapInverts(cursor, tick);
  }

  lemma FreeingRepresents(slots: seq<S.Slot>, cursor: int, queue: map<int, seq<uint8>>, i: nat, tick: int, next: int)
    requires Represents(slots, cursor, queue)
    requires i < |slots| && !slots[i].Free() && slots[i].timestamp == Wrap32(tick) && tick in queue
    requires cursor <= next && forall t | t in queue && t != tick :: next <= t
    ensures Represents(S.Freed(slots, i), next, queue - {tick})
  {
    var freed, rest := S.Freed(slots, i), queue - {tick};
    forall t | t in rest
      ensures InReach(next, t) && S.HoldingFrom(freed, Wrap32(t), 0) < |freed|
    {
      var j := S.HoldingFrom(slots, Wrap32(t), 0);
      UnwrapInverts(cursor, t);
      UnwrapInverts(cursor, tick);
      assert j != i && freed[j] == slots[j];
    }
    forall j | 0 <= j < |freed| && !freed[j].Free()
      ensures Unwrap(next, freed[j].timestamp) in rest
      ensures rest[Unwrap(next, freed[j].timestamp)] == freed[j].Payload()
    {
      assert j != i && freed[j] == slots[j];
      var t := Unwrap(cursor, slots[j].timestamp);
      UnwrapWraps(cursor, slots[j].timestamp);
      UnwrapInverts(next, t);
    }
  }

  lemma FillingRepresents(slots: seq<S.Slot>, cursor: int, queue: map<int, seq<uint8>>, i: nat, tick: int,
      payload: seq<uint8>)
    requires Represents(slots, cursor, queue)
    requires i < |slots| && slots[i].Free() && tick !in queue && InReach(cursor, tick)
    requires 0 < |payload| <= S.MAX_OPUS_PAYLOAD
    ensures Represents(slots[i := S.Filled(slots[i], Wrap32(tick), payload)], cursor, queue[tick := payload])
  {
    var filled, more := slots[i := S.Filled(slots[i], Wrap32(tick), payload)], queue[tick := payload];
    UnwrapInverts(cursor, tick);
    forall t | t in more
      ensures InReach(cursor, t) && S.HoldingFrom(filled, Wrap32(t), 0) < |filled|
    {
      if t == tick {
        assert filled[i].timestamp == Wrap32(t);
      } else {
        var j := S.HoldingFrom(slots, Wrap32(t), 0);
        assert filled[j] == slots[j];
      }
    }
    forall j | 0 <= j < |filled| && !filled[j].Free()
      ensures Unwrap(cursor, filled[j].timestamp) in more
      ensures more[Unwrap(cursor, filled[j].timestamp)] == filled[j].Payload()
      ensures j != i ==> filled[j].timestamp != Wrap32(tick)
    {
      if j != i {
        assert filled[j] == slots[j];
        assert Unwrap(cursor, slots[j].timestamp) in queue;
      }
    }
  }

  lemma UsedSlot(slots: seq<S.Slot>, cursor: int, queue: map<int, seq<uint8>>, tick: int) returns (i: nat)
    requires Represents(slots, cursor, queue) && tick in queue
    ensures i < |slots| && !slots[i].Free() && slots[i].timestamp == Wrap32(tick)
    ensures Distance32(slots[i].timestamp, Wrap32(cursor)) == tick - cursor
  {
    i := S.HoldingFrom(slots, Wrap32(tick), 0);
    UnwrapInverts(cursor, tick);
  }

  lemma UsedTick(slots: seq<S.Slot>, cursor: int, queue: map<int, seq<uint8>>, i: nat) returns (tick: int)
    requires Represents(slots, cursor, queue) && i < |slots| && !slots[i].Free()
    ensures tick in queue && slots[i].timestamp == Wrap32(tick)
    ensures Distance32(slots[i].timestamp, Wrap32(cursor)) == tick - cursor
  {
    tick := Unwrap(cursor, slots[i].timestamp);
    UnwrapWraps(cursor, slots[i].timestamp);
  }

  /** The used slot least far ahead of the cursor holds the least queued tick. */
  lemma OldestIsLeast(slots: seq<S.Slot>, cursor: int, queue: map<int, seq<uint8>>)
    requires Represents(slots, cursor, queue) && queue != map[]
    ensures var oldest := S.OldestIn(slots, Wrap32(cursor), |slots|);
            && oldest.Some?
            && slots[oldest.value].timestamp == Wrap32(Least(queue.Keys))
            && Distance32(slots[oldest.value].timestamp, Wrap32(cursor)) == Least(queue.Keys) - cursor
  {
    var least := Least(queue.Keys);
    var at := UsedSlot(slots, cursor, queue, least);
    assert S.OldestIn(slots, Wrap32(cursor), |slots|).Some?;
    var oldest := S.OldestIn(slots, Wrap32(cursor), |slots|).value;
    var tick := UsedTick(slots, cursor, queue, oldest);
    assert tick in queue.Keys && least <= tick <= least;
    assert tick == least;
  }

  // Skipping

  lemma SkipLeavesLater(m: P.Timeline, oldest: int)
    requires m.shape.Valid() && P.Ahead(m) && m.queue != map[] && oldest == Least(m.queue.Keys)
    ensures m.cursor <= oldest + m.shape.frameSamples
    ensures forall t | t in m.queue && t != oldest :: oldest + m.shape.frameSamples <= t
  {
    P.SkipKeepsAhead(m);
    assert forall t | t in m.queue && t != oldest :: t in P.Skip(m).queue;
  }

  /** What a skip does to the buffer, told by the tick it gives up. */
  lemma SkipOldestAt(b: S.Buffer, i: nat, tick: int, next: int, travelled: nat)
    requires b.Valid() && S.OldestIn(b.slots, b.cursor, |b.slots|) == Some(i)
    requires b.slots[i].timestamp == Wrap32(tick)
    requires next == tick + b.shape.frameSamples
    requires travelled == Max(Distance32(b.slots[i].timestamp, b.cursor), 0) + b.shape.frameSamples
    ensures S.SkipOldest(b) == S.Vacate(b, i).(
              cursor := Wrap32(next),
              counts := b.counts.Skip(travelled))
  {
    WrapAdds32(tick, b.shape.frameSamples, next);
  }

  /** The slot a skip frees is the one holding the least tick. */
  lemma SkipFrees(b: S.Buffer, m: P.Timeline) returns (i: nat)
    requires b.Valid() && m.shape.Valid() && P.Ahead(m) && m.queue != map[] && Tracks(b, m)
    ensures i < |b.slots| && !b.slots[i].Free() && b.slots[i].timestamp == Wrap32(Least(m.queue.Keys))
    ensures var c, n := S.SkipOldest(b), P.Skip(m);
            && c.slots == S.Freed(b.slots, i) && c.occupied == b.occupied - 1
            && c.cursor == Wrap32(n.cursor) && c.counts == n.counts
  {
    var oldest := Least(m.queue.Keys);
    OldestIsLeast(b.slots, m.cursor, m.queue);
    i := S.OldestIn(b.slots, b.cursor, |b.slots|).value;
    SkipOldestAt(b, i, oldest, P.Skip(m).cursor, P.Travelled(m, oldest));
  }

  lemma SkipRefines(b: S.Buffer, m: P.Timeline)
    requires b.Valid() && m.shape.Valid() && P.Ahead(m) && m.queue != map[] && Tracks(b, m)
    ensures Tracks(S.SkipOldest(b), P.Skip(m))
  {
    var i := SkipFrees(b, m);
    var oldest, next := Least(m.queue.Keys), P.Skip(m).cursor;
    SkipLeavesLater(m, oldest);
    FreeingRepresents(b.slots, m.cursor, m.queue, i, oldest, next);
  }

  lemma SkipOldestFrame(b: S.Buffer)
    requires b.Valid()
    ensures var c := S.SkipOldest(b);
            c == b.(slots := c.slots, occupied := c.occupied, cursor := c.cursor, counts := c.counts)
  {
  }

  lemma {:induction false} SkipDownRefines(b: S.Buffer, m: P.Timeline)
    requires b.Valid() && m.shape.Valid() && P.Ahead(m) && Tracks(b, m)
    ensures var c := S.SkipToTarget(b);
            && Tracks(c, P.SkipDown(m))
            && c == b.(slots := c.slots, occupied := c.occupied, cursor := c.cursor, counts := c.counts)
    decreases b.occupied
  {
    if b.occupied > b.shape.targetFrames {
      SkipRefines(b, m);
      SkipOldestFrame(b);
      P.SkipKeepsAhead(m);
      SkipDownRefines(S.SkipOldest(b), P.Skip(m));
    }
  }

  // One arriving packet

  ghost predicate Near(a: int, b: int) {
    -HALF32 <= a - b < HALF32
  }

  /**
   The hypothesis under which a wire timestamp means one tick: it is that tick
   wrapped, the tick is within half the range of the cursor, the anchor and the
   furthest frame, and a first arrival does not repeat a tick still queued.
   */
  ghost predicate Fits(m: P.Timeline, p: S.Packet, tick: int)
    requires |m.seen| > 0
  {
    && p.payload != []
    && p.timestamp == Wrap32(tick)
    && (m.origin.Some? ==> Near(tick, m.origin.value.tick) && Near(tick, m.cursor))
    && (m.furthest.Some? ==> Near(m.furthest.value, tick))
    && (Arrive(m.seen, p.sequence).0 ==> tick !in m.queue)
  }

  lemma StoreRefines(b: S.Buffer, m: P.Timeline, tick: int, payload: seq<uint8>)
    requires b.Valid() && Tracks(b, m) && tick !in m.queue && InReach(m.cursor, tick)
    requires b.occupied < |b.slots| && 0 < |payload| <= S.MAX_OPUS_PAYLOAD
    ensures Tracks(S.Store(b, Wrap32(tick), payload), m.(queue := m.queue[tick := payload]))
  {
    S.NoneFree(b.slots);
    FillingRepresents(b.slots, m.cursor, m.queue, S.FreeFrom(b.slots, 0), tick, payload);
    assert m.queue[tick := payload].Keys == m.queue.Keys + {tick};
  }

  lemma HoldRefines(b: S.Buffer, m: P.Timeline)
    requires b.Valid() && m.shape.Valid() && P.Ahead(m) && Tracks(b, m) && Heads(b, m)
    ensures Tracks(S.HoldCeiling(b), P.Hold(m)) && Heads(S.HoldCeiling(b), P.Hold(m))
  {
    if b.occupied > b.shape.ceilingFrames {
      SkipDownRefines(S.Overrun(b), P.Overrun(m));
      P.SkipDownMoves(P.Overrun(m));
    }
  }

  lemma ExtendRefines(b: S.Buffer, m: P.Timeline, tick: int)
    requires Heads(b, m) && (m.furthest.Some? ==> Near(m.furthest.value, tick))
    ensures Heads(S.Furthest(b, Wrap32(tick)), P.Extended(m, tick))
  {
    if m.furthest.Some? {
      DistanceIsDifference32(m.furthest.value, tick);
    }
  }

  lemma QueueRefines(b: S.Buffer, m: P.Timeline, tick: int, payload: seq<uint8>)
    requires b.Valid() && m.shape.Valid() && P.Ahead(m) && Tracks(b, m) && Heads(b, m)
    requires b.occupied <= b.shape.ceilingFrames && 0 < |payload| <= S.MAX_OPUS_PAYLOAD
    requires InReach(m.cursor, tick) && tick !in m.queue && Aligned(m.shape.frameSamples, tick, m.cursor)
    requires m.furthest.Some? ==> Near(m.furthest.value, tick)
    ensures Tracks(S.Enqueue(b, Wrap32(tick), payload), P.Queue(m, tick, payload))
    ensures Heads(S.Enqueue(b, Wrap32(tick), payload), P.Queue(m, tick, payload))
  {
    var c, n := S.Furthest(b, Wrap32(tick)), P.Extended(m, tick);
    ExtendRefines(b, m, tick);
    BufferRuns.SlotBoundUnreachable(c);
    StoreRefines(c, n, tick, payload);
    P.QueueingKeepsAhead(n, tick, payload);
    HoldRefines(S.Store(c, Wrap32(tick), payload), n.(queue := n.queue[tick := payload]));
  }

  lemma GridAgrees(b: S.Buffer, m: P.Timeline, tick: int)
    requires b.shape.Valid() && b.shape == m.shape && Heads(b, m)
    requires m.origin.Some? && Near(tick, m.origin.value.tick)
    ensures S.OnGrid(b, Wrap32(tick)) <==> Aligned(m.shape.frameSamples, tick, m.origin.value.tick)
  {
    DistanceIsDifference32(tick, m.origin.value.tick);
  }

  lemma LateAgrees(b: S.Buffer, m: P.Timeline, tick: int)
    requires b.cursor == Wrap32(m.cursor) && Near(tick, m.cursor)
    ensures Distance32(Wrap32(tick), b.cursor) < 0 <==> tick < m.cursor
  {
  }

  lemma AdmitRefines(b: S.Buffer, m: P.Timeline, p: S.Packet, tick: int)
    requires b.Valid() && m.shape.Valid() && P.Ahead(m) && Tracks(b, m) && Heads(b, m)
    requires b.occupied <= b.shape.ceilingFrames && 0 < |p.payload| <= S.MAX_OPUS_PAYLOAD
    requires m.origin.Some? && Aligned(m.shape.frameSamples, m.cursor, m.origin.value.tick)
    requires p.timestamp == Wrap32(tick) && Near(tick, m.origin.value.tick) && Near(tick, m.cursor)
    requires tick !in m.queue && (m.furthest.Some? ==> Near(m.furthest.value, tick))
    ensures S.Admit(b, p).1 == P.Admit(m, p, tick).1
    ensures Tracks(S.Admit(b, p).0, P.Admit(m, p, tick).0)
    ensures Heads(S.Admit(b, p).0, P.Admit(m, p, tick).0)
  {
    var c, n := S.Sequenced(b, p.sequence), P.Sequenced(m, p.sequence);
    assert Tracks(c, n) && Heads(c, n);
    GridAgrees(b, m, tick);
    LateAgrees(c, n, tick);
    if S.OnGrid(b, p.timestamp) && tick >= n.cursor {
      AlignedSymmetric(m.shape.frameSamples, m.cursor, m.origin.value.tick);
      AlignedTransitive(m.shape.frameSamples, tick, m.origin.value.tick, m.cursor);
      QueueRefines(c, n, tick, p.payload);
    }
  }

  lemma EmptyRepresents(slots: seq<S.Slot>, cursor: int, next: int)
    requires Represents(slots, cursor, map[])
    ensures Represents(slots, next, map[])
  {
    forall i | 0 <= i < |slots|
      ensures slots[i].Free()
    {
      var t := Unwrap(cursor, slots[i].timestamp);
    }
  }

  /** Anchoring the stream moves an empty buffer's cursor to the first packet. */
  lemma AnchorRefines(b: S.Buffer, m: P.Timeline, tick: int, at: nat)
    requires Refines(b, m)
    ensures var c, n := S.Anchored(b, Wrap32(tick), at), P.Originated(m, tick, at);
            Tracks(c, n) && Heads(c, n) && P.Ahead(n)
  {
    if m.origin.None? {
      EmptyRepresents(b.slots, m.cursor, tick);
    }
  }

  /** A first arrival, once counted and remembered by the ring. */
  lemma FirstRefines(b: S.Buffer, m: P.Timeline, p: S.Packet, tick: int, at: nat)
    requires Refines(b, m) && 0 < |p.payload| <= S.MAX_OPUS_PAYLOAD && p.timestamp == Wrap32(tick) && tick !in m.queue
    requires m.origin.Some? ==> Near(tick, m.origin.value.tick) && Near(tick, m.cursor)
    requires m.furthest.Some? ==> Near(m.furthest.value, tick)
    ensures var r, n := S.Admit(S.Anchored(b, p.timestamp, at), p), P.Admit(P.Originated(m, tick, at), p, tick);
            r.1 == n.1 && Tracks(r.0, n.0) && Heads(r.0, n.0)
  {
    AnchorRefines(b, m, tick, at);
    AlignedSelf(m.shape.frameSamples, tick);
    AdmitRefines(S.Anchored(b, p.timestamp, at), P.Originated(m, tick, at), p, tick);
  }

  /** A push refines: the same admission, and the same state after it. */
  lemma PushRefines(b: S.Buffer, m: P.Timeline, p: S.Packet, tick: int, at: nat)
    requires Refines(b, m) && Fits(m, p, tick)
    ensures S.Push(b, p, at).1 == P.Push(m, p, tick, at).1
    ensures Refines(S.Push(b, p, at).0, P.Push(m, p, tick, at).0)
  {
    P.PushKeepsInv(m, p, tick, at);
    if |p.payload| <= S.MAX_OPUS_PAYLOAD && Arrive(b.seen, p.sequence).0 {
      var seen := Arrive(b.seen, p.sequence).1;
      FirstRefines(S.Received(b).(seen := seen), P.Received(m).(seen := seen), p, tick, at);
    }
  }

  // One pull

  lemma ServeRefines(b: S.Buffer, m: P.Timeline)
    requires Refines(b, m)
    ensures S.Serve(b).1 == P.Serve(m).1
    ensures Tracks(S.Serve(b).0, P.Serve(m).0) && Heads(S.Serve(b).0, P.Serve(m).0)
  {
    FoundIsQueued(b.slots, m.cursor, m.queue, m.cursor);
    if m.cursor in m.queue {
      var found := S.HoldingFrom(b.slots, b.cursor, 0);
      FreeingRepresents(b.slots, m.cursor, m.queue, found, m.cursor, m.cursor);
      assert (m.queue - {m.cursor}).Keys == m.queue.Keys - {m.cursor};
    }
  }

  lemma AdvanceRepresents(slots: seq<S.Slot>, cursor: int, queue: map<int, seq<uint8>>, next: int)
    requires Represents(slots, cursor, queue) && cursor <= next && forall t | t in queue :: next <= t
    ensures Represents(slots, next, queue)
  {
    forall i {:trigger Unwrap(next, slots[i].timestamp)} | 0 <= i < |slots| && !slots[i].Free()
      ensures Unwrap(next, slots[i].timestamp) in queue
      ensures queue[Unwrap(next, slots[i].timestamp)] == slots[i].Payload()
    {
      var t := Unwrap(cursor, slots[i].timestamp);
      UnwrapWraps(cursor, slots[i].timestamp);
      UnwrapInverts(next, t);
    }
  }

  lemma AdvanceRefines(b: S.Buffer, m: P.Timeline)
    requires b.Valid() && Tracks(b, m) && Heads(b, m) && forall t | t in m.queue :: P.Advanced(m).cursor <= t
    ensures Tracks(S.Advanced(b), P.Advanced(m)) && Heads(S.Advanced(b), P.Advanced(m))
  {
    var next := P.Advanced(m).cursor;
    WrapAdds32(m.cursor, m.shape.frameSamples, next);
    AdvanceRepresents(b.slots, m.cursor, m.queue, next);
  }

  /** A pull refines: the same outcome, and the same state after it. */
  lemma PullRefines(b: S.Buffer, m: P.Timeline)
    requires Refines(b, m)
    ensures S.Pull(b).1 == P.Pull(m).1
    ensures Refines(S.Pull(b).0, P.Pull(m).0)
  {
    ServeRefines(b, m);
    P.PullKeepsInv(m);
    AdvanceRefines(S.Serve(b).0, P.Serve(m).0);
  }

  /** The end of the stream reads the same on both sides while the furthest frame is within reach. */
  lemma DrainedRefines(b: S.Buffer, m: P.Timeline)
    requires Refines(b, m) && (m.furthest.Some? ==> Near(m.cursor, m.furthest.value))
    ensures b.Drained() == P.Drained(m)
  {
    if m.furthest.Some? {
      DistanceIsDifference32(m.cursor, m.furthest.value);
    }
  }
}
