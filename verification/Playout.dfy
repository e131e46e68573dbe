/**
 The jitter buffer as it is meant: a map from unwrapped tick to payload, and a
 cursor that only moves forward along the sample clock. No slots, no wrapping,
 no search.
 */
module Playout {
  import opened Wrappers
  import opened Wrap
  import opened SeenWindows
  import opened Grid
  import opened SlotBuffer

  datatype Origin = Origin(tick: int, playout: nat)

  datatype Timeline = Timeline(
    shape: Shape, queue: map<int, seq<uint8>>, origin: Option<Origin>, cursor: int,
    highestSequence: Option<uint16>, furthest: Option<int>, seen: Ring, counts: Counts)

  function Travelled(m: Timeline, oldest: int): nat {
    Max(oldest - m.cursor, 0) + m.shape.frameSamples
  }

  ghost function Skip(m: Timeline): (r: Timeline)
    requires m.queue != map[]
    ensures r.shape == m.shape && |r.queue| == |m.queue| - 1
  {
    var oldest := Least(m.queue.Keys);
    var rest := m.queue - {oldest};
    assert rest.Keys == m.queue.Keys - {oldest};
    m.(queue := rest,
       cursor := oldest + m.shape.frameSamples,
       counts := m.counts.Skip(Travelled(m, oldest)))
  }

  ghost function SkipDown(m: Timeline): (r: Timeline)
    requires m.shape.Valid()
    ensures r.shape == m.shape
    decreases |m.queue|
  {
    if |m.queue| > m.shape.targetFrames then SkipDown(Skip(m)) else m
  }

  function Overrun(m: Timeline): Timeline {
    m.(counts := m.counts.Overrun())
  }

  ghost function Hold(m: Timeline): (r: Timeline)
    requires m.shape.Valid()
    ensures r.shape == m.shape
  {
    if |m.queue| <= m.shape.ceilingFrames then m else SkipDown(Overrun(m))
  }

  function Extended(m: Timeline, tick: int): Timeline {
    if m.furthest.Some? && m.furthest.value >= tick then m else m.(furthest := Some(tick))
  }

  ghost function Queue(m: Timeline, tick: int, payload: seq<uint8>): Timeline
    requires m.shape.Valid()
  {
    Hold(Extended(m, tick).(queue := m.queue[tick := payload]))
  }

  predicate IsReordered(m: Timeline, sequence: uint16) {
    m.highestSequence.Some? && Distance16(sequence, m.highestSequence.value) < 0
  }

  function Sequenced(m: Timeline, sequence: uint16): Timeline {
    if IsReordered(m, sequence) then m.(counts := m.counts.Reorder())
    else m.(highestSequence := Some(sequence))
  }

  function Originated(m: Timeline, tick: int, at: nat): Timeline {
    if m.origin.Some? then m
    else m.(origin := Some(Origin(tick, at + m.shape.Target())), cursor := tick)
  }

  ghost function Admit(m: Timeline, p: Packet, tick: int): (Timeline, Admission)
    requires m.shape.Valid() && m.origin.Some?
  {
    if !Aligned(m.shape.frameSamples, tick, m.origin.value.tick) then
      (m.(counts := m.counts.Refuse(OffGrid)), OffGrid)
    else
      var s := Sequenced(m, p.sequence);
      if tick < s.cursor then (s.(counts := s.counts.Refuse(Late)), Late)
      else (Queue(s, tick, p.payload), Queued(IsReordered(m, p.sequence)))
  }

  function Received(m: Timeline): Timeline {
    m.(counts := m.counts.Receive())
  }

  /** One arrival, whose wire timestamp stands for `tick`. */
  ghost function Push(m: Timeline, p: Packet, tick: int, at: nat): (Timeline, Admission)
    requires m.shape.Valid() && |m.seen| == SEEN_WINDOW
  {
    var m := Received(m);
    if |p.payload| > MAX_OPUS_PAYLOAD then
      (m.(counts := m.counts.Refuse(Oversize)), Oversize)
    else
      var (first, seen) := Arrive(m.seen, p.sequence);
      if !first then (m.(counts := m.counts.Refuse(Duplicate)), Duplicate)
      else Admit(Originated(m.(seen := seen), tick, at), p, tick)
  }

  function Serve(m: Timeline): (Timeline, Outcome) {
    if m.cursor in m.queue then
      (m.(queue := m.queue - {m.cursor}, counts := m.counts.Play(m.shape.frameSamples)), Frame(m.queue[m.cursor]))
    else if m.queue != map[] then
      (m.(counts := m.counts.Bridge(m.shape.frameSamples)), Conceal)
    else
      (m.(counts := m.counts.Starve()), Underrun)
  }

  function Advanced(m: Timeline): Timeline {
    m.(cursor := m.cursor + m.shape.frameSamples, counts := m.counts.Expect(m.shape.frameSamples))
  }

  function Pull(m: Timeline): (Timeline, Outcome) {
    var (served, outcome) := Serve(m);
    (Advanced(served), outcome)
  }

  predicate Drained(m: Timeline) {
    m.furthest.Some? && m.queue == map[] && m.cursor > m.furthest.value
  }

  function New(shape: Shape): Timeline {
    Timeline(shape, map[], None, 0, None, None, Empty(SEEN_WINDOW), ZERO)
  }

  // What every call keeps

  ghost predicate AheadOf(step: int, cursor: int, ticks: set<int>)
    requires step > 0
  {
    forall t | t in ticks :: cursor <= t && Aligned(step, t, cursor)
  }

  /** Every queued frame is a whole number of frames at or past the cursor. */
  ghost predicate Ahead(m: Timeline)
    requires m.shape.Valid()
  {
    AheadOf(m.shape.frameSamples, m.cursor, m.queue.Keys)
  }

  /** Once anchored, the grid runs from the origin through the cursor, and the furthest frame is queued or behind. */
  ghost predicate Tracked(m: Timeline)
    requires m.shape.Valid()
  {
    && m.origin.Some? && m.furthest.Some?
    && m.origin.value.tick <= m.cursor
    && Aligned(m.shape.frameSamples, m.cursor, m.origin.value.tick)
    && (m.furthest.value in m.queue || m.furthest.value < m.cursor)
    && forall t | t in m.queue :: t <= m.furthest.value
  }

  ghost predicate Inv(m: Timeline) {
    && m.shape.Valid() && |m.seen| == SEEN_WINDOW
    && Ahead(m)
    && |m.queue| <= m.shape.ceilingFrames
    && (m.origin.None? ==> m.queue == map[] && m.furthest.None?)
    && (m.origin.Some? ==> Tracked(m))
  }

  ghost function Newer(queue: set<int>, tick: int): set<int> {
    set x | x in queue && x > tick
  }

  /** The frames that fewer than `n` queued frames are newer than. */
  ghost function Newest(queue: set<int>, n: nat): set<int> {
    set t | t in queue && |Newer(queue, t)| < n
  }

  /** Past the oldest tick by one step, the others are still ahead and still on the grid. */
  lemma RestIsAhead(step: int, cursor: int, ticks: set<int>, oldest: int, next: int)
    requires step > 0 && AheadOf(step, cursor, ticks) && Aligned(step, oldest, cursor)
    requires (forall t | t in ticks :: oldest <= t) && next == oldest + step
    ensures AheadOf(step, next, ticks - {oldest})
    ensures Aligned(step, next, oldest)
  {
    AlignedSymmetric(step, oldest, cursor);
    AlignedNext(step, oldest, next);
    forall t | t in ticks - {oldest}
      ensures next <= t && Aligned(step, t, next)
    {
      AlignedTransitive(step, t, cursor, oldest);
      AlignedGap(step, oldest, t);
      AlignedTransitive(step, t, oldest, next);
    }
  }

  lemma SkipKeepsAhead(m: Timeline)
    requires m.shape.Valid() && Ahead(m) && m.queue != map[]
    ensures Ahead(Skip(m))
    ensures Skip(m).cursor > m.cursor && Aligned(m.shape.frameSamples, Skip(m).cursor, m.cursor)
    ensures Skip(m).counts.expectedSamples - m.counts.expectedSamples == Skip(m).cursor - m.cursor
  {
    var oldest := Least(m.queue.Keys);
    RestIsAhead(m.shape.frameSamples, m.cursor, m.queue.Keys, oldest, Skip(m).cursor);
    AlignedTransitive(m.shape.frameSamples, Skip(m).cursor, oldest, m.cursor);
    assert Skip(m).queue.Keys == m.queue.Keys - {oldest};
  }

  /** Removing the oldest frame does not change which frames are the newest `n`. */
  lemma NewestAfterOldest(queue: set<int>, oldest: int, n: nat)
    requires oldest in queue && (forall t | t in queue :: oldest <= t) && |queue| > n
    ensures Newest(queue, n) == Newest(queue - {oldest}, n)
  {
    assert Newer(queue, oldest) == queue - {oldest};
    forall t | t in queue && t != oldest
      ensures Newer(queue, t) == Newer(queue - {oldest}, t)
    {
    }
  }

  lemma {:induction false} SubsetSize(a: set<int>, b: set<int>)
    requires a <= b
    ensures |a| <= |b|
  {
    if a != {} {
      var x := Member(a);
      SubsetSize(a - {x}, b - {x});
    }
  }

  lemma NewestOfFew(queue: set<int>, n: nat)
    requires |queue| <= n
    ensures Newest(queue, n) == queue
  {
    forall t | t in queue
      ensures |Newer(queue, t)| < n
    {
      SubsetSize(Newer(queue, t), queue - {t});
    }
  }

  /** The cursor moved forward over what was given up, and the counters say how far. */
  ghost predicate SkippedTo(m: Timeline, r: Timeline)
    requires m.shape.Valid()
  {
    && r.cursor >= m.cursor && Aligned(m.shape.frameSamples, r.cursor, m.cursor)
    && r.counts.expectedSamples - m.counts.expectedSamples == r.cursor - m.cursor
    && r.counts.overrunFrames - m.counts.overrunFrames == |m.queue| - |r.queue|
    && (forall t | t in r.queue :: t in m.queue && r.queue[t] == m.queue[t])
    && (forall t | t in m.queue && t !in r.queue :: t < r.cursor)
    && r == m.(queue := r.queue, cursor := r.cursor,
               counts := m.counts.(overruns := r.counts.overruns, overrunFrames := r.counts.overrunFrames,
                                   expectedSamples := r.counts.expectedSamples))
  }

  lemma SkipIsSkippedTo(m: Timeline)
    requires m.shape.Valid() && Ahead(m) && m.queue != map[]
    ensures SkippedTo(m, Skip(m))
  {
    SkipKeepsAhead(m);
  }

  lemma SkippedToTwice(m: Timeline, n: Timeline, r: Timeline)
    requires m.shape.Valid() && n.shape.Valid() && SkippedTo(m, n) && SkippedTo(n, r)
    ensures SkippedTo(m, r)
  {
    AlignedTransitive(m.shape.frameSamples, r.cursor, n.cursor, m.cursor);
  }

  lemma {:induction false} SkipDownMoves(m: Timeline)
    requires m.shape.Valid() && Ahead(m)
    ensures SkippedTo(m, SkipDown(m)) && Ahead(SkipDown(m)) && SkipDown(m).counts.overruns == m.counts.overruns
    decreases |m.queue|
  {
    if |m.queue| > m.shape.targetFrames {
      SkipIsSkippedTo(m);
      SkipKeepsAhead(m);
      SkipDownMoves(Skip(m));
      SkippedToTwice(m, Skip(m), SkipDown(m));
    }
  }

  /** Skipping down to the target keeps exactly the target's newest frames. */
  lemma {:induction false} SkipDownKeepsNewest(m: Timeline)
    requires m.shape.Valid() && |m.queue| >= m.shape.targetFrames
    ensures SkipDown(m).queue.Keys == Newest(m.queue.Keys, m.shape.targetFrames)
    ensures |SkipDown(m).queue| == m.shape.targetFrames
    decreases |m.queue|
  {
    if |m.queue| > m.shape.targetFrames {
      var next, oldest := Skip(m), Least(m.queue.Keys);
      SkipDownKeepsNewest(next);
      assert next.queue.Keys == m.queue.Keys - {oldest};
      NewestAfterOldest(m.queue.Keys, oldest, m.shape.targetFrames);
    } else {
      NewestOfFew(m.queue.Keys, m.shape.targetFrames);
    }
  }

  // The invariant, call by call

  lemma HoldMoves(m: Timeline)
    requires m.shape.Valid() && Ahead(m)
    ensures Ahead(Hold(m)) && SkippedTo(m, Hold(m))
  {
    if |m.queue| > m.shape.ceilingFrames {
      SkipDownMoves(Overrun(m));
    } else {
      AlignedSelf(m.shape.frameSamples, m.cursor);
    }
  }

  /**
   A breach of the ceiling is one overrun: it keeps exactly the target's newest
   frames, gives up all the others, and below the ceiling nothing happens.
   */
  lemma HoldKeepsNewest(m: Timeline)
    requires m.shape.Valid() && Ahead(m)
    ensures |m.queue| <= m.shape.ceilingFrames ==> Hold(m) == m
    ensures |m.queue| > m.shape.ceilingFrames ==>
      && Hold(m).queue.Keys == Newest(m.queue.Keys, m.shape.targetFrames)
      && Hold(m).counts.overruns == m.counts.overruns + 1
      && Hold(m).counts.overrunFrames == m.counts.overrunFrames + |m.queue| - m.shape.targetFrames
    ensures |Hold(m).queue| <= m.shape.ceilingFrames
    ensures m.queue != map[] ==> Hold(m).queue != map[]
  {
    if |m.queue| > m.shape.ceilingFrames {
      SkipDownMoves(Overrun(m));
      SkipDownKeepsNewest(Overrun(m));
    }
  }

  lemma SkippedToKeepsTracked(m: Timeline, r: Timeline)
    requires m.shape.Valid() && SkippedTo(m, r) && Tracked(m)
    ensures Tracked(r)
  {
    AlignedTransitive(m.shape.frameSamples, r.cursor, m.cursor, m.origin.value.tick);
  }

  lemma QueueingKeepsAhead(m: Timeline, tick: int, payload: seq<uint8>)
    requires m.shape.Valid() && Ahead(m) && tick >= m.cursor && Aligned(m.shape.frameSamples, tick, m.cursor)
    ensures Ahead(m.(queue := m.queue[tick := payload]))
  {
  }

  /** Queueing a frame adds it, then at most skips forward; something always stays queued. */
  lemma QueueMoves(m: Timeline, tick: int, payload: seq<uint8>)
    requires Inv(m) && m.origin.Some? && tick >= m.cursor
    requires Aligned(m.shape.frameSamples, tick, m.origin.value.tick)
    ensures var q, r := Extended(m, tick).(queue := m.queue[tick := payload]), Queue(m, tick, payload);
            && Ahead(r) && SkippedTo(q, r) && Tracked(q)
            && r.queue != map[] && |r.queue| <= m.shape.ceilingFrames
            && m.counts.overruns <= r.counts.overruns
            && (r.counts.overruns == m.counts.overruns ==> r == q)
  {
    AlignedSymmetric(m.shape.frameSamples, m.cursor, m.origin.value.tick);
    AlignedTransitive(m.shape.frameSamples, tick, m.origin.value.tick, m.cursor);
    var n := Extended(m, tick);
    QueueingKeepsAhead(n, tick, payload);
    var q := n.(queue := m.queue[tick := payload]);
    assert tick in q.queue;
    HoldMoves(q);
    HoldKeepsNewest(q);
  }

  lemma QueueKeepsInv(m: Timeline, tick: int, payload: seq<uint8>)
    requires Inv(m) && m.origin.Some? && tick >= m.cursor
    requires Aligned(m.shape.frameSamples, tick, m.origin.value.tick)
    ensures Inv(Queue(m, tick, payload))
  {
    QueueMoves(m, tick, payload);
    SkippedToKeepsTracked(Extended(m, tick).(queue := m.queue[tick := payload]), Queue(m, tick, payload));
  }

  /** The packet that anchors the stream is always on the grid, never late, and alone in the queue. */
  lemma FirstIsQueued(m: Timeline, p: Packet, tick: int, at: nat)
    requires Inv(m) && m.origin.None?
    ensures var r := Admit(Originated(m, tick, at), p, tick);
            && Inv(r.0) && r.1 == Queued(IsReordered(m, p.sequence))
            && r.0 == Sequenced(Originated(m, tick, at), p.sequence).(queue := map[tick := p.payload],
                furthest := Some(tick))
  {
    AlignedSelf(m.shape.frameSamples, tick);
  }

  lemma AdmitKeepsInv(m: Timeline, p: Packet, tick: int)
    requires Inv(m) && m.origin.Some?
    ensures Inv(Admit(m, p, tick).0)
  {
    var s := Sequenced(m, p.sequence);
    assert Inv(s);
    if Aligned(m.shape.frameSamples, tick, m.origin.value.tick) && tick >= s.cursor {
      QueueKeepsInv(s, tick, p.payload);
    } else {
      assert Ahead(Admit(m, p, tick).0) && Tracked(Admit(m, p, tick).0);
    }
  }

  lemma PushKeepsInv(m: Timeline, p: Packet, tick: int, at: nat)
    requires Inv(m)
    ensures Inv(Push(m, p, tick, at).0)
  {
    if |p.payload| <= MAX_OPUS_PAYLOAD && Arrive(m.seen, p.sequence).0 {
      var n := Received(m).(seen := Arrive(m.seen, p.sequence).1);
      if m.origin.None? {
        FirstIsQueued(n, p, tick, at);
      } else {
        AdmitKeepsInv(n, p, tick);
      }
    }
  }

  lemma PullKeepsAhead(m: Timeline)
    requires m.shape.Valid() && Ahead(m)
    ensures Ahead(Pull(m).0)
  {
    AlignedSelf(m.shape.frameSamples, m.cursor);
    RestIsAhead(m.shape.frameSamples, m.cursor, m.queue.Keys, m.cursor, Pull(m).0.cursor);
    assert Pull(m).0.queue.Keys == m.queue.Keys - {m.cursor};
  }

  lemma PullKeepsInv(m: Timeline)
    requires Inv(m)
    ensures Inv(Pull(m).0)
  {
    PullKeepsAhead(m);
    var next := Pull(m).0.cursor;
    AlignedNext(m.shape.frameSamples, m.cursor, next);
    if m.cursor in m.queue {
      assert Pull(m).0.queue.Keys == m.queue.Keys - {m.cursor};
    }
    if m.origin.Some? {
      AlignedTransitive(m.shape.frameSamples, next, m.cursor, m.origin.value.tick);
    }
  }

  /**
   Once anchored, the two halves of the drained test always agree: nothing is
   queued exactly when the cursor has passed the furthest frame ever queued.
   */
  lemma DrainedExactly(m: Timeline)
    requires Inv(m) && m.origin.Some?
    ensures Drained(m) <==> m.queue == map[]
    ensures Drained(m) <==> m.cursor > m.furthest.value
  {
    if m.queue != map[] {
      assert m.queue.Keys != {};
      var t := Member(m.queue.Keys);
      assert t in m.queue && m.cursor <= t <= m.furthest.value;
    }
  }
}
