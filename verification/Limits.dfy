/**
 Where the hypotheses of the refinement stop holding, and what the buffer does
 then: a copy the ring let through, and a stream past half its timestamp range.
 */
module Limits {
  import opened Wrappers
  import opened Wrap
  import opened SeenWindows
  import opened Grid
  import opened Refinement
  import S = SlotBuffer
  import P = Playout
  import BufferRuns

  // A copy the ring let through

  /** The ring calls the packet new although the frame it stands for is still queued. */
  ghost predicate CopySlipsThrough(m: P.Timeline, p: S.Packet, tick: int)
    requires |m.seen| > 0
  {
    |p.payload| <= S.MAX_OPUS_PAYLOAD && Arrive(m.seen, p.sequence).0 && tick in m.queue
  }

  /** What the slots do with a copy: a second slot is used where the map would keep one entry. */
  lemma CopyIsStoredTwice(b: S.Buffer, m: P.Timeline, timestamp: uint32, tick: int, payload: seq<uint8>)
    requires b.Valid() && Tracks(b, m) && b.occupied <= b.shape.ceilingFrames && tick in m.queue
    requires 0 < |payload| <= S.MAX_OPUS_PAYLOAD
    ensures !Tracks(S.Enqueue(b, timestamp, payload), P.Queue(m, tick, payload))
  {
    BufferRuns.EnqueueCounts(b, timestamp, payload);
    assert m.queue[tick := payload].Keys == m.queue.Keys;
    assert |m.queue[tick := payload]| == |m.queue|;
  }

  /** The buffer as the copy reaches its slots. */
  function Reached(b: S.Buffer, sequence: uint16): (r: S.Buffer)
    requires b.Valid()
    ensures r.Valid() && r.slots == b.slots && r.occupied == b.occupied && r.shape == b.shape && r.cursor == b.cursor
  {
    S.Sequenced(S.Received(b).(seen := Arrive(b.seen, sequence).1), sequence)
  }

  /** A queued tick is always on the grid and never late, so its copy is queued too. */
  lemma CopyIsQueued(b: S.Buffer, m: P.Timeline, p: S.Packet, tick: int, at: nat)
    requires Refines(b, m) && p.payload != [] && p.timestamp == Wrap32(tick) && CopySlipsThrough(m, p, tick)
    requires m.origin.Some? ==> Near(tick, m.origin.value.tick)
    ensures S.Push(b, p, at).1.Queued?
    ensures S.Push(b, p, at).0 == S.Enqueue(Reached(b, p.sequence), p.timestamp, p.payload)
  {
    var seen := Arrive(m.seen, p.sequence).1;
    var c, n := S.Received(b).(seen := seen), P.Received(m).(seen := seen);
    AlignedTransitive(m.shape.frameSamples, tick, m.cursor, m.origin.value.tick);
    GridAgrees(c, n, tick);
    LateAgrees(S.Sequenced(c, p.sequence), P.Sequenced(n, p.sequence), tick);
  }

  lemma CopyIsMapped(m: P.Timeline, p: S.Packet, tick: int, at: nat)
    requires P.Inv(m) && CopySlipsThrough(m, p, tick)
    ensures var n := P.Sequenced(P.Received(m).(seen := Arrive(m.seen, p.sequence).1), p.sequence);
            P.Push(m, p, tick, at).0 == P.Queue(n, tick, p.payload)
  {
    AlignedTransitive(m.shape.frameSamples, tick, m.cursor, m.origin.value.tick);
  }

  lemma CopyBreaksRefinement(b: S.Buffer, m: P.Timeline, p: S.Packet, tick: int, at: nat)
    requires Refines(b, m) && p.payload != [] && p.timestamp == Wrap32(tick) && CopySlipsThrough(m, p, tick)
    requires m.origin.Some? ==> Near(tick, m.origin.value.tick)
    ensures !Refines(S.Push(b, p, at).0, P.Push(m, p, tick, at).0)
  {
    CopyIsQueued(b, m, p, tick, at);
    CopyIsMapped(m, p, tick, at);
    var n := P.Sequenced(P.Received(m).(seen := Arrive(m.seen, p.sequence).1), p.sequence);
    CopyIsStoredTwice(Reached(b, p.sequence), n, p.timestamp, tick, p.payload);
  }

  /**
   Within half the range, a push refines exactly when no copy slips through: the
   one hypothesis about timestamps repeating is as weak as it can be.
   */
  lemma RefinesExactly(b: S.Buffer, m: P.Timeline, p: S.Packet, tick: int, at: nat)
    requires Refines(b, m) && p.payload != [] && p.timestamp == Wrap32(tick)
    requires m.origin.Some? ==> Near(tick, m.origin.value.tick) && Near(tick, m.cursor)
    requires m.furthest.Some? ==> Near(m.furthest.value, tick)
    ensures Refines(S.Push(b, p, at).0, P.Push(m, p, tick, at).0) <==> !CopySlipsThrough(m, p, tick)
  {
    if CopySlipsThrough(m, p, tick) {
      CopyBreaksRefinement(b, m, p, tick, at);
    } else if |p.payload| <= S.MAX_OPUS_PAYLOAD {
      PushRefines(b, m, p, tick, at);
    } else {
      P.PushKeepsInv(m, p, tick, at);
    }
  }

  /**
   Such a copy can arrive in every stream: a packet, then one a whole window
   older, then the first again.
   */
  lemma StragglerLetsACopyIn(shape: S.Shape, payload: seq<uint8>, tick: int, older: int, at: nat)
    requires shape.Valid() && 0 < |payload| <= S.MAX_OPUS_PAYLOAD && older < tick
    ensures var first, straggler := S.Packet(1024, Wrap32(tick), payload), S.Packet(0, Wrap32(older), payload);
            var m := P.Push(P.Push(P.New(shape), first, tick, at).0, straggler, older, at).0;
            && CopySlipsThrough(m, first, tick)
            && m.queue.Keys == {tick} && m.cursor == tick && m.origin.Some? && m.origin.value.tick == tick
  {
    var first, straggler := S.Packet(1024, Wrap32(tick), payload), S.Packet(0, Wrap32(older), payload);
    var size := S.SEEN_WINDOW;
    var ring := Arrive(Empty(size), 1024).1;
    P.FirstIsQueued(P.Received(P.New(shape)).(seen := ring), first, tick, at);
    assert ring[0] == Some(1024);
    assert Arrive(ring, 0) == (true, ring[0 := Some(0)]);
  }

  ghost predicate AllAt(slots: seq<S.Slot>, timestamp: uint32) {
    forall i | 0 <= i < |slots| && !slots[i].Free() :: slots[i].timestamp == timestamp
  }

  /** Every used slot holds the frame of a tick already played, and the cursor has reached `now`. */
  ghost predicate Stuck(b: S.Buffer, tick: int, now: int) {
    b.Valid() && b.occupied > 0 && b.cursor == Wrap32(now) && AllAt(b.slots, Wrap32(tick))
  }

  lemma StoreAgain(b: S.Buffer, timestamp: uint32, payload: seq<uint8>)
    requires b.Valid() && b.occupied == 1 && AllAt(b.slots, timestamp) && 0 < |payload| <= S.MAX_OPUS_PAYLOAD
    ensures var c := S.Enqueue(b, timestamp, payload);
            c.occupied == 2 && c.cursor == b.cursor && AllAt(c.slots, timestamp)
  {
  }

  lemma PullLeavesOne(b: S.Buffer, now: int, next: int)
    requires b.Valid() && b.occupied == 2 && AllAt(b.slots, Wrap32(now))
    requires b.cursor == Wrap32(now) && next == now + b.shape.frameSamples
    ensures S.Pull(b).1.Frame? && Stuck(S.Pull(b).0, now, next)
  {
    S.AllFree(b.slots);
    var i :| 0 <= i < |b.slots| && !b.slots[i].Free();
    assert S.HoldingFrom(b.slots, b.cursor, 0) < |b.slots|;
    WrapAdds32(now, b.shape.frameSamples, next);
  }

  lemma OneQueuedTick(b: S.Buffer, m: P.Timeline)
    requires Tracks(b, m) && m.queue.Keys == {m.cursor}
    ensures b.occupied == 1 && AllAt(b.slots, b.cursor)
  {
    assert |m.queue.Keys| == 1;
    forall i | 0 <= i < |b.slots| && !b.slots[i].Free()
      ensures b.slots[i].timestamp == b.cursor
    {
      var t := UsedTick(b.slots, m.cursor, m.queue, i);
      assert t in m.queue.Keys;
    }
  }

  /** A copy of the only frame queued, at its playout: the frame is handed over and its copy left behind. */
  lemma CopyLeavesStuck(b: S.Buffer, m: P.Timeline, p: S.Packet, at: nat, next: int)
    requires Refines(b, m) && m.queue.Keys == {m.cursor} && m.origin.Some? && Near(m.cursor, m.origin.value.tick)
    requires p.payload != [] && p.timestamp == Wrap32(m.cursor) && CopySlipsThrough(m, p, m.cursor)
    requires next == m.cursor + b.shape.frameSamples
    ensures var c := S.Push(b, p, at).0;
            S.Pull(c).1.Frame? && Stuck(S.Pull(c).0, m.cursor, next)
  {
    CopyIsQueued(b, m, p, m.cursor, at);
    OneQueuedTick(b, m);
    StoreAgain(Reached(b, p.sequence), p.timestamp, p.payload);
    PullLeavesOne(S.Push(b, p, at).0, m.cursor, next);
  }

  /** A number of pulls in a row, and what they handed out. */
  function Pulled(b: S.Buffer, pulls: nat): (r: (S.Buffer, seq<S.Outcome>))
    requires b.Valid()
    ensures r.0.Valid() && |r.1| == pulls
    decreases pulls
  {
    if pulls == 0 then (b, [])
    else
      var (next, outcome) := S.Pull(b);
      var (last, outcomes) := Pulled(next, pulls - 1);
      (last, [outcome] + outcomes)
  }

  lemma StuckConceals(b: S.Buffer, tick: int, now: int, next: int)
    requires Stuck(b, tick, now) && tick < now < tick + MOD32 && next == now + b.shape.frameSamples
    ensures !b.Drained() && S.Pull(b).1 == S.Conceal && Stuck(S.Pull(b).0, tick, next)
  {
    assert Wrap32(now) != Wrap32(tick);
    WrapAdds32(now, b.shape.frameSamples, next);
  }

  /**
   What the second slot costs: once its frame has been played, every pull
   bridges a frame that will never come, and the buffer is never drained, until
   the timestamps have gone all the way round.
   */
  lemma {:induction false} StaleCopyNeverDrains(b: S.Buffer, tick: int, now: int, pulls: nat)
    requires Stuck(b, tick, now) && tick < now
    requires now + Ticks(b.shape.frameSamples, pulls) < tick + MOD32
    ensures forall outcome | outcome in Pulled(b, pulls).1 :: outcome == S.Conceal
    ensures !Pulled(b, pulls).0.Drained()
    decreases pulls
  {
    var step := b.shape.frameSamples;
    var next := now + step;
    if pulls == 0 {
      assert Ticks(step, 0) == 0;
      StuckConceals(b, tick, now, next);
    } else {
      var left := pulls - 1;
      TicksNext(step, left, pulls);
      TicksForward(step, left);
      StuckConceals(b, tick, now, next);
      StaleCopyNeverDrains(S.Pull(b).0, tick, next, left);
    }
  }

  /** The buffer once a packet, a straggler a window older, and the packet again have been pushed on a new one. */
  function AfterCopy(shape: S.Shape, payload: seq<uint8>, tick: int, older: int, at: nat): (b: S.Buffer)
    requires shape.Valid() && payload != []
    ensures b.Valid() && b.shape == shape
  {
    var first, straggler := S.Packet(1024, Wrap32(tick), payload), S.Packet(0, Wrap32(older), payload);
    S.Push(S.Push(S.Push(S.New(shape), first, at).0, straggler, at).0, first, at).0
  }

  /** From a new buffer, three pushes and a pull reach it: the frame is handed over and its copy left behind. */
  lemma CopyReachesStuck(shape: S.Shape, payload: seq<uint8>, tick: int, older: int, at: nat, next: int)
    requires shape.Valid() && 0 < |payload| <= S.MAX_OPUS_PAYLOAD && 0 < tick - older < HALF32
    requires next == tick + shape.frameSamples
    ensures var b := AfterCopy(shape, payload, tick, older, at);
            S.Pull(b).1.Frame? && Stuck(S.Pull(b).0, tick, next)
  {
    var first, straggler := S.Packet(1024, Wrap32(tick), payload), S.Packet(0, Wrap32(older), payload);
    var b0, m0 := S.New(shape), P.New(shape);
    NewRefines(shape);
    PushRefines(b0, m0, first, tick, at);
    var b1, m1 := S.Push(b0, first, at).0, P.Push(m0, first, tick, at).0;
    P.FirstIsQueued(P.Received(m0).(seen := Arrive(m0.seen, 1024).1), first, tick, at);
    PushRefines(b1, m1, straggler, older, at);
    StragglerLetsACopyIn(shape, payload, tick, older, at);
    CopyLeavesStuck(S.Push(b1, straggler, at).0, P.Push(m1, straggler, older, at).0, first, at, next);
  }

  /**
   So at every configuration one copy can keep the buffer from being drained: after
   that first frame every pull conceals, for as many pulls as there are frames in a
   turn of the timestamp.
   */
  lemma OneCopyStopsTheEnd(shape: S.Shape, payload: seq<uint8>, tick: int, older: int, at: nat, pulls: nat)
    requires shape.Valid() && 0 < |payload| <= S.MAX_OPUS_PAYLOAD && 0 < tick - older < HALF32
    requires shape.frameSamples + Ticks(shape.frameSamples, pulls) < MOD32
    ensures var played := S.Pull(AfterCopy(shape, payload, tick, older, at)).0;
            && (forall outcome | outcome in Pulled(played, pulls).1 :: outcome == S.Conceal)
            && !Pulled(played, pulls).0.Drained()
  {
    var next := tick + shape.frameSamples;
    CopyReachesStuck(shape, payload, tick, older, at, next);
    StaleCopyNeverDrains(S.Pull(AfterCopy(shape, payload, tick, older, at)).0, tick, next, pulls);
  }

  // With arrivals too

  /** Slot `i` holds the frame of a tick the cursor has passed. */
  ghost predicate Stale(b: S.Buffer, i: nat, tick: int, now: int) {
    && b.Valid() && b.occupied <= b.shape.ceilingFrames && b.anchor.Some?
    && i < |b.slots| && !b.slots[i].Free() && b.slots[i].timestamp == Wrap32(tick)
    && b.cursor == Wrap32(now)
  }

  lemma StaleSurvivesPull(b: S.Buffer, i: nat, tick: int, now: int, next: int)
    requires Stale(b, i, tick, now) && tick < now < tick + MOD32 && next == now + b.shape.frameSamples
    ensures !b.Drained() && !S.Pull(b).1.Underrun? && Stale(S.Pull(b).0, i, tick, next)
    ensures S.Pull(b).0.counts.overruns == b.counts.overruns
  {
    assert Wrap32(now) != Wrap32(tick);
    WrapAdds32(now, b.shape.frameSamples, next);
    S.AllFree(b.slots);
  }

  lemma StaleSurvivesEnqueue(b: S.Buffer, i: nat, tick: int, now: int, timestamp: uint32, payload: seq<uint8>)
    requires Stale(b, i, tick, now) && 0 < |payload| <= S.MAX_OPUS_PAYLOAD
    ensures var r := S.Enqueue(b, timestamp, payload);
            b.counts.overruns <= r.counts.overruns
                && (r.counts.overruns == b.counts.overruns ==> Stale(r, i, tick, now))
  {
    BufferRuns.EnqueueCounts(b, timestamp, payload);
    BufferRuns.SlotBoundUnreachable(S.Furthest(b, timestamp));
  }

  lemma StaleSurvivesAdmit(b: S.Buffer, i: nat, tick: int, now: int, p: S.Packet)
    requires Stale(b, i, tick, now) && 0 < |p.payload| <= S.MAX_OPUS_PAYLOAD
    ensures var r := S.Admit(b, p).0;
            b.counts.overruns <= r.counts.overruns
                && (r.counts.overruns == b.counts.overruns ==> Stale(r, i, tick, now))
  {
    var s := S.Sequenced(b, p.sequence);
    if S.OnGrid(b, p.timestamp) && Distance32(p.timestamp, s.cursor) >= 0 {
      StaleSurvivesEnqueue(s, i, tick, now, p.timestamp, p.payload);
    }
  }

  lemma StaleSurvivesPush(b: S.Buffer, i: nat, tick: int, now: int, p: S.Packet, at: nat)
    requires Stale(b, i, tick, now) && p.payload != []
    ensures var r := S.Push(b, p, at).0;
            b.counts.overruns <= r.counts.overruns
                && (r.counts.overruns == b.counts.overruns ==> Stale(r, i, tick, now))
  {
    if |p.payload| <= S.MAX_OPUS_PAYLOAD && Arrive(b.seen, p.sequence).0 {
      StaleSurvivesAdmit(S.Received(b).(seen := Arrive(b.seen, p.sequence).1), i, tick, now, p);
    }
  }

  lemma StaleSurvivesStep(b: S.Buffer, i: nat, tick: int, now: int, call: BufferRuns.Call, next: int)
    requires Stale(b, i, tick, now) && tick < now < tick + MOD32 && call.Legal()
    requires next == if call.Pulls? then now + b.shape.frameSamples else now
    ensures var (r, answer) := BufferRuns.Step(b, call);
            && answer != BufferRuns.Served(S.Underrun)
            && b.counts.overruns <= r.counts.overruns
            && (r.counts.overruns == b.counts.overruns ==> Stale(r, i, tick, next))
  {
    match call
    case Pulls => StaleSurvivesPull(b, i, tick, now, next);
    case Arrives(packet, at) => StaleSurvivesPush(b, i, tick, now, packet, at);
  }

  lemma {:induction false} OverrunsGrow(b: S.Buffer, calls: seq<BufferRuns.Call>)
    requires b.Valid() && b.occupied <= b.shape.ceilingFrames && BufferRuns.Legal(calls)
    ensures b.counts.overruns <= BufferRuns.Run(b, calls).counts.overruns
    decreases |calls|
  {
    if calls != [] {
      BufferRuns.StepKeepsCeiling(b, calls[0]);
      OverrunsGrow(BufferRuns.Step(b, calls[0]).0, calls[1..]);
    }
  }

  /**
   A stale slot keeps the buffer from being drained through any run of pulls and
   arrivals, and every pull from underrunning, until an overrun gives it up or the
   timestamps have gone all the way round.
   */
  lemma {:induction false} StaleSlotNeverDrains(b: S.Buffer, i: nat, tick: int, now: int, calls: seq<BufferRuns.Call>)
    requires Stale(b, i, tick, now) && tick < now && BufferRuns.Legal(calls)
    requires now + Ticks(b.shape.frameSamples, BufferRuns.PullCount(calls)) < tick + MOD32
    requires BufferRuns.Run(b, calls).counts.overruns == b.counts.overruns
    ensures !BufferRuns.Run(b, calls).Drained()
    ensures BufferRuns.Served(S.Underrun) !in BufferRuns.Answers(b, calls)
    decreases |calls|
  {
    var step, pulls := b.shape.frameSamples, BufferRuns.PullCount(calls);
    TicksForward(step, pulls);
    if calls == [] {
      var next := now + step;
      StaleSurvivesPull(b, i, tick, now, next);
    } else {
      var r := BufferRuns.Step(b, calls[0]).0;
      var left := BufferRuns.PullCount(calls[1..]);
      var next := if calls[0].Pulls? then now + step else now;
      StaleSurvivesStep(b, i, tick, now, calls[0], next);
      BufferRuns.StepKeepsCeiling(b, calls[0]);
      OverrunsGrow(r, calls[1..]);
      if calls[0].Pulls? {
        TicksNext(step, left, pulls);
      }
      StaleSlotNeverDrains(r, i, tick, next, calls[1..]);
    }
  }

  lemma Nearest(timestamp: uint32, cursor: uint32, tick: int)
    requires tick == cursor + Distance32(timestamp, cursor)
    ensures Wrap32(tick) == timestamp && Wrap32(cursor) == cursor
  {
  }

  lemma Behind(timestamp: uint32, cursor: uint32, step: uint32, next: int, ahead: int)
    requires next == timestamp + step && ahead == Distance32(timestamp, cursor) + step
    requires -HALF32 <= ahead < HALF32
    ensures Distance32(Wrap32(next), cursor) == ahead
  {
    var tick := cursor + Distance32(timestamp, cursor);
    var sum := cursor + ahead;
    Nearest(timestamp, cursor, tick);
    assert Wrap32(sum) == Wrap32(next) by {
      WrapAdds32(tick, step, sum);
    }
    DistanceIsDifference32(sum, cursor);
  }

  /** A skip moves the cursor forward exactly when the oldest slot is less than a frame behind it. */
  lemma SkipMovesForwardExactly(b: S.Buffer)
    requires b.Valid() && b.occupied > 0
    ensures S.OldestIn(b.slots, b.cursor, |b.slots|).Some?
    ensures var oldest := b.slots[S.OldestIn(b.slots, b.cursor, |b.slots|).value].timestamp;
            var ahead := Distance32(oldest, b.cursor) + b.shape.frameSamples;
            ahead < HALF32 ==> (Distance32(S.SkipOldest(b).cursor, b.cursor) > 0 <==> ahead > 0)
  {
    S.AllFree(b.slots);
    var oldest := b.slots[S.OldestIn(b.slots, b.cursor, |b.slots|).value].timestamp;
    var next := oldest + b.shape.frameSamples;
    var ahead := Distance32(oldest, b.cursor) + b.shape.frameSamples;
    if -HALF32 <= ahead < HALF32 {
      Behind(oldest, b.cursor, b.shape.frameSamples, next, ahead);
    }
  }

  // Past half the timestamp range

  /** How many whole turns of the timestamp the wrapped distance loses. */
  function Turns(tick: int, anchor: int): int {
    (tick - anchor + HALF32) / MOD32
  }

  lemma DistanceLosesTurns(tick: int, anchor: int)
    ensures Distance32(Wrap32(tick), Wrap32(anchor)) == tick - anchor - Turns(tick, anchor) * MOD32
  {
  }

  lemma ShiftedGrid(step: int, tick: int, anchor: int, shift: int, shifted: int)
    requires step > 0 && Aligned(step, tick, anchor) && shifted == tick - shift
    ensures Aligned(step, shifted, anchor) <==> shift % step == 0
  {
    assert Aligned(step, tick, shifted) <==> shift % step == 0;
    if Aligned(step, shifted, anchor) {
      AlignedSymmetric(step, shifted, anchor);
      AlignedTransitive(step, tick, anchor, shifted);
    }
    if Aligned(step, tick, shifted) {
      AlignedSymmetric(step, tick, shifted);
      AlignedTransitive(step, shifted, tick, anchor);
    }
  }

  /**
   A packet truly on the grid is judged on it exactly when the turns lost are a
   whole number of frames, however long the stream has run.
   */
  lemma OnGridExactly(b: S.Buffer, anchor: int, tick: int)
    requires b.shape.Valid() && b.anchor.Some? && b.anchor.value.rtp == Wrap32(anchor)
    requires Aligned(b.shape.frameSamples, tick, anchor)
    ensures S.OnGrid(b, Wrap32(tick)) <==> Turns(tick, anchor) * MOD32 % b.shape.frameSamples == 0
  {
    var shift := Turns(tick, anchor) * MOD32;
    var shifted := tick - shift;
    DistanceLosesTurns(tick, anchor);
    ShiftedGrid(b.shape.frameSamples, tick, anchor, shift, shifted);
  }

  /** Every frame length is a multiple of five samples. */
  lemma FramesAreFives(rate: S.SampleRate, frame: S.FrameDuration, target: nat)
    ensures S.ShapeFor(rate, frame, target).frameSamples % 5 == 0
  {
  }

  lemma TurnIsNoWholeFrames(step: int)
    requires step > 0 && step % 5 == 0
    ensures MOD32 % step != 0
  {
    var frames, fifth := MOD32 / step, step / 5;
    var rest := MOD32 % step;
    assert frames * (5 * fifth) == 5 * (frames * fifth);
    assert MOD32 == 5 * (frames * fifth) + rest;
  }

  lemma GridFailsPastHalfTheRange(b: S.Buffer, rate: S.SampleRate, frame: S.FrameDuration, target: nat, anchor: int,
      tick: int)
    requires b.shape == S.ShapeFor(rate, frame, target)
    requires b.anchor.Some? && b.anchor.value.rtp == Wrap32(anchor)
    requires Aligned(b.shape.frameSamples, tick, anchor) && HALF32 <= tick - anchor < HALF32 + MOD32
    ensures !S.OnGrid(b, Wrap32(tick))
  {
    FramesAreFives(rate, frame, target);
    TurnIsNoWholeFrames(b.shape.frameSamples);
    OnGridExactly(b, anchor, tick);
    assert Turns(tick, anchor) == 1;
  }

  /**
   So at every configuration, for the whole turn that starts 2^31 ticks after the
   anchor, every first arrival the sender put on the grid is refused as off it, and
   all that changes is the count of them and what the ring remembers.
   */
  lemma RefusedPastHalfTheRange(
    b: S.Buffer, rate: S.SampleRate, frame: S.FrameDuration, target: nat, anchor: int, tick: int, p: S.Packet, at: nat)
    requires b.Valid() && b.shape == S.ShapeFor(rate, frame, target)
    requires b.anchor.Some? && b.anchor.value.rtp == Wrap32(anchor)
    requires Aligned(b.shape.frameSamples, tick, anchor) && HALF32 <= tick - anchor < HALF32 + MOD32
    requires 0 < |p.payload| <= S.MAX_OPUS_PAYLOAD && p.timestamp == Wrap32(tick) && Arrive(b.seen, p.sequence).0
    ensures S.Push(b, p, at).1 == S.OffGrid
    ensures S.Push(b, p, at).0 == b.(seen := Arrive(b.seen, p.sequence).1, counts := b.counts.(
                                       received := b.counts.received + 1, offGrid := b.counts.offGrid + 1))
  {
    var c := S.Received(b).(seen := Arrive(b.seen, p.sequence).1);
    GridFailsPastHalfTheRange(c, rate, frame, target, anchor, tick);
  }

  /**
   When an empty buffer reads as drained, exactly: while the cursor is past the furthest
   frame by less than half the range. A sink that pulled on beyond that would be told
   there is still something to come.
   */
  lemma EmptyIsDrainedExactly(b: S.Buffer, cursor: int, furthest: int)
    requires b.occupied == 0 && b.highestTimestamp == Some(Wrap32(furthest)) && b.cursor == Wrap32(cursor)
    requires -HALF32 <= cursor - furthest < MOD32
    ensures b.Drained() <==> 0 < cursor - furthest < HALF32
  {
    DistanceLosesTurns(cursor, furthest);
  }
}
