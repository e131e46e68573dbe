/**
 Whole runs of the jitter buffer, for every sequence of calls: any packets, in
 any order, with any timestamps, interleaved with pulls in any way.
 */
module BufferRuns {
  import opened Wrappers
  import opened Wrap
  import opened SeenWindows
  import opened Grid
  import opened SlotBuffer

  datatype Call = Arrives(packet: Packet, at: nat) | Pulls {
    /** The parser never hands over an empty payload; nothing else is assumed of a packet. */
    predicate Legal() {
      Arrives? ==> packet.payload != []
    }
  }

  datatype Answer = Admitted(admission: Admission) | Served(outcome: Outcome)

  ghost predicate Legal(calls: seq<Call>) {
    forall i | 0 <= i < |calls| :: calls[i].Legal()
  }

  function Step(b: Buffer, call: Call): (r: (Buffer, Answer))
    requires b.Valid() && call.Legal()
    ensures r.0.Valid() && r.0.shape == b.shape
  {
    match call
    case Arrives(packet, at) => var (after, admission) := Push(b, packet, at); (after, Admitted(admission))
    case Pulls => var (after, outcome) := Pull(b); (after, Served(outcome))
  }

  ghost function Run(b: Buffer, calls: seq<Call>): (r: Buffer)
    requires b.Valid() && Legal(calls)
    ensures r.Valid() && r.shape == b.shape
    decreases |calls|
  {
    if calls == [] then b else Run(Step(b, calls[0]).0, calls[1..])
  }

  ghost function Answers(b: Buffer, calls: seq<Call>): (answers: seq<Answer>)
    requires b.Valid() && Legal(calls)
    ensures |answers| == |calls|
    decreases |calls|
  {
    if calls == [] then [] else [Step(b, calls[0]).1] + Answers(Step(b, calls[0]).0, calls[1..])
  }

  function PullCount(calls: seq<Call>): nat {
    if calls == [] then 0 else (if calls[0].Pulls? then 1 else 0) + PullCount(calls[1..])
  }

  // The account

  function Discard(shape: Shape): int {
    shape.ceilingFrames + 1 - shape.targetFrames
  }

  /** Every packet is in exactly one place, and every discard is a whole overrun's worth. */
  ghost predicate Balanced(b: Buffer) {
    var c := b.counts;
    && b.occupied <= b.shape.ceilingFrames
    && c.received == c.oversize + c.duplicate + c.offGrid + c.late + c.played + c.overrunFrames + b.occupied
    && c.overrunFrames == c.overruns * Discard(b.shape)
    && c.underruns <= c.concealed
    && c.playedSamples == Ticks(b.shape.frameSamples, c.Heard())
    && c.playedSamples <= c.expectedSamples
  }

  lemma SkipOldestCounts(b: Buffer)
    requires b.Valid() && b.occupied > 0
    ensures var r := SkipOldest(b);
            && r.occupied == b.occupied - 1
            && r.counts.overrunFrames == b.counts.overrunFrames + 1
            && r.counts.expectedSamples > b.counts.expectedSamples
            && r == b.(slots := r.slots, occupied := r.occupied, cursor := r.cursor,
                       counts := b.counts.(overrunFrames := r.counts.overrunFrames,
                           expectedSamples := r.counts.expectedSamples))
  {
  }

  /** What skipping down to the target leaves alone, and what it counts. */
  lemma {:induction false} SkipToTargetCounts(b: Buffer)
    requires b.Valid()
    ensures var r := SkipToTarget(b);
            && r.occupied == (if b.occupied < b.shape.targetFrames then b.occupied else b.shape.targetFrames)
            && r.counts.overrunFrames == b.counts.overrunFrames + b.occupied - r.occupied
            && r.counts.expectedSamples >= b.counts.expectedSamples
            && r == b.(slots := r.slots, occupied := r.occupied, cursor := r.cursor,
                       counts := b.counts.(overrunFrames := r.counts.overrunFrames,
                           expectedSamples := r.counts.expectedSamples))
    decreases b.occupied
  {
    if b.occupied > b.shape.targetFrames {
      SkipOldestCounts(b);
      SkipToTargetCounts(SkipOldest(b));
    }
  }

  /** While occupancy holds to the ceiling, the slot bound never fires and a free slot always exists. */
  lemma SlotBoundUnreachable(b: Buffer)
    requires b.Valid() && b.occupied <= b.shape.ceilingFrames
    ensures MakeRoom(b) == b
    ensures FreeFrom(b.slots, 0) < |b.slots|
  {
    NoneFree(b.slots);
  }

  lemma EnqueueCounts(b: Buffer, timestamp: uint32, payload: seq<uint8>)
    requires b.Valid() && b.occupied <= b.shape.ceilingFrames && 0 < |payload| <= MAX_OPUS_PAYLOAD
    ensures var r := Enqueue(b, timestamp, payload);
            var overran := b.occupied == b.shape.ceilingFrames;
            && r.occupied == (if overran then b.shape.targetFrames else b.occupied + 1)
            && r.counts.overruns == b.counts.overruns + (if overran then 1 else 0)
            && r.counts.overrunFrames == b.counts.overrunFrames + (if overran then Discard(b.shape) else 0)
            && r.counts.expectedSamples >= b.counts.expectedSamples
            && r.counts == b.counts.(overruns := r.counts.overruns, overrunFrames := r.counts.overrunFrames,
                                     expectedSamples := r.counts.expectedSamples)
  {
    var furthest := Furthest(b, timestamp);
    SlotBoundUnreachable(furthest);
    var stored := Store(furthest, timestamp, payload);
    if stored.occupied > b.shape.ceilingFrames {
      SkipToTargetCounts(Overrun(stored));
    }
  }

  /** Queueing a frame moves neither the anchor nor the ring nor the highest sequence number. */
  lemma EnqueueRemembers(b: Buffer, timestamp: uint32, payload: seq<uint8>)
    requires b.Valid() && b.occupied <= b.shape.ceilingFrames && 0 < |payload| <= MAX_OPUS_PAYLOAD
    ensures var r := Enqueue(b, timestamp, payload);
            r.anchor == b.anchor && r.seen == b.seen && r.highestSequence == b.highestSequence
  {
    var furthest := Furthest(b, timestamp);
    SlotBoundUnreachable(furthest);
    var stored := Store(furthest, timestamp, payload);
    if stored.occupied > b.shape.ceilingFrames {
      SkipToTargetCounts(Overrun(stored));
    }
  }

  /** Not too large, so the ring is asked about it. */
  predicate FitsSlot(p: Packet) {
    |p.payload| <= MAX_OPUS_PAYLOAD
  }

  /** Neither too large nor a copy. */
  predicate Entered(why: Admission) {
    why != Oversize && why != Duplicate
  }

  /** On the grid, in time or not. */
  predicate Reached(why: Admission) {
    why.Queued? || why.Late?
  }

  lemma AdmitRemembers(b: Buffer, p: Packet)
    requires b.Valid() && b.occupied <= b.shape.ceilingFrames && b.anchor.Some? && 0 < |p.payload| <= MAX_OPUS_PAYLOAD
    ensures var (r, why) := Admit(b, p);
            && r.anchor == b.anchor && r.seen == b.seen && Entered(why)
            && r.highestSequence == (if Reached(why) && !IsReordered(b, p.sequence)
                                     then Some(p.sequence) else b.highestSequence)
  {
    var s := Sequenced(b, p.sequence);
    if OnGrid(b, p.timestamp) && Distance32(p.timestamp, s.cursor) >= 0 {
      EnqueueRemembers(s, p.timestamp, p.payload);
    }
  }

  /**
   What a push knows of its packet and remembers of it: the ring its sequence number unless it was too
   large, the first that entered the anchor, and one that reached the deadline test its
   sequence number as the highest unless it is a straggler.
   */
  lemma PushRemembers(b: Buffer, p: Packet, at: nat)
    requires b.Valid() && b.occupied <= b.shape.ceilingFrames && p.payload != []
    ensures var (r, why) := Push(b, p, at);
            && (why == Duplicate <==> FitsSlot(p) && !Arrive(b.seen, p.sequence).0)
            && r.seen == (if FitsSlot(p) then Arrive(b.seen, p.sequence).1 else b.seen)
            && r.anchor == (if b.anchor.None? && Entered(why)
                            then Some(Anchor(p.timestamp, at + b.shape.Target())) else b.anchor)
            && r.highestSequence == (if Reached(why) && !IsReordered(b, p.sequence)
                                     then Some(p.sequence) else b.highestSequence)
  {
    if FitsSlot(p) && Arrive(b.seen, p.sequence).0 {
      var heard := Received(b).(seen := Arrive(b.seen, p.sequence).1);
      AdmitRemembers(Anchored(heard, p.timestamp, at), p);
    }
  }

  /** How many packets are accounted for, wherever they went. */
  function Places(b: Buffer): nat {
    var c := b.counts;
    c.oversize + c.duplicate + c.offGrid + c.late + c.played + c.overrunFrames + b.occupied
  }

  /** From `b` to `r` one more packet found its place, and nothing was pulled. */
  ghost predicate PlacedOne(b: Buffer, r: Buffer) {
    var c, d := b.counts, r.counts;
    && r.shape == b.shape
    && r.occupied <= b.shape.ceilingFrames
    && Places(r) == Places(b) + 1
    && (if d.overruns == c.overruns then d.overrunFrames == c.overrunFrames
        else d.overruns == c.overruns + 1 && d.overrunFrames == c.overrunFrames + Discard(b.shape))
    && d.expectedSamples >= c.expectedSamples
    && d.received == c.received
    && d.played == c.played && d.playedSamples == c.playedSamples
    && d.concealed == c.concealed && d.underruns == c.underruns
  }

  lemma EnqueuePlaces(b: Buffer, timestamp: uint32, payload: seq<uint8>)
    requires b.Valid() && b.occupied <= b.shape.ceilingFrames && 0 < |payload| <= MAX_OPUS_PAYLOAD
    ensures PlacedOne(b, Enqueue(b, timestamp, payload))
  {
    EnqueueCounts(b, timestamp, payload);
  }

  lemma AdmitPlaces(b: Buffer, p: Packet)
    requires b.Valid() && b.occupied <= b.shape.ceilingFrames && b.anchor.Some? && 0 < |p.payload| <= MAX_OPUS_PAYLOAD
    ensures PlacedOne(b, Admit(b, p).0)
  {
    var s := Sequenced(b, p.sequence);
    if OnGrid(b, p.timestamp) && Distance32(p.timestamp, s.cursor) >= 0 {
      EnqueuePlaces(s, p.timestamp, p.payload);
      assert PlacedOne(s, Admit(b, p).0);
    }
  }

  lemma PushPlaces(b: Buffer, p: Packet, at: nat)
    requires b.Valid() && b.occupied <= b.shape.ceilingFrames && p.payload != []
    ensures PlacedOne(Received(b), Push(b, p, at).0)
  {
    if |p.payload| <= MAX_OPUS_PAYLOAD && Arrive(b.seen, p.sequence).0 {
      var arrived := Received(b).(seen := Arrive(b.seen, p.sequence).1);
      AdmitPlaces(Anchored(arrived, p.timestamp, at), p);
    }
  }

  lemma PlacedBalances(b: Buffer, r: Buffer)
    requires Balanced(b) && PlacedOne(Received(b), r)
    ensures Balanced(r)
  {
  }

  /** Which counter a pull moves, and what it takes from the queue, by its answer. */
  ghost predicate Moved(b: Buffer, r: Buffer, outcome: Outcome) {
    var c, d, step := b.counts, r.counts, b.shape.frameSamples;
    && d == c.(played := d.played, playedSamples := d.playedSamples, concealed := d.concealed,
               underruns := d.underruns, expectedSamples := c.expectedSamples + step)
    && match outcome
       case Frame(_) =>
         d.played == c.played + 1 && d.concealed == c.concealed && d.underruns == c.underruns
         && d.playedSamples == c.playedSamples + step && r.occupied == b.occupied - 1
       case Conceal =>
         d.played == c.played && d.concealed == c.concealed + 1 && d.underruns == c.underruns
         && d.playedSamples == c.playedSamples + step && r.occupied == b.occupied > 0
       case Underrun =>
         d.played == c.played && d.concealed == c.concealed + 1 && d.underruns == c.underruns + 1
         && d.playedSamples == c.playedSamples && r.occupied == b.occupied == 0
  }

  lemma PullMoves(b: Buffer)
    requires b.Valid()
    ensures Moved(b, Pull(b).0, Pull(b).1)
  {
    AllFree(b.slots);
  }

  lemma PullBalances(b: Buffer)
    requires b.Valid() && Balanced(b)
    ensures Balanced(Pull(b).0) && Moved(b, Pull(b).0, Pull(b).1)
  {
    var c, d := b.counts, Pull(b).0.counts;
    PullMoves(b);
    match Pull(b).1
    case Underrun => TicksNext(b.shape.frameSamples, c.underruns, d.underruns);
    case _ =>
      TicksNext(b.shape.frameSamples, c.Heard(), d.Heard());
  }

  lemma StepBalances(b: Buffer, call: Call)
    requires b.Valid() && call.Legal() && Balanced(b)
    ensures var r := Step(b, call).0;
            && Balanced(r)
            && r.counts.received == b.counts.received + (if call.Pulls? then 0 else 1)
            && r.counts.played + r.counts.concealed
                == b.counts.played + b.counts.concealed + (if call.Pulls? then 1 else 0)
  {
    match call
    case Pulls => PullBalances(b);
    case Arrives(packet, at) =>
      PushPlaces(b, packet, at);
      PlacedBalances(b, Push(b, packet, at).0);
  }

  /** Whatever the counters say, no call takes occupancy past the ceiling or takes an overrun back. */
  lemma StepKeepsCeiling(b: Buffer, call: Call)
    requires b.Valid() && call.Legal() && b.occupied <= b.shape.ceilingFrames
    ensures var r := Step(b, call).0;
            r.occupied <= r.shape.ceilingFrames && b.counts.overruns <= r.counts.overruns
  {
    if call.Arrives? {
      PushPlaces(b, call.packet, call.at);
    }
  }

  /**
   The account over every run: each packet received was refused for one named
   reason, played, skipped, or is still queued; each overrun gave up exactly
   `ceiling + 1 - target` frames; occupancy never passes the ceiling; and the
   saturating subtraction behind the concealed samples never clips.
   */
  lemma {:induction false} EveryRunBalances(b: Buffer, calls: seq<Call>)
    requires b.Valid() && Legal(calls) && Balanced(b)
    ensures Balanced(Run(b, calls))
    ensures Run(b, calls).counts.received == b.counts.received + |calls| - PullCount(calls)
    ensures var c, d := b.counts, Run(b, calls).counts;
            d.played + d.concealed == c.played + c.concealed + PullCount(calls)
    decreases |calls|
  {
    if calls != [] {
      StepBalances(b, calls[0]);
      EveryRunBalances(Step(b, calls[0]).0, calls[1..]);
    }
  }

  lemma UncountedIsBalanced(b: Buffer)
    requires b.counts == ZERO && b.occupied == 0 && b.shape.Valid()
    ensures Balanced(b)
  {
    assert Ticks(b.shape.frameSamples, 0) == 0;
    assert 0 * Discard(b.shape) == 0;
  }

  // Arrival instants

  /** Equal in everything but the instant at which playout starts. */
  ghost predicate SameButPlayout(a: Buffer, b: Buffer) {
    && (a.anchor.Some? <==> b.anchor.Some?)
    && (a.anchor.Some? ==> a.anchor.value.rtp == b.anchor.value.rtp)
    && a == b.(anchor := a.anchor)
  }

  ghost predicate SamePackets(a: seq<Call>, b: seq<Call>) {
    && |a| == |b|
    && forall i | 0 <= i < |a| :: a[i] == b[i] || (a[i].Arrives? && b[i].Arrives? && a[i].packet == b[i].packet)
  }

  lemma {:induction false} SkipIgnoresPlayout(a: Buffer, b: Buffer)
    requires a.Valid() && b.Valid() && SameButPlayout(a, b)
    ensures SameButPlayout(SkipToTarget(a), SkipToTarget(b))
    decreases a.occupied
  {
    if a.occupied > a.shape.targetFrames {
      SkipIgnoresPlayout(SkipOldest(a), SkipOldest(b));
    }
  }

  lemma RoomIgnoresPlayout(a: Buffer, b: Buffer) returns (c: Buffer, d: Buffer)
    requires a.Valid() && b.Valid() && SameButPlayout(a, b)
    ensures c == MakeRoom(a) && d == MakeRoom(b) && SameButPlayout(c, d)
  {
    c, d := MakeRoom(a), MakeRoom(b);
    assert SameButPlayout(SkipOldest(a), SkipOldest(b));
  }

  lemma EnqueueIgnoresPlayout(a: Buffer, b: Buffer, timestamp: uint32, payload: seq<uint8>)
    requires a.Valid() && b.Valid() && SameButPlayout(a, b) && 0 < |payload| <= MAX_OPUS_PAYLOAD
    ensures SameButPlayout(Enqueue(a, timestamp, payload), Enqueue(b, timestamp, payload))
  {
    var c, d := Furthest(a, timestamp), Furthest(b, timestamp);
    assert SameButPlayout(c, d);
    c, d := RoomIgnoresPlayout(c, d);
    var e, f := Store(c, timestamp, payload), Store(d, timestamp, payload);
    assert SameButPlayout(e, f);
    SkipIgnoresPlayout(Overrun(e), Overrun(f));
  }

  lemma AdmitIgnoresPlayout(a: Buffer, b: Buffer, p: Packet)
    requires a.Valid() && b.Valid() && a.anchor.Some? && SameButPlayout(a, b) && 0 < |p.payload| <= MAX_OPUS_PAYLOAD
    ensures SameButPlayout(Admit(a, p).0, Admit(b, p).0) && Admit(a, p).1 == Admit(b, p).1
  {
    var c, d := Sequenced(a, p.sequence), Sequenced(b, p.sequence);
    assert SameButPlayout(c, d);
    if OnGrid(a, p.timestamp) && Distance32(p.timestamp, c.cursor) >= 0 {
      EnqueueIgnoresPlayout(c, d, p.timestamp, p.payload);
    }
  }

  lemma PushIgnoresInstants(a: Buffer, b: Buffer, p: Packet, at: nat, at': nat)
    requires a.Valid() && b.Valid() && SameButPlayout(a, b) && p.payload != []
    ensures SameButPlayout(Push(a, p, at).0, Push(b, p, at').0)
    ensures Push(a, p, at).1 == Push(b, p, at').1
  {
    if |p.payload| <= MAX_OPUS_PAYLOAD {
      var seen := Arrive(a.seen, p.sequence).1;
      AdmitIgnoresPlayout(
        Anchored(Received(a).(seen := seen), p.timestamp, at),
        Anchored(Received(b).(seen := seen), p.timestamp, at'), p);
    }
  }

  lemma StepIgnoresInstants(a: Buffer, b: Buffer, c: Call, d: Call)
    requires a.Valid() && b.Valid() && SameButPlayout(a, b) && c.Legal() && d.Legal()
    requires c == d || (c.Arrives? && d.Arrives? && c.packet == d.packet)
    ensures SameButPlayout(Step(a, c).0, Step(b, d).0)
    ensures Step(a, c).1 == Step(b, d).1
  {
    if c.Arrives? {
      PushIgnoresInstants(a, b, c.packet, c.at, d.at);
    }
  }

  /**
   No deadline is a function of arrival: two runs given the same packets and the
   same pulls, with arrivals at any other instants, answer alike at every call
   and end alike in everything but the instant playout starts.
   */
  lemma {:induction false} ArrivalInstantsDoNotMatter(a: Buffer, b: Buffer, c: seq<Call>, d: seq<Call>)
    requires a.Valid() && b.Valid() && SameButPlayout(a, b)
    requires Legal(c) && Legal(d) && SamePackets(c, d)
    ensures Answers(a, c) == Answers(b, d)
    ensures SameButPlayout(Run(a, c), Run(b, d))
    decreases |c|
  {
    if c != [] {
      StepIgnoresInstants(a, b, c[0], d[0]);
      ArrivalInstantsDoNotMatter(Step(a, c[0]).0, Step(b, d[0]).0, c[1..], d[1..]);
    }
  }
}
