/**
 A run of the buffer that hands over an older frame after a newer one, and then the
 newer one again. A slow network is enough for it: stragglers a whole window old make
 the ring forget, copies of a frame fill the slots, and the overrun that clears them
 takes the cursor back.
 */
module Disorder {
  import opened Wrappers
  import opened Wrap
  import opened SeenWindows
  import opened Grid
  import opened SlotBuffer
  import opened BufferRuns
  import opened Spans
  import StreamRuns

  /** A buffer that holds two frames and up to six, and a stream with five frames of interest from place 1024 on. */
  datatype Scene = Scene(sp: Span, shape: Shape, frames: seq<seq<uint8>>, at: nat) {
    ghost predicate Valid() {
      && shape.Valid() && shape.targetFrames == 2 && sp.step == shape.frameSamples
      && sp.Reaches(1029)
      && |frames| == 5 && forall i | 0 <= i < 5 :: 0 < |frames[i]| <= MAX_OPUS_PAYLOAD
    }

    /** The place, and the sequence number, of each. */
    function Number(i: nat): nat {
      1024 + i
    }

    /** The five frames, as the sender numbers and stamps them when its stream starts at sequence number zero. */
    function Packet(i: nat): SlotBuffer.Packet
      requires i < |frames| <= 5
    {
      SlotBuffer.Packet(Number(i), sp.At(Number(i)), frames[i])
    }

    /** A frame of the same class modulo 1024, a whole window older. */
    function Straggler(i: nat): SlotBuffer.Packet
      requires i < |frames| <= 5
    {
      SlotBuffer.Packet(i, sp.At(i), frames[i])
    }
  }

  /**
   The cursor's place, which frame each slot holds if any, what the ring last saw in
   five of its slots, and how many slots are used.
   */
  datatype Look = Look(cursor: int, held: seq<int>, ring: seq<int>, used: nat)

  ghost predicate Holds(c: Scene, slot: Slot, i: int)
    requires |c.frames| == 5
  {
    if 0 <= i < 5 then
      !slot.Free() && slot.Valid() && slot.timestamp == c.sp.At(c.Number(i)) && slot.Payload() == c.frames[i]
    else slot.Free()
  }

  ghost predicate Seen(ring: Ring, look: seq<int>) {
    && |ring| == SEEN_WINDOW && |look| == 5
    && forall i | 0 <= i < 5 :: ring[i] == if 0 <= look[i] < 0x1_0000 then Some(look[i]) else None
  }

  ghost predicate View(c: Scene, b: Buffer, l: Look)
    requires |c.frames| == 5
  {
    && b.Valid() && b.shape == c.shape
    && b.anchor.Some? && b.anchor.value.rtp == c.sp.At(1024)
    && 1024 <= l.cursor <= 1029 && b.cursor == c.sp.At(l.cursor)
    && |l.held| == |b.slots| && (forall j | 0 <= j < |b.slots| :: Holds(c, b.slots[j], l.held[j]))
    && Seen(b.seen, l.ring)
    && b.occupied == l.used
  }

  /** The run so far leaves this view, and these are what its pulls answered. */
  ghost predicate Trace(c: Scene, calls: seq<Call>, l: Look, outcomes: seq<Outcome>)
    requires c.Valid()
  {
    && Legal(calls)
    && View(c, Run(New(c.shape), calls), l)
    && StreamRuns.Outcomes(Answers(New(c.shape), calls)) == outcomes
  }

  /** Ten milliseconds of five-millisecond frames make such a scene, at every sample rate. */
  lemma ScenesExist(c: Scene, rate: SampleRate)
    requires c.shape == ShapeFor(rate, Ms5, 10_000_000) && c.sp.step == c.shape.frameSamples
    requires |c.frames| == 5 && forall i | 0 <= i < 5 :: 0 < |c.frames[i]| <= MAX_OPUS_PAYLOAD
    ensures c.Valid()
  {
    assert c.shape.frameSamples == rate * 5 / 1000 <= 240;
    assert Ticks(c.sp.step, 1029) == c.sp.step * 1029;
  }

  // Places of the scene

  lemma FrameApart(c: Scene, i: int, n: int)
    requires c.Valid() && 0 <= i <= 1029 && 0 <= n <= 1029
    ensures Distance32(c.sp.At(i), c.sp.At(n)) == Ticks(c.sp.step, i) - Ticks(c.sp.step, n)
    ensures i < n <==> Distance32(c.sp.At(i), c.sp.At(n)) < 0
    ensures i == n <==> c.sp.At(i) == c.sp.At(n)
  {
    ReachesBefore(c.sp, i, 1029);
    ReachesBefore(c.sp, n, 1029);
    Apart(c.sp, i, n);
  }

  lemma FrameOnGrid(c: Scene, b: Buffer, i: nat)
    requires c.Valid() && i < 5 && b.shape == c.shape && b.anchor.Some? && b.anchor.value.rtp == c.sp.At(1024)
    ensures OnGrid(b, c.sp.At(c.Number(i)))
  {
    var k := c.Number(i);
    FrameApart(c, k, 1024);
    assert Ticks(c.sp.step, k) - Ticks(c.sp.step, 1024) == i * c.sp.step;
    MultipleIsWhole(c.sp.step, i);
  }

  // One call each

  lemma Remembers(c: Scene, b: Buffer, l: Look, sequence: uint16, i: nat)
    requires c.Valid() && View(c, b, l) && i < 5 && sequence % SEEN_WINDOW == i
    ensures View(c, Sequenced(Heard(b, sequence), sequence), l.(ring := l.ring[i := sequence]))
  {
    var ring := Arrive(b.seen, sequence).1;
    assert Seen(ring, l.ring[i := sequence]);
    assert forall j | 0 <= j < |b.slots| :: Heard(b, sequence).slots[j] == b.slots[j];
  }

  lemma IsFirst(ring: Ring, look: seq<int>, i: nat, sequence: uint16)
    requires Seen(ring, look) && i < 5 && sequence % SEEN_WINDOW == i && look[i] != sequence
    ensures Arrive(ring, sequence).0
  {
  }

  lemma PacketTakes(c: Scene, b: Buffer, l: Look, i: nat)
    requires c.Valid() && View(c, b, l) && i < 5 && l.cursor <= c.Number(i) && l.ring[i] != c.Number(i)
    ensures Takes(b, c.Packet(i))
  {
    var number := c.Number(i);
    FrameOnGrid(c, b, i);
    FrameApart(c, number, l.cursor);
    assert number % SEEN_WINDOW == i;
    IsFirst(b.seen, l.ring, i, number);
  }

  /** The packet passes every test a frame must pass to be queued. */
  lemma Arrived(c: Scene, b: Buffer, l: Look, i: nat) returns (s: Buffer)
    requires c.Valid() && View(c, b, l) && i < 5 && l.cursor <= c.Number(i) && l.ring[i] != c.Number(i)
    ensures View(c, s, l.(ring := l.ring[i := c.Number(i)]))
    ensures Push(b, c.Packet(i), c.at).0 == Enqueue(s, c.sp.At(c.Number(i)), c.frames[i])
  {
    var p := c.Packet(i);
    assert p.sequence % SEEN_WINDOW == i;
    PacketTakes(c, b, l, i);
    TakesExactly(b, p, c.at);
    s := Sequenced(Heard(b, p.sequence), p.sequence);
    Remembers(c, b, l, p.sequence, i);
  }

  lemma FrameStores(c: Scene, b: Buffer, l: Look, i: nat, free: nat)
    requires c.Valid() && View(c, b, l) && i < 5
    requires free < |l.held| && !(0 <= l.held[free] < 5) && forall j | 0 <= j < free :: 0 <= l.held[j] < 5
    requires l.used <= 6
    ensures View(c, Stored(b, c.sp.At(c.Number(i)), c.frames[i]), l.(held := l.held[free := i], used := l.used + 1))
    ensures l.used < 6 ==> Enqueue(b, c.sp.At(c.Number(i)), c.frames[i]) == Stored(b, c.sp.At(c.Number(i)), c.frames[i])
  {
    assert FreeFrom(b.slots, 0) == free by {
      NoneFree(b.slots);
      assert forall j | 0 <= j < free :: Holds(c, b.slots[j], l.held[j]);
      assert Holds(c, b.slots[free], l.held[free]);
    }
  }

  /** A frame neither held back nor remembered takes the first free slot. */
  lemma Queues(c: Scene, b: Buffer, l: Look, i: nat, free: nat)
    requires c.Valid() && View(c, b, l) && i < 5 && l.cursor <= c.Number(i) && l.ring[i] != c.Number(i)
    requires free < |l.held| && !(0 <= l.held[free] < 5) && forall j | 0 <= j < free :: 0 <= l.held[j] < 5
    requires l.used < 6
    ensures View(c, Push(b, c.Packet(i), c.at).0,
                 l.(held := l.held[free := i], ring := l.ring[i := c.Number(i)], used := l.used + 1))
  {
    var p := c.Packet(i);
    var s := Arrived(c, b, l, i);
    FrameStores(c, s, l.(ring := l.ring[i := c.Number(i)]), i, free);
  }

  lemma RingOf(ring: Ring, look: seq<int>, i: nat)
    requires Seen(ring, look) && i < 5
    ensures Seen(Arrive(ring, i).1, look[i := i])
  {
  }

  /** A straggler changes nothing but what the ring remembers. */
  lemma Straggles(c: Scene, b: Buffer, l: Look, i: nat)
    requires c.Valid() && View(c, b, l) && i < 5
    ensures View(c, Push(b, c.Straggler(i), c.at).0, l.(ring := l.ring[i := i]))
  {
    var p := c.Straggler(i);
    FrameApart(c, i, l.cursor);
    assert !Takes(b, p);
    TakesExactly(b, p, c.at);
    RingHears(b, p, c.at);
    RingOf(b.seen, l.ring, i);
  }

  lemma Locates(c: Scene, b: Buffer, l: Look, found: nat)
    requires c.Valid() && View(c, b, l) && found <= |l.held| && l.cursor < 1029
    requires found < |l.held| ==> l.held[found] == l.cursor - 1024
    requires forall j | 0 <= j < found :: l.held[j] != l.cursor - 1024
    ensures HoldingFrom(b.slots, b.cursor, 0) == found
  {
    forall j | 0 <= j < |b.slots|
      ensures !b.slots[j].Free() && b.slots[j].timestamp == b.cursor <==> l.held[j] == l.cursor - 1024
    {
      assert Holds(c, b.slots[j], l.held[j]);
      if 0 <= l.held[j] < 5 {
        FrameApart(c, c.Number(l.held[j]), l.cursor);
      }
    }
  }

  /** The first slot with the cursor's frame is served. */
  lemma Plays(c: Scene, b: Buffer, l: Look, found: nat)
    requires c.Valid() && View(c, b, l) && found < |l.held| && l.held[found] == l.cursor - 1024 && l.cursor < 1029
    requires (forall j | 0 <= j < found :: l.held[j] != l.cursor - 1024) && l.used > 0
    ensures Pull(b).1 == Frame(c.frames[l.cursor - 1024])
    ensures View(c, Pull(b).0, l.(cursor := l.cursor + 1, held := l.held[found := -1], used := l.used - 1))
  {
    var next := l.cursor + 1;
    assert HoldingFrom(b.slots, b.cursor, 0) == found by {
      Locates(c, b, l, found);
    }
    NextAt(c.sp, l.cursor, next, b.shape.frameSamples);
  }

  /** With no slot holding the cursor's frame, the pull bridges. */
  lemma Bridges(c: Scene, b: Buffer, l: Look)
    requires c.Valid() && View(c, b, l) && l.cursor < 1029 && l.used > 0
    requires forall j | 0 <= j < |l.held| :: l.held[j] != l.cursor - 1024
    ensures Pull(b).1 == Conceal
    ensures View(c, Pull(b).0, l.(cursor := l.cursor + 1))
  {
    var next := l.cursor + 1;
    Locates(c, b, l, |l.held|);
    NextAt(c.sp, l.cursor, next, b.shape.frameSamples);
  }

  /** Of slots equally far behind, the first is the one skipped. */
  lemma {:induction false} FirstOldest(slots: seq<Slot>, cursor: uint32, oldest: nat, n: nat)
    requires oldest < n <= |slots| && !slots[oldest].Free()
    requires forall j | 0 <= j < n && !slots[j].Free() ::
      Distance32(slots[oldest].timestamp, cursor) <= Distance32(slots[j].timestamp, cursor)
    requires forall j | 0 <= j < oldest && !slots[j].Free() ::
      Distance32(slots[oldest].timestamp, cursor) < Distance32(slots[j].timestamp, cursor)
    ensures OldestIn(slots, cursor, n) == Some(oldest)
  {
    if oldest < n - 1 {
      FirstOldest(slots, cursor, oldest, n - 1);
    }
  }

  /** A skip gives up the first slot with the oldest frame and leaves the cursor one past it. */
  lemma Skips(c: Scene, b: Buffer, l: Look, oldest: nat)
    requires c.Valid() && View(c, b, l) && oldest < |l.held| && 0 <= l.held[oldest] < 5 && l.used > 0
    requires forall j | 0 <= j < |l.held| && 0 <= l.held[j] < 5 :: l.held[oldest] <= l.held[j]
    requires forall j | 0 <= j < oldest :: l.held[j] != l.held[oldest]
    ensures View(c, SkipOldest(b),
                 l.(cursor := 1025 + l.held[oldest], held := l.held[oldest := -1], used := l.used - 1))
  {
    var least := c.Number(l.held[oldest]);
    var next := least + 1;
    forall j | 0 <= j < |b.slots| && !b.slots[j].Free()
      ensures 0 <= l.held[j] < 5
      ensures Distance32(b.slots[oldest].timestamp, b.cursor) <= Distance32(b.slots[j].timestamp, b.cursor)
      ensures Distance32(b.slots[oldest].timestamp, b.cursor) == Distance32(b.slots[j].timestamp, b.cursor)
          ==> l.held[j] == l.held[oldest]
    {
      assert Holds(c, b.slots[j], l.held[j]) && Holds(c, b.slots[oldest], l.held[oldest]);
      FrameApart(c, least, l.cursor);
      FrameApart(c, c.Number(l.held[j]), l.cursor);
      Spans.TicksOrdered(c.sp.step, least, c.Number(l.held[j]));
    }
    FirstOldest(b.slots, b.cursor, oldest, |b.slots|);
    NextAt(c.sp, least, next, b.shape.frameSamples);
  }

  // The run

  /** One more call on a run: its state and its answers. */
  lemma {:induction false} OneMore(b: Buffer, calls: seq<Call>, call: Call)
    requires b.Valid() && Legal(calls) && call.Legal()
    ensures Legal(calls + [call])
    ensures var s := Step(Run(b, calls), call);
            && Run(b, calls + [call]) == s.0
            && Answers(b, calls + [call]) == Answers(b, calls) + [s.1]
    decreases |calls|
  {
    if calls == [] {
      assert [] + [call] == [call] && [call][1..] == [];
    } else {
      assert (calls + [call])[0] == calls[0] && (calls + [call])[1..] == calls[1..] + [call];
      OneMore(Step(b, calls[0]).0, calls[1..], call);
    }
  }

  lemma {:induction false} OneMoreOutcome(answers: seq<Answer>, answer: Answer)
    ensures StreamRuns.Outcomes(answers + [answer])
         == StreamRuns.Outcomes(answers) + if answer.Served? then [answer.outcome] else []
    decreases |answers|
  {
    if answers == [] {
      assert [] + [answer] == [answer] && [answer][1..] == [];
    } else {
      assert (answers + [answer])[0] == answers[0] && (answers + [answer])[1..] == answers[1..] + [answer];
      OneMoreOutcome(answers[1..], answer);
    }
  }

  lemma Traced(c: Scene, calls: seq<Call>, l: Look, outcomes: seq<Outcome>, call: Call, next: Look, more: seq<Outcome>)
    requires c.Valid() && Trace(c, calls, l, outcomes) && call.Legal()
    requires var (r, answer) := Step(Run(New(c.shape), calls), call);
             && View(c, r, next)
             && more == outcomes + if answer.Served? then [answer.outcome] else []
    ensures Trace(c, calls + [call], next, more)
  {
    OneMore(New(c.shape), calls, call);
    OneMoreOutcome(Answers(New(c.shape), calls), Step(Run(New(c.shape), calls), call).1);
  }

  lemma Queued(c: Scene, calls: seq<Call>, l: Look, outcomes: seq<Outcome>, i: nat, free: nat) returns (next: Look)
    requires c.Valid() && Trace(c, calls, l, outcomes) && i < 5 && l.cursor <= c.Number(i) && l.ring[i] != c.Number(i)
    requires free < |l.held| && !(0 <= l.held[free] < 5) && forall j | 0 <= j < free :: 0 <= l.held[j] < 5
    requires l.used < 6
    ensures next == l.(held := l.held[free := i], ring := l.ring[i := c.Number(i)], used := l.used + 1)
    ensures Trace(c, calls + [Arrives(c.Packet(i), c.at)], next, outcomes)
  {
    next := l.(held := l.held[free := i], ring := l.ring[i := c.Number(i)], used := l.used + 1);
    Queues(c, Run(New(c.shape), calls), l, i, free);
    Traced(c, calls, l, outcomes, Arrives(c.Packet(i), c.at), next, outcomes);
  }

  lemma Straggled(c: Scene, calls: seq<Call>, l: Look, outcomes: seq<Outcome>, i: nat) returns (next: Look)
    requires c.Valid() && Trace(c, calls, l, outcomes) && i < 5
    ensures next == l.(ring := l.ring[i := i])
    ensures Trace(c, calls + [Arrives(c.Straggler(i), c.at)], next, outcomes)
  {
    next := l.(ring := l.ring[i := i]);
    Straggles(c, Run(New(c.shape), calls), l, i);
    Traced(c, calls, l, outcomes, Arrives(c.Straggler(i), c.at), next, outcomes);
  }

  lemma Played(c: Scene, calls: seq<Call>, l: Look, outcomes: seq<Outcome>, found: nat) returns (next: Look)
    requires c.Valid() && Trace(c, calls, l, outcomes)
    requires found < |l.held| && l.held[found] == l.cursor - 1024 && l.cursor < 1029
    requires (forall j | 0 <= j < found :: l.held[j] != l.cursor - 1024) && l.used > 0
    ensures next == l.(cursor := l.cursor + 1, held := l.held[found := -1], used := l.used - 1)
    ensures Trace(c, calls + [Pulls], next, outcomes + [Frame(c.frames[l.cursor - 1024])])
  {
    next := l.(cursor := l.cursor + 1, held := l.held[found := -1], used := l.used - 1);
    Plays(c, Run(New(c.shape), calls), l, found);
    Traced(c, calls, l, outcomes, Pulls, next, outcomes + [Frame(c.frames[l.cursor - 1024])]);
  }

  lemma Bridged(c: Scene, calls: seq<Call>, l: Look, outcomes: seq<Outcome>) returns (next: Look)
    requires c.Valid() && Trace(c, calls, l, outcomes) && l.cursor < 1029 && l.used > 0
    requires forall j | 0 <= j < |l.held| :: l.held[j] != l.cursor - 1024
    ensures next == l.(cursor := l.cursor + 1)
    ensures Trace(c, calls + [Pulls], next, outcomes + [Conceal])
  {
    next := l.(cursor := l.cursor + 1);
    Bridges(c, Run(New(c.shape), calls), l);
    Traced(c, calls, l, outcomes, Pulls, next, outcomes + [Conceal]);
  }

  /** The first packet anchors the stream on an empty buffer. */
  lemma Starts(c: Scene) returns (l: Look)
    requires c.Valid()
    ensures l == Look(1024, [0, -1, -1, -1, -1, -1, -1, -1], [1024, -1, -1, -1, -1], 1)
    ensures Trace(c, [Arrives(c.Packet(0), c.at)], l, [])
  {
    l := Look(1024, [0, -1, -1, -1, -1, -1, -1, -1], [1024, -1, -1, -1, -1], 1);
    var b, p := New(c.shape), c.Packet(0);
    var a := Anchored(Heard(b, p.sequence), p.timestamp, c.at);
    var s := Sequenced(a, p.sequence);
    var empty := Look(1024, [-1, -1, -1, -1, -1, -1, -1, -1], [1024, -1, -1, -1, -1], 0);
    assert Seen(Heard(b, p.sequence).seen, empty.ring);
    assert View(c, s, empty);
    FrameOnGrid(c, a, 0);
    FrameApart(c, 1024, 1024);
    assert Push(b, p, c.at).0 == Enqueue(s, p.timestamp, p.payload);
    FrameStores(c, s, empty, 0, 0);
    assert empty.held[0 := 0] == l.held;
    OneMore(b, [], Arrives(p, c.at));
    assert [] + [Arrives(p, c.at)] == [Arrives(p, c.at)];
  }

  /** The slots as the overrun finds them: frames 3 and 4, and copies of frame 0 in slots `from` to 5. */
  function Crowded(from: nat): (held: seq<int>)
    requires 1 <= from <= 6
    ensures |held| == 8
  {
    seq(8, j => if j == 0 then 3 else if j == 6 then 4 else if from <= j < 6 then 0 else -1)
  }

  /** The overrun gives up the copies, and its last skip leaves the cursor one frame past frame 0. */
  lemma {:induction false} CopiesGivenUp(c: Scene, b: Buffer, l: Look, from: nat)
    requires c.Valid() && View(c, b, l) && 1 <= from <= 6 && l.held == Crowded(from) && l.used == 8 - from
    requires from == 6 ==> l.cursor == 1025
    ensures View(c, SkipToTarget(b), l.(cursor := 1025, held := Crowded(6), used := 2))
    decreases 6 - from
  {
    if from < 6 {
      Skips(c, b, l, from);
      assert Crowded(from)[from := -1] == Crowded(from + 1);
      CopiesGivenUp(c, SkipOldest(b), l.(cursor := 1025, held := Crowded(from + 1), used := l.used - 1), from + 1);
    }
  }

  /** Frame 4 is one too many. */
  lemma Overruns(c: Scene, b: Buffer, l: Look)
    requires c.Valid() && View(c, b, l) && l.cursor <= 1028 && l.ring[4] != 1028
    requires l.held == Crowded(1)[6 := -1] && l.used == 6
    ensures View(c, Push(b, c.Packet(4), c.at).0,
                 l.(cursor := 1025, held := Crowded(6), ring := l.ring[4 := 1028], used := 2))
  {
    var s := Arrived(c, b, l, 4);
    var heard := l.(ring := l.ring[4 := 1028]);
    FrameStores(c, s, heard, 4, 6);
    var stored, full := Stored(s, c.sp.At(c.Number(4)), c.frames[4]), heard.(held := Crowded(1), used := 7);
    assert Crowded(1)[6 := -1][6 := 4] == Crowded(1);
    assert View(c, stored, full);
    CopiesGivenUp(c, Overrun(stored), full, 1);
  }

  lemma Overran(c: Scene, calls: seq<Call>, l: Look, outcomes: seq<Outcome>) returns (next: Look)
    requires c.Valid() && Trace(c, calls, l, outcomes) && l.cursor <= 1028 && l.ring[4] != 1028
    requires l.held == Crowded(1)[6 := -1] && l.used == 6
    ensures next == l.(cursor := 1025, held := Crowded(6), ring := l.ring[4 := 1028], used := 2)
    ensures Trace(c, calls + [Arrives(c.Packet(4), c.at)], next, outcomes)
  {
    next := l.(cursor := 1025, held := Crowded(6), ring := l.ring[4 := 1028], used := 2);
    Overruns(c, Run(New(c.shape), calls), l);
    Traced(c, calls, l, outcomes, Arrives(c.Packet(4), c.at), next, outcomes);
  }

  function Sends(c: Scene, i: nat): Call
    requires i < |c.frames| <= 5
  {
    Arrives(c.Packet(i), c.at)
  }

  function Delays(c: Scene, i: nat): Call
    requires i < |c.frames| <= 5
  {
    Arrives(c.Straggler(i), c.at)
  }

  /** Frame 0 and as many copies of it, each let in by a straggler. */
  function Copies(c: Scene, n: nat): (calls: seq<Call>)
    requires |c.frames| == 5
  {
    if n == 0 then [Sends(c, 0)] else Copies(c, n - 1) + [Delays(c, 0)] + [Sends(c, 0)]
  }

  function CopiesLook(n: nat): Look
    requires n <= 5
  {
    Look(1024, seq(8, j => if j <= n then 0 else -1), [1024, -1, -1, -1, -1], n + 1)
  }

  lemma {:induction false} CopiesFill(c: Scene, n: nat)
    requires c.Valid() && n <= 5
    ensures Trace(c, Copies(c, n), CopiesLook(n), [])
  {
    if n == 0 {
      var l := Starts(c);
      assert l.held == CopiesLook(0).held;
    } else {
      CopiesFill(c, n - 1);
      var l := Straggled(c, Copies(c, n - 1), CopiesLook(n - 1), [], 0);
      l := Queued(c, Copies(c, n - 1) + [Delays(c, 0)], l, [], 0, n);
      assert l.held == CopiesLook(n).held && l.ring == CopiesLook(n).ring;
    }
  }

  /** Frame 0 is played, and five copies of it are left behind. */
  function FirstRun(c: Scene): seq<Call>
    requires |c.frames| == 5
  {
    Copies(c, 5) + [Pulls]
  }

  lemma FirstPlays(c: Scene) returns (l: Look)
    requires c.Valid()
    ensures l == Look(1025, Crowded(1)[0 := -1][6 := -1], [1024, -1, -1, -1, -1], 5)
    ensures Trace(c, FirstRun(c), l, [Frame(c.frames[0])])
  {
    var frame := Frame(c.frames[0]);
    CopiesFill(c, 5);
    l := Played(c, Copies(c, 5), CopiesLook(5), [], 0);
    assert [] + [frame] == [frame];
    assert l.held == Crowded(1)[0 := -1][6 := -1];
  }

  /** Frame 1 is late: its place is bridged, and frame 2 is played. */
  function GapRun(c: Scene): seq<Call>
    requires |c.frames| == 5
  {
    FirstRun(c) + [Sends(c, 2)] + [Pulls] + [Pulls]
  }

  lemma GapIsBridged(c: Scene) returns (l: Look)
    requires c.Valid()
    ensures l == Look(1027, Crowded(1)[0 := -1][6 := -1], [1024, -1, 1026, -1, -1], 5)
    ensures Trace(c, GapRun(c), l, [Frame(c.frames[0]), Conceal, Frame(c.frames[2])])
  {
    var calls, outcomes := FirstRun(c), [Frame(c.frames[0])];
    l := FirstPlays(c);
    l := Queued(c, calls, l, outcomes, 2, 0);
    l := Bridged(c, calls + [Sends(c, 2)], l, outcomes);
    l := Played(c, calls + [Sends(c, 2)] + [Pulls], l, outcomes + [Conceal], 0);
  }

  /** Two more frames, and with the second an overrun. */
  function OverrunRun(c: Scene): seq<Call>
    requires |c.frames| == 5
  {
    GapRun(c) + [Sends(c, 3)] + [Sends(c, 4)]
  }

  /** The cursor is taken back two frames, to the place of the frame never played. */
  lemma OverrunGoesBack(c: Scene) returns (l: Look)
    requires c.Valid()
    ensures l == Look(1025, Crowded(6), [1024, -1, 1026, 1027, 1028], 2)
    ensures Trace(c, OverrunRun(c), l, [Frame(c.frames[0]), Conceal, Frame(c.frames[2])])
  {
    var outcomes := [Frame(c.frames[0]), Conceal, Frame(c.frames[2])];
    l := GapIsBridged(c);
    l := Queued(c, GapRun(c), l, outcomes, 3, 0);
    assert l.held == Crowded(1)[6 := -1];
    l := Overran(c, GapRun(c) + [Sends(c, 3)], l, outcomes);
  }

  /** Frame 1 arrives at last. */
  function LateRun(c: Scene): seq<Call>
    requires |c.frames| == 5
  {
    OverrunRun(c) + [Sends(c, 1)] + [Pulls]
  }

  lemma OlderPlays(c: Scene) returns (l: Look)
    requires c.Valid()
    ensures l == Look(1026, Crowded(6), [1024, 1025, 1026, 1027, 1028], 2)
    ensures Trace(c, LateRun(c), l, [Frame(c.frames[0]), Conceal, Frame(c.frames[2]), Frame(c.frames[1])])
  {
    var outcomes := [Frame(c.frames[0]), Conceal, Frame(c.frames[2])];
    l := OverrunGoesBack(c);
    l := Queued(c, OverrunRun(c), l, outcomes, 1, 1);
    l := Played(c, OverrunRun(c) + [Sends(c, 1)], l, outcomes, 1);
    assert l.held == Crowded(6);
  }

  /** A copy of frame 2, let in by a straggler. */
  function DisorderedRun(c: Scene): seq<Call>
    requires |c.frames| == 5
  {
    LateRun(c) + [Delays(c, 2)] + [Sends(c, 2)] + [Pulls]
  }

  /**
   Order fails, and so does at most once: at every configuration that targets two
   frames, this run of arrivals and pulls on a new buffer hands over frame 0, bridges a
   gap, hands over frame 2, then frame 1, then frame 2 again.
   */
  lemma OrderFails(c: Scene)
    requires c.Valid()
    ensures Legal(DisorderedRun(c))
    ensures StreamRuns.Outcomes(Answers(New(c.shape), DisorderedRun(c)))
         == [Frame(c.frames[0]), Conceal, Frame(c.frames[2]), Frame(c.frames[1]), Frame(c.frames[2])]
  {
    var calls := LateRun(c);
    var outcomes := [Frame(c.frames[0]), Conceal, Frame(c.frames[2]), Frame(c.frames[1])];
    var l := OlderPlays(c);
    l := Straggled(c, calls, l, outcomes, 2);
    l := Queued(c, calls + [Delays(c, 2)], l, outcomes, 2, 1);
    l := Played(c, calls + [Delays(c, 2)] + [Sends(c, 2)], l, outcomes, 1);
  }
}
