/**
 What the counters, the anchor and the ring of the jitter buffer mean over whole runs,
 read off the packets it was given and the answers it gave.
 */
module BufferTallies {
  import opened Wrappers
  import opened Wrap
  import opened SeenWindows
  import opened Grid
  import opened SlotBuffer
  import opened BufferRuns

  /** One, if this is what was answered. */
  function Once(answer: Answer, which: Answer): nat {
    if answer == which then 1 else 0
  }

  /** On the grid, and behind a packet that came before it. */
  predicate Strays(b: Buffer, p: Packet, why: Admission) {
    Reached(why) && IsReordered(b, p.sequence)
  }

  /** From these counters to those, one answer more is counted: a refusal under its own name and nowhere else. */
  ghost predicate Tallied(c: Counts, d: Counts, answer: Answer) {
    && d.oversize == c.oversize + Once(answer, Admitted(Oversize))
    && d.duplicate == c.duplicate + Once(answer, Admitted(Duplicate))
    && d.offGrid == c.offGrid + Once(answer, Admitted(OffGrid))
    && d.late == c.late + Once(answer, Admitted(Late))
  }

  lemma AdmitTallies(b: Buffer, p: Packet)
    requires b.Valid() && b.occupied <= b.shape.ceilingFrames && b.anchor.Some? && 0 < |p.payload| <= MAX_OPUS_PAYLOAD
    ensures var (r, why) := Admit(b, p);
            && Tallied(b.counts, r.counts, Admitted(why))
            && r.counts.reordered == b.counts.reordered + (if Strays(b, p, why) then 1 else 0)
            && (why.Queued? ==> why.reordered == Strays(b, p, why))
  {
    var s := Sequenced(b, p.sequence);
    if OnGrid(b, p.timestamp) && Distance32(p.timestamp, s.cursor) >= 0 {
      EnqueueCounts(s, p.timestamp, p.payload);
    }
  }

  /**
   Each refusal moves the counter of its own name and no other; a packet that is on the
   grid counts as reordered, whether in time or late, when its number is behind.
   */
  lemma PushTallies(b: Buffer, p: Packet, at: nat)
    requires b.Valid() && b.occupied <= b.shape.ceilingFrames && p.payload != []
    ensures var (r, why) := Push(b, p, at);
            && Tallied(b.counts, r.counts, Admitted(why))
            && r.counts.reordered == b.counts.reordered + (if Strays(b, p, why) then 1 else 0)
            && (why.Queued? ==> why.reordered == Strays(b, p, why))
  {
    if FitsSlot(p) && Arrive(b.seen, p.sequence).0 {
      var heard := Received(b).(seen := Arrive(b.seen, p.sequence).1);
      AdmitTallies(Anchored(heard, p.timestamp, at), p);
    }
  }

  lemma NearbyTests(step: uint32, timestamp: uint32, rtp: uint32, at: uint32, tick: int, anchor: int, cursor: int)
    requires step > 0 && timestamp == Wrap32(tick) && rtp == Wrap32(anchor) && at == Wrap32(cursor)
    requires -HALF32 <= tick - anchor < HALF32 && -HALF32 <= tick - cursor < HALF32
    ensures Distance32(timestamp, rtp) % step == 0 <==> Aligned(step, tick, anchor)
    ensures Distance32(timestamp, at) < 0 <==> tick < cursor
  {
    DistanceIsDifference32(tick, anchor);
    DistanceIsDifference32(tick, cursor);
  }

  lemma TestedExactly(b: Buffer, p: Packet, anchor: int, cursor: int, tick: int)
    requires b.Valid() && b.anchor.Some? && 0 < |p.payload| <= MAX_OPUS_PAYLOAD && p.timestamp == Wrap32(tick)
    requires b.anchor.value.rtp == Wrap32(anchor) && b.cursor == Wrap32(cursor)
    requires -HALF32 <= tick - anchor < HALF32 && -HALF32 <= tick - cursor < HALF32
    ensures var why, step := Admit(b, p).1, b.shape.frameSamples;
            && (why == OffGrid <==> !Aligned(step, tick, anchor))
            && (why == Late <==> Aligned(step, tick, anchor) && tick < cursor)
            && (why.Queued? <==> Aligned(step, tick, anchor) && tick >= cursor)
  {
    NearbyTests(b.shape.frameSamples, p.timestamp, b.anchor.value.rtp, b.cursor, tick, anchor, cursor);
    assert OnGrid(b, p.timestamp) <==> Aligned(b.shape.frameSamples, tick, anchor);
  }

  /**
   What a packet is answered, exactly, in the packet's own tick: too large before
   anything else, then a copy, then off the grid, then late; the packet that anchors
   the stream is never either of the last two.
   */
  lemma AnsweredExactly(b: Buffer, p: Packet, at: nat, anchor: int, cursor: int, tick: int)
    requires b.Valid() && p.payload != [] && p.timestamp == Wrap32(tick)
    requires b.anchor.Some? ==> b.anchor.value.rtp == Wrap32(anchor) && b.cursor == Wrap32(cursor)
    requires b.anchor.Some? ==> -HALF32 <= tick - anchor < HALF32 && -HALF32 <= tick - cursor < HALF32
    ensures var why, step := Push(b, p, at).1, b.shape.frameSamples;
            var enters := |p.payload| <= 1188 && Arrive(b.seen, p.sequence).0;
            && (why == Oversize <==> |p.payload| > 1188)
            && (why == Duplicate <==> |p.payload| <= 1188 && !Arrive(b.seen, p.sequence).0)
            && (why == OffGrid <==> enters && b.anchor.Some? && !Aligned(step, tick, anchor))
            && (why == Late <==> enters && b.anchor.Some? && Aligned(step, tick, anchor) && tick < cursor)
            && (why.Queued? <==> enters && (b.anchor.Some? ==> Aligned(step, tick, anchor) && tick >= cursor))
  {
    if FitsSlot(p) && Arrive(b.seen, p.sequence).0 {
      var a := Anchored(Received(b).(seen := Arrive(b.seen, p.sequence).1), p.timestamp, at);
      if b.anchor.Some? {
        TestedExactly(a, p, anchor, cursor, tick);
      } else {
        TestedExactly(a, p, tick, tick, tick);
        AlignedSelf(b.shape.frameSamples, tick);
      }
    }
  }

  // Every run

  lemma StepTallies(b: Buffer, call: Call)
    requires b.Valid() && call.Legal() && b.occupied <= b.shape.ceilingFrames
    ensures var (r, answer) := Step(b, call); var c := b.counts;
            && r.occupied <= r.shape.ceilingFrames
            && Tallied(c, r.counts, answer)
            && r.counts.underruns == c.underruns + Once(answer, Served(Underrun))
            && r.counts.concealed == c.concealed + Once(answer, Served(Conceal)) + Once(answer, Served(Underrun))
            && r.counts.played + r.counts.concealed
                == c.played + c.concealed + (if call.Pulls? then 1 else 0)
  {
    StepKeepsCeiling(b, call);
    match call
    case Arrives(packet, at) =>
      PushTallies(b, packet, at);
      PushPlaces(b, packet, at);
    case Pulls => PullMoves(b);
  }

  lemma OneAnswerMore(answer: Answer, later: seq<Answer>, which: Answer)
    ensures multiset([answer] + later)[which] == Once(answer, which) + multiset(later)[which]
  {
    assert multiset([answer] + later) == multiset{answer} + multiset(later);
  }

  /**
   Over every run each refusal counter is how often that was the answer, and the
   concealed and the starved pulls are those answered so; all other pulls were played.
   */
  lemma {:induction false} CountersAreAnswers(b: Buffer, calls: seq<Call>)
    requires b.Valid() && Legal(calls) && b.occupied <= b.shape.ceilingFrames
    ensures var c, d, given := b.counts, Run(b, calls).counts, multiset(Answers(b, calls));
            && d.oversize == c.oversize + given[Admitted(Oversize)]
            && d.duplicate == c.duplicate + given[Admitted(Duplicate)]
            && d.offGrid == c.offGrid + given[Admitted(OffGrid)]
            && d.late == c.late + given[Admitted(Late)]
            && d.underruns == c.underruns + given[Served(Underrun)]
            && d.concealed == c.concealed + given[Served(Conceal)] + given[Served(Underrun)]
            && d.played + given[Served(Conceal)] + given[Served(Underrun)] == c.played + PullCount(calls)
    decreases |calls|
  {
    if calls != [] {
      var (next, answer) := Step(b, calls[0]);
      var later := Answers(next, calls[1..]);
      StepTallies(b, calls[0]);
      CountersAreAnswers(next, calls[1..]);
      OneAnswerMore(answer, later, Admitted(Oversize));
      OneAnswerMore(answer, later, Admitted(Duplicate));
      OneAnswerMore(answer, later, Admitted(OffGrid));
      OneAnswerMore(answer, later, Admitted(Late));
      OneAnswerMore(answer, later, Served(Underrun));
      OneAnswerMore(answer, later, Served(Conceal));
    }
  }

  // The anchor

  /** The anchor a packet that enters an unanchored buffer sets: its timestamp, and its arrival plus the target. */
  function AnchorOf(target: nat, call: Call, answer: Answer): Option<Anchor> {
    if call.Arrives? && answer.Admitted? && Entered(answer.admission) then
      Some(Anchor(call.packet.timestamp, call.at + target))
    else None
  }

  function FirstAnchor(target: nat, calls: seq<Call>, answers: seq<Answer>): Option<Anchor>
    requires |calls| == |answers|
  {
    if calls == [] then None
    else
      var first := AnchorOf(target, calls[0], answers[0]);
      if first.Some? then first else FirstAnchor(target, calls[1..], answers[1..])
  }

  lemma PullRemembers(b: Buffer)
    requires b.Valid()
    ensures var r := Pull(b).0; r.anchor == b.anchor && r.seen == b.seen && r.highestSequence == b.highestSequence
  {
  }

  lemma PushAnchors(b: Buffer, p: Packet, at: nat)
    requires b.Valid() && b.occupied <= b.shape.ceilingFrames && p.payload != []
    ensures var (r, why) := Push(b, p, at);
            r.anchor == if b.anchor.Some? then b.anchor else AnchorOf(b.shape.Target(), Arrives(p, at), Admitted(why))
  {
    PushRemembers(b, p, at);
  }

  lemma StepAnchors(b: Buffer, call: Call)
    requires b.Valid() && call.Legal() && b.occupied <= b.shape.ceilingFrames
    ensures var (r, answer) := Step(b, call);
            r.anchor == if b.anchor.Some? then b.anchor else AnchorOf(b.shape.Target(), call, answer)
  {
    match call
    case Arrives(packet, at) => PushAnchors(b, packet, at);
    case Pulls => PullRemembers(b);
  }

  /** Over every run: the first packet to enter fixes the anchor, and nothing later moves it. */
  lemma {:induction false} AnchorIsFirst(b: Buffer, calls: seq<Call>)
    requires b.Valid() && Legal(calls) && b.occupied <= b.shape.ceilingFrames
    ensures Run(b, calls).anchor
         == if b.anchor.Some? then b.anchor else FirstAnchor(b.shape.Target(), calls, Answers(b, calls))
    decreases |calls|
  {
    if calls != [] {
      var next := Step(b, calls[0]).0;
      StepKeepsCeiling(b, calls[0]);
      StepAnchors(b, calls[0]);
      AnchorIsFirst(next, calls[1..]);
      assert Answers(b, calls)[1..] == Answers(next, calls[1..]);
    }
  }

  // The ring

  /** The sequence number of a packet that fits, if the call brings one. */
  function NumberOf(call: Call): seq<int> {
    if call.Arrives? && FitsSlot(call.packet) then [call.packet.sequence] else []
  }

  function Numbers(calls: seq<Call>): seq<int> {
    if calls == [] then [] else NumberOf(calls[0]) + Numbers(calls[1..])
  }

  /** Every packet that fits is answered as a copy exactly when the ring of all that fitted before says so. */
  ghost predicate CopiesAnswered(history: seq<int>, calls: seq<Call>, answers: seq<Answer>)
    requires |calls| == |answers|
    decreases |calls|
  {
    calls != [] ==>
      && (calls[0].Arrives? ==>
            (answers[0] == Admitted(Duplicate)
             <==> FitsSlot(calls[0].packet) && !Fresh(SEEN_WINDOW, history, calls[0].packet.sequence)))
      && CopiesAnswered(history + NumberOf(calls[0]), calls[1..], answers[1..])
  }

  lemma OneNumberMore(size: nat, history: seq<int>, number: int)
    requires size > 0
    ensures After(size, history + [number]) == Arrive(After(size, history), Wrap16(number)).1
  {
    assert (history + [number])[..|history|] == history;
  }

  /** What one packet leaves the ring as, and whether it knew it, in terms of all that fitted before. */
  lemma RingGrows(seen: Ring, p: Packet, at: nat, history: seq<int>)
    requires seen == After(SEEN_WINDOW, history)
    ensures (if FitsSlot(p) then Arrive(seen, p.sequence).1 else seen)
         == After(SEEN_WINDOW, history + NumberOf(Arrives(p, at)))
    ensures Arrive(seen, p.sequence).0 <==> Fresh(SEEN_WINDOW, history, p.sequence)
  {
    var number: int := p.sequence;
    assert Wrap16(number) == number;
    if FitsSlot(p) {
      OneNumberMore(SEEN_WINDOW, history, number);
    } else {
      assert history + NumberOf(Arrives(p, at)) == history;
    }
  }

  lemma StepRings(b: Buffer, call: Call, history: seq<int>)
    requires b.Valid() && call.Legal() && b.occupied <= b.shape.ceilingFrames
    requires b.seen == After(SEEN_WINDOW, history)
    ensures Step(b, call).0.seen == After(SEEN_WINDOW, history + NumberOf(call))
    ensures call.Arrives? ==>
      (Step(b, call).1 == Admitted(Duplicate)
       <==> FitsSlot(call.packet) && !Fresh(SEEN_WINDOW, history, call.packet.sequence))
  {
    match call
    case Arrives(packet, at) =>
      PushRemembers(b, packet, at);
      RingGrows(b.seen, packet, at, history);
    case Pulls =>
      PullRemembers(b);
      assert history + NumberOf(call) == history;
  }

  lemma NumbersNext(history: seq<int>, calls: seq<Call>)
    requires calls != []
    ensures history + Numbers(calls) == history + NumberOf(calls[0]) + Numbers(calls[1..])
  {
  }

  /**
   Over every run the ring is the one left by every packet that fitted, whatever became
   of it, and the copies answered are exactly those it knows at their turn.
   */
  lemma {:induction false} RingIsHistory(b: Buffer, calls: seq<Call>, history: seq<int>)
    requires b.Valid() && Legal(calls) && b.occupied <= b.shape.ceilingFrames
    requires b.seen == After(SEEN_WINDOW, history)
    ensures Run(b, calls).seen == After(SEEN_WINDOW, history + Numbers(calls))
    ensures CopiesAnswered(history, calls, Answers(b, calls))
    decreases |calls|
  {
    if calls == [] {
      assert history + Numbers(calls) == history;
    } else {
      var next := Step(b, calls[0]).0;
      StepKeepsCeiling(b, calls[0]);
      StepRings(b, calls[0], history);
      var more := history + NumberOf(calls[0]);
      RingIsHistory(next, calls[1..], more);
      NumbersNext(history, calls);
      assert Answers(b, calls)[1..] == Answers(next, calls[1..]);
    }
  }

  // Stragglers

  /** A call, and for an arrival the packet number its sequence number stands for. */
  datatype Numbered = Numbered(call: Call, number: int)

  function Unnumbered(events: seq<Numbered>): (calls: seq<Call>)
    ensures |calls| == |events| && forall i | 0 <= i < |events| :: calls[i] == events[i].call
  {
    seq(|events|, i requires 0 <= i < |events| => events[i].call)
  }

  /** Whether this packet got as far as the deadline test. */
  predicate Tested(answer: Answer) {
    answer.Admitted? && Reached(answer.admission)
  }

  /** The highest number so far of a packet that did. */
  function Higher(highest: Option<int>, answer: Answer, number: int): Option<int> {
    if Tested(answer) && (highest.None? || highest.value <= number) then Some(number) else highest
  }

  /** Each such packet is within half the 16-bit range of the highest before it. */
  ghost predicate Followed(highest: Option<int>, events: seq<Numbered>, answers: seq<Answer>)
    requires |events| == |answers|
    decreases |events|
  {
    events != [] ==>
      && (Tested(answers[0]) && events[0].call.Arrives? ==>
            && events[0].call.packet.sequence == Wrap16(events[0].number)
            && (highest.Some? ==> -HALF16 <= events[0].number - highest.value < HALF16))
      && Followed(Higher(highest, answers[0], events[0].number), events[1..], answers[1..])
  }

  /** How many of them came behind the highest before them. */
  function Stragglers(highest: Option<int>, events: seq<Numbered>, answers: seq<Answer>): nat
    requires |events| == |answers|
    decreases |events|
  {
    if events == [] then 0
    else
      (if Tested(answers[0]) && highest.Some? && events[0].number < highest.value then 1 else 0)
      + Stragglers(Higher(highest, answers[0], events[0].number), events[1..], answers[1..])
  }

  /** And whether each that was queued was told apart from one in order. */
  ghost predicate StragglersTold(highest: Option<int>, events: seq<Numbered>, answers: seq<Answer>)
    requires |events| == |answers|
    decreases |events|
  {
    events != [] ==>
      && (answers[0].Admitted? && answers[0].admission.Queued? ==>
            (answers[0].admission.reordered <==> highest.Some? && events[0].number < highest.value))
      && StragglersTold(Higher(highest, answers[0], events[0].number), events[1..], answers[1..])
  }

  /** The buffer's highest sequence number stands for this packet number. */
  ghost predicate Knows(b: Buffer, highest: Option<int>) {
    b.highestSequence == if highest.None? then None else Some(Wrap16(highest.value))
  }

  lemma StepStrays(b: Buffer, call: Call, highest: Option<int>, number: int)
    requires b.Valid() && call.Legal() && b.occupied <= b.shape.ceilingFrames && Knows(b, highest)
    requires Tested(Step(b, call).1) && call.Arrives? ==>
      && call.packet.sequence == Wrap16(number)
      && (highest.Some? ==> -HALF16 <= number - highest.value < HALF16)
    ensures var (r, answer) := Step(b, call);
            var strays := Tested(answer) && highest.Some? && number < highest.value;
            && Knows(r, Higher(highest, answer, number))
            && r.counts.reordered == b.counts.reordered + (if strays then 1 else 0)
            && (answer.Admitted? && answer.admission.Queued? ==> answer.admission.reordered == strays)
  {
    match call
    case Arrives(packet, at) =>
      PushTallies(b, packet, at);
      PushRemembers(b, packet, at);
      if highest.Some? {
        DistanceIsDifference16(number, highest.value);
      }
    case Pulls => PullRemembers(b);
  }

  /**
   Over every run within half the sequence range, through the 16-bit wrap: the packets
   counted as reordered, and those queued as such, are exactly those that reached the
   deadline test behind the highest number that had reached it before them.
   */
  lemma {:induction false} ReorderedAreStragglers(b: Buffer, events: seq<Numbered>, highest: Option<int>)
    requires b.Valid() && Legal(Unnumbered(events)) && b.occupied <= b.shape.ceilingFrames && Knows(b, highest)
    requires Followed(highest, events, Answers(b, Unnumbered(events)))
    ensures var calls := Unnumbered(events);
            && Run(b, calls).counts.reordered
               == b.counts.reordered + Stragglers(highest, events, Answers(b, calls))
            && StragglersTold(highest, events, Answers(b, calls))
    decreases |events|
  {
    if events != [] {
      var calls := Unnumbered(events);
      var (next, answer) := Step(b, calls[0]);
      assert calls[1..] == Unnumbered(events[1..]);
      assert Answers(b, calls)[1..] == Answers(next, calls[1..]);
      StepKeepsCeiling(b, calls[0]);
      StepStrays(b, calls[0], highest, events[0].number);
      ReorderedAreStragglers(next, events[1..], Higher(highest, answer, events[0].number));
    }
  }
}
