/**
 The whole probe as interleaved steps: a sender that may stop early, a network
 that loses, copies and reorders, a receiver that pushes under the lock and
 publishes when playout starts, and a sink that looks at `sent_all`, asks
 `drained` in one lock section and pulls in the next.

 A run is any sequence of enabled steps. Nothing orders the threads but the lock,
 and nothing is asked of the network: any datagram sent may arrive at any time, any
 number of times.
 */
module Probe {
  import opened Wrappers
  import opened Wrap
  import opened SeenWindows
  import opened Grid
  import opened SlotBuffer
  import opened Packetizer
  import opened Spans
  import BufferRuns

  /** One run's fixed part: the buffer's sizes, the stream's random start, and how many frames the sender has. */
  datatype Setup = Setup(shape: Shape, start: Counters, total: nat) {
    ghost predicate Valid() {
      shape.Valid() && Stream().Reaches(total)
    }

    function Stream(): Span {
      Span(start.timestamp, shape.frameSamples)
    }

    /** The place in the stream of the frame with this timestamp. */
    function Place(timestamp: uint32): int {
      Stream().PlaceOf(timestamp)
    }

    function Number(k: int): int {
      start.sequence + k
    }
  }

  datatype Sink = Awaiting | GaveUp | Top | Asking | Pulling | Done {
    predicate Started() {
      !Awaiting? && !GaveUp?
    }
  }

  /**
   `sent` is every datagram handed to the socket. The last three fields are history
   no step reads: arrivals in order, and the frames handed over with the places in the
   stream they were handed over for.
   */
  datatype State = State(
    counters: Counters, sent: seq<Packet>, sentAll: bool,
    buffer: Buffer, publishing: bool, playoutAt: nat,
    sink: Sink, sawSentAll: bool, finalPulls: nat, finalUnderruns: nat,
    arrivals: seq<int>, handed: seq<seq<uint8>>, places: seq<int>)
  {
    /** Where in the stream the next pull is. */
    function Cursor(c: Setup): int {
      c.Place(buffer.cursor)
    }
  }

  datatype Step =
    | Emit(frame: seq<uint8>)
    | Finish
    | Deliver(k: nat, at: nat)
    | Publish
    | SeePlayout
    | TimeOut
    | ReadSentAll
    | AskDrained
    | PullFrame
  {
    predicate OfSink() {
      SeePlayout? || TimeOut? || ReadSentAll? || AskDrained? || PullFrame?
    }
  }

  ghost function Initial(c: Setup): State
    requires c.Valid()
  {
    State(c.start, [], false, New(c.shape), false, 0, Awaiting, false, 0, 0, [], [], [])
  }

  function Numbers(c: Setup, arrivals: seq<int>): (numbers: seq<int>)
    ensures |numbers| == |arrivals|
    ensures forall i | 0 <= i < |arrivals| :: numbers[i] == c.Number(arrivals[i])
  {
    seq(|arrivals|, i requires 0 <= i < |arrivals| => c.Number(arrivals[i]))
  }

  /** A pull leaves the cursor within half the timestamp range of the stream's start. */
  ghost predicate WithinHorizon(c: Setup, s: State) {
    c.Stream().Reaches(s.Cursor(c) + 1)
  }

  /**
   When a step may be taken. One guard is a hypothesis rather than code: the sink
   does not pull past the horizon.
   */
  ghost predicate Enabled(c: Setup, s: State, step: Step)
    requires c.Valid()
  {
    match step
    case Emit(frame) => !s.sentAll && |s.sent| < c.total && Write(s.counters, frame, c.shape.frameSamples).Written?
    case Finish => !s.sentAll
    case Deliver(k, at) => !s.publishing && k < |s.sent|
    case Publish => s.publishing
    case SeePlayout => s.sink.Awaiting? && s.playoutAt != 0
    case TimeOut => s.sink.Awaiting? && s.playoutAt == 0
    case ReadSentAll => s.sink.Top?
    case AskDrained => s.sink.Asking? && !s.publishing
    case PullFrame => s.sink.Pulling? && !s.publishing && WithinHorizon(c, s)
  }

  ghost function Take(c: Setup, s: State, step: Step): State
    requires c.Valid() && Enabled(c, s, step) && s.buffer.Valid()
    requires forall k | 0 <= k < |s.sent| :: s.sent[k].payload != []
  {
    match step
    case Emit(frame) =>
      var written := Write(s.counters, frame, c.shape.frameSamples);
      s.(counters := written.after, sent := s.sent + [written.packet])
    case Finish => s.(sentAll := true)
    case Deliver(k, at) =>
      var buffer := Push(s.buffer, s.sent[k], at).0;
      s.(buffer := buffer, publishing := s.buffer.anchor.None? && buffer.anchor.Some?, arrivals := s.arrivals + [k])
    case Publish =>
      s.(publishing := false, playoutAt := if s.buffer.anchor.Some? then s.buffer.anchor.value.playout else s.playoutAt)
    case SeePlayout => s.(sink := Top)
    case TimeOut => s.(sink := GaveUp)
    case ReadSentAll => if s.sentAll then s.(sink := Asking, sawSentAll := true) else s.(sink := Pulling)
    case AskDrained => s.(sink := if s.buffer.Drained() then Done else Pulling)
    case PullFrame =>
      var (buffer, outcome) := Pull(s.buffer);
      var late := if s.sawSentAll then 1 else 0;
      s.(buffer := buffer, sink := Top,
         finalPulls := s.finalPulls + late,
         finalUnderruns := s.finalUnderruns + (if outcome.Underrun? then late else 0),
         handed := if outcome.Frame? then s.handed + [outcome.payload] else s.handed,
         places := if outcome.Frame? then s.places + [s.Cursor(c)] else s.places)
  }

  // What every step keeps

  /** The sender's side: every datagram carries its place in the stream, through both wraps. */
  ghost predicate Stamped(c: Setup, counters: Counters, sent: seq<Packet>) {
    && |sent| <= c.total
    && counters == CountersAt(c.start, c.shape.frameSamples, |sent|)
    && forall k | 0 <= k < |sent| ::
         && sent[k].sequence == Wrap16(c.Number(k))
         && sent[k].timestamp == c.Stream().At(k)
         && 0 < |sent[k].payload| <= MAX_OPUS_PAYLOAD
  }

  /**
   The network's side: only what was sent arrives, in whatever order and number, and
   the ring is the one it leaves.
   */
  ghost predicate Known(c: Setup, count: nat, arrivals: seq<int>, seen: Ring) {
    && (forall k | k in arrivals :: 0 <= k < count)
    && seen == After(SEEN_WINDOW, Numbers(c, arrivals))
  }

  /** Every used slot holds a frame that was sent and has arrived, under the timestamp it was sent with. */
  ghost predicate Sourced(c: Setup, sent: seq<Packet>, arrivals: seq<int>, slots: seq<Slot>) {
    forall i | 0 <= i < |slots| && !slots[i].Free() ::
      var k := c.Place(slots[i].timestamp);
      k in arrivals && 0 <= k < |sent| && slots[i].Valid() && slots[i].Payload() == sent[k].payload
  }

  /** The sink's side: every frame it was handed is the one sent for the place it was handed over for, byte for byte. */
  ghost predicate AsSent(sent: seq<Packet>, handed: seq<seq<uint8>>, places: seq<int>) {
    && |handed| == |places|
    && forall i | 0 <= i < |places| :: 0 <= places[i] < |sent| && handed[i] == sent[places[i]].payload
  }

  /** Where each thread can be, and what its having got there says. */
  ghost predicate Phases(s: State) {
    && (s.sink.Started() || s.publishing || s.playoutAt != 0 ==> s.buffer.anchor.Some?)
    && (s.buffer.anchor.Some? ==>
          if s.publishing then s.playoutAt == 0 else s.playoutAt == s.buffer.anchor.value.playout > 0)
    && (s.sawSentAll ==> s.sentAll && s.sink.Started())
    && (s.sink.Asking? || s.sink.Done? ==> s.sawSentAll)
    && (s.sawSentAll && s.sink.Pulling? ==> s.buffer.occupied > 0)
    && s.finalUnderruns == 0
  }

  ghost predicate Inv(c: Setup, s: State) {
    && c.Valid()
    && Stamped(c, s.counters, s.sent)
    && Known(c, |s.sent|, s.arrivals, s.buffer.seen)
    && s.buffer.shape == c.shape && Lined(c.Stream(), c.total, s.buffer)
    && Sourced(c, s.sent, s.arrivals, s.buffer.slots)
    && AsSent(s.sent, s.handed, s.places)
    && Phases(s)
  }

  lemma WrappedIsItself(start: Counters)
    ensures Wrap16(start.sequence) == start.sequence && Wrap32(start.timestamp) == start.timestamp
  {
  }

  lemma InitialInv(c: Setup)
    requires c.Valid()
    ensures Inv(c, Initial(c))
  {
    var b := New(c.shape);
    assert Ticks(c.shape.frameSamples, 0) == 0;
    WrappedIsItself(c.start);
  }

  // Sender

  lemma SendStamps(c: Setup, counters: Counters, sent: seq<Packet>, frame: seq<uint8>)
    requires c.Valid() && Stamped(c, counters, sent) && |sent| < c.total
    requires Write(counters, frame, c.shape.frameSamples).Written?
    ensures var w := Write(counters, frame, c.shape.frameSamples);
            Stamped(c, w.after, sent + [w.packet])
  {
    StampsAreAffine(c.start, c.shape.frameSamples, |sent|, frame);
    var more := sent + [Write(counters, frame, c.shape.frameSamples).packet];
    assert forall k | 0 <= k < |sent| :: more[k] == sent[k];
  }

  lemma EmitKeeps(c: Setup, s: State, frame: seq<uint8>)
    requires Inv(c, s) && Enabled(c, s, Emit(frame))
    ensures Inv(c, Take(c, s, Emit(frame)))
  {
    SendStamps(c, s.counters, s.sent, frame);
  }

  // Network and receiver

  lemma NumbersGrow(c: Setup, arrivals: seq<int>, k: int)
    ensures Numbers(c, arrivals + [k]) == Numbers(c, arrivals) + [c.Number(k)]
  {
  }

  lemma RingRecords(c: Setup, count: nat, arrivals: seq<int>, seen: Ring, k: int)
    requires Known(c, count, arrivals, seen) && 0 <= k < count
    ensures |seen| == SEEN_WINDOW
    ensures Known(c, count, arrivals + [k], Arrive(seen, Wrap16(c.Number(k))).1)
  {
    NumbersGrow(c, arrivals, k);
    var more := Numbers(c, arrivals + [k]);
    assert more[..|more| - 1] == Numbers(c, arrivals);
  }

  /** What a push leaves in the slots was sent and has arrived. */
  lemma PushIsSourced(c: Setup, sent: seq<Packet>, arrivals: seq<int>, before: seq<Slot>, after: seq<Slot>, k: nat)
    requires c.Valid() && |sent| <= c.total && k < |sent| && sent[k].timestamp == c.Stream().At(k)
    requires Sourced(c, sent, arrivals, before) && From(before, after, sent[k])
    ensures Sourced(c, sent, arrivals + [k], after)
  {
    ReachesBefore(c.Stream(), k, c.total);
    PlaceOfAt(c.Stream(), k);
    assert (arrivals + [k])[|arrivals|] == k;
    assert forall j | j in arrivals :: j in arrivals + [k];
  }

  lemma DeliverKeeps(c: Setup, s: State, k: nat, at: nat)
    requires Inv(c, s) && Enabled(c, s, Deliver(k, at))
    ensures Inv(c, Take(c, s, Deliver(k, at)))
  {
    var p, b := s.sent[k], s.buffer;
    PushLines(c.Stream(), c.total, b, p, k, at);
    BufferRuns.PushRemembers(b, p, at);
    RingRecords(c, |s.sent|, s.arrivals, b.seen, k);
    PushIsSourced(c, s.sent, s.arrivals, b.slots, Push(b, p, at).0.slots, k);
  }

  // Sink

  lemma AskKeeps(c: Setup, s: State)
    requires Inv(c, s) && Enabled(c, s, AskDrained)
    ensures Inv(c, Take(c, s, AskDrained))
  {
    DrainedIsEmpty(c.Stream(), c.total, s.buffer);
  }

  /** The frame a pull hands over is the one sent for the cursor's place. */
  lemma PullIsAsSent(c: Setup, s: State)
    requires Inv(c, s) && Enabled(c, s, PullFrame)
    ensures var outcome := Pull(s.buffer).1;
            outcome.Frame? ==> 0 <= s.Cursor(c) < |s.sent| && outcome.payload == s.sent[s.Cursor(c)].payload
  {
    PullServes(s.buffer);
  }

  lemma PullAdvances(c: Setup, s: State)
    requires Inv(c, s) && Enabled(c, s, PullFrame)
    ensures var r := Take(c, s, PullFrame);
            && Lined(c.Stream(), c.total, r.buffer) && r.Cursor(c) == s.Cursor(c) + 1
            && r.buffer.anchor == s.buffer.anchor && r.buffer.seen == s.buffer.seen
            && Sourced(c, r.sent, r.arrivals, r.buffer.slots)
  {
    var next := s.Cursor(c) + 1;
    PullServes(s.buffer);
    PullLines(c.Stream(), c.total, s.buffer, next);
  }

  lemma PullKeeps(c: Setup, s: State)
    requires Inv(c, s) && Enabled(c, s, PullFrame)
    ensures Inv(c, Take(c, s, PullFrame))
  {
    PullServes(s.buffer);
    PullAdvances(c, s);
    PullIsAsSent(c, s);
  }

  /** Every enabled step of any thread keeps the invariant, whatever the network does. */
  lemma StepKeeps(c: Setup, s: State, step: Step)
    requires Inv(c, s) && Enabled(c, s, step)
    ensures Inv(c, Take(c, s, step))
  {
    match step
    case Emit(frame) => EmitKeeps(c, s, frame);
    case Deliver(k, at) => DeliverKeeps(c, s, k, at);
    case AskDrained => AskKeeps(c, s);
    case PullFrame => PullKeeps(c, s);
    case _ =>
  }

  // Whole runs

  ghost predicate Possible(c: Setup, s: State, run: seq<Step>)
    requires Inv(c, s)
    decreases |run|
  {
    run != [] ==>
      && Enabled(c, s, run[0])
      && (StepKeeps(c, s, run[0]); Possible(c, Take(c, s, run[0]), run[1..]))
  }

  ghost function Execute(c: Setup, s: State, run: seq<Step>): (r: State)
    requires Inv(c, s) && Possible(c, s, run)
    ensures Inv(c, r)
    decreases |run|
  {
    if run == [] then s
    else
      StepKeeps(c, s, run[0]);
      Execute(c, Take(c, s, run[0]), run[1..])
  }

  /** Nothing sent is unsent, and nothing handed to the sink is taken back. */
  ghost predicate Continues(s: State, r: State) {
    s.sent <= r.sent && s.handed <= r.handed && s.places <= r.places
  }

  lemma StepContinues(c: Setup, s: State, step: Step)
    requires Inv(c, s) && Enabled(c, s, step)
    ensures Continues(s, Take(c, s, step))
  {
  }

  lemma ContinuesTwice(s: State, m: State, r: State)
    requires Continues(s, m) && Continues(m, r)
    ensures Continues(s, r)
  {
  }

  /**
   For every loss, copy and reordering and every interleaving: each frame the sink is
   handed is the one sent for the place it was asked for, byte for byte; nothing handed
   over is taken back; and once the sink has read that all was sent no pull underruns.
   */
  lemma {:induction false} HandedAsSent(c: Setup, s: State, run: seq<Step>)
    requires Inv(c, s) && Possible(c, s, run)
    ensures var r := Execute(c, s, run);
            AsSent(r.sent, r.handed, r.places) && Continues(s, r) && r.finalUnderruns == 0
    decreases |run|
  {
    if run != [] {
      var next := Take(c, s, run[0]);
      StepKeeps(c, s, run[0]);
      StepContinues(c, s, run[0]);
      HandedAsSent(c, next, run[1..]);
      ContinuesTwice(s, next, Execute(c, s, run));
    }
  }

  // What the history is of

  /** One pull of a run: what it answered, for which place, and whether the sink had seen the sender finish. */
  datatype Pulled = Pulled(outcome: Outcome, place: int, last: bool)

  ghost function PullBy(c: Setup, s: State, step: Step): seq<Pulled>
    requires s.buffer.Valid()
  {
    if step.PullFrame? then [Pulled(Pull(s.buffer).1, s.Cursor(c), s.sawSentAll)] else []
  }

  ghost function PullsIn(c: Setup, s: State, run: seq<Step>): seq<Pulled>
    requires Inv(c, s) && Possible(c, s, run)
    decreases |run|
  {
    if run == [] then []
    else
      StepKeeps(c, s, run[0]);
      PullBy(c, s, run[0]) + PullsIn(c, Take(c, s, run[0]), run[1..])
  }

  predicate HandsOver(p: Pulled) {
    p.outcome.Frame?
  }

  predicate IsLast(p: Pulled) {
    p.last
  }

  predicate Starves(p: Pulled) {
    p.last && p.outcome.Underrun?
  }

  /** The frames among the answers, with the places they answered for. */
  function Handed(pulls: seq<Pulled>): (seq<seq<uint8>>, seq<int>) {
    if pulls == [] then ([], [])
    else
      var (frames, places) := Handed(pulls[1..]);
      if HandsOver(pulls[0]) then ([pulls[0].outcome.payload] + frames, [pulls[0].place] + places) else (frames, places)
  }

  function EmittedBy(step: Step): seq<seq<uint8>> {
    if step.Emit? then [step.frame] else []
  }

  function Emitted(run: seq<Step>): seq<seq<uint8>> {
    if run == [] then [] else EmittedBy(run[0]) + Emitted(run[1..])
  }

  function Payloads(sent: seq<Packet>): (payloads: seq<seq<uint8>>)
    ensures |payloads| == |sent| && forall i | 0 <= i < |sent| :: payloads[i] == sent[i].payload
  {
    seq(|sent|, i requires 0 <= i < |sent| => sent[i].payload)
  }

  /** From one state to the other these frames were sent and these pulls were made, and the history says so. */
  ghost predicate Records(s: State, r: State, frames: seq<seq<uint8>>, pulls: seq<Pulled>) {
    && Payloads(r.sent) == Payloads(s.sent) + frames
    && r.handed == s.handed + Handed(pulls).0
    && r.places == s.places + Handed(pulls).1
    && r.finalPulls == s.finalPulls + Count(IsLast, pulls)
    && r.finalUnderruns == s.finalUnderruns + Count(Starves, pulls)
  }

  lemma PullRecords(c: Setup, s: State)
    requires c.Valid() && s.buffer.Valid() && Enabled(c, s, PullFrame)
    requires forall k | 0 <= k < |s.sent| :: s.sent[k].payload != []
    ensures Records(s, Take(c, s, PullFrame), [], PullBy(c, s, PullFrame))
  {
    var pulls := PullBy(c, s, PullFrame);
    assert pulls[1..] == [];
    assert Payloads(s.sent) + [] == Payloads(s.sent);
  }

  lemma StepRecords(c: Setup, s: State, step: Step)
    requires c.Valid() && s.buffer.Valid() && Enabled(c, s, step)
    requires forall k | 0 <= k < |s.sent| :: s.sent[k].payload != []
    ensures Records(s, Take(c, s, step), EmittedBy(step), PullBy(c, s, step))
  {
    match step
    case PullFrame => PullRecords(c, s);
    case Emit(frame) =>
    case _ => assert Payloads(s.sent) + [] == Payloads(s.sent);
  }

  lemma {:induction false} HandedJoins(a: seq<Pulled>, b: seq<Pulled>)
    ensures Handed(a + b).0 == Handed(a).0 + Handed(b).0 && Handed(a + b).1 == Handed(a).1 + Handed(b).1
    decreases |a|
  {
    if a == [] {
      assert a + b == b;
    } else {
      assert (a + b)[1..] == a[1..] + b;
      HandedJoins(a[1..], b);
    }
  }

  lemma Regroup<T>(a: seq<T>, b: seq<T>, c: seq<T>)
    ensures a + b + c == a + (b + c)
  {
  }

  lemma RecordsTwice(s: State, m: State, r: State, frames: seq<seq<uint8>>, later: seq<seq<uint8>>,
      pulls: seq<Pulled>, more: seq<Pulled>)
    requires Records(s, m, frames, pulls) && Records(m, r, later, more)
    ensures Records(s, r, frames + later, pulls + more)
  {
    CountJoins(IsLast, pulls, more);
    CountJoins(Starves, pulls, more);
    HandedJoins(pulls, more);
    Regroup(Payloads(s.sent), frames, later);
    Regroup(s.handed, Handed(pulls).0, Handed(more).0);
    Regroup(s.places, Handed(pulls).1, Handed(more).1);
  }

  /** The history kept beside the program's own state is of the whole run: all that was sent, every frame pulled. */
  lemma {:induction false} HistoryIsOfTheRun(c: Setup, s: State, run: seq<Step>)
    requires Inv(c, s) && Possible(c, s, run)
    ensures Records(s, Execute(c, s, run), Emitted(run), PullsIn(c, s, run))
    decreases |run|
  {
    if run == [] {
      assert Payloads(s.sent) + [] == Payloads(s.sent);
    } else {
      var next := Take(c, s, run[0]);
      StepKeeps(c, s, run[0]);
      StepRecords(c, s, run[0]);
      HistoryIsOfTheRun(c, next, run[1..]);
      RecordsTwice(s, next, Execute(c, s, run), EmittedBy(run[0]), Emitted(run[1..]), PullBy(c, s, run[0]),
          PullsIn(c, next, run[1..]));
    }
  }

  /** Whether the sink reads `sent_all` after the sender has finished. */
  predicate Sees(sentAll: bool, run: seq<Step>)
    decreases |run|
  {
    run != [] && ((sentAll && run[0].ReadSentAll?) || Sees(sentAll || run[0].Finish?, run[1..]))
  }

  lemma StepSees(c: Setup, s: State, step: Step)
    requires c.Valid() && s.buffer.Valid() && Enabled(c, s, step)
    requires forall k | 0 <= k < |s.sent| :: s.sent[k].payload != []
    ensures Take(c, s, step).sentAll <==> s.sentAll || step.Finish?
    ensures Take(c, s, step).sawSentAll <==> s.sawSentAll || (s.sentAll && step.ReadSentAll?)
  {
  }

  /** The sender has finished only by its own step, and the sink has seen it exactly when it then read so. */
  lemma {:induction false} EndIsSeen(c: Setup, s: State, run: seq<Step>)
    requires Inv(c, s) && Possible(c, s, run)
    ensures Execute(c, s, run).sentAll <==> s.sentAll || exists i | 0 <= i < |run| :: run[i].Finish?
    ensures Execute(c, s, run).sawSentAll <==> s.sawSentAll || Sees(s.sentAll, run)
    decreases |run|
  {
    if run != [] {
      StepKeeps(c, s, run[0]);
      StepSees(c, s, run[0]);
      EndIsSeen(c, Take(c, s, run[0]), run[1..]);
      assert forall i | 1 <= i < |run| :: run[i] == run[1..][i - 1];
    }
  }

  /** The sink reads `sent_all` before it next pulls. */
  predicate ReadsFirst(run: seq<Step>) {
    run != [] && !run[0].ReadSentAll? ==> !run[0].PullFrame? && ReadsFirst(run[1..])
  }

  predicate ReadsBetween(run: seq<Step>) {
    run != [] ==> (run[0].PullFrame? ==> ReadsFirst(run[1..])) && ReadsBetween(run[1..])
  }

  lemma {:induction false} SinkReadsFirst(c: Setup, s: State, run: seq<Step>)
    requires Inv(c, s) && Possible(c, s, run) && !s.sink.Asking? && !s.sink.Pulling?
    ensures ReadsFirst(run)
    decreases |run|
  {
    if run != [] && !run[0].ReadSentAll? {
      StepKeeps(c, s, run[0]);
      SinkReadsFirst(c, Take(c, s, run[0]), run[1..]);
    }
  }

  /** As it does before its first pull, and again between any two. */
  lemma {:induction false} SinkRereads(c: Setup, s: State, run: seq<Step>)
    requires Inv(c, s) && Possible(c, s, run)
    ensures ReadsBetween(run)
    ensures s.sink.Awaiting? ==> ReadsFirst(run)
    decreases |run|
  {
    if s.sink.Awaiting? {
      SinkReadsFirst(c, s, run);
    }
    if run != [] {
      var next := Take(c, s, run[0]);
      StepKeeps(c, s, run[0]);
      SinkRereads(c, next, run[1..]);
      if run[0].PullFrame? {
        SinkReadsFirst(c, next, run[1..]);
      }
    }
  }

  lemma {:induction false} NoneCounted(pulls: seq<Pulled>)
    requires Count(Starves, pulls) == 0
    ensures forall p | p in pulls :: !Starves(p)
  {
    if pulls != [] {
      NoneCounted(pulls[1..]);
    }
  }

  /** So no pull of any run underruns once the sink has seen the sender finish. */
  lemma FinalPullsAreServed(c: Setup, s: State, run: seq<Step>)
    requires Inv(c, s) && Possible(c, s, run)
    ensures forall p | p in PullsIn(c, s, run) :: p.last ==> !p.outcome.Underrun?
  {
    HistoryIsOfTheRun(c, s, run);
    HandedAsSent(c, s, run);
    NoneCounted(PullsIn(c, s, run));
  }

  // Order

  /** The places handed over only grow, and the cursor is past them all: each frame at most once, in the order sent. */
  ghost predicate InOrder(places: seq<int>, cursor: int) {
    && (forall i, j | 0 <= i < j < |places| :: places[i] < places[j])
    && (forall i | 0 <= i < |places| :: places[i] < cursor)
  }

  ghost predicate Ordered(c: Setup, s: State) {
    if s.buffer.anchor.None? then s.places == [] else InOrder(s.places, s.Cursor(c))
  }

  /** The arrival of a packet that moves the anchored cursor back. */
  ghost predicate MovesBack(s: State, step: Step)
    requires s.buffer.Valid() && forall k | 0 <= k < |s.sent| :: s.sent[k].payload != []
  {
    && step.Deliver? && step.k < |s.sent| && s.buffer.anchor.Some?
    && Distance32(Push(s.buffer, s.sent[step.k], step.at).0.cursor, s.buffer.cursor) < 0
  }

  /**
   Which arrivals do, exactly, told by the buffer before them: those it will queue,
   at its ceiling, with as many used slots as an overrun gives up more than one frame
   behind the cursor.
   */
  lemma MovesBackExactly(c: Setup, s: State, k: nat, at: nat)
    requires Inv(c, s) && Enabled(c, s, Deliver(k, at)) && s.buffer.anchor.Some?
    ensures var b := s.buffer;
            MovesBack(s, Deliver(k, at)) <==>
              && Takes(b, s.sent[k]) && b.occupied == b.shape.ceilingFrames
              && Lagging(b.slots, b.cursor, b.shape.frameSamples) >= BufferRuns.Discard(b.shape)
  {
    CursorMovesBackExactly(c.Stream(), c.total, s.buffer, s.sent[k], k, at);
  }

  /** Any other arrival leaves the cursor at its place or further on. */
  lemma ForwardKeepsPlace(c: Setup, s: State, k: nat, at: nat)
    requires Inv(c, s) && Enabled(c, s, Deliver(k, at)) && s.buffer.anchor.Some?
    ensures !MovesBack(s, Deliver(k, at)) <==> Take(c, s, Deliver(k, at)).Cursor(c) >= s.Cursor(c)
  {
    DeliverKeeps(c, s, k, at);
    PushLines(c.Stream(), c.total, s.buffer, s.sent[k], k, at);
    Apart(c.Stream(), Take(c, s, Deliver(k, at)).Cursor(c), s.Cursor(c));
  }

  lemma PullKeepsOrder(places: seq<int>, more: seq<int>, cursor: int)
    requires InOrder(places, cursor) && (more == places || more == places + [cursor])
    ensures InOrder(more, cursor + 1)
  {
  }

  lemma StepKeepsOrder(c: Setup, s: State, step: Step)
    requires Inv(c, s) && Enabled(c, s, step) && Ordered(c, s) && !MovesBack(s, step)
    ensures Ordered(c, Take(c, s, step))
  {
    match step
    case Deliver(k, at) =>
      if s.buffer.anchor.Some? {
        PushLines(c.Stream(), c.total, s.buffer, s.sent[k], k, at);
        ForwardKeepsPlace(c, s, k, at);
      }
    case PullFrame =>
      PullAdvances(c, s);
      PullKeepsOrder(s.places, Take(c, s, PullFrame).places, s.Cursor(c));
    case _ =>
  }

  ghost predicate NeverBack(c: Setup, s: State, run: seq<Step>)
    requires Inv(c, s) && Possible(c, s, run)
    decreases |run|
  {
    run != [] ==>
      && !MovesBack(s, run[0])
      && (StepKeeps(c, s, run[0]); NeverBack(c, Take(c, s, run[0]), run[1..]))
  }

  /**
   End to end, over every interleaving in which no arrival moves the cursor back: the
   sink is handed each frame at most once, in the order sent.
   */
  lemma {:induction false} HandedInOrder(c: Setup, s: State, run: seq<Step>)
    requires Inv(c, s) && Possible(c, s, run) && NeverBack(c, s, run) && Ordered(c, s)
    ensures Ordered(c, Execute(c, s, run))
    decreases |run|
  {
    if run != [] {
      StepKeeps(c, s, run[0]);
      StepKeepsOrder(c, s, run[0]);
      HandedInOrder(c, Take(c, s, run[0]), run[1..]);
    }
  }

  // The end

  /** The sink has pulled no further than the cursor has come. */
  ghost predicate Paced(c: Setup, s: State) {
    s.finalPulls <= c.total && if s.buffer.anchor.None? then s.finalPulls == 0 else s.finalPulls <= s.Cursor(c)
  }

  /** Some used slot is at the cursor or ahead of it. */
  ghost predicate Fed(b: Buffer) {
    exists i | 0 <= i < |b.slots| :: !b.slots[i].Free() && Distance32(b.slots[i].timestamp, b.cursor) >= 0
  }

  /** No arrival moves the cursor back, and no pull after the end was seen is for copies left behind alone. */
  ghost predicate Steady(s: State, step: Step)
    requires s.buffer.Valid() && forall k | 0 <= k < |s.sent| :: s.sent[k].payload != []
  {
    !MovesBack(s, step) && (step.PullFrame? && s.sawSentAll ==> Fed(s.buffer))
  }

  ghost predicate AllSteady(c: Setup, s: State, run: seq<Step>)
    requires Inv(c, s) && Possible(c, s, run)
    decreases |run|
  {
    run != [] ==>
      && Steady(s, run[0])
      && (StepKeeps(c, s, run[0]); AllSteady(c, Take(c, s, run[0]), run[1..]))
  }

  /** A frame at or ahead of the cursor bounds the cursor by the stream's end, well within the horizon. */
  lemma FedIsWithin(c: Setup, s: State)
    requires Inv(c, s) && s.buffer.anchor.Some? && Fed(s.buffer)
    ensures s.Cursor(c) < c.total && WithinHorizon(c, s)
  {
    var b := s.buffer;
    var i :| 0 <= i < |b.slots| && !b.slots[i].Free() && Distance32(b.slots[i].timestamp, b.cursor) >= 0;
    var k := c.Place(b.slots[i].timestamp);
    ReachesBefore(c.Stream(), k, c.total);
    Apart(c.Stream(), k, s.Cursor(c));
    var next := s.Cursor(c) + 1;
    ReachesBefore(c.Stream(), next, c.total);
  }

  lemma StepKeepsPace(c: Setup, s: State, step: Step)
    requires Inv(c, s) && Enabled(c, s, step) && Paced(c, s) && Steady(s, step)
    ensures Paced(c, Take(c, s, step))
    ensures step.PullFrame? && s.sawSentAll ==> s.finalPulls < c.total
  {
    match step
    case Deliver(k, at) =>
      DeliverKeeps(c, s, k, at);
      if s.buffer.anchor.Some? {
        PushLines(c.Stream(), c.total, s.buffer, s.sent[k], k, at);
        ForwardKeepsPlace(c, s, k, at);
      }
    case PullFrame =>
      PullAdvances(c, s);
      if s.sawSentAll {
        FedIsWithin(c, s);
      }
    case _ =>
  }

  function SinkSteps(run: seq<Step>): nat {
    if run == [] then 0 else (if run[0].OfSink() then 1 else 0) + SinkSteps(run[1..])
  }

  /** Sink steps left at most, once it has seen the sender finish. */
  ghost function StepsLeft(c: Setup, s: State): int {
    var pulls := 3 * (c.total - s.finalPulls);
    match s.sink
    case Top => pulls + 2
    case Asking => pulls + 1
    case Pulling => pulls
    case _ => 0
  }

  lemma StepCountsDown(c: Setup, s: State, step: Step)
    requires Inv(c, s) && s.sawSentAll && Enabled(c, s, step) && Paced(c, s) && Steady(s, step)
    ensures var r := Take(c, s, step);
            && r.sawSentAll
            && r.finalPulls >= s.finalPulls
            && StepsLeft(c, r) + (if step.OfSink() then 1 else 0) <= StepsLeft(c, s)
  {
    if step.PullFrame? {
      StepKeepsPace(c, s, step);
    }
  }

  /**
   Clean finish, for every steady interleaving after the sink has seen the sender
   finish: it makes at most `total` more pulls, none of which underruns, and takes at
   most `StepsLeft` more steps of any kind.
   */
  lemma {:induction false} CleanFinish(c: Setup, s: State, run: seq<Step>)
    requires Inv(c, s) && s.sawSentAll && Paced(c, s) && Possible(c, s, run) && AllSteady(c, s, run)
    ensures var r := Execute(c, s, run);
            && r.finalUnderruns == 0
            && r.finalPulls <= c.total
            && SinkSteps(run) + StepsLeft(c, r) <= StepsLeft(c, s) <= 3 * c.total + 2
    decreases |run|
  {
    if run != [] {
      StepKeeps(c, s, run[0]);
      StepKeepsPace(c, s, run[0]);
      StepCountsDown(c, s, run[0]);
      CleanFinish(c, Take(c, s, run[0]), run[1..]);
    }
  }

  /**
   What can hold the sink up, exactly: until it is done it has a step to take unless
   the receiver is about to publish, which it then can, or the sink is to pull past
   the horizon; and the horizon never holds it while a frame is at or ahead of the cursor.
   */
  lemma SinkNeverStuck(c: Setup, s: State)
    requires Inv(c, s) && !s.sink.Done? && !s.sink.GaveUp?
    ensures s.publishing ==> Enabled(c, s, Publish)
    ensures !s.publishing ==>
      ((exists step: Step :: step.OfSink() && Enabled(c, s, step)) <==> (s.sink.Pulling? ==> WithinHorizon(c, s)))
    ensures s.sink.Pulling? && Fed(s.buffer) ==> WithinHorizon(c, s)
  {
    if s.sink.Pulling? && Fed(s.buffer) {
      FedIsWithin(c, s);
    }
    var next :=
      match s.sink
      case Awaiting => if s.playoutAt != 0 then SeePlayout else TimeOut
      case Top => ReadSentAll
      case Asking => AskDrained
      case _ => PullFrame;
    assert next.OfSink() && (!s.publishing && (s.sink.Pulling? ==> WithinHorizon(c, s)) ==> Enabled(c, s, next));
  }

  /** The sink stops only, and always, on a buffer with nothing left in it. */
  lemma DoneMeansDrained(c: Setup, s: State)
    requires Inv(c, s) && Enabled(c, s, AskDrained)
    ensures Take(c, s, AskDrained).sink.Done? <==> s.buffer.occupied == 0
  {
    DrainedIsEmpty(c.Stream(), c.total, s.buffer);
  }
}
