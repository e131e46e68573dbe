/**
 Whole runs of one stream: the wrapped buffer and the timeline side by side,
 and what the timeline says about samples and delivery over any run.
 */
module StreamRuns {
  import opened Wrappers
  import opened Wrap
  import opened SeenWindows
  import opened Grid
  import opened SlotBuffer
  import opened BufferRuns
  import P = Playout
  import R = Refinement

  /** A call on the buffer; for an arrival, with the tick its wire timestamp stands for. */
  datatype Event = Event(call: Call, tick: int)

  function Calls(events: seq<Event>): (calls: seq<Call>)
    ensures |calls| == |events|
    ensures forall i | 0 <= i < |events| :: calls[i] == events[i].call
  {
    seq(|events|, i requires 0 <= i < |events| => events[i].call)
  }

  lemma PushKeepsShape(m: P.Timeline, p: Packet, tick: int, at: nat)
    requires P.Inv(m)
    ensures P.Push(m, p, tick, at).0.shape == m.shape
  {
  }

  ghost function Next(m: P.Timeline, e: Event): (r: (P.Timeline, Answer))
    requires P.Inv(m)
    ensures P.Inv(r.0) && r.0.shape == m.shape
  {
    match e.call
    case Arrives(packet, at) =>
      P.PushKeepsInv(m, packet, e.tick, at);
      PushKeepsShape(m, packet, e.tick, at);
      var (after, admission) := P.Push(m, packet, e.tick, at);
      (after, Admitted(admission))
    case Pulls =>
      P.PullKeepsInv(m);
      var (after, outcome) := P.Pull(m);
      (after, Served(outcome))
  }

  ghost function Play(m: P.Timeline, events: seq<Event>): (r: P.Timeline)
    requires P.Inv(m)
    ensures P.Inv(r) && r.shape == m.shape
    decreases |events|
  {
    if events == [] then m else Play(Next(m, events[0]).0, events[1..])
  }

  ghost function Replies(m: P.Timeline, events: seq<Event>): seq<Answer>
    requires P.Inv(m)
    decreases |events|
  {
    if events == [] then [] else [Next(m, events[0]).1] + Replies(Next(m, events[0]).0, events[1..])
  }

  /** The half-range hypothesis, at every arrival of the run. */
  ghost predicate AllFit(m: P.Timeline, events: seq<Event>)
    requires P.Inv(m)
    decreases |events|
  {
    events != [] ==>
      && (events[0].call.Arrives? ==> R.Fits(m, events[0].call.packet, events[0].tick))
      && AllFit(Next(m, events[0]).0, events[1..])
  }

  lemma {:induction false} FittingIsLegal(m: P.Timeline, events: seq<Event>)
    requires P.Inv(m) && AllFit(m, events)
    ensures Legal(Calls(events))
    decreases |events|
  {
    if events != [] {
      FittingIsLegal(Next(m, events[0]).0, events[1..]);
      assert forall i | 1 <= i < |events| :: events[i].call == Calls(events[1..])[i - 1];
    }
  }

  lemma NextRefines(b: Buffer, m: P.Timeline, e: Event)
    requires R.Refines(b, m) && (e.call.Arrives? ==> R.Fits(m, e.call.packet, e.tick))
    ensures R.Refines(Step(b, e.call).0, Next(m, e).0) && Step(b, e.call).1 == Next(m, e).1
  {
    match e.call
    case Arrives(packet, at) => R.PushRefines(b, m, packet, e.tick, at);
    case Pulls => R.PullRefines(b, m);
  }

  /**
   The refinement over every run: while ticks stay within half the range, the
   slot array answers every push and every pull exactly as the timeline does, and
   still represents it afterwards, counters included.
   */
  lemma {:induction false} RunRefines(b: Buffer, m: P.Timeline, events: seq<Event>)
    requires R.Refines(b, m) && AllFit(m, events)
    ensures Legal(Calls(events))
    ensures Answers(b, Calls(events)) == Replies(m, events)
    ensures R.Refines(Run(b, Calls(events)), Play(m, events))
    decreases |events|
  {
    FittingIsLegal(m, events);
    if events != [] {
      NextRefines(b, m, events[0]);
      assert Calls(events)[1..] == Calls(events[1..]);
      RunRefines(Step(b, events[0].call).0, Next(m, events[0]).0, events[1..]);
    }
  }

  // Samples

  ghost function SkippedBy(m: P.Timeline, e: Event): int
    requires P.Inv(m)
  {
    if e.call.Arrives? && m.origin.Some? then Next(m, e).0.cursor - m.cursor else 0
  }

  /** Ticks the cursor was moved over to hold the ceiling. */
  ghost function SkippedTicks(m: P.Timeline, events: seq<Event>): int
    requires P.Inv(m)
    decreases |events|
  {
    if events == [] then 0
    else SkippedBy(m, events[0]) + SkippedTicks(Next(m, events[0]).0, events[1..])
  }

  /** Pulls made before any packet anchored the stream. */
  ghost function EarlyPulls(m: P.Timeline, events: seq<Event>): nat
    requires P.Inv(m)
    decreases |events|
  {
    if events == [] then 0
    else (if events[0].call.Pulls? && m.origin.None? then 1 else 0) + EarlyPulls(Next(m, events[0]).0, events[1..])
  }

  lemma AdmitMovesClock(m: P.Timeline, p: Packet, tick: int)
    requires P.Inv(m) && m.origin.Some?
    ensures var n := P.Admit(m, p, tick).0;
            && n.origin == m.origin && m.cursor <= n.cursor
            && n.counts.expectedSamples - m.counts.expectedSamples == n.cursor - m.cursor
            && m.counts.overruns <= n.counts.overruns
            && (n.counts.overruns == m.counts.overruns ==> n.cursor == m.cursor && m.queue.Keys <= n.queue.Keys)
  {
    var s := P.Sequenced(m, p.sequence);
    if Aligned(m.shape.frameSamples, tick, m.origin.value.tick) && tick >= s.cursor {
      P.QueueMoves(s, tick, p.payload);
    }
  }

  /** What an arrival does to the sample clock: nothing, but for what holding the ceiling skips. */
  lemma PushMovesClock(m: P.Timeline, p: Packet, tick: int, at: nat)
    requires P.Inv(m)
    ensures var n := P.Push(m, p, tick, at).0;
            && (m.origin.Some? ==> n.origin == m.origin && m.cursor <= n.cursor)
            && (m.origin.Some? ==> n.counts.expectedSamples - m.counts.expectedSamples == n.cursor - m.cursor)
            && (m.origin.None? ==> n.counts.expectedSamples == m.counts.expectedSamples)
            && (m.origin.None? && n.origin.Some? ==> n.cursor == n.origin.value.tick)
            && m.counts.overruns <= n.counts.overruns
            && (m.origin.Some? && n.counts.overruns == m.counts.overruns ==>
                  n.cursor == m.cursor && m.queue.Keys <= n.queue.Keys)
  {
    if |p.payload| <= MAX_OPUS_PAYLOAD && Arrive(m.seen, p.sequence).0 {
      var n := P.Received(m).(seen := Arrive(m.seen, p.sequence).1);
      if m.origin.None? {
        P.FirstIsQueued(n, p, tick, at);
      } else {
        AdmitMovesClock(n, p, tick);
      }
    }
  }

  /** Expected samples the cursor's distance from the anchor does not explain. */
  ghost function Lead(m: P.Timeline): int {
    if m.origin.None? then m.counts.expectedSamples
    else m.counts.expectedSamples - (m.cursor - m.origin.value.tick)
  }

  /** One call's worth of the clock: a frame per pull, and the ticks an overrun skips. */
  lemma NextMovesClock(m: P.Timeline, e: Event)
    requires P.Inv(m)
    ensures var n, step := Next(m, e).0, m.shape.frameSamples;
            && n.counts.expectedSamples - m.counts.expectedSamples == (if e.call.Pulls? then step else SkippedBy(m, e))
            && Lead(n) == Lead(m) + (if e.call.Pulls? && m.origin.None? then step else 0)
  {
    if e.call.Arrives? {
      PushMovesClock(m, e.call.packet, e.tick, e.call.at);
    }
  }

  /** Over every run, expected samples grow by one frame per pull plus every tick skipped. */
  lemma {:induction false} ExpectedOverRuns(m: P.Timeline, events: seq<Event>)
    requires P.Inv(m)
    ensures Play(m, events).counts.expectedSamples - m.counts.expectedSamples
         == Ticks(m.shape.frameSamples, PullCount(Calls(events))) + SkippedTicks(m, events)
    decreases |events|
  {
    if events != [] {
      assert Calls(events)[1..] == Calls(events[1..]);
      NextMovesClock(m, events[0]);
      ExpectedOverRuns(Next(m, events[0]).0, events[1..]);
      if events[0].call.Pulls? {
        TicksNext(m.shape.frameSamples, PullCount(Calls(events[1..])), PullCount(Calls(events)));
      }
    }
  }

  /** Over every run, the cursor lags anchor plus expected by exactly the pulls made before the anchor. */
  lemma {:induction false} LeadOverRuns(m: P.Timeline, events: seq<Event>)
    requires P.Inv(m)
    ensures Lead(Play(m, events)) == Lead(m) + Ticks(m.shape.frameSamples, EarlyPulls(m, events))
    decreases |events|
  {
    if events != [] {
      var next := Next(m, events[0]).0;
      NextMovesClock(m, events[0]);
      LeadOverRuns(next, events[1..]);
      if events[0].call.Pulls? && m.origin.None? {
        TicksNext(m.shape.frameSamples, EarlyPulls(next, events[1..]), EarlyPulls(m, events));
      }
    }
  }

  /** A buffer that has counted nothing, beside the timeline it represents; a new one is such. */
  ghost predicate Unused(b: Buffer, m: P.Timeline) {
    R.Refines(b, m) && b.counts == ZERO && m.origin.None?
  }

  lemma NewIsUnused(shape: Shape)
    requires shape.Valid()
    ensures Unused(New(shape), P.New(shape))
  {
  }

  /** What the refinement says of the numbers alone at the end of a run. */
  lemma RunAgrees(b: Buffer, m: P.Timeline, events: seq<Event>) returns (r: Buffer, n: P.Timeline)
    requires R.Refines(b, m) && AllFit(m, events) && Legal(Calls(events))
    ensures r == Run(b, Calls(events)) && n == Play(m, events)
    ensures r.counts == n.counts && r.cursor == Wrap32(n.cursor) && r.shape == b.shape == m.shape
    ensures r.anchor.Some? <==> n.origin.Some?
    ensures n.origin.Some? ==> r.anchor.value.rtp == Wrap32(n.origin.value.tick)
  {
    RunRefines(b, m, events);
    r, n := Run(b, Calls(events)), Play(m, events);
  }

  /** Played samples are one frame for every pull that was not an underrun. */
  lemma HeardAccount(b: Buffer, events: seq<Event>)
    requires b.Valid() && b.counts == ZERO && b.occupied == 0 && Legal(Calls(events))
    ensures var c := Run(b, Calls(events)).counts;
            && c.playedSamples == Ticks(b.shape.frameSamples, c.Heard())
            && c.played + c.concealed == PullCount(Calls(events))
            && c.playedSamples <= c.expectedSamples
  {
    UncountedIsBalanced(b);
    EveryRunBalances(b, Calls(events));
  }

  lemma ExpectedAccount(b: Buffer, m: P.Timeline, events: seq<Event>)
    requires Unused(b, m) && AllFit(m, events) && Legal(Calls(events))
    ensures Run(b, Calls(events)).counts.expectedSamples
         == Ticks(b.shape.frameSamples, PullCount(Calls(events))) + SkippedTicks(m, events)
  {
    var r, n := RunAgrees(b, m, events);
    ExpectedOverRuns(m, events);
  }

  lemma ConcealedOf(c: Counts, step: int, pulls: int, skipped: int)
    requires pulls == c.played + c.concealed
    requires c.expectedSamples == Ticks(step, pulls) + skipped
    requires c.playedSamples == Ticks(step, c.Heard())
    requires c.playedSamples <= c.expectedSamples
    ensures c.ConcealedSamples() == Ticks(step, c.underruns) + skipped
  {
  }

  /**
   What the listener never heard, over every fitting run of the wrapped buffer:
   one frame per underrun plus every tick skipped to hold the ceiling.
   */
  lemma ConcealedAccount(b: Buffer, m: P.Timeline, events: seq<Event>)
    requires Unused(b, m) && AllFit(m, events) && Legal(Calls(events))
    ensures var c := Run(b, Calls(events)).counts;
            c.ConcealedSamples() == Ticks(b.shape.frameSamples, c.underruns) + SkippedTicks(m, events)
  {
    HeardAccount(b, events);
    ExpectedAccount(b, m, events);
    ConcealedOf(Run(b, Calls(events)).counts, b.shape.frameSamples, PullCount(Calls(events)), SkippedTicks(m, events));
  }

  /** Anchor plus expected samples, but for those pulled early. */
  function Position(b: Buffer, early: int): int
    requires b.anchor.Some?
  {
    b.anchor.value.rtp + (b.counts.expectedSamples - early)
  }

  lemma WrapSum(x: int, wrapped: uint32, step: int, sum: int, target: int)
    requires wrapped == Wrap32(x) && sum == wrapped + step && target == x + step
    ensures Wrap32(sum) == Wrap32(target)
  {
  }

  /**
   Where the wrapped cursor stands, over every fitting run: at the anchor plus the
   expected samples, less whatever was pulled before there was an anchor.
   */
  lemma CursorAccount(b: Buffer, m: P.Timeline, events: seq<Event>)
    requires Unused(b, m) && AllFit(m, events) && Legal(Calls(events))
    ensures var r := Run(b, Calls(events));
            r.anchor.Some? ==> r.cursor == Wrap32(Position(r, Ticks(b.shape.frameSamples, EarlyPulls(m, events))))
  {
    var r, n := RunAgrees(b, m, events);
    LeadOverRuns(m, events);
    if n.origin.Some? {
      var early := Ticks(b.shape.frameSamples, EarlyPulls(m, events));
      WrapSum(n.origin.value.tick, r.anchor.value.rtp, r.counts.expectedSamples - early, Position(r, early), n.cursor);
    }
  }

  // Delivery

  /** What a pull hands over, read off the timeline. */
  lemma PullMeans(m: P.Timeline)
    requires P.Inv(m)
    ensures match P.Pull(m).1
            case Frame(payload) => m.cursor in m.queue && payload == m.queue[m.cursor]
            case Conceal => m.cursor !in m.queue && exists t :: t in m.queue && t > m.cursor
            case Underrun => m.queue == map[]
  {
    if m.cursor !in m.queue && m.queue != map[] {
      assert m.queue.Keys != {};
      var t := Member(m.queue.Keys);
      assert t in m.queue && t > m.cursor;
    }
  }

  datatype Fate = Waiting | Handed(pull: nat, payload: seq<uint8>) | GivenUp {
    /** The same fate, counted from some pulls earlier. */
    function After(pulls: nat): Fate {
      if Handed? then this.(pull := pull + pulls) else this
    }
  }

  /** What becomes of a queued tick over a run: the first step that removes it decides. */
  ghost function FateOf(m: P.Timeline, events: seq<Event>, tick: int): Fate
    requires P.Inv(m)
    decreases |events|
  {
    if events == [] then Waiting
    else
      var (next, reply) := Next(m, events[0]);
      var pulls := if events[0].call.Pulls? then 1 else 0;
      if tick in next.queue then FateOf(next, events[1..], tick).After(pulls)
      else
        match reply
        case Served(Frame(payload)) => Handed(1, payload)
        case _ => GivenUp
  }

  lemma {:induction false} OverrunsGrow(m: P.Timeline, events: seq<Event>)
    requires P.Inv(m)
    ensures m.counts.overruns <= Play(m, events).counts.overruns
    decreases |events|
  {
    if events != [] {
      var e := events[0];
      if e.call.Arrives? {
        PushMovesClock(m, e.call.packet, e.tick, e.call.at);
      }
      OverrunsGrow(Next(m, e).0, events[1..]);
    }
  }

  lemma AdmitContents(m: P.Timeline, p: Packet, tick: int)
    requires P.Inv(m) && m.origin.Some? && tick !in m.queue
    ensures var n := P.Admit(m, p, tick).0;
            && (forall t | t in n.queue && t in m.queue :: n.queue[t] == m.queue[t])
            && (forall t | t in n.queue && t !in m.queue :: t == tick && n.queue[t] == p.payload)
            && (n.queue == map[] ==> m.queue == map[] && (n.origin, n.cursor) == (m.origin, m.cursor))
            && (n.furthest == m.furthest || n.furthest == Some(tick))
  {
    var s := P.Sequenced(m, p.sequence);
    if Aligned(m.shape.frameSamples, tick, m.origin.value.tick) && tick >= s.cursor {
      P.QueueMoves(s, tick, p.payload);
    }
  }

  /**
   What an arrival does to the queue: every frame left was there before or is the
   packet's own, and a queue with something in it is never emptied.
   */
  lemma PushContents(m: P.Timeline, p: Packet, tick: int, at: nat)
    requires P.Inv(m) && (Arrive(m.seen, p.sequence).0 ==> tick !in m.queue)
    ensures var n := P.Push(m, p, tick, at).0;
            && (forall t | t in n.queue && t in m.queue :: n.queue[t] == m.queue[t])
            && (forall t | t in n.queue && t !in m.queue ::
                  Arrive(m.seen, p.sequence).0 && t == tick && n.queue[t] == p.payload)
            && (n.queue == map[] ==> m.queue == map[] && (n.origin, n.cursor) == (m.origin, m.cursor))
            && (n.furthest == m.furthest || (n.furthest == Some(tick) && Arrive(m.seen, p.sequence).0))
  {
    if |p.payload| <= MAX_OPUS_PAYLOAD && Arrive(m.seen, p.sequence).0 {
      var n := P.Received(m).(seen := Arrive(m.seen, p.sequence).1);
      if m.origin.None? {
        P.FirstIsQueued(n, p, tick, at);
      } else {
        AdmitContents(n, p, tick);
      }
    }
  }

  lemma OneFewer(step: int, ahead: nat, left: nat)
    requires step > 0 && left == ahead - 1
    ensures ahead * step == left * step + step && left * step >= 0
  {
  }

  lemma CloserIsFewer(step: int, c: int, m: int, d: int, n: int)
    requires step > 0 && c + m * step == d + n * step && c <= d
    ensures n <= m && (c == d ==> n == m)
  {
  }

  lemma FramesAhead(m: P.Timeline, tick: int) returns (ahead: nat)
    requires P.Inv(m) && tick in m.queue
    ensures tick == m.cursor + ahead * m.shape.frameSamples
  {
    assert tick in m.queue.Keys;
    ahead := (tick - m.cursor) / m.shape.frameSamples;
  }

  /** One step in the life of a queued tick: it draws nearer, is handed over on time, or is given up in an overrun. */
  lemma DeliveryStep(m: P.Timeline, e: Event, tick: int, ahead: nat) returns (left: nat)
    requires P.Inv(m) && (e.call.Arrives? ==> R.Fits(m, e.call.packet, e.tick))
    requires tick in m.queue && tick == m.cursor + ahead * m.shape.frameSamples
    ensures var (next, reply), pulls := Next(m, e), if e.call.Pulls? then 1 else 0;
            && m.counts.overruns <= next.counts.overruns
            && if tick in next.queue then
                 && tick == next.cursor + left * m.shape.frameSamples
                 && next.queue[tick] == m.queue[tick]
                 && left + pulls <= ahead
                 && (next.counts.overruns == m.counts.overruns ==> left + pulls == ahead)
               else if e.call.Pulls? then ahead == 0 && reply == Served(Frame(m.queue[tick]))
               else reply.Admitted? && next.counts.overruns > m.counts.overruns
  {
    var step, next := m.shape.frameSamples, Next(m, e).0;
    left := 0;
    if e.call.Pulls? {
      if ahead > 0 {
        left := ahead - 1;
        OneFewer(step, ahead, left);
      }
    } else {
      PushMovesClock(m, e.call.packet, e.tick, e.call.at);
      PushContents(m, e.call.packet, e.tick, e.call.at);
      if tick in next.queue {
        left := FramesAhead(next, tick);
        CloserIsFewer(step, m.cursor, ahead, next.cursor, left);
      }
    }
  }

  /** What is owed to a frame queued `ahead` frames past the cursor, over a run of this many pulls. */
  ghost predicate Due(fate: Fate, pulls: nat, ahead: nat, overran: bool, payload: seq<uint8>) {
    && (pulls > ahead ==> fate != Waiting)
    && (fate.GivenUp? ==> overran)
    && (fate.Handed? ==> fate.pull <= ahead + 1 && fate.payload == payload)
    && (!overran ==> fate == if pulls > ahead then Handed(ahead + 1, payload) else Waiting)
  }

  /** Owed from one call later, it was owed before that call. */
  lemma DueBefore(fate: Fate, pulls: nat, left: nat, later: bool, payload: seq<uint8>, now: nat, ahead: nat,
      overran: bool)
    requires Due(fate, pulls, left, later, payload) && left + now <= ahead
    requires (later ==> overran) && (!overran ==> left + now == ahead)
    ensures Due(fate.After(now), pulls + now, ahead, overran, payload)
  {
  }

  /**
   Bounded delivery. A frame queued `ahead` frames past the cursor is handed over,
   byte for byte, at pull `ahead + 1` or sooner, or is given up in a counted overrun;
   with no overrun it is handed over at exactly that pull.
   */
  lemma {:induction false} BoundedDelivery(m: P.Timeline, events: seq<Event>, tick: int, ahead: nat)
    requires P.Inv(m) && AllFit(m, events)
    requires tick in m.queue && tick == m.cursor + ahead * m.shape.frameSamples
    ensures var overran := Play(m, events).counts.overruns > m.counts.overruns;
            Due(FateOf(m, events, tick), PullCount(Calls(events)), ahead, overran, m.queue[tick])
    decreases |events|
  {
    if events != [] {
      var next, last := Next(m, events[0]).0, Play(m, events);
      assert Calls(events)[1..] == Calls(events[1..]);
      OverrunsGrow(next, events[1..]);
      var left := DeliveryStep(m, events[0], tick, ahead);
      if tick in next.queue {
        BoundedDelivery(next, events[1..], tick, left);
        DueBefore(
          FateOf(next, events[1..], tick), PullCount(Calls(events[1..])), left,
          last.counts.overruns > next.counts.overruns, m.queue[tick],
          if events[0].call.Pulls? then 1 else 0, ahead, last.counts.overruns > m.counts.overruns);
      }
    }
  }

  // On the buffer's own answers

  /** What the pulls among these answers handed out, in order. */
  function Outcomes(answers: seq<Answer>): seq<Outcome> {
    if answers == [] then []
    else (if answers[0].Served? then [answers[0].outcome] else []) + Outcomes(answers[1..])
  }

  /** If handed over, it is what the pull named answered. */
  ghost predicate Answered(fate: Fate, outcomes: seq<Outcome>) {
    fate.Handed? ==> 0 < fate.pull <= |outcomes| && outcomes[fate.pull - 1] == Frame(fate.payload)
  }

  lemma AnsweredLater(fate: Fate, earlier: seq<Outcome>, outcomes: seq<Outcome>)
    requires Answered(fate, outcomes)
    ensures Answered(fate.After(|earlier|), earlier + outcomes)
  {
  }

  lemma FirstOutcome(reply: Answer, later: seq<Answer>)
    ensures Outcomes([reply] + later) == (if reply.Served? then [reply.outcome] else []) + Outcomes(later)
  {
    assert ([reply] + later)[1..] == later;
  }

  /** A fate is read off the replies: the pull it names answered with that frame. */
  lemma {:induction false} FateIsAnswered(m: P.Timeline, events: seq<Event>, tick: int)
    requires P.Inv(m)
    ensures Answered(FateOf(m, events, tick), Outcomes(Replies(m, events)))
    decreases |events|
  {
    if events != [] {
      var (next, reply) := Next(m, events[0]);
      FateIsAnswered(next, events[1..], tick);
      FirstOutcome(reply, Replies(next, events[1..]));
      AnsweredLater(FateOf(next, events[1..], tick), if reply.Served? then [reply.outcome] else [],
          Outcomes(Replies(next, events[1..])));
      assert reply.Served? <==> events[0].call.Pulls?;
    }
  }

  /** Handed over by pull `ahead + 1` at the latest. */
  ghost predicate InTime(outcomes: seq<Outcome>, payload: seq<uint8>, ahead: nat) {
    exists pull | 0 <= pull <= ahead && pull < |outcomes| :: outcomes[pull] == Frame(payload)
  }

  lemma DeliveryIsReplied(m: P.Timeline, events: seq<Event>, tick: int, ahead: nat)
    requires P.Inv(m) && AllFit(m, events)
    requires tick in m.queue && tick == m.cursor + ahead * m.shape.frameSamples
    requires PullCount(Calls(events)) > ahead
    ensures var overran := Play(m, events).counts.overruns > m.counts.overruns;
            var outcomes := Outcomes(Replies(m, events));
            && (!overran ==> ahead < |outcomes| && outcomes[ahead] == Frame(m.queue[tick]))
            && (InTime(outcomes, m.queue[tick], ahead) || overran)
  {
    var outcomes := Outcomes(Replies(m, events));
    BoundedDelivery(m, events, tick, ahead);
    FateIsAnswered(m, events, tick);
    var fate := FateOf(m, events, tick);
    if fate.Handed? {
      assert outcomes[fate.pull - 1] == Frame(m.queue[tick]);
    }
  }

  /**
   Bounded delivery as the caller sees it: over every fitting run of the slot buffer
   with more than `ahead` pulls, a payload queued `ahead` frames past the cursor is
   answered by pull `ahead + 1` at the latest or an overrun was counted; with none
   counted it is answered by exactly that pull.
   */
  lemma DeliveryIsAnswered(b: Buffer, m: P.Timeline, events: seq<Event>, tick: int, ahead: nat)
    requires R.Refines(b, m) && AllFit(m, events) && Legal(Calls(events))
    requires tick in m.queue && tick == m.cursor + ahead * m.shape.frameSamples
    requires PullCount(Calls(events)) > ahead
    ensures var overran := Run(b, Calls(events)).counts.overruns > b.counts.overruns;
            var outcomes := Outcomes(Answers(b, Calls(events)));
            && (!overran ==> ahead < |outcomes| && outcomes[ahead] == Frame(m.queue[tick]))
            && (InTime(outcomes, m.queue[tick], ahead) || overran)
  {
    var r, n := RunAgrees(b, m, events);
    RunRefines(b, m, events);
    DeliveryIsReplied(m, events, tick, ahead);
  }

  /** And the payload is the one in the slot: what was queued is what comes out. */
  lemma SlotIsQueued(b: Buffer, m: P.Timeline, i: nat) returns (tick: int, ahead: nat)
    requires R.Refines(b, m) && i < |b.slots| && !b.slots[i].Free()
    ensures tick in m.queue && b.slots[i].timestamp == Wrap32(tick) && m.queue[tick] == b.slots[i].Payload()
    ensures tick == m.cursor + ahead * m.shape.frameSamples
  {
    tick := R.UsedTick(b.slots, m.cursor, m.queue, i);
    assert tick == R.Unwrap(m.cursor, b.slots[i].timestamp);
    ahead := FramesAhead(m, tick);
  }
}
