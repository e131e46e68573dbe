/**
 Networks on which no arrival ever moves the cursor back and the sink always
 finishes, told by what arrives and nothing else: any loss, any delay, any
 reordering, and copies as long as each comes while its own number is still the last
 one its slot of the ring has seen.
 */
module Networks {
  import opened Wrappers
  import opened Wrap
  import opened SeenWindows
  import opened SlotBuffer
  import opened Probe
  import opened Spans

  /** If datagram `k` arrived before, it is the latest arrival of its class modulo 1024. */
  ghost predicate ToldApart(c: Setup, arrivals: seq<int>, k: int) {
    k in arrivals ==> LastSharing(SEEN_WINDOW, Numbers(c, arrivals), c.Number(k)) == Some(c.Number(k))
  }

  /** At every one of these deliveries, in turn. */
  ghost predicate AllToldApart(c: Setup, arrivals: seq<int>, deliveries: seq<int>)
    decreases |deliveries|
  {
    deliveries != [] ==>
      ToldApart(c, arrivals, deliveries[0]) && AllToldApart(c, arrivals + [deliveries[0]], deliveries[1..])
  }

  lemma NumberedOnce(c: Setup, arrivals: seq<int>, k: int)
    ensures k in arrivals <==> c.Number(k) in Numbers(c, arrivals)
  {
    if k in arrivals {
      var i :| 0 <= i < |arrivals| && arrivals[i] == k;
      assert Numbers(c, arrivals)[i] == c.Number(k);
    }
  }

  /** What the ring then says: a number it calls new has not arrived before. */
  lemma FreshIsNew(c: Setup, count: nat, arrivals: seq<int>, seen: Ring, k: int)
    requires Known(c, count, arrivals, seen) && ToldApart(c, arrivals, k)
    ensures |seen| == SEEN_WINDOW
    ensures Arrive(seen, Wrap16(c.Number(k))).0 ==> k !in arrivals
  {
    FreshReadsLast(SEEN_WINDOW, Numbers(c, arrivals), c.Number(k));
  }

  lemma {:induction false} KnownIsShared(size: nat, history: seq<int>, number: int)
    requires size > 0 && number in history
    ensures LastSharing(size, history, number).Some?
  {
    var before, latest := history[..|history| - 1], history[|history| - 1];
    if latest % size != number % size {
      var i :| 0 <= i < |history| && history[i] == number;
      assert before[i] == number;
      KnownIsShared(size, before, number);
    }
  }

  /**
   The condition is exact: in a stream of at most one 16-bit cycle, the ring calls
   no copy of `k` new if and only if `k` is told apart.
   */
  lemma ToldApartExactly(c: Setup, count: nat, arrivals: seq<int>, seen: Ring, k: int)
    requires Known(c, count, arrivals, seen) && 0 <= k < count <= MOD16
    ensures |seen| == SEEN_WINDOW
    ensures (Arrive(seen, Wrap16(c.Number(k))).0 ==> k !in arrivals) <==> ToldApart(c, arrivals, k)
  {
    var numbers, number := Numbers(c, arrivals), c.Number(k);
    FreshReadsLast(SEEN_WINDOW, numbers, number);
    var last := LastSharing(SEEN_WINDOW, numbers, number);
    if last.Some? && last.value != number {
      var i :| 0 <= i < |numbers| && numbers[i] == last.value;
      assert arrivals[i] in arrivals;
      SameOnTheWire(last.value, number);
    }
    if k in arrivals {
      NumberedOnce(c, arrivals, k);
      KnownIsShared(SEEN_WINDOW, numbers, number);
    }
  }

  // Networks that tell every packet apart

  /** No number twice. */
  ghost predicate AllDifferent(arrivals: seq<int>) {
    forall i, j | 0 <= i < j < |arrivals| :: arrivals[i] != arrivals[j]
  }

  /** A network that copies nothing, however late and however disordered. */
  lemma {:induction false} NoCopiesAreToldApart(c: Setup, arrivals: seq<int>, deliveries: seq<int>)
    requires AllDifferent(arrivals + deliveries)
    ensures AllToldApart(c, arrivals, deliveries)
    decreases |deliveries|
  {
    if deliveries != [] {
      var k, whole := deliveries[0], arrivals + deliveries;
      assert whole == arrivals + [k] + deliveries[1..];
      assert k !in arrivals by {
        assert whole[|arrivals|] == k && forall i | 0 <= i < |arrivals| :: whole[i] == arrivals[i];
      }
      NoCopiesAreToldApart(c, arrivals + [k], deliveries[1..]);
    }
  }

  lemma FrontInWindow(front: seq<int>, back: seq<int>)
    requires InWindow(SEEN_WINDOW, front + back)
    ensures InWindow(SEEN_WINDOW, front)
  {
    forall i, j | 0 <= i < j < |front|
      ensures front[i] < front[j] + SEEN_WINDOW
    {
      assert (front + back)[i] == front[i] && (front + back)[j] == front[j];
    }
  }

  lemma NumbersInWindow(c: Setup, arrivals: seq<int>, k: int)
    requires InWindow(SEEN_WINDOW, arrivals + [k])
    ensures InWindow(SEEN_WINDOW, Numbers(c, arrivals) + [c.Number(k)])
  {
    NumbersGrow(c, arrivals, k);
  }

  /** One that stays inside the ring's window, with any number of copies. */
  lemma {:induction false} WindowIsToldApart(c: Setup, arrivals: seq<int>, deliveries: seq<int>)
    requires InWindow(SEEN_WINDOW, arrivals + deliveries)
    ensures AllToldApart(c, arrivals, deliveries)
    decreases |deliveries|
  {
    if deliveries != [] {
      var k := deliveries[0];
      assert arrivals + deliveries == arrivals + [k] + deliveries[1..];
      FrontInWindow(arrivals + [k], deliveries[1..]);
      if k in arrivals {
        NumbersInWindow(c, arrivals, k);
        NumberedOnce(c, arrivals, k);
        LastSharingIsItself(SEEN_WINDOW, Numbers(c, arrivals), c.Number(k));
      }
      WindowIsToldApart(c, arrivals + [k], deliveries[1..]);
    }
  }

  lemma SameClass(c: Setup, j: int, k: int)
    ensures c.Number(j) % SEEN_WINDOW == c.Number(k) % SEEN_WINDOW <==> (j - k) % SEEN_WINDOW == 0
  {
  }

  /** A copy that comes before any other packet of its class modulo 1024 has followed the original. */
  lemma {:induction false} PromptCopyIsToldApart(c: Setup, arrivals: seq<int>, k: int, at: nat)
    requires at < |arrivals| && arrivals[at] == k
    requires forall j | at < j < |arrivals| :: (arrivals[j] - k) % SEEN_WINDOW != 0
    ensures ToldApart(c, arrivals, k)
    decreases |arrivals|
  {
    var last := |arrivals| - 1;
    assert Numbers(c, arrivals)[last] == c.Number(arrivals[last]);
    if at < last {
      SameClass(c, arrivals[last], k);
      assert arrivals[..last][at] == k && Numbers(c, arrivals)[..last] == Numbers(c, arrivals[..last]);
      PromptCopyIsToldApart(c, arrivals[..last], k, at);
    }
  }

  // What such a network keeps

  /** No frame twice in the slots, none behind the cursor. */
  ghost predicate Tidy(c: Setup, s: State) {
    s.buffer.anchor.Some? ==> Clear(c.Stream(), s.buffer)
  }

  lemma DeliveryIsTidy(c: Setup, s: State, k: nat, at: nat)
    requires Inv(c, s) && Enabled(c, s, Deliver(k, at)) && Tidy(c, s) && ToldApart(c, s.arrivals, k)
    ensures Tidy(c, Take(c, s, Deliver(k, at))) && !MovesBack(s, Deliver(k, at))
  {
    FreshIsNew(c, |s.sent|, s.arrivals, s.buffer.seen, k);
    PushKeepsClear(c.Stream(), c.total, s.buffer, s.sent[k], k, at);
    if s.buffer.anchor.Some? {
      ForwardKeepsPlace(c, s, k, at);
    }
  }

  /** With nothing behind the cursor, whatever is held is at it or ahead. */
  lemma TidyIsFed(c: Setup, s: State)
    requires Inv(c, s) && s.buffer.anchor.Some? && s.buffer.occupied > 0 && Tidy(c, s)
    ensures Fed(s.buffer)
  {
    var b := s.buffer;
    AllFree(b.slots);
    var i :| 0 <= i < |b.slots| && !b.slots[i].Free();
    var k := c.Place(b.slots[i].timestamp);
    ReachesBefore(c.Stream(), k, c.total);
    Apart(c.Stream(), k, s.Cursor(c));
  }

  lemma PullIsTidy(c: Setup, s: State)
    requires Inv(c, s) && Enabled(c, s, PullFrame) && Tidy(c, s)
    ensures Tidy(c, Take(c, s, PullFrame))
    ensures s.sawSentAll ==> Fed(s.buffer)
  {
    var next := s.Cursor(c) + 1;
    PullServes(s.buffer);
    PullKeepsClear(c.Stream(), c.total, s.buffer, next);
    if s.sawSentAll {
      TidyIsFed(c, s);
    }
  }

  /** Every step over such a network keeps the slots tidy and is steady. */
  lemma StepIsTidy(c: Setup, s: State, step: Step)
    requires Inv(c, s) && Enabled(c, s, step) && Tidy(c, s) && (step.Deliver? ==> ToldApart(c, s.arrivals, step.k))
    ensures Tidy(c, Take(c, s, step)) && Steady(s, step)
    ensures Take(c, s, step).arrivals == if step.Deliver? then s.arrivals + [step.k] else s.arrivals
  {
    match step
    case Deliver(k, at) => DeliveryIsTidy(c, s, k, at);
    case PullFrame => PullIsTidy(c, s);
    case _ =>
  }

  function Deliveries(run: seq<Step>): seq<int> {
    if run == [] then []
    else (if run[0].Deliver? then [run[0].k] else []) + Deliveries(run[1..])
  }

  lemma FirstDelivery(c: Setup, arrivals: seq<int>, run: seq<Step>)
    requires run != [] && AllToldApart(c, arrivals, Deliveries(run))
    ensures run[0].Deliver? ==>
      ToldApart(c, arrivals, run[0].k) && AllToldApart(c, arrivals + [run[0].k], Deliveries(run[1..]))
    ensures !run[0].Deliver? ==> AllToldApart(c, arrivals, Deliveries(run[1..]))
  {
    if run[0].Deliver? {
      assert Deliveries(run)[1..] == Deliveries(run[1..]);
    } else {
      assert Deliveries(run) == Deliveries(run[1..]);
    }
  }

  /** Over such a network every possible run is steady, so no arrival in it moves the cursor back. */
  lemma {:induction false} ToldApartIsSteady(c: Setup, s: State, run: seq<Step>)
    requires Inv(c, s) && Tidy(c, s) && Possible(c, s, run) && AllToldApart(c, s.arrivals, Deliveries(run))
    ensures AllSteady(c, s, run) && NeverBack(c, s, run)
    decreases |run|
  {
    if run != [] {
      FirstDelivery(c, s.arrivals, run);
      StepKeeps(c, s, run[0]);
      StepIsTidy(c, s, run[0]);
      ToldApartIsSteady(c, Take(c, s, run[0]), run[1..]);
    }
  }

  /**
   End to end, over every network that tells packets apart, whatever the threads do:
   the sink is handed frames byte for byte as sent, each at most once, in the order
   sent, and never underruns once it has seen the sender finish.
   */
  lemma EndToEnd(c: Setup, s: State, run: seq<Step>)
    requires Inv(c, s) && Tidy(c, s) && Ordered(c, s)
    requires Possible(c, s, run) && AllToldApart(c, s.arrivals, Deliveries(run))
    ensures var r := Execute(c, s, run);
            AsSent(r.sent, r.handed, r.places) && Ordered(c, r) && r.finalUnderruns == 0
  {
    ToldApartIsSteady(c, s, run);
    HandedAsSent(c, s, run);
    HandedInOrder(c, s, run);
  }

  /** And once the sink has seen the sender finish it pulls at most once per frame, and stops. */
  lemma EndIsReached(c: Setup, s: State, run: seq<Step>)
    requires Inv(c, s) && Tidy(c, s) && Paced(c, s) && s.sawSentAll
    requires Possible(c, s, run) && AllToldApart(c, s.arrivals, Deliveries(run))
    ensures Execute(c, s, run).finalPulls <= c.total
    ensures SinkSteps(run) + StepsLeft(c, Execute(c, s, run)) <= 3 * c.total + 2
    ensures s.sink.Pulling? ==> WithinHorizon(c, s)
  {
    ToldApartIsSteady(c, s, run);
    CleanFinish(c, s, run);
    if s.sink.Pulling? {
      TidyIsFed(c, s);
      FedIsWithin(c, s);
    }
  }

  /** The start of every run is such a state. */
  lemma StartsTidy(c: Setup)
    requires c.Valid()
    ensures Inv(c, Initial(c)) && Tidy(c, Initial(c)) && Ordered(c, Initial(c)) && Paced(c, Initial(c))
  {
    InitialInv(c);
  }
}
