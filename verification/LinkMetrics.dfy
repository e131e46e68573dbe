/**
 Access-unit delivery as it is counted while it streams: crossings, stalls, the
 catch-ups that follow them, and the same figures again per window.

 `Blocks` is the batch reading of a finished run of intervals, written without
 any of the streaming state; the theorems say the stream counts exactly that.
 */
module LinkMetrics {
  import opened Wrappers

  /** Longest interval a histogram holds; anything longer is clipped and counted. */
  const MAX_NANOS := 10_000_000_000

  /** The thresholds 1.25, 1.5, 2, 3, 4 and 6 as exact fractions of the period. */
  const THRESHOLDS: seq<(nat, nat)> := [(5, 4), (3, 2), (2, 1), (3, 1), (4, 1), (6, 1)]

  /** The multiple of the period from which an interval is a stall. */
  const STALL_MULTIPLE := 2

  predicate Crosses(period: nat, index: nat, interval: nat)
    requires index < |THRESHOLDS|
  {
    interval * THRESHOLDS[index].1 >= period * THRESHOLDS[index].0
  }

  predicate Stalls(period: nat, interval: nat) {
    interval >= period * STALL_MULTIPLE
  }

  /** The integer tests are the program's own multiples of the period, each reached at exactly that multiple. */
  lemma CrossesExactly(period: nat, interval: nat, index: nat)
    requires index < 6
    ensures |THRESHOLDS| == 6
    ensures Crosses(period, index, interval)
        <==> interval as real >= period as real * [1.25, 1.5, 2.0, 3.0, 4.0, 6.0][index]
    ensures Stalls(period, interval) <==> interval as real >= period as real * 2.0
  {
    assert THRESHOLDS[0] == (5, 4) && THRESHOLDS[1] == (3, 2) && THRESHOLDS[2] == (2, 1);
    assert THRESHOLDS[3] == (3, 1) && THRESHOLDS[4] == (4, 1) && THRESHOLDS[5] == (6, 1);
  }

  function Min(a: nat, b: nat): nat {
    if a < b then a else b
  }

  datatype Tail = Tail(over: seq<nat>, clusters: nat, catchUpTotal: nat, catchUpMax: nat) {
    predicate Valid() {
      |over| == |THRESHOLDS|
    }

    function Crossed(period: nat, interval: nat): (r: Tail)
      requires Valid()
      ensures r.Valid()
    {
      this.(over := [Bumped(period, 0, interval), Bumped(period, 1, interval), Bumped(period, 2, interval),
                     Bumped(period, 3, interval), Bumped(period, 4, interval), Bumped(period, 5, interval)])
    }

    function Bumped(period: nat, index: nat, interval: nat): nat
      requires Valid() && index < |THRESHOLDS|
    {
      over[index] + if Crosses(period, index, interval) then 1 else 0
    }

    function Closed(count: nat): Tail {
      if count == 0 then this
      else Tail(over, clusters + 1, catchUpTotal + count, Max(catchUpMax, count))
    }

    function Plus(other: Tail): (r: Tail)
      requires Valid() && other.Valid()
      ensures r.Valid()
    {
      Tail([over[0] + other.over[0], over[1] + other.over[1], over[2] + other.over[2],
            over[3] + other.over[3], over[4] + other.over[4], over[5] + other.over[5]],
           clusters + other.clusters, catchUpTotal + other.catchUpTotal, Max(catchUpMax, other.catchUpMax))
    }
  }

  function NoTail(): (t: Tail)
    ensures t.Valid()
  {
    Tail([0, 0, 0, 0, 0, 0], 0, 0, 0)
  }

  datatype Marks = Marks(cumulative: multiset<nat>, window: multiset<nat>, previous: Option<nat>, clipped: nat,
      count: nat)

  const NO_MARKS := Marks(multiset{}, multiset{}, None, 0, 0)

  datatype Inner = Inner(
    first: Marks, complete: Marks, tail: Tail, windowTail: Tail, catchingUp: Option<nat>,
    lastStall: Option<nat>, stallGap: multiset<nat>, stallGapWindow: multiset<nat>,
    spanStart: Option<nat>, spanEnd: Option<nat>, windowStart: Option<nat>)
  {
    predicate Valid() {
      tail.Valid() && windowTail.Valid()
    }
  }

  function New(): (s: Inner)
    ensures s.Valid()
  {
    Inner(NO_MARKS, NO_MARKS, NoTail(), NoTail(), None, None, multiset{}, multiset{}, None, None, None)
  }

  datatype Window = Window(
    delivered: nat, intervals: multiset<nat>, firstIntervals: multiset<nat>,
    span: nat, tail: Tail, stallGaps: multiset<nat>)

  /** The interval between two instants, or nothing when the clock ran backwards. */
  function Since(later: nat, earlier: nat): Option<nat> {
    if later >= earlier then Some(later - earlier) else None
  }

  function Marked(m: Marks, at: nat): (Marks, Option<nat>) {
    var interval := if m.previous.None? then None else Since(at, m.previous.value);
    match interval
    case None => (m.(count := m.count + 1, previous := Some(at)), None)
    case Some(x) =>
      (Marks(m.cumulative + multiset{Min(x, MAX_NANOS)}, m.window + multiset{Min(x, MAX_NANOS)}, Some(at),
             if x > MAX_NANOS then m.clipped + 1 else m.clipped, m.count + 1),
       interval)
  }

  /** What becomes of an open catch-up: forgotten if empty, otherwise one cluster more in both tails. */
  function Close(s: Inner): (r: Inner)
    requires s.Valid()
    ensures r.Valid()
  {
    match s.catchingUp
    case None => s
    case Some(count) =>
      s.(catchingUp := None, tail := s.tail.Closed(count), windowTail := s.windowTail.Closed(count))
  }

  function Stalled(s: Inner, at: nat): (r: Inner)
    requires s.Valid()
    ensures r.Valid()
  {
    var c := Close(s);
    var gap := if c.lastStall.None? then None else Since(at, c.lastStall.value);
    c.(catchingUp := Some(0),
       stallGap := if gap.None? then c.stallGap else c.stallGap + multiset{Min(gap.value, MAX_NANOS)},
       stallGapWindow := if gap.None? then c.stallGapWindow else c.stallGapWindow + multiset{Min(gap.value, MAX_NANOS)},
       lastStall := Some(at))
  }

  /** After a stall, intervals under the period are counted together until one is not; then they are a cluster. */
  function Observed(s: Inner, period: nat, interval: nat, at: nat): (r: Inner)
    requires s.Valid()
    ensures r.Valid()
  {
    var c := s.(tail := s.tail.Crossed(period, interval), windowTail := s.windowTail.Crossed(period, interval));
    if Stalls(period, interval) then Stalled(c, at)
    else if c.catchingUp.None? then c
    else if interval < period then c.(catchingUp := Some(c.catchingUp.value + 1))
    else Close(c)
  }

  function Delivered(s: Inner, period: nat, at: nat): (r: Inner)
    requires s.Valid()
    ensures r.Valid()
  {
    var (complete, interval) := Marked(s.complete, at);
    var c := s.(complete := complete,
                spanStart := if s.spanStart.None? then Some(at) else s.spanStart,
                windowStart := if s.windowStart.None? then Some(at) else s.windowStart,
                spanEnd := Some(at));
    if interval.None? then c else Observed(c, period, interval.value, at)
  }

  function Span(start: Option<nat>, end: Option<nat>): nat {
    if start.Some? && end.Some? && end.value >= start.value then end.value - start.value else 0
  }

  function TakeWindow(s: Inner): (r: (Inner, Window))
    requires s.Valid()
    ensures r.0.Valid() && r.1.tail.Valid()
  {
    (s.(complete := s.complete.(window := multiset{}), first := s.first.(window := multiset{}),
        windowTail := NoTail(), stallGapWindow := multiset{}, windowStart := s.spanEnd),
     Window(|s.complete.window|, s.complete.window, s.first.window,
            Span(s.windowStart, s.spanEnd), s.windowTail, s.stallGapWindow))
  }

  function Cumulative(s: Inner): Window {
    Window(s.complete.count, s.complete.cumulative, s.first.cumulative,
           Span(s.spanStart, s.spanEnd), s.tail, s.stallGap)
  }

  // The program's own form

  class Series {
    var marks: Marks

    constructor ()
      ensures marks == NO_MARKS
    {
      marks := NO_MARKS;
    }

    /** The first mark closes no interval, nor does one earlier than the last; any other does. */
    method Mark(at: nat) returns (interval: Option<nat>)
      modifies this
      ensures (marks, interval) == Marked(old(marks), at)
    {
      marks := marks.(count := marks.count + 1);
      interval := if marks.previous.None? then None else Since(at, marks.previous.value);
      if interval.Some? {
        var value := Min(interval.value, MAX_NANOS);
        if value != interval.value {
          marks := marks.(clipped := marks.clipped + 1);
        }
        marks := marks.(cumulative := marks.cumulative + multiset{value}, window := marks.window + multiset{value});
      }
      marks := marks.(previous := Some(at));
    }
  }

  class Delivery {
    const period: nat
    const first: Series
    const complete: Series
    var tail: Tail
    var windowTail: Tail
    var catchingUp: Option<nat>
    var lastStall: Option<nat>
    var stallGap: multiset<nat>
    var stallGapWindow: multiset<nat>
    var spanStart: Option<nat>
    var spanEnd: Option<nat>
    var windowStart: Option<nat>

    ghost function Contents(): Inner
      reads this, first, complete
    {
      Inner(first.marks, complete.marks, tail, windowTail, catchingUp, lastStall,
            stallGap, stallGapWindow, spanStart, spanEnd, windowStart)
    }

    ghost predicate Valid()
      reads this, first, complete
    {
      first != complete && Contents().Valid()
    }

    constructor (period: nat)
      ensures Valid() && fresh(first) && fresh(complete)
      ensures Contents() == New() && this.period == period
    {
      this.period := period;
      first := new Series();
      complete := new Series();
      tail, windowTail := NoTail(), NoTail();
      catchingUp, lastStall := None, None;
      stallGap, stallGapWindow := multiset{}, multiset{};
      spanStart, spanEnd, windowStart := None, None, None;
    }

    method FirstSeen(at: nat)
      requires Valid()
      modifies first
      ensures Valid()
      ensures Contents() == old(Contents()).(first := Marked(old(first.marks), at).0)
    {
      var _ := first.Mark(at);
    }

    method Completed(at: nat)
      requires Valid()
      modifies this, complete
      ensures Contents() == Delivered(old(Contents()), period, at)
      ensures Valid()
    {
      if spanStart.None? {
        spanStart := Some(at);
      }
      if windowStart.None? {
        windowStart := Some(at);
      }
      spanEnd := Some(at);
      var interval := complete.Mark(at);
      if interval.Some? {
        Observe(interval.value, at);
      }
    }

    method Observe(interval: nat, at: nat)
      requires Valid()
      modifies this
      ensures Contents() == Observed(old(Contents()), period, interval, at)
      ensures Valid()
    {
      CountCrossings(interval);
      assert Contents() == old(Contents()).(tail := old(tail).Crossed(period, interval),
                                            windowTail := old(windowTail).Crossed(period, interval));
      if Stalls(period, interval) {
        RecordStall(at);
      } else if catchingUp.Some? {
        if interval < period {
          catchingUp := Some(catchingUp.value + 1);
        } else {
          CloseCatchUp();
        }
      }
    }

    method RecordStall(at: nat)
      requires Valid()
      modifies this
      ensures Contents() == Stalled(old(Contents()), at)
      ensures Valid()
    {
      CloseCatchUp();
      ghost var closed := Contents();
      assert closed == Close(old(Contents())) && closed.Valid();
      catchingUp := Some(0);
      if lastStall.Some? && at >= lastStall.value {
        var gap := Min(at - lastStall.value, MAX_NANOS);
        stallGap := stallGap + multiset{gap};
        stallGapWindow := stallGapWindow + multiset{gap};
      }
      lastStall := Some(at);
      assert Contents() == closed.(catchingUp := Some(0), stallGap := stallGap, stallGapWindow := stallGapWindow,
                                   lastStall := Some(at));
    }

    method CountCrossings(interval: nat)
      requires Valid()
      modifies this`tail, this`windowTail
      ensures Valid()
      ensures tail == old(tail).Crossed(period, interval) && windowTail == old(windowTail).Crossed(period, interval)
    {
      for index := 0 to |THRESHOLDS|
        invariant tail == old(tail).(over := tail.over) && windowTail == old(windowTail).(over := windowTail.over)
        invariant |tail.over| == |windowTail.over| == |THRESHOLDS|
        invariant forall i | 0 <= i < |THRESHOLDS| ::
          && tail.over[i] == old(tail).over[i] + (if i < index && Crosses(period, i, interval) then 1 else 0)
          && windowTail.over[i] == old(windowTail).over[i]
              + (if i < index && Crosses(period, i, interval) then 1 else 0)
      {
        if Crosses(period, index, interval) {
          tail := tail.(over := tail.over[index := tail.over[index] + 1]);
          windowTail := windowTail.(over := windowTail.over[index := windowTail.over[index] + 1]);
        }
      }
      assert tail.over == old(tail).Crossed(period, interval).over;
      assert windowTail.over == old(windowTail).Crossed(period, interval).over;
    }

    method CloseCatchUp()
      requires Valid()
      modifies this`tail, this`windowTail, this`catchingUp
      ensures Contents() == Close(old(Contents()))
      ensures Valid()
    {
      if catchingUp.None? {
        return;
      }
      var count := catchingUp.value;
      catchingUp := None;
      if count == 0 {
        return;
      }
      tail := Tail(tail.over, tail.clusters + 1, tail.catchUpTotal + count, Max(tail.catchUpMax, count));
      windowTail := Tail(windowTail.over, windowTail.clusters + 1, windowTail.catchUpTotal + count,
                         Max(windowTail.catchUpMax, count));
    }

    method Take() returns (taken: Window)
      requires Valid()
      modifies this, first, complete
      ensures (Contents(), taken) == TakeWindow(old(Contents()))
      ensures Valid()
    {
      taken := Window(|complete.marks.window|, complete.marks.window, first.marks.window,
                      Span(windowStart, spanEnd), windowTail, stallGapWindow);
      complete.marks := complete.marks.(window := multiset{});
      first.marks := first.marks.(window := multiset{});
      windowTail := NoTail();
      stallGapWindow := multiset{};
      windowStart := spanEnd;
    }
  }

  // The batch reading

  /** How many intervals under the period the run starts with. */
  function Quick(period: nat, xs: seq<nat>): (n: nat)
    ensures n <= |xs|
    ensures forall i | 0 <= i < n :: xs[i] < period
    ensures n < |xs| ==> xs[n] >= period
  {
    if xs == [] || xs[0] >= period then 0 else 1 + Quick(period, xs[1..])
  }

  /**
   The closed catch-ups of a finished run, in order: the length of every maximal
   stretch of intervals under the period that directly follows a stall, has at
   least one interval in it, and is ended by an interval at or over the period.
   */
  function Blocks(period: nat, xs: seq<nat>): seq<nat>
    decreases |xs|
  {
    if xs == [] then []
    else if !Stalls(period, xs[0]) then Blocks(period, xs[1..])
    else
      var n := Quick(period, xs[1..]);
      if n == 0 || n == |xs| - 1 then Blocks(period, xs[1..])
      else [n] + Blocks(period, xs[1 + n..])
  }

  function Sum(xs: seq<nat>): nat {
    if xs == [] then 0 else xs[0] + Sum(xs[1..])
  }

  function Largest(xs: seq<nat>): nat {
    if xs == [] then 0 else Max(xs[0], Largest(xs[1..]))
  }

  function Crossings(period: nat, index: nat, xs: seq<nat>): nat
    requires index < |THRESHOLDS|
  {
    if xs == [] then 0
    else (if Crosses(period, index, xs[0]) then 1 else 0) + Crossings(period, index, xs[1..])
  }

  /** What a tail becomes when these blocks are closed on it one after another. */
  function Credited(tail: Tail, blocks: seq<nat>): Tail
    decreases |blocks|
  {
    if blocks == [] then tail else Credited(tail.Closed(blocks[0]), blocks[1..])
  }

  /** The stream's own state over a run of intervals: the tail so far and the catch-up left open. */
  datatype Counting = Counting(tail: Tail, catchingUp: Option<nat>)

  function Counted(s: Inner): Counting {
    Counting(s.tail, s.catchingUp)
  }

  function Count(period: nat, c: Counting, interval: nat): (r: Counting)
    requires c.tail.Valid()
    ensures r.tail.Valid()
  {
    var tail := c.tail.Crossed(period, interval);
    var closed := if c.catchingUp.None? then tail else tail.Closed(c.catchingUp.value);
    if Stalls(period, interval) then Counting(closed, Some(0))
    else if c.catchingUp.Some? && interval < period then Counting(tail, Some(c.catchingUp.value + 1))
    else Counting(closed, None)
  }

  lemma ObservingCounts(s: Inner, period: nat, interval: nat, at: nat)
    requires s.Valid()
    ensures Counted(Observed(s, period, interval, at)) == Count(period, Counted(s), interval)
  {
  }

  lemma ObservingMarksNothing(s: Inner, period: nat, interval: nat, at: nat)
    requires s.Valid()
    ensures Observed(s, period, interval, at).complete == s.complete
  {
  }

  function CountAll(period: nat, c: Counting, xs: seq<nat>): (r: Counting)
    requires c.tail.Valid()
    ensures r.tail.Valid()
    decreases |xs|
  {
    if xs == [] then c else CountAll(period, Count(period, c, xs[0]), xs[1..])
  }

  ghost predicate SameCatchUps(a: Tail, b: Tail) {
    a.clusters == b.clusters && a.catchUpTotal == b.catchUpTotal && a.catchUpMax == b.catchUpMax
  }

  lemma {:induction false} CreditIgnoresOver(a: Tail, b: Tail, blocks: seq<nat>)
    requires SameCatchUps(a, b)
    ensures SameCatchUps(Credited(a, blocks), Credited(b, blocks))
    decreases |blocks|
  {
    if blocks != [] {
      CreditIgnoresOver(a.Closed(blocks[0]), b.Closed(blocks[0]), blocks[1..]);
    }
  }

  function Closing(open: Option<nat>): seq<nat> {
    if open.None? || open.value == 0 then [] else [open.value]
  }

  /** A catch-up already open, with this many more units in it. */
  function Stretch(open: nat, more: nat): nat {
    open + more
  }

  /** The blocks a stream closes when it starts with this catch-up open. */
  function BlocksFrom(period: nat, open: Option<nat>, xs: seq<nat>): seq<nat> {
    var n := Quick(period, xs);
    if open.None? then Blocks(period, xs)
    else if n == |xs| then []
    else Closing(Some(Stretch(open.value, n))) + Blocks(period, xs[n..])
  }

  lemma {:induction false} QuickHasNoBlocks(period: nat, xs: seq<nat>)
    requires Quick(period, xs) == |xs|
    ensures Blocks(period, xs) == []
  {
    if xs != [] {
      assert xs[0] < period;
      QuickHasNoBlocks(period, xs[1..]);
    }
  }

  lemma StallBlocks(period: nat, xs: seq<nat>)
    requires xs != [] && Stalls(period, xs[0])
    ensures Blocks(period, xs) == BlocksFrom(period, Some(0), xs[1..])
  {
    var rest := xs[1..];
    var k := Quick(period, rest);
    if k == |rest| {
      QuickHasNoBlocks(period, rest);
    } else if k == 0 {
      assert rest[0..] == rest;
    } else {
      assert xs[1 + k..] == rest[k..];
    }
  }

  /** A stall closes what was open and opens a new catch-up. */
  lemma BlocksFromStall(period: nat, open: Option<nat>, xs: seq<nat>)
    requires xs != [] && Stalls(period, xs[0])
    ensures BlocksFrom(period, open, xs) == Closing(open) + BlocksFrom(period, Some(0), xs[1..])
  {
    StallBlocks(period, xs);
    assert Quick(period, xs) == 0 && xs[0..] == xs;
  }

  /** One interval under the period more at the front is one more in the leading stretch. */
  lemma QuickNext(period: nat, xs: seq<nat>, n: nat)
    requires xs != [] && xs[0] < period && n == Quick(period, xs[1..])
    ensures Quick(period, xs) == n + 1 && xs[n + 1..] == xs[1..][n..]
  {
  }

  lemma BlocksFromQuick(period: nat, open: nat, xs: seq<nat>, next: nat)
    requires xs != [] && xs[0] < period && next == open + 1
    ensures BlocksFrom(period, Some(open), xs) == BlocksFrom(period, Some(next), xs[1..])
  {
    var k, n := Quick(period, xs[1..]), Quick(period, xs);
    QuickNext(period, xs, k);
    assert Stretch(open, n) == Stretch(next, k);
  }

  lemma BlocksFromOnTime(period: nat, open: Option<nat>, xs: seq<nat>)
    requires xs != [] && !Stalls(period, xs[0]) && (open.None? || xs[0] >= period)
    ensures BlocksFrom(period, open, xs) == Closing(open) + BlocksFrom(period, None, xs[1..])
  {
  }

  lemma CreditClosing(tail: Tail, open: Option<nat>, later: seq<nat>)
    ensures Credited(tail, Closing(open) + later)
        == Credited(if open.None? then tail else tail.Closed(open.value), later)
  {
    if Closing(open) == [] {
      assert Closing(open) + later == later;
    } else {
      assert ([open.value] + later)[1..] == later;
    }
  }

  /** One interval of the stream credits what the batch reading credits it with. */
  lemma NextCredits(period: nat, c: Counting, xs: seq<nat>)
    requires c.tail.Valid() && xs != []
    ensures var next := Count(period, c, xs[0]);
            SameCatchUps(Credited(next.tail, BlocksFrom(period, next.catchingUp, xs[1..])),
                         Credited(c.tail, BlocksFrom(period, c.catchingUp, xs)))
  {
    var next, open := Count(period, c, xs[0]), c.catchingUp;
    var later := BlocksFrom(period, next.catchingUp, xs[1..]);
    if !Stalls(period, xs[0]) && open.Some? && xs[0] < period {
      BlocksFromQuick(period, open.value, xs, next.catchingUp.value);
      CreditIgnoresOver(next.tail, c.tail, later);
    } else {
      if Stalls(period, xs[0]) {
        BlocksFromStall(period, open, xs);
      } else {
        BlocksFromOnTime(period, open, xs);
      }
      CreditClosing(c.tail, open, later);
      CreditIgnoresOver(next.tail, if open.None? then c.tail else c.tail.Closed(open.value), later);
    }
  }

  /**
   Streaming equals batch: after any run of intervals the stream has credited
   exactly the closed blocks of that run, whatever catch-up it started with.
   */
  lemma {:induction false} StreamCreditsBlocks(period: nat, c: Counting, xs: seq<nat>)
    requires c.tail.Valid()
    ensures SameCatchUps(CountAll(period, c, xs).tail, Credited(c.tail, BlocksFrom(period, c.catchingUp, xs)))
    decreases |xs|
  {
    if xs != [] {
      NextCredits(period, c, xs);
      StreamCreditsBlocks(period, Count(period, c, xs[0]), xs[1..]);
    }
  }

  lemma {:induction false} CreditedFigures(tail: Tail, blocks: seq<nat>)
    requires forall i | 0 <= i < |blocks| :: blocks[i] > 0
    ensures Credited(tail, blocks).clusters == tail.clusters + |blocks|
    ensures Credited(tail, blocks).catchUpTotal == tail.catchUpTotal + Sum(blocks)
    ensures Credited(tail, blocks).catchUpMax == Max(tail.catchUpMax, Largest(blocks))
    decreases |blocks|
  {
    if blocks != [] {
      CreditedFigures(tail.Closed(blocks[0]), blocks[1..]);
    }
  }

  lemma {:induction false} BlocksAreNonempty(period: nat, xs: seq<nat>)
    ensures forall i | 0 <= i < |Blocks(period, xs)| :: Blocks(period, xs)[i] > 0
    decreases |xs|
  {
    if xs != [] {
      BlocksAreNonempty(period, xs[1..]);
      var n := Quick(period, xs[1..]);
      if n != |xs| - 1 {
        BlocksAreNonempty(period, xs[1 + n..]);
      }
    }
  }

  /** The three catch-up figures of a stream, read off the finished run. */
  lemma StreamEqualsBatch(period: nat, xs: seq<nat>)
    ensures var tail, blocks := CountAll(period, Counting(NoTail(), None), xs).tail, Blocks(period, xs);
            tail.clusters == |blocks| && tail.catchUpTotal == Sum(blocks) && tail.catchUpMax == Largest(blocks)
  {
    StreamCreditsBlocks(period, Counting(NoTail(), None), xs);
    BlocksAreNonempty(period, xs);
    CreditedFigures(NoTail(), Blocks(period, xs));
  }

  // Crossings

  lemma CountBumps(period: nat, c: Counting, interval: nat, index: nat)
    requires c.tail.Valid() && index < |THRESHOLDS|
    ensures Count(period, c, interval).tail.over[index] == c.tail.Bumped(period, index, interval)
  {
    var crossed := c.tail.Crossed(period, interval).over;
    assert index == 0 || index == 1 || index == 2 || index == 3 || index == 4 || index == 5;
    assert crossed[index] == c.tail.Bumped(period, index, interval);
    assert Count(period, c, interval).tail.over == crossed;
  }

  lemma {:induction false} StreamCountsCrossings(period: nat, c: Counting, xs: seq<nat>, index: nat)
    requires c.tail.Valid() && index < |THRESHOLDS|
    ensures CountAll(period, c, xs).tail.over[index] == c.tail.over[index] + Crossings(period, index, xs)
    decreases |xs|
  {
    if xs != [] {
      CountBumps(period, c, xs[0], index);
      StreamCountsCrossings(period, Count(period, c, xs[0]), xs[1..], index);
    }
  }

  /**
   A crossing of one multiple is a crossing of every smaller one, and a cluster,
   counted or still open, took a stall of its own.
   */
  ghost predicate Bounded(c: Counting) {
    && c.tail.Valid()
    && (forall i | 0 <= i < |THRESHOLDS| - 1 :: c.tail.over[i] >= c.tail.over[i + 1])
    && c.tail.clusters + (if c.catchingUp.Some? then 1 else 0) <= c.tail.over[2]
    && c.tail.clusters <= c.tail.catchUpTotal
    && c.tail.catchUpMax <= c.tail.catchUpTotal
  }

  lemma StartsBounded(start: Counting)
    requires start == Counting(NoTail(), None)
    ensures Bounded(start)
  {
  }

  lemma CountKeepsBounded(period: nat, c: Counting, interval: nat)
    requires Bounded(c)
    ensures Bounded(Count(period, c, interval))
  {
  }

  lemma {:induction false} EveryRunIsBounded(period: nat, c: Counting, xs: seq<nat>)
    requires Bounded(c)
    ensures Bounded(CountAll(period, c, xs))
    decreases |xs|
  {
    if xs != [] {
      CountKeepsBounded(period, c, xs[0]);
      EveryRunIsBounded(period, Count(period, c, xs[0]), xs[1..]);
    }
  }

  // Windows

  datatype Event = Completes(at: nat) | Opens(at: nat) | Takes

  function Next(period: nat, s: Inner, e: Event): (r: Inner)
    requires s.Valid()
    ensures r.Valid()
  {
    match e
    case Completes(at) => Delivered(s, period, at)
    case Opens(at) => s.(first := Marked(s.first, at).0)
    case Takes => TakeWindow(s).0
  }

  function After(period: nat, s: Inner, events: seq<Event>): (r: Inner)
    requires s.Valid()
    ensures r.Valid()
    decreases |events|
  {
    if events == [] then s else After(period, Next(period, s, events[0]), events[1..])
  }

  function Taken(period: nat, s: Inner, events: seq<Event>): (ws: seq<Window>)
    requires s.Valid()
    ensures forall i | 0 <= i < |ws| :: ws[i].tail.Valid()
    decreases |events|
  {
    if events == [] then []
    else (if events[0].Takes? then [TakeWindow(s).1] else []) + Taken(period, Next(period, s, events[0]), events[1..])
  }

  /** Completions never run backwards in time. */
  ghost predicate Ordered(last: Option<nat>, events: seq<Event>)
    decreases |events|
  {
    events != [] ==>
      match events[0]
      case Completes(at) => (last.None? || last.value <= at) && Ordered(Some(at), events[1..])
      case _ => Ordered(last, events[1..])
  }

  /** Figures added up over windows. */
  function Added(total: Window, w: Window): Window
    requires total.tail.Valid() && w.tail.Valid()
  {
    Window(total.delivered + w.delivered, total.intervals + w.intervals, total.firstIntervals + w.firstIntervals,
           total.span + w.span, total.tail.Plus(w.tail), total.stallGaps + w.stallGaps)
  }

  function AddedAll(total: Window, ws: seq<Window>): (r: Window)
    requires total.tail.Valid() && forall i | 0 <= i < |ws| :: ws[i].tail.Valid()
    ensures r.tail.Valid()
    decreases |ws|
  {
    if ws == [] then total else AddedAll(Added(total, ws[0]), ws[1..])
  }

  function NoWindow(): (w: Window)
    ensures w.tail.Valid()
  {
    Window(0, multiset{}, multiset{}, 0, NoTail(), multiset{})
  }

  /**
   The windows so far and the open one make up the cumulative figures, but for the
   one completion that opened the stream and so closed no interval.
   */
  ghost predicate Partitions(total: Window, s: Inner) {
    && s.Valid() && total.tail.Valid()
    && total.tail.Plus(s.windowTail) == s.tail
    && total.stallGaps + s.stallGapWindow == s.stallGap
    && total.intervals + s.complete.window == s.complete.cumulative
    && total.firstIntervals + s.first.window == s.first.cumulative
    && total.delivered + |s.complete.window| + (if s.complete.count == 0 then 0 else 1) == s.complete.count
    && total.span + Span(s.windowStart, s.spanEnd) == Span(s.spanStart, s.spanEnd)
    && s.spanEnd == s.complete.previous
    && (s.complete.count == 0 <==> s.spanEnd.None?)
    && (if s.spanEnd.None? then s.spanStart.None? && s.windowStart.None?
        else s.spanStart.Some? && s.windowStart.Some? && s.spanStart.value <= s.windowStart.value <= s.spanEnd.value)
  }

  lemma CrossedPlus(a: Tail, w: Tail, period: nat, interval: nat)
    requires a.Valid() && w.Valid()
    ensures a.Plus(w.Crossed(period, interval)) == a.Plus(w).Crossed(period, interval)
  {
  }

  lemma ClosedPlus(a: Tail, w: Tail, count: nat)
    requires a.Valid() && w.Valid()
    ensures a.Plus(w.Closed(count)) == a.Plus(w).Closed(count)
  {
  }

  lemma ObservedPartitions(total: Window, s: Inner, period: nat, interval: nat, at: nat)
    requires s.Valid() && total.tail.Valid()
    requires total.tail.Plus(s.windowTail) == s.tail && total.stallGaps + s.stallGapWindow == s.stallGap
    ensures var r := Observed(s, period, interval, at);
            && total.tail.Plus(r.windowTail) == r.tail && total.stallGaps + r.stallGapWindow == r.stallGap
            && r == s.(tail := r.tail, windowTail := r.windowTail, catchingUp := r.catchingUp, lastStall := r.lastStall,
                       stallGap := r.stallGap, stallGapWindow := r.stallGapWindow)
  {
    CrossedPlus(total.tail, s.windowTail, period, interval);
    if s.catchingUp.Some? {
      ClosedPlus(total.tail, s.windowTail.Crossed(period, interval), s.catchingUp.value);
    }
  }

  lemma CompletionPartitions(total: Window, s: Inner, period: nat, at: nat)
    requires Partitions(total, s) && (s.complete.previous.None? || s.complete.previous.value <= at)
    ensures Partitions(total, Delivered(s, period, at))
  {
    if s.complete.previous.Some? {
      var interval := at - s.complete.previous.value;
      var c := s.(complete := Marked(s.complete, at).0, spanEnd := Some(at));
      ObservedPartitions(total, c, period, interval, at);
    }
  }

  lemma TakingPartitions(total: Window, s: Inner)
    requires Partitions(total, s)
    ensures Partitions(Added(total, TakeWindow(s).1), TakeWindow(s).0)
  {
  }

  lemma CompletionCounts(s: Inner, period: nat, at: nat)
    requires s.Valid()
    ensures var r := Delivered(s, period, at);
            var since := if s.complete.previous.None? then None else Since(at, s.complete.previous.value);
            && r.complete.previous == Some(at)
            && Counted(r) == if since.None? then Counted(s) else Count(period, Counted(s), since.value)
  {
    var (complete, interval) := Marked(s.complete, at);
    if interval.Some? {
      var c := s.(complete := complete,
                  spanStart := if s.spanStart.None? then Some(at) else s.spanStart,
                  windowStart := if s.windowStart.None? then Some(at) else s.windowStart,
                  spanEnd := Some(at));
      ObservingCounts(c, period, interval.value, at);
      ObservingMarksNothing(c, period, interval.value, at);
    }
  }

  lemma CompletionIsLast(s: Inner, period: nat, at: nat)
    requires s.Valid()
    ensures Delivered(s, period, at).complete.previous == Some(at)
  {
    CompletionCounts(s, period, at);
  }

  /**
   The window partition, for every interleaving of completions and windows taken:
   crossings, clusters, catch-ups, stall gaps, intervals and spans summed over the
   windows and the open one are the cumulative figures, wherever a catch-up was
   cut, and the units the windows report sum to one less than the cumulative count.
   */
  lemma {:induction false} WindowsPartition(total: Window, period: nat, s: Inner, events: seq<Event>)
    requires Partitions(total, s) && Ordered(s.complete.previous, events)
    ensures Partitions(AddedAll(total, Taken(period, s, events)), After(period, s, events))
    decreases |events|
  {
    if events != [] {
      var next := Next(period, s, events[0]);
      var later := Taken(period, next, events[1..]);
      assert [] + later == later;
      match events[0] {
        case Completes(at) =>
          CompletionPartitions(total, s, period, at);
          CompletionIsLast(s, period, at);
          WindowsPartition(total, period, next, events[1..]);
        case Opens(at) =>
          assert next.complete == s.complete;
          WindowsPartition(total, period, next, events[1..]);
        case Takes =>
          TakingPartitions(total, s);
          WindowsPartition(Added(total, TakeWindow(s).1), period, next, events[1..]);
          assert ([TakeWindow(s).1] + later)[1..] == later;
      }
    }
  }

  lemma NewPartitions()
    ensures Partitions(NoWindow(), New())
  {
  }

  /** Read through the two calls, a partition is a sum: one window more, taken now, completes the figures. */
  lemma PartitionSums(total: Window, s: Inner)
    requires Partitions(total, s)
    ensures var all := Added(total, TakeWindow(s).1);
            && all.delivered + (if s.complete.count == 0 then 0 else 1) == Cumulative(s).delivered
            && all == Cumulative(s).(delivered := all.delivered)
  {
  }

  /**
   What a caller reads: however windows were taken since a partition held, as it does
   when new, they and one more taken now add up to the cumulative figures, one
   completion short.
   */
  lemma WindowsSumToCumulative(total: Window, period: nat, start: Inner, events: seq<Event>)
    requires Partitions(total, start) && Ordered(start.complete.previous, events)
    ensures var s := After(period, start, events);
            var all := Added(AddedAll(total, Taken(period, start, events)), TakeWindow(s).1);
            && all.delivered + (if s.complete.count == 0 then 0 else 1) == Cumulative(s).delivered
            && all == Cumulative(s).(delivered := all.delivered)
  {
    WindowsPartition(total, period, start, events);
    PartitionSums(AddedAll(total, Taken(period, start, events)), After(period, start, events));
  }

  // Everything a run reports, read off its instants

  function CompletedBy(e: Event): seq<nat> {
    if e.Completes? then [e.at] else []
  }

  function OpenedBy(e: Event): seq<nat> {
    if e.Opens? then [e.at] else []
  }

  /** When units completed, in order. */
  function Completions(events: seq<Event>): seq<nat> {
    if events == [] then [] else CompletedBy(events[0]) + Completions(events[1..])
  }

  /** When their first datagrams came. */
  function Openings(events: seq<Event>): seq<nat> {
    if events == [] then [] else OpenedBy(events[0]) + Openings(events[1..])
  }

  function Earliest(first: Option<nat>, instants: seq<nat>): Option<nat> {
    if first.None? && instants != [] then Some(instants[0]) else first
  }

  function Latest(last: Option<nat>, instants: seq<nat>): Option<nat> {
    if instants == [] then last else Some(instants[|instants| - 1])
  }

  /** The interval an instant closes, unless it is the first or a step back. */
  function Gap(last: Option<nat>, at: nat): seq<nat> {
    if last.Some? && last.value <= at then [at - last.value] else []
  }

  /** The intervals from each instant to the next, the first measured from `last`. */
  function Gaps(last: Option<nat>, instants: seq<nat>): seq<nat>
    decreases |instants|
  {
    if instants == [] then [] else Gap(last, instants[0]) + Gaps(Some(instants[0]), instants[1..])
  }

  /** An instant that comes two periods or more after the one before it. */
  function StallStart(period: nat, last: Option<nat>, at: nat): seq<nat> {
    if last.Some? && last.value + 2 * period <= at then [at] else []
  }

  function StallStarts(period: nat, last: Option<nat>, instants: seq<nat>): seq<nat>
    decreases |instants|
  {
    if instants == [] then []
    else StallStart(period, last, instants[0]) + StallStarts(period, Some(instants[0]), instants[1..])
  }

  /** Ten seconds each at the most. */
  function Clipped(xs: seq<nat>): multiset<nat> {
    if xs == [] then multiset{}
    else multiset{if xs[0] > 10_000_000_000 then 10_000_000_000 else xs[0]} + Clipped(xs[1..])
  }

  function Overlong(xs: seq<nat>): nat {
    if xs == [] then 0 else (if xs[0] > 10_000_000_000 then 1 else 0) + Overlong(xs[1..])
  }

  /** From one instant to another, or nothing when there are none or the clock ended earlier. */
  function Elapsed(first: Option<nat>, last: Option<nat>): nat {
    if first.None? || last.None? || last.value < first.value then 0 else last.value - first.value
  }

  lemma {:induction false} GapsJoin(last: Option<nat>, a: seq<nat>, b: seq<nat>)
    ensures Gaps(last, a + b) == Gaps(last, a) + Gaps(Latest(last, a), b)
    decreases |a|
  {
    if a == [] {
      assert a + b == b;
    } else {
      assert (a + b)[1..] == a[1..] + b;
      GapsJoin(Some(a[0]), a[1..], b);
    }
  }

  lemma {:induction false} StallStartsJoin(period: nat, last: Option<nat>, a: seq<nat>, b: seq<nat>)
    ensures StallStarts(period, last, a + b)
         == StallStarts(period, last, a) + StallStarts(period, Latest(last, a), b)
    decreases |a|
  {
    if a == [] {
      assert a + b == b;
    } else {
      assert (a + b)[1..] == a[1..] + b;
      StallStartsJoin(period, Some(a[0]), a[1..], b);
    }
  }

  lemma {:induction false} ClippedJoins(a: seq<nat>, b: seq<nat>)
    ensures Clipped(a + b) == Clipped(a) + Clipped(b) && Overlong(a + b) == Overlong(a) + Overlong(b)
    decreases |a|
  {
    if a == [] {
      assert a + b == b;
    } else {
      assert (a + b)[1..] == a[1..] + b;
      ClippedJoins(a[1..], b);
    }
  }

  lemma {:induction false} CountAllJoins(period: nat, c: Counting, a: seq<nat>, b: seq<nat>)
    requires c.tail.Valid()
    ensures CountAll(period, c, a + b) == CountAll(period, CountAll(period, c, a), b)
    decreases |a|
  {
    if a == [] {
      assert a + b == b;
    } else {
      assert (a + b)[1..] == a[1..] + b;
      CountAllJoins(period, Count(period, c, a[0]), a[1..], b);
    }
  }

  lemma LatestJoins(last: Option<nat>, a: seq<nat>, b: seq<nat>)
    ensures Latest(last, a + b) == Latest(Latest(last, a), b)
    ensures Earliest(last, a + b) == Earliest(Earliest(last, a), b)
  {
    if b == [] {
      assert a + b == a;
    }
    if a == [] {
      assert a + b == b;
    }
  }

  /** One cadence, marked at these instants: it grew by the intervals between them, each clipped. */
  ghost predicate Marking(m: Marks, r: Marks, instants: seq<nat>) {
    var xs := Gaps(m.previous, instants);
    && r.cumulative == m.cumulative + Clipped(xs)
    && r.clipped == m.clipped + Overlong(xs)
    && r.count == m.count + |instants|
    && r.previous == Latest(m.previous, instants)
  }

  lemma MarkingTwice(m: Marks, n: Marks, r: Marks, a: seq<nat>, b: seq<nat>)
    requires Marking(m, n, a) && Marking(n, r, b)
    ensures Marking(m, r, a + b)
  {
    GapsJoin(m.previous, a, b);
    LatestJoins(m.previous, a, b);
    ClippedJoins(Gaps(m.previous, a), Gaps(n.previous, b));
  }

  /** The gaps between stalls, clipped, and the last of them, after completions at these instants. */
  ghost predicate Stalling(period: nat, s: Inner, r: Inner, done: seq<nat>) {
    var starts := StallStarts(period, s.complete.previous, done);
    && r.stallGap == s.stallGap + Clipped(Gaps(s.lastStall, starts))
    && r.lastStall == Latest(s.lastStall, starts)
  }

  lemma StallingTwice(period: nat, s: Inner, n: Inner, r: Inner, a: seq<nat>, b: seq<nat>)
    requires Marking(s.complete, n.complete, a) && Stalling(period, s, n, a) && Stalling(period, n, r, b)
    ensures Stalling(period, s, r, a + b)
  {
    var starts, more := StallStarts(period, s.complete.previous, a), StallStarts(period, n.complete.previous, b);
    StallStartsJoin(period, s.complete.previous, a, b);
    GapsJoin(s.lastStall, starts, more);
    LatestJoins(s.lastStall, starts, more);
    ClippedJoins(Gaps(s.lastStall, starts), Gaps(n.lastStall, more));
  }

  /** All that a run leaves behind: both cadences, the stalls, the tail and the span, told by the instants alone. */
  ghost predicate Reads(period: nat, s: Inner, r: Inner, done: seq<nat>, begun: seq<nat>)
    requires s.Valid()
  {
    && Marking(s.complete, r.complete, done) && Marking(s.first, r.first, begun)
    && Stalling(period, s, r, done)
    && Counted(r) == CountAll(period, Counted(s), Gaps(s.complete.previous, done))
    && r.spanStart == Earliest(s.spanStart, done) && r.spanEnd == Latest(s.spanEnd, done)
  }

  lemma ReadsTwice(period: nat, s: Inner, n: Inner, r: Inner, done: seq<nat>, later: seq<nat>, begun: seq<nat>,
      begunLater: seq<nat>)
    requires s.Valid() && n.Valid()
    requires Reads(period, s, n, done, begun) && Reads(period, n, r, later, begunLater)
    ensures Reads(period, s, r, done + later, begun + begunLater)
  {
    MarkingTwice(s.complete, n.complete, r.complete, done, later);
    MarkingTwice(s.first, n.first, r.first, begun, begunLater);
    StallingTwice(period, s, n, r, done, later);
    GapsJoin(s.complete.previous, done, later);
    CountAllJoins(period, Counted(s), Gaps(s.complete.previous, done), Gaps(n.complete.previous, later));
    LatestJoins(s.spanStart, done, later);
    LatestJoins(s.spanEnd, done, later);
  }

  /** What one instant closes. */
  lemma OneGap(last: Option<nat>, at: nat)
    ensures Gaps(last, [at]) == Gap(last, at)
    ensures Clipped(Gap(last, at))
         == if Gap(last, at) == [] then multiset{} else multiset{Min(Gap(last, at)[0], MAX_NANOS)}
    ensures Overlong(Gap(last, at)) == if Gap(last, at) != [] && Gap(last, at)[0] > MAX_NANOS then 1 else 0
  {
    assert [at][1..] == [];
    var xs := Gap(last, at);
    if xs != [] {
      assert xs[1..] == [];
    }
  }

  lemma OneStart(period: nat, last: Option<nat>, at: nat)
    ensures StallStarts(period, last, [at]) == StallStart(period, last, at)
  {
    assert [at][1..] == [];
  }

  lemma MarkReads(m: Marks, at: nat)
    ensures Marking(m, Marked(m, at).0, [at])
  {
    OneGap(m.previous, at);
  }

  lemma ObservedStalls(s: Inner, period: nat, interval: nat, at: nat)
    requires s.Valid()
    ensures var r := Observed(s, period, interval, at);
            && r.first == s.first && r.spanStart == s.spanStart && r.spanEnd == s.spanEnd
            && if interval >= 2 * period then
                 r.stallGap == s.stallGap + Clipped(Gaps(s.lastStall, [at])) && r.lastStall == Some(at)
               else r.stallGap == s.stallGap && r.lastStall == s.lastStall
  {
    OneGap(s.lastStall, at);
  }

  /** What one completion does to the stalls and to all it should not touch. */
  lemma CompletionStalls(s: Inner, period: nat, at: nat)
    requires s.Valid()
    ensures var r := Delivered(s, period, at);
            && Stalling(period, s, r, [at])
            && r.first == s.first && r.complete == Marked(s.complete, at).0
            && r.spanStart == Earliest(s.spanStart, [at]) && r.spanEnd == Some(at)
  {
    var (complete, interval) := Marked(s.complete, at);
    OneStart(period, s.complete.previous, at);
    if interval.Some? {
      var c := s.(complete := complete,
                  spanStart := if s.spanStart.None? then Some(at) else s.spanStart,
                  windowStart := if s.windowStart.None? then Some(at) else s.windowStart,
                  spanEnd := Some(at));
      ObservedStalls(c, period, interval.value, at);
      ObservingMarksNothing(c, period, interval.value, at);
    }
  }

  lemma CompletionReads(s: Inner, period: nat, at: nat)
    requires s.Valid()
    ensures Reads(period, s, Delivered(s, period, at), [at], [])
  {
    MarkReads(s.complete, at);
    OneGap(s.complete.previous, at);
    CompletionCounts(s, period, at);
    CompletionStalls(s, period, at);
    var xs, c := Gap(s.complete.previous, at), Counted(s);
    if xs != [] {
      assert xs[1..] == [] && CountAll(period, c, xs) == Count(period, c, xs[0]);
    }
  }

  lemma NextReads(period: nat, s: Inner, e: Event)
    requires s.Valid()
    ensures Reads(period, s, Next(period, s, e), CompletedBy(e), OpenedBy(e))
  {
    match e
    case Completes(at) => CompletionReads(s, period, at);
    case Opens(at) => MarkReads(s.first, at);
    case Takes =>
  }

  /** Every run leaves behind what its instants say, however windows cut it. */
  lemma {:induction false} RunReads(period: nat, s: Inner, events: seq<Event>)
    requires s.Valid()
    ensures Reads(period, s, After(period, s, events), Completions(events), Openings(events))
    decreases |events|
  {
    if events != [] {
      var next, e := Next(period, s, events[0]), events[0];
      NextReads(period, s, e);
      RunReads(period, next, events[1..]);
      ReadsTwice(period, s, next, After(period, s, events), CompletedBy(e), Completions(events[1..]), OpenedBy(e),
          Openings(events[1..]));
    }
  }

  // Against the batch reading

  /** The tail of a finished run of intervals that began with this catch-up open. */
  function BatchTail(period: nat, open: Option<nat>, xs: seq<nat>): Tail {
    var blocks := BlocksFrom(period, open, xs);
    Tail([Crossings(period, 0, xs), Crossings(period, 1, xs), Crossings(period, 2, xs),
          Crossings(period, 3, xs), Crossings(period, 4, xs), Crossings(period, 5, xs)],
         |blocks|, Sum(blocks), Largest(blocks))
  }

  lemma BlocksFromAreNonempty(period: nat, open: Option<nat>, xs: seq<nat>)
    ensures forall i | 0 <= i < |BlocksFrom(period, open, xs)| :: BlocksFrom(period, open, xs)[i] > 0
  {
    BlocksAreNonempty(period, xs);
    BlocksAreNonempty(period, xs[Quick(period, xs)..]);
  }

  lemma TailIsBatch(period: nat, open: Option<nat>, xs: seq<nat>)
    ensures CountAll(period, Counting(NoTail(), open), xs).tail == BatchTail(period, open, xs)
  {
    var none := NoTail();
    var c := Counting(none, open);
    StreamCreditsBlocks(period, c, xs);
    BlocksFromAreNonempty(period, open, xs);
    CreditedFigures(none, BlocksFrom(period, open, xs));
    var over := CountAll(period, c, xs).tail.over;
    forall i | 0 <= i < |THRESHOLDS|
      ensures over[i] == Crossings(period, i, xs)
    {
      StreamCountsCrossings(period, c, xs, i);
    }
    assert over == BatchTail(period, open, xs).over;
  }

  /** The figures of a finished run, from its instants and nothing the stream keeps. */
  function Batch(period: nat, events: seq<Event>): Window {
    var done := Completions(events);
    var xs := Gaps(None, done);
    Window(|done|, Clipped(xs), Clipped(Gaps(None, Openings(events))),
           Elapsed(Earliest(None, done), Latest(None, done)),
           BatchTail(period, None, xs), Clipped(Gaps(None, StallStarts(period, None, done))))
  }

  /**
   The whole claim at once: from new, over every interleaving of completions, openings
   and windows, on any clock, the cumulative figures are the batch reading of the
   instants, and what was clipped is what was longer than a histogram holds.
   */
  lemma DeliveryEqualsBatch(period: nat, events: seq<Event>)
    ensures var s := After(period, New(), events);
            && Cumulative(s) == Batch(period, events)
            && s.complete.clipped == Overlong(Gaps(None, Completions(events)))
            && s.first.clipped == Overlong(Gaps(None, Openings(events)))
  {
    var start := New();
    RunReads(period, start, events);
    TailIsBatch(period, None, Gaps(None, Completions(events)));
  }

  /** What the window holds, as if its events had been a run of their own. */
  function OwnRun(s: Inner): Inner {
    s.(complete := s.complete.(cumulative := s.complete.window), first := s.first.(cumulative := s.first.window),
       tail := s.windowTail, stallGap := s.stallGapWindow, spanStart := s.windowStart)
  }

  ghost predicate NoTakes(events: seq<Event>) {
    forall i | 0 <= i < |events| :: !events[i].Takes?
  }

  lemma ObservingIsOwn(s: Inner, period: nat, interval: nat, at: nat)
    requires s.Valid()
    ensures OwnRun(Observed(s, period, interval, at)) == Observed(OwnRun(s), period, interval, at)
  {
    var c := s.(tail := s.tail.Crossed(period, interval), windowTail := s.windowTail.Crossed(period, interval));
    assert OwnRun(Close(c)) == Close(OwnRun(c));
  }

  lemma NextIsOwn(period: nat, s: Inner, e: Event)
    requires s.Valid() && !e.Takes?
    ensures OwnRun(Next(period, s, e)) == Next(period, OwnRun(s), e)
  {
    if e.Completes? {
      var (complete, interval) := Marked(s.complete, e.at);
      if interval.Some? {
        var c := s.(complete := complete,
                    spanStart := if s.spanStart.None? then Some(e.at) else s.spanStart,
                    windowStart := if s.windowStart.None? then Some(e.at) else s.windowStart,
                    spanEnd := Some(e.at));
        ObservingIsOwn(c, period, interval.value, e.at);
      }
    }
  }

  lemma {:induction false} WindowIsOwnRun(period: nat, s: Inner, events: seq<Event>)
    requires s.Valid() && NoTakes(events)
    ensures OwnRun(After(period, s, events)) == After(period, OwnRun(s), events)
    decreases |events|
  {
    if events != [] {
      NextIsOwn(period, s, events[0]);
      WindowIsOwnRun(period, Next(period, s, events[0]), events[1..]);
    }
  }

  /** A window just opened: nothing in it yet, and its span runs from the last completion before it. */
  ghost predicate JustOpened(s: Inner) {
    && s.Valid()
    && s.complete.window == s.first.window == s.stallGapWindow == multiset{}
    && s.windowTail == NoTail()
    && s.windowStart == s.spanEnd == s.complete.previous
  }

  /** As it is when new, and after every window taken. */
  lemma WindowsOpen(period: nat, events: seq<Event>)
    ensures JustOpened(New())
    ensures JustOpened(TakeWindow(After(period, New(), events)).0)
  {
    var start := New();
    RunReads(period, start, events);
  }

  lemma {:induction false} ClippedSize(xs: seq<nat>)
    ensures |Clipped(xs)| == |xs|
  {
    if xs != [] {
      ClippedSize(xs[1..]);
    }
  }

  /** The figures of one window, from the instants in it and what came just before. */
  function WindowBatch(period: nat, s: Inner, events: seq<Event>): Window {
    var done := Completions(events);
    var xs := Gaps(s.complete.previous, done);
    Window(|xs|, Clipped(xs), Clipped(Gaps(s.first.previous, Openings(events))),
           Elapsed(Earliest(s.complete.previous, done), Latest(s.complete.previous, done)),
           BatchTail(period, s.catchingUp, xs),
           Clipped(Gaps(s.lastStall, StallStarts(period, s.complete.previous, done))))
  }

  /**
   And every window is the batch reading of its own instants, beside the catch-up it
   began with, the last stall and the last mark before it.
   */
  lemma WindowEqualsBatch(period: nat, s: Inner, events: seq<Event>)
    requires JustOpened(s) && NoTakes(events)
    ensures TakeWindow(After(period, s, events)).1 == WindowBatch(period, s, events)
  {
    var xs := Gaps(s.complete.previous, Completions(events));
    WindowIsOwnRun(period, s, events);
    RunReads(period, OwnRun(s), events);
    TailIsBatch(period, s.catchingUp, xs);
    ClippedSize(xs);
  }
}
