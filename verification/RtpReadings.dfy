/**
 Every figure of the packet probe's report read off what was heard: which datagrams
 were of which kind, which packets were new, and where in the stream each of those was.
 */
module RtpReadings {
  import opened Wrappers
  import opened Wrap
  import opened SeenWindows
  import opened RtpProbe

  // One pair

  /** Where a packet is in its stream: its number and its sample tick, neither wrapped. */
  datatype Position = Position(number: int, tick: int)

  /** The pair of counters the wire carries for it. */
  function OnWire(at: Position): (uint16, uint32) {
    (Wrap16(at.number), Wrap32(at.tick))
  }

  /** Near enough to be told ahead from behind, and how far ahead, through both wraps. */
  ghost predicate Near(last: Position, at: Position) {
    && -HALF16 <= at.number - last.number < HALF16
    && (at.number > last.number ==> -HALF32 <= at.tick - last.tick < HALF32)
  }

  /** The packet ahead moved the clock by exactly its frames. */
  predicate InTime(last: Position, at: Position, samples: nat) {
    at.tick - last.tick == (at.number - last.number) * samples
  }

  /** What a packet does to the figures, when the one before it that moved the stream forwards is `last`. */
  ghost predicate PairCounted(r: Report, p: Report, last: Position, at: Position, samples: nat) {
    if at.number > last.number then
      p == r.(timestampPairs := r.timestampPairs + 1,
              timestampExact := r.timestampExact + (if InTime(last, at, samples) then 1 else 0),
              sequenceGaps := r.sequenceGaps + (if at.number - last.number > 1 then 1 else 0),
              packetsMissing := r.packetsMissing + (at.number - last.number - 1))
    else p == r.(reordered := r.reordered + 1)
  }

  /**
   One packet against the last that moved the stream forwards, on their true places: a
   packet ahead is one pair, exact if and only if the clock moved by its whole frames,
   a gap if and only if a number was passed over; any other is reordered and moves nothing.
   */
  lemma PairReads(s: State, samples: nat, last: Position, at: Position)
    requires s.previous == Some(OnWire(last)) && Near(last, at)
    ensures var r := Paired(s, samples, Wrap16(at.number), Wrap32(at.tick));
            && PairCounted(s.report, r.report, last, at, samples)
            && r == s.(report := r.report, previous := if at.number > last.number then Some(OnWire(at)) else s.previous)
  {
    DistanceIsDifference16(at.number, last.number);
    DistanceIsDifference32(at.tick, last.tick);
  }

  // One datagram

  function One(counted: bool): nat {
    if counted then 1 else 0
  }

  /** The datagram's kind moves the figure of its own name; a packet's kind depends on the stream and the ring. */
  ghost predicate Sorted(s: State, p: Report, d: Datagram)
    requires |s.seen| > 0
  {
    var r := s.report;
    && p.notRtp == r.notRtp + One(d.NotRtp?)
    && p.wrongPayloadType == r.wrongPayloadType + One(d.WrongPayloadType?)
    && p.emptyPayload == r.emptyPayload + One(d.EmptyPayload?)
    && p.foreignSsrc == r.foreignSsrc + One(d.Opus? && !Ours(s, d))
    && p.duplicates == r.duplicates + One(Ours(s, d) && !First(s, d))
    && p.packets == r.packets + One(Accepts(s, d))
    && p.framesDecoded == r.framesDecoded + One(Accepts(s, d) && d.decodes)
    && p.decodeFailures == r.decodeFailures + One(Accepts(s, d) && !d.decodes)
    && p.bytes == r.bytes + d.length
    && p.largestDatagram == Max(r.largestDatagram, d.length)
    && p.ssrc == if Ours(s, d) then Some(d.ssrc) else r.ssrc
  }

  /** The pairing figures alone. */
  function Pairing(r: Report): (nat, nat, nat, nat, nat) {
    (r.timestampPairs, r.timestampExact, r.sequenceGaps, r.packetsMissing, r.reordered)
  }

  lemma AcceptSorts(s: State, samples: nat, d: Datagram)
    requires d.Opus?
    ensures var a, p, r := Accepted(s, samples, d), Paired(s, samples, d.sequence, d.timestamp), s.report;
            && a.report == r.(packets := r.packets + 1, verification := a.report.verification,
                              framesDecoded := r.framesDecoded + One(d.decodes),
                              decodeFailures := r.decodeFailures + One(!d.decodes),
                              timestampPairs := p.report.timestampPairs, timestampExact := p.report.timestampExact,
                              sequenceGaps := p.report.sequenceGaps, packetsMissing := p.report.packetsMissing,
                              reordered := p.report.reordered)
            && a.previous == p.previous
  {
    var a := s.(report := s.report.(packets := s.report.packets + 1));
    var v := Verified(a, d.sequence, d.digest);
    PairPlaces(v, samples, d.sequence, d.timestamp);
    PairPlaces(s, samples, d.sequence, d.timestamp);
  }

  /** What one datagram does to the whole report, by what it is. */
  lemma TakeSorts(s: State, samples: nat, d: Datagram)
    requires |s.seen| == SEEN_WINDOW
    ensures var r := Taken(s, samples, d);
            && Sorted(s, r.report, d)
            && (if Accepts(s, d) then
                  var p := Paired(s, samples, d.sequence, d.timestamp);
                  Pairing(r.report) == Pairing(p.report) && r.previous == p.previous
                else Pairing(r.report) == Pairing(s.report) && r.previous == s.previous)
  {
    if Accepts(s, d) {
      var o := Sized(s, d.length);
      var c := o.(seen := Arrive(s.seen, d.sequence).1, report := o.report.(ssrc := Some(d.ssrc)));
      AcceptSorts(c, samples, d);
      PairPlaces(c, samples, d.sequence, d.timestamp);
      PairPlaces(s, samples, d.sequence, d.timestamp);
    }
  }

  // Every run

  predicate IsNotRtp(d: Datagram) {
    d.NotRtp?
  }

  predicate IsOfWrongType(d: Datagram) {
    d.WrongPayloadType?
  }

  predicate IsEmpty(d: Datagram) {
    d.EmptyPayload?
  }

  predicate IsDecodable(d: Datagram) {
    d.Opus? && d.decodes
  }

  function Bytes(ds: seq<Datagram>): nat {
    if ds == [] then 0 else ds[0].length + Bytes(ds[1..])
  }

  function Largest(least: nat, ds: seq<Datagram>): nat
    decreases |ds|
  {
    if ds == [] then least else Largest(Max(least, ds[0].length), ds[1..])
  }

  /** Packets of any stream but this one. */
  function Strangers(ssrc: uint32, ds: seq<Datagram>): nat {
    if ds == [] then 0 else One(ds[0].Opus? && ds[0].ssrc != ssrc) + Strangers(ssrc, ds[1..])
  }

  /** The datagrams taken as packets, in order. */
  function AcceptedOf(s: State, samples: nat, ds: seq<Datagram>): seq<Datagram>
    requires |s.seen| == SEEN_WINDOW
    decreases |ds|
  {
    if ds == [] then []
    else (if Accepts(s, ds[0]) then [ds[0]] else []) + AcceptedOf(Taken(s, samples, ds[0]), samples, ds[1..])
  }

  /**
   Over every run each figure of the report is how many datagrams were of its kind:
   by what the parser said, by the stream they belong to, and among the packets taken
   by whether they decode.
   */
  lemma {:induction false} FiguresAreKinds(s: State, samples: nat, ds: seq<Datagram>)
    requires |s.seen| == SEEN_WINDOW
    ensures var c, r, packets := s.report, TakenAll(s, samples, ds).report, AcceptedOf(s, samples, ds);
            && r.notRtp == c.notRtp + Count(IsNotRtp, ds)
            && r.wrongPayloadType == c.wrongPayloadType + Count(IsOfWrongType, ds)
            && r.emptyPayload == c.emptyPayload + Count(IsEmpty, ds)
            && r.packets == c.packets + |packets|
            && r.framesDecoded == c.framesDecoded + Count(IsDecodable, packets)
            && r.framesDecoded + r.decodeFailures == c.framesDecoded + c.decodeFailures + |packets|
            && r.bytes == c.bytes + Bytes(ds)
            && r.largestDatagram == Largest(c.largestDatagram, ds)
    decreases |ds|
  {
    if ds != [] {
      var next := Taken(s, samples, ds[0]);
      var later := AcceptedOf(next, samples, ds[1..]);
      TakeSorts(s, samples, ds[0]);
      FiguresAreKinds(next, samples, ds[1..]);
      if Accepts(s, ds[0]) {
        CountJoins(IsDecodable, [ds[0]], later);
      } else {
        assert [] + later == later;
      }
    }
  }

  /** And the foreign ones are those of any stream but the one expected, or with none expected the first heard. */
  lemma {:induction false} ForeignAreStrangers(s: State, samples: nat, ds: seq<Datagram>, ssrc: uint32)
    requires |s.seen| == SEEN_WINDOW && Tunes(s.report.ssrc, ssrc, ds)
    ensures TakenAll(s, samples, ds).report.foreignSsrc == s.report.foreignSsrc + Strangers(ssrc, ds)
    decreases |ds|
  {
    if ds != [] {
      TakeSorts(s, samples, ds[0]);
      ForeignAreStrangers(Taken(s, samples, ds[0]), samples, ds[1..], ssrc);
    }
  }

  // Pairs over a run

  /** A datagram, and where in the stream the packet in it is. */
  datatype Placed = Placed(datagram: Datagram, at: Position)

  function Datagrams(ps: seq<Placed>): (ds: seq<Datagram>)
    ensures |ds| == |ps| && forall i | 0 <= i < |ps| :: ds[i] == ps[i].datagram
  {
    seq(|ps|, i requires 0 <= i < |ps| => ps[i].datagram)
  }

  /** The furthest packet so far. */
  function Further(last: Option<Position>, at: Position): Option<Position> {
    if last.None? || at.number > last.value.number then Some(at) else last
  }

  function Onward(s: State, last: Option<Position>, p: Placed): Option<Position>
    requires |s.seen| > 0
  {
    if Accepts(s, p.datagram) then Further(last, p.at) else last
  }

  /** Each packet taken carries its place, and is near the furthest before it. */
  ghost predicate AllNear(s: State, last: Option<Position>, samples: nat, ps: seq<Placed>)
    requires |s.seen| == SEEN_WINDOW
    decreases |ps|
  {
    ps != [] ==>
      && (Accepts(s, ps[0].datagram) ==>
            && (ps[0].datagram.sequence, ps[0].datagram.timestamp) == OnWire(ps[0].at)
            && (last.Some? ==> Near(last.value, ps[0].at)))
      && AllNear(Taken(s, samples, ps[0].datagram), Onward(s, last, ps[0]), samples, ps[1..])
  }

  /** Where the packets taken are, in the order they came. */
  function PlacesOf(s: State, samples: nat, ps: seq<Placed>): seq<Position>
    requires |s.seen| == SEEN_WINDOW
    decreases |ps|
  {
    if ps == [] then []
    else
      (if Accepts(s, ps[0].datagram) then [ps[0].at] else [])
      + PlacesOf(Taken(s, samples, ps[0].datagram), samples, ps[1..])
  }

  /** Those further on than any before them. */
  function Records(last: Option<Position>, places: seq<Position>): seq<Position>
    decreases |places|
  {
    if places == [] then []
    else (if Further(last, places[0]) != last then [places[0]] else []) + Records(Further(last, places[0]), places[1..])
  }

  /** How many of these follow the one before by its whole frames. */
  function Exact(last: Option<Position>, records: seq<Position>, samples: nat): nat
    decreases |records|
  {
    if records == [] then 0
    else One(last.Some? && InTime(last.value, records[0], samples)) + Exact(Some(records[0]), records[1..], samples)
  }

  /** How many pass over a number. */
  function Jumps(last: Option<Position>, records: seq<Position>): nat
    decreases |records|
  {
    if records == [] then 0
    else One(last.Some? && records[0].number - last.value.number > 1) + Jumps(Some(records[0]), records[1..])
  }

  /** All but the first of these make a pair with the one before. */
  function Pairs(last: Option<Position>, records: seq<Position>): nat {
    if last.None? && records != [] then |records| - 1 else |records|
  }

  /** The numbers from the first of these, or the place before them, to the last. */
  function Spanned(last: Option<Position>, records: seq<Position>): int {
    if records == [] then 0
    else records[|records| - 1].number - (if last.Some? then last.value.number else records[0].number)
  }

  ghost predicate Follows(s: State, last: Option<Position>) {
    s.previous == if last.None? then None else Some(OnWire(last.value))
  }

  lemma TakeFollows(s: State, samples: nat, p: Placed, last: Option<Position>)
    requires |s.seen| == SEEN_WINDOW && Follows(s, last) && AllNear(s, last, samples, [p])
    ensures var r, places := Taken(s, samples, p.datagram), PlacesOf(s, samples, [p]);
            var records := Records(last, places);
            && Follows(r, Onward(s, last, p))
            && r.report.timestampPairs == s.report.timestampPairs + Pairs(last, records)
            && r.report.timestampExact == s.report.timestampExact + Exact(last, records, samples)
            && r.report.sequenceGaps == s.report.sequenceGaps + Jumps(last, records)
            && r.report.packetsMissing
               == s.report.packetsMissing + Spanned(last, records) - Pairs(last, records)
            && r.report.reordered == s.report.reordered + |places| - |records|
  {
    TakeSorts(s, samples, p.datagram);
    if Accepts(s, p.datagram) {
      assert [p][1..] == [] && [p.at][1..] == [];
      match last
      case None =>
      case Some(furthest) => PairReads(s, samples, furthest, p.at);
    }
  }

  /** Of one place and those after it, what the first adds to each figure. */
  lemma RecordsNext(last: Option<Position>, at: Position, later: seq<Position>, samples: nat)
    ensures var next := Further(last, at);
            var first, rest, all := Records(last, [at]), Records(next, later), Records(last, [at] + later);
            && |all| == |first| + |rest|
            && Pairs(last, all) == Pairs(last, first) + Pairs(next, rest)
            && Exact(last, all, samples) == Exact(last, first, samples) + Exact(next, rest, samples)
            && Jumps(last, all) == Jumps(last, first) + Jumps(next, rest)
            && Spanned(last, all) == Spanned(last, first) + Spanned(next, rest)
  {
    var next := Further(last, at);
    var rest := Records(next, later);
    assert ([at] + later)[1..] == later && [at][1..] == [];
    if next == last {
      assert [] + rest == rest;
    } else {
      assert Records(last, [at]) == [at] && next == Some(at);
      assert ([at] + rest)[1..] == rest;
    }
  }

  /**
   Over every run in which the packets taken stay near the furthest before them, whatever
   else the port hears: the pairs are the packets further on than any before, all others
   are reordered; the exact pairs are those whose clock moved by their whole frames, the
   gaps those that passed over a number, and what is missing all the numbers passed over.
   */
  lemma {:induction false} PairsAreRecords(s: State, samples: nat, ps: seq<Placed>, last: Option<Position>)
    requires |s.seen| == SEEN_WINDOW && Follows(s, last) && AllNear(s, last, samples, ps)
    ensures var c, r, places := s.report, TakenAll(s, samples, Datagrams(ps)).report, PlacesOf(s, samples, ps);
            var records := Records(last, places);
            && r.timestampPairs == c.timestampPairs + Pairs(last, records)
            && r.timestampExact == c.timestampExact + Exact(last, records, samples)
            && r.sequenceGaps == c.sequenceGaps + Jumps(last, records)
            && r.packetsMissing == c.packetsMissing + Spanned(last, records) - Pairs(last, records)
            && r.reordered == c.reordered + |places| - |records|
    decreases |ps|
  {
    if ps != [] {
      var p, next := ps[0], Taken(s, samples, ps[0].datagram);
      assert Datagrams(ps)[1..] == Datagrams(ps[1..]);
      TakeFollows(s, samples, p, last);
      PairsAreRecords(next, samples, ps[1..], Onward(s, last, p));
      var later := PlacesOf(next, samples, ps[1..]);
      if Accepts(s, p.datagram) {
        assert PlacesOf(s, samples, [p]) == [p.at];
        RecordsNext(last, p.at, later, samples);
      } else {
        assert [] + later == later;
      }
    }
  }

  /** Every one of these follows the one before it by its whole frames. */
  predicate AllInTime(last: Option<Position>, records: seq<Position>, samples: nat)
    decreases |records|
  {
    records != [] ==>
      (last.Some? ==> InTime(last.value, records[0], samples)) && AllInTime(Some(records[0]), records[1..], samples)
  }

  lemma {:induction false} ExactIsAll(last: Option<Position>, records: seq<Position>, samples: nat)
    ensures Exact(last, records, samples) <= Pairs(last, records)
    ensures Exact(last, records, samples) == Pairs(last, records) <==> AllInTime(last, records, samples)
    decreases |records|
  {
    if records != [] {
      ExactIsAll(Some(records[0]), records[1..], samples);
    }
  }

  /**
   The clock check both ways, over every such run of a new receiver: every pair reads as
   exact if and only if each packet further on than all before it moved the clock by
   exactly its frames.
   */
  lemma ClockIsChecked(wanted: Option<uint32>, ledger: Option<Entries>, samples: nat, ps: seq<Placed>)
    requires AllNear(Initial(wanted, ledger), None, samples, ps)
    ensures var s := Initial(wanted, ledger);
            var r, records := TakenAll(s, samples, Datagrams(ps)).report, Records(None, PlacesOf(s, samples, ps));
            r.timestampExact == r.timestampPairs <==> AllInTime(None, records, samples)
  {
    var s := Initial(wanted, ledger);
    PairsAreRecords(s, samples, ps, None);
    ExactIsAll(None, Records(None, PlacesOf(s, samples, ps)), samples);
  }

  /**
   The whole report of a new receiver, over every such run: each figure is read off the
   datagrams by their kind and stream, the packets taken by whether they decode, and the
   places of those packets by which were further on than all before.
   */
  lemma ReportIsRead(wanted: Option<uint32>, ledger: Option<Entries>, samples: nat, ps: seq<Placed>, ssrc: uint32)
    requires AllNear(Initial(wanted, ledger), None, samples, ps) && Tunes(wanted, ssrc, Datagrams(ps))
    ensures var s, ds := Initial(wanted, ledger), Datagrams(ps);
            var r, packets := TakenAll(s, samples, ds).report, AcceptedOf(s, samples, ds);
            var places := PlacesOf(s, samples, ps);
            var records := Records(None, places);
            && r.notRtp == Count(IsNotRtp, ds)
            && r.wrongPayloadType == Count(IsOfWrongType, ds)
            && r.emptyPayload == Count(IsEmpty, ds)
            && r.foreignSsrc == Strangers(ssrc, ds)
            && r.packets == |packets|
            && r.notRtp + r.wrongPayloadType + r.emptyPayload + r.foreignSsrc + r.packets + r.duplicates == |ds|
            && r.framesDecoded == Count(IsDecodable, packets)
            && r.decodeFailures == |packets| - Count(IsDecodable, packets)
            && r.bytes == Bytes(ds) && r.largestDatagram == Largest(0, ds)
            && r.timestampPairs == Pairs(None, records)
            && r.timestampExact == Exact(None, records, samples)
            && r.sequenceGaps == Jumps(None, records)
            && r.packetsMissing == Spanned(None, records) - Pairs(None, records)
            && r.reordered == |places| - |records|
  {
    var s, ds := Initial(wanted, ledger), Datagrams(ps);
    FiguresAreKinds(s, samples, ds);
    ForeignAreStrangers(s, samples, ds, ssrc);
    PairsAreRecords(s, samples, ps, None);
    InitialIdentities(wanted, ledger);
    IdentitiesOverRuns(s, samples, ds, 0);
  }
}
