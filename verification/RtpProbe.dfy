/**
 The packet probe's receiver: every datagram counted in one class, and the loss,
 reordering and timestamp figures kept from one arrival to the next.

 The stream's own arithmetic is over unbounded packet numbers; the probe sees
 them modulo 2^16 and the sample clock modulo 2^32.
 */
module RtpProbe {
  import opened Wrappers
  import opened Wrap
  import opened SeenWindows
  import opened Grid

  const SEEN_WINDOW := 4096
  const VERIFY_WINDOW := 1024

  /** A payload's digest, computed elsewhere. */
  type Digest = nat

  // The ledger of what was sent

  type Entries = seq<(uint16, Digest)>

  function Recorded(entries: Entries, sequence: uint16, digest: Digest): Entries {
    (if |entries| == VERIFY_WINDOW then entries[1..] else entries) + [(sequence, digest)]
  }

  function PositionFrom(entries: Entries, sequence: uint16, i: nat): (r: nat)
    requires i <= |entries|
    ensures i <= r <= |entries|
    ensures r < |entries| ==> entries[r].0 == sequence
    ensures forall j | i <= j < r :: entries[j].0 != sequence
    decreases |entries| - i
  {
    if i == |entries| || entries[i].0 == sequence then i else PositionFrom(entries, sequence, i + 1)
  }

  /** The first entry under this number is taken out and compared; all others keep their places. */
  function Checked(entries: Entries, sequence: uint16, digest: Digest): (Entries, Option<bool>) {
    var found := PositionFrom(entries, sequence, 0);
    if found == |entries| then (entries, None)
    else (entries[..found] + entries[found + 1..], Some(digest == entries[found].1))
  }

  class VerifyLedger {
    var entries: Entries

    constructor ()
      ensures entries == []
    {
      entries := [];
    }

    method Record(sequence: uint16, digest: Digest)
      modifies this
      ensures entries == Recorded(old(entries), sequence, digest)
    {
      if |entries| == VERIFY_WINDOW {
        entries := entries[1..];
      }
      entries := entries + [(sequence, digest)];
    }

    method Check(sequence: uint16, digest: Digest) returns (outcome: Option<bool>)
      modifies this
      ensures (entries, outcome) == Checked(old(entries), sequence, digest)
    {
      var position := 0;
      while position < |entries| && entries[position].0 != sequence
        invariant position <= |entries| && entries == old(entries)
        invariant PositionFrom(entries, sequence, 0) == PositionFrom(entries, sequence, position)
      {
        position := position + 1;
      }
      if position == |entries| {
        return None;
      }
      outcome := Some(digest == entries[position].1);
      entries := entries[..position] + entries[position + 1..];
    }
  }

  /** Each number held once, so a claim is of the payload sent under it. */
  ghost predicate Distinct(entries: Entries) {
    forall i, j | 0 <= i < j < |entries| :: entries[i].0 != entries[j].0
  }

  /**
   A recorded payload is verified by the first arrival of its number, whatever was
   claimed in between, and a second arrival of it finds nothing to compare with.
   */
  lemma ClaimedOnce(entries: Entries, sequence: uint16, digest: Digest, arrived: Digest)
    requires Distinct(entries) && (sequence, digest) in entries
    ensures Checked(entries, sequence, arrived).1 == Some(arrived == digest)
    ensures Distinct(Checked(entries, sequence, arrived).0)
    ensures Checked(Checked(entries, sequence, arrived).0, sequence, arrived).1 == None
    ensures forall e | e in entries && e.0 != sequence :: e in Checked(entries, sequence, arrived).0
  {
  }

  function RecordedAll(entries: Entries, sent: seq<(uint16, Digest)>): Entries
    decreases |sent|
  {
    if sent == [] then entries else RecordedAll(Recorded(entries, sent[0].0, sent[0].1), sent[1..])
  }

  /** Nothing claimed, the ledger holds the newest 1024 records in the order they were made. */
  lemma {:induction false} RecordsKeepNewest(entries: Entries, sent: seq<(uint16, Digest)>)
    requires |entries| <= 1024
    ensures var all := entries + sent;
            RecordedAll(entries, sent) == if |all| <= 1024 then all else all[|all| - 1024..]
    decreases |sent|
  {
    var all := entries + sent;
    if sent == [] {
      assert all == entries;
    } else {
      var next := Recorded(entries, sent[0].0, sent[0].1);
      assert sent == [sent[0]] + sent[1..];
      RecordsKeepNewest(next, sent[1..]);
      assert next + sent[1..] == if |entries| == 1024 then all[1..] else all;
    }
  }

  /**
   Exactly when an intact payload verifies as soon as it is recorded: when no entry
   left under its number comes first, or that entry happens to hold the same digest.
   */
  lemma IntactVerifies(entries: Entries, sequence: uint16, digest: Digest)
    ensures var kept := if |entries| == VERIFY_WINDOW then entries[1..] else entries;
            var left := PositionFrom(kept, sequence, 0);
            Checked(Recorded(entries, sequence, digest), sequence, digest).1
            == Some(left == |kept| || kept[left].1 == digest)
  {
    var kept := if |entries| == VERIFY_WINDOW then entries[1..] else entries;
    var left, found := PositionFrom(kept, sequence, 0), PositionFrom(kept + [(sequence, digest)], sequence, 0);
    assert (kept + [(sequence, digest)])[|kept|].0 == sequence;
    assert left < |kept| ==> (kept + [(sequence, digest)])[left].0 == sequence;
    assert found < |kept| ==> kept[found].0 == sequence;
    assert found == left;
  }

  /** The ledger after packets that are each recorded and then claimed by their own arrival. */
  function Claimed(entries: Entries, sent: seq<(uint16, Digest)>): Entries
    decreases |sent|
  {
    if sent == [] then entries
    else Claimed(Checked(Recorded(entries, sent[0].0, sent[0].1), sent[0].0, sent[0].1).0, sent[1..])
  }

  /** The entry of a lost packet is never aged out while what follows it is claimed promptly. */
  lemma {:induction false} LostEntryLingers(lost: (uint16, Digest), sent: seq<(uint16, Digest)>)
    requires forall i | 0 <= i < |sent| :: sent[i].0 != lost.0
    ensures Claimed([lost], sent) == [lost]
    decreases |sent|
  {
    if sent != [] {
      var recorded := Recorded([lost], sent[0].0, sent[0].1);
      assert recorded == [lost, sent[0]];
      assert PositionFrom(recorded, sent[0].0, 0) == 1;
      assert recorded[..1] + recorded[2..] == [lost];
      LostEntryLingers(lost, sent[1..]);
    }
  }

  /**
   So an intact payload can be reported as mismatched: one packet lost, the rest of
   a 16-bit cycle delivered and claimed, and the next packet under the lost number
   is compared with the lost packet's digest.
   */
  lemma LostPacketMismatchesItsSuccessor(lost: (uint16, Digest), between: seq<(uint16, Digest)>, digest: Digest)
    requires (forall i | 0 <= i < |between| :: between[i].0 != lost.0) && digest != lost.1
    ensures Checked(Recorded(Claimed([lost], between), lost.0, digest), lost.0, digest).1 == Some(false)
  {
    LostEntryLingers(lost, between);
    IntactVerifies([lost], lost.0, digest);
  }

  // The receiver

  datatype Verification = Digests(verified: nat, mismatched: nat, unverifiable: nat) | NotApplicable {
    function Outcomes(): nat {
      if NotApplicable? then 0 else verified + mismatched + unverifiable
    }

    function Record(outcome: Option<bool>): Verification {
      if NotApplicable? then this
      else
        match outcome
        case Some(true) => this.(verified := verified + 1)
        case Some(false) => this.(mismatched := mismatched + 1)
        case None => this.(unverifiable := unverifiable + 1)
    }
  }

  datatype Datagram =
    | NotRtp(length: nat)
    | WrongPayloadType(length: nat)
    | EmptyPayload(length: nat)
    | Opus(length: nat, ssrc: uint32, sequence: uint16, timestamp: uint32, digest: Digest, decodes: bool)

  datatype Report = Report(
    ssrc: Option<uint32>, packets: nat, bytes: nat, largestDatagram: nat,
    timestampPairs: nat, timestampExact: nat, sequenceGaps: nat, packetsMissing: nat, reordered: nat,
    duplicates: nat, verification: Verification, notRtp: nat, wrongPayloadType: nat, emptyPayload: nat,
    foreignSsrc: nat, framesDecoded: nat, decodeFailures: nat)

  datatype State = State(report: Report, seen: Ring, previous: Option<(uint16, uint32)>, ledger: Option<Entries>)

  function Initial(wanted: Option<uint32>, ledger: Option<Entries>): State {
    State(Report(wanted, 0, 0, 0, 0, 0, 0, 0, 0, 0, if ledger.Some? then Digests(0, 0, 0) else NotApplicable, 0, 0,
        0, 0, 0, 0),
          Empty(SEEN_WINDOW), None, ledger)
  }

  /** The pair a packet makes with the last one that moved the stream forwards. */
  function Paired(s: State, samples: nat, sequence: uint16, timestamp: uint32): State {
    match s.previous
    case None => s.(previous := Some((sequence, timestamp)))
    case Some((lastSequence, lastTimestamp)) =>
      var distance := Distance16(sequence, lastSequence);
      if distance >= 1 then
        var exact := Distance32(timestamp, lastTimestamp) == distance * samples;
        s.(previous := Some((sequence, timestamp)),
           report := s.report.(
             timestampPairs := s.report.timestampPairs + 1,
             timestampExact := s.report.timestampExact + (if exact then 1 else 0),
             sequenceGaps := s.report.sequenceGaps + (if distance > 1 then 1 else 0),
             packetsMissing := s.report.packetsMissing + (distance - 1)))
      else
        s.(report := s.report.(reordered := s.report.reordered + 1))
  }

  function Verified(s: State, sequence: uint16, digest: Digest): State {
    match s.ledger
    case None => s
    case Some(entries) =>
      var (rest, outcome) := Checked(entries, sequence, digest);
      s.(ledger := Some(rest), report := s.report.(verification := s.report.verification.Record(outcome)))
  }

  function Decoded(s: State, decodes: bool): State {
    if decodes then s.(report := s.report.(framesDecoded := s.report.framesDecoded + 1))
    else s.(report := s.report.(decodeFailures := s.report.decodeFailures + 1))
  }

  function Accepted(s: State, samples: nat, d: Datagram): State
    requires d.Opus?
  {
    var a := s.(report := s.report.(packets := s.report.packets + 1));
    Decoded(Paired(Verified(a, d.sequence, d.digest), samples, d.sequence, d.timestamp), d.decodes)
  }

  function Sized(s: State, length: nat): State {
    s.(report := s.report.(
         bytes := s.report.bytes + length,
         largestDatagram := if s.report.largestDatagram < length then length else s.report.largestDatagram))
  }

  /** Of this stream: the sender's own, or the first stream heard when there was none to expect. */
  predicate Ours(s: State, d: Datagram) {
    d.Opus? && (s.report.ssrc.None? || s.report.ssrc.value == d.ssrc)
  }

  predicate First(s: State, d: Datagram)
    requires d.Opus? && |s.seen| > 0
  {
    Arrive(s.seen, d.sequence).0
  }

  /** Taken as a packet: of this stream, and the first of its number. */
  predicate Accepts(s: State, d: Datagram)
    requires |s.seen| > 0
  {
    Ours(s, d) && First(s, d)
  }

  function Taken(s: State, samples: nat, d: Datagram): (r: State)
    requires |s.seen| == SEEN_WINDOW
    ensures |r.seen| == SEEN_WINDOW
  {
    var s := Sized(s, d.length);
    match d
    case NotRtp(_) => s.(report := s.report.(notRtp := s.report.notRtp + 1))
    case WrongPayloadType(_) => s.(report := s.report.(wrongPayloadType := s.report.wrongPayloadType + 1))
    case EmptyPayload(_) => s.(report := s.report.(emptyPayload := s.report.emptyPayload + 1))
    case Opus(_, _, _, _, _, _) =>
      if !Ours(s, d) then s.(report := s.report.(foreignSsrc := s.report.foreignSsrc + 1))
      else
        var (first, seen) := Arrive(s.seen, d.sequence);
        var o := s.(seen := seen, report := s.report.(ssrc := Some(d.ssrc)));
        if first then Accepted(o, samples, d)
        else o.(report := o.report.(duplicates := o.report.duplicates + 1))
  }

  function TakenAll(s: State, samples: nat, ds: seq<Datagram>): (r: State)
    requires |s.seen| == SEEN_WINDOW
    ensures |r.seen| == SEEN_WINDOW
    decreases |ds|
  {
    if ds == [] then s else TakenAll(Taken(s, samples, ds[0]), samples, ds[1..])
  }

  class Receiver {
    const samples: nat
    const seen: SeenWindow
    const ledger: VerifyLedger?
    var report: Report
    var previous: Option<(uint16, uint32)>

    ghost predicate Valid()
      reads this
    {
      seen.Valid() && seen.size == SEEN_WINDOW
    }

    ghost function Contents(): State
      reads this, seen.slots, ledger
    {
      State(report, seen.slots[..], previous, if ledger == null then None else Some(ledger.entries))
    }

    constructor (samples: nat, wanted: Option<uint32>, ledger: VerifyLedger?)
      ensures Valid() && fresh(seen) && fresh(seen.slots) && this.ledger == ledger && this.samples == samples
      ensures Contents() == Initial(wanted, if ledger == null then None else Some(ledger.entries))
    {
      this.samples := samples;
      this.ledger := ledger;
      seen := new SeenWindow(SEEN_WINDOW);
      report := Report(wanted, 0, 0, 0, 0, 0, 0, 0, 0, 0,
                       if ledger != null then Digests(0, 0, 0) else NotApplicable, 0, 0, 0, 0, 0, 0);
      previous := None;
    }

    /** One turn of the receive loop. */
    method Take(d: Datagram)
      requires Valid()
      modifies this, seen.slots, ledger
      ensures Valid() && Contents() == Taken(old(Contents()), samples, d)
    {
      report := report.(bytes := report.bytes + d.length,
                        largestDatagram := if report.largestDatagram < d.length then d.length
                            else report.largestDatagram);
      ghost var sized := Sized(old(Contents()), d.length);
      assert Contents() == sized;
      match d {
        case NotRtp(_) => report := report.(notRtp := report.notRtp + 1);
        case WrongPayloadType(_) => report := report.(wrongPayloadType := report.wrongPayloadType + 1);
        case EmptyPayload(_) => report := report.(emptyPayload := report.emptyPayload + 1);
        case Opus(_, ssrc, sequence, _, _, _) =>
          if report.ssrc.Some? && report.ssrc.value != ssrc {
            report := report.(foreignSsrc := report.foreignSsrc + 1);
            return;
          }
          report := report.(ssrc := Some(ssrc));
          var first := seen.Arrived(sequence);
          ghost var ours := sized.(seen := Arrive(sized.seen, sequence).1, report := sized.report.(ssrc := Some(ssrc)));
          assert Contents() == ours;
          if first {
            Accept(d);
          } else {
            report := report.(duplicates := report.duplicates + 1);
          }
      }
    }

    method Accept(d: Datagram)
      requires Valid() && d.Opus?
      modifies this, ledger
      ensures Valid() && Contents() == Accepted(old(Contents()), samples, d)
    {
      report := report.(packets := report.packets + 1);
      if ledger != null {
        var outcome := ledger.Check(d.sequence, d.digest);
        report := report.(verification := report.verification.Record(outcome));
      }
      Pair(d.sequence, d.timestamp);
      if d.decodes {
        report := report.(framesDecoded := report.framesDecoded + 1);
      } else {
        report := report.(decodeFailures := report.decodeFailures + 1);
      }
    }

    method Pair(sequence: uint16, timestamp: uint32)
      requires Valid()
      modifies this
      ensures Valid() && Contents() == Paired(old(Contents()), samples, sequence, timestamp)
    {
      if previous.None? {
        previous := Some((sequence, timestamp));
        return;
      }
      var (lastSequence, lastTimestamp) := previous.value;
      var distance := Distance16(sequence, lastSequence);
      if distance >= 1 {
        report := report.(timestampPairs := report.timestampPairs + 1);
        if Distance32(timestamp, lastTimestamp) == distance * samples {
          report := report.(timestampExact := report.timestampExact + 1);
        }
        if distance > 1 {
          report := report.(sequenceGaps := report.sequenceGaps + 1,
              packetsMissing := report.packetsMissing + (distance - 1));
        }
        previous := Some((sequence, timestamp));
      } else {
        report := report.(reordered := report.reordered + 1);
      }
    }

    method Receive(ds: seq<Datagram>)
      requires Valid()
      modifies this, seen.slots, ledger
      ensures Valid() && Contents() == TakenAll(old(Contents()), samples, ds)
    {
      ghost var whole := TakenAll(Contents(), samples, ds);
      for i := 0 to |ds|
        invariant Valid() && TakenAll(Contents(), samples, ds[i..]) == whole
      {
        assert ds[i..][1..] == ds[i + 1..];
        Take(ds[i]);
      }
    }
  }

  // Identities over every arrival history

  /** Each datagram in one class; each accepted packet first, paired or reordered, decoded or not, checked or not. */
  ghost predicate Identities(s: State, datagrams: nat) {
    var r := s.report;
    && datagrams == r.notRtp + r.wrongPayloadType + r.emptyPayload + r.foreignSsrc + r.duplicates + r.packets
    && r.packets == r.timestampPairs + r.reordered + (if s.previous.Some? then 1 else 0)
    && r.timestampExact <= r.timestampPairs
    && r.sequenceGaps <= r.timestampPairs && r.sequenceGaps <= r.packetsMissing
    && r.framesDecoded + r.decodeFailures == r.packets
    && (s.ledger.Some? <==> r.verification.Digests?)
    && r.verification.Outcomes() == (if s.ledger.Some? then r.packets else 0)
  }

  lemma InitialIdentities(wanted: Option<uint32>, ledger: Option<Entries>)
    ensures Identities(Initial(wanted, ledger), 0)
  {
  }

  /** A pair adds one to exactly one of the pairs, the reordered or the first packet. */
  lemma PairPlaces(s: State, samples: nat, sequence: uint16, timestamp: uint32)
    ensures var r, p := s.report, Paired(s, samples, sequence, timestamp).report;
            && Paired(s, samples, sequence, timestamp).previous.Some?
            && (p.timestampPairs - r.timestampPairs) + (p.reordered - r.reordered)
                + (if s.previous.Some? then 0 else 1) == 1
            && 0 <= p.timestampExact - r.timestampExact <= p.timestampPairs - r.timestampPairs
            && 0 <= p.sequenceGaps - r.sequenceGaps <= p.timestampPairs - r.timestampPairs
            && p.sequenceGaps - r.sequenceGaps <= p.packetsMissing - r.packetsMissing
            && Paired(s, samples, sequence, timestamp) == s.(
                 previous := Paired(s, samples, sequence, timestamp).previous,
                 report := r.(timestampPairs := p.timestampPairs, timestampExact := p.timestampExact,
                              sequenceGaps := p.sequenceGaps, packetsMissing := p.packetsMissing,
                                  reordered := p.reordered))
  {
  }

  lemma VerifyCounts(s: State, sequence: uint16, digest: Digest)
    requires s.ledger.Some? <==> s.report.verification.Digests?
    ensures var v := Verified(s, sequence, digest);
            && v == s.(ledger := v.ledger, report := s.report.(verification := v.report.verification))
            && (v.ledger.Some? <==> s.ledger.Some?) && (v.report.verification.Digests? <==> s.ledger.Some?)
            && v.report.verification.Outcomes() == s.report.verification.Outcomes() + (if s.ledger.Some? then 1 else 0)
  {
  }

  lemma AcceptKeepsIdentities(s: State, samples: nat, d: Datagram, datagrams: nat)
    requires d.Opus? && Identities(s, datagrams)
    ensures Identities(Accepted(s, samples, d), datagrams + 1)
  {
    var a := s.(report := s.report.(packets := s.report.packets + 1));
    var v := Verified(a, d.sequence, d.digest);
    VerifyCounts(a, d.sequence, d.digest);
    PairPlaces(v, samples, d.sequence, d.timestamp);
    var p := Paired(v, samples, d.sequence, d.timestamp);
    assert Accepted(s, samples, d) == Decoded(p, d.decodes);
  }

  lemma TakeKeepsIdentities(s: State, samples: nat, d: Datagram, datagrams: nat)
    requires |s.seen| == SEEN_WINDOW && Identities(s, datagrams)
    ensures Identities(Taken(s, samples, d), datagrams + 1)
  {
    if Ours(s, d) && First(s, d) {
      var o := Sized(s, d.length);
      AcceptKeepsIdentities(o.(seen := Arrive(s.seen, d.sequence).1, report := o.report.(ssrc := Some(d.ssrc))),
          samples, d, datagrams);
    }
  }

  lemma {:induction false} IdentitiesOverRuns(s: State, samples: nat, ds: seq<Datagram>, datagrams: nat)
    requires |s.seen| == SEEN_WINDOW && Identities(s, datagrams)
    ensures Identities(TakenAll(s, samples, ds), datagrams + |ds|)
    decreases |ds|
  {
    if ds != [] {
      TakeKeepsIdentities(s, samples, ds[0], datagrams);
      IdentitiesOverRuns(Taken(s, samples, ds[0]), samples, ds[1..], datagrams + 1);
    }
  }

  // The stream behind the wire

  /** A datagram with the unbounded packet number its sequence number stands for. */
  datatype Heard = Heard(datagram: Datagram, number: int)

  function Wire(hs: seq<Heard>): (ds: seq<Datagram>)
    ensures |ds| == |hs| && forall i | 0 <= i < |hs| :: ds[i] == hs[i].datagram
  {
    seq(|hs|, i requires 0 <= i < |hs| => hs[i].datagram)
  }

  /** First and highest packet number accepted so far. */
  datatype Reach = Reach(first: int, highest: int)

  function Extended(reach: Option<Reach>, number: int): Option<Reach> {
    match reach
    case None => Some(Reach(number, number))
    case Some(r) => Some(r.(highest := if number > r.highest then number else r.highest))
  }

  function Reached(s: State, reach: Option<Reach>, h: Heard): Option<Reach>
    requires |s.seen| == SEEN_WINDOW
  {
    if Accepts(s, h.datagram) then Extended(reach, h.number) else reach
  }

  /** What an accepted number may do and still be followed: stay within half the 16-bit range of the highest. */
  ghost predicate Followable(s: State, reach: Option<Reach>, h: Heard)
    requires |s.seen| == SEEN_WINDOW
  {
    Accepts(s, h.datagram) ==>
      && h.datagram.sequence == Wrap16(h.number)
      && (reach.Some? ==> -HALF16 <= h.number - reach.value.highest < HALF16)
  }

  ghost predicate AllFollowable(s: State, reach: Option<Reach>, samples: nat, hs: seq<Heard>)
    requires |s.seen| == SEEN_WINDOW
    decreases |hs|
  {
    hs != [] ==>
      && Followable(s, reach, hs[0])
      && AllFollowable(Taken(s, samples, hs[0].datagram), Reached(s, reach, hs[0]), samples, hs[1..])
  }

  ghost function ReachedAll(s: State, reach: Option<Reach>, samples: nat, hs: seq<Heard>): Option<Reach>
    requires |s.seen| == SEEN_WINDOW
    decreases |hs|
  {
    if hs == [] then reach
    else ReachedAll(Taken(s, samples, hs[0].datagram), Reached(s, reach, hs[0]), samples, hs[1..])
  }

  /** The gaps counted and the pairs examined add up to the numbers spanned. */
  ghost predicate Telescopes(s: State, reach: Option<Reach>) {
    if s.previous.None? then reach.None? && s.report.packetsMissing == s.report.timestampPairs == 0
    else
      && reach.Some?
      && s.previous.value.0 == Wrap16(reach.value.highest)
      && s.report.packetsMissing + s.report.timestampPairs == reach.value.highest - reach.value.first
  }

  lemma PairTelescopes(s: State, reach: Option<Reach>, samples: nat, number: int, timestamp: uint32)
    requires Telescopes(s, reach)
    requires reach.Some? ==> -HALF16 <= number - reach.value.highest < HALF16
    ensures Telescopes(Paired(s, samples, Wrap16(number), timestamp), Extended(reach, number))
  {
    if reach.Some? {
      DistanceIsDifference16(number, reach.value.highest);
    }
  }

  lemma TakeTelescopes(s: State, reach: Option<Reach>, samples: nat, h: Heard)
    requires |s.seen| == SEEN_WINDOW && Telescopes(s, reach) && Followable(s, reach, h)
    ensures Telescopes(Taken(s, samples, h.datagram), Reached(s, reach, h))
  {
    var d := h.datagram;
    if Ours(s, d) && First(s, d) {
      var o := Sized(s, d.length);
      var a := o.(seen := Arrive(s.seen, d.sequence).1,
          report := o.report.(ssrc := Some(d.ssrc), packets := s.report.packets + 1));
      PairTelescopes(Verified(a, d.sequence, d.digest), reach, samples, h.number, d.timestamp);
    }
  }

  /**
   Loss accounting over every history that stays within half the sequence range:
   missing plus examined pairs is the span from first to highest number, so
   packets plus missing is the span counted inclusively plus the reordered ones.
   */
  lemma {:induction false} LossTelescopes(s: State, reach: Option<Reach>, samples: nat, hs: seq<Heard>, datagrams: nat)
    requires |s.seen| == SEEN_WINDOW && Telescopes(s, reach) && Identities(s, datagrams)
    requires AllFollowable(s, reach, samples, hs)
    ensures var r, span := TakenAll(s, samples, Wire(hs)), ReachedAll(s, reach, samples, hs);
            && Telescopes(r, span)
            && (span.Some? ==> r.report.packets + r.report.packetsMissing
                               == span.value.highest - span.value.first + 1 + r.report.reordered)
    decreases |hs|
  {
    IdentitiesOverRuns(s, samples, Wire(hs), datagrams);
    if hs != [] {
      var d := hs[0].datagram;
      assert Wire(hs)[1..] == Wire(hs[1..]);
      TakeTelescopes(s, reach, samples, hs[0]);
      TakeKeepsIdentities(s, samples, d, datagrams);
      LossTelescopes(Taken(s, samples, d), Reached(s, reach, hs[0]), samples, hs[1..], datagrams + 1);
    }
  }

  /** Packets lost as Appendix A.3 of RFC 3550 counts them: expected less received, copies and stragglers included. */
  function LostA3(reach: Reach, received: int): int {
    reach.highest - reach.first + 1 - received
  }

  /** The probe's figure for the same thing exceeds that count by the copies and the stragglers it set apart. */
  lemma MissingAgainstA3(s: State, reach: Reach, datagrams: nat)
    requires Telescopes(s, Some(reach)) && s.previous.Some? && Identities(s, datagrams)
    ensures s.report.packetsMissing
         == LostA3(reach, s.report.packets + s.report.duplicates) + s.report.duplicates + s.report.reordered
  {
  }

  // The timestamp check

  /** The sender's clock: the timestamp of a packet of this stream is affine in its number. */
  ghost predicate Affine(s: State, base: int, samples: nat, h: Heard)
    requires |s.seen| == SEEN_WINDOW
  {
    Accepts(s, h.datagram) ==> h.datagram.timestamp == Wrap32(base + Ticks(samples, h.number))
  }

  ghost predicate AllAffine(s: State, base: int, samples: nat, hs: seq<Heard>)
    requires |s.seen| == SEEN_WINDOW
    decreases |hs|
  {
    hs != [] ==>
      Affine(s, base, samples, hs[0]) && AllAffine(Taken(s, samples, hs[0].datagram), base, samples, hs[1..])
  }

  ghost predicate InStep(s: State, reach: Option<Reach>, base: int, samples: nat) {
    && s.report.timestampExact == s.report.timestampPairs
    && (s.previous.Some? ==> reach.Some? && s.previous.value.1 == Wrap32(base + Ticks(samples, reach.value.highest)))
  }

  lemma SmallProduct(samples: nat, distance: int)
    requires samples <= 2880
    ensures distance >= 0 ==> 0 <= distance * samples <= distance * 2880
    ensures distance <= 0 ==> distance * 2880 <= distance * samples <= 0
  {
  }

  lemma StepsApart(samples: nat, number: int, highest: int, distance: int)
    requires samples <= 2880 && distance == number - highest && -HALF16 <= distance < HALF16
    ensures Ticks(samples, number) - Ticks(samples, highest) == distance * samples
    ensures -HALF32 <= distance * samples < HALF32
  {
    assert samples * number - samples * highest == distance * samples;
    SmallProduct(samples, distance);
  }

  lemma PairStaysInStep(s: State, reach: Option<Reach>, base: int, samples: nat, number: int, timestamp: uint32)
    requires Telescopes(s, reach) && InStep(s, reach, base, samples) && samples <= 2880
    requires reach.Some? ==> -HALF16 <= number - reach.value.highest < HALF16
    requires timestamp == Wrap32(base + Ticks(samples, number))
    ensures InStep(Paired(s, samples, Wrap16(number), timestamp), Extended(reach, number), base, samples)
  {
    if reach.Some? && s.previous.Some? {
      var highest := reach.value.highest;
      var distance := number - highest;
      DistanceIsDifference16(number, highest);
      StepsApart(samples, number, highest, distance);
      DistanceIsDifference32(base + Ticks(samples, number), base + Ticks(samples, highest));
    }
  }

  lemma TakeStaysInStep(s: State, reach: Option<Reach>, base: int, samples: nat, h: Heard)
    requires |s.seen| == SEEN_WINDOW && Telescopes(s, reach) && InStep(s, reach, base, samples) && samples <= 2880
    requires Followable(s, reach, h) && Affine(s, base, samples, h)
    ensures InStep(Taken(s, samples, h.datagram), Reached(s, reach, h), base, samples)
  {
    var d := h.datagram;
    if Ours(s, d) && First(s, d) {
      var o := Sized(s, d.length);
      var a := o.(seen := Arrive(s.seen, d.sequence).1,
          report := o.report.(ssrc := Some(d.ssrc), packets := s.report.packets + 1));
      PairStaysInStep(Verified(a, d.sequence, d.digest), reach, base, samples, h.number, d.timestamp);
    }
  }

  /**
   The timestamp check is the sender's alone: when its clock is affine in the
   packet number, every loss, copy and reordering within half the sequence range
   leaves every pair exact, through both wraps.
   */
  lemma {:induction false} NetworkCannotBreakTimestamps(
    s: State, reach: Option<Reach>, base: int, samples: nat, hs: seq<Heard>)
    requires |s.seen| == SEEN_WINDOW && Telescopes(s, reach) && InStep(s, reach, base, samples) && samples <= 2880
    requires AllFollowable(s, reach, samples, hs) && AllAffine(s, base, samples, hs)
    ensures var r := TakenAll(s, samples, Wire(hs)).report; r.timestampExact == r.timestampPairs
    decreases |hs|
  {
    if hs != [] {
      var d := hs[0].datagram;
      assert Wire(hs)[1..] == Wire(hs[1..]);
      TakeTelescopes(s, reach, samples, hs[0]);
      TakeStaysInStep(s, reach, base, samples, hs[0]);
      NetworkCannotBreakTimestamps(Taken(s, samples, d), Reached(s, reach, hs[0]), base, samples, hs[1..]);
    }
  }

  /** Both theorems hold of every receiver from its start. */
  lemma StartsInStep(wanted: Option<uint32>, ledger: Option<Entries>, base: int, samples: nat)
    ensures var s := Initial(wanted, ledger);
            Telescopes(s, None) && InStep(s, None, base, samples) && s.seen == After(SEEN_WINDOW, [])
  {
  }

  // Copies

  function Elements(numbers: seq<int>): set<int> {
    set n | n in numbers
  }

  /** Arrivals stay within a window of the newest, and no slot waits a whole 16-bit cycle. */
  ghost predicate Steady(history: seq<int>, numbers: seq<int>)
    decreases |numbers|
  {
    numbers != [] ==>
      && InWindow(SEEN_WINDOW, history + [numbers[0]])
      && !Stale(SEEN_WINDOW, history, numbers[0])
      && Steady(history + [numbers[0]], numbers[1..])
  }

  predicate From(ssrc: uint32, d: Datagram) {
    d.Opus? && d.ssrc == ssrc
  }

  /** The numbers of one stream's packets, whatever else came in between. */
  function NumbersFrom(ssrc: uint32, hs: seq<Heard>): (numbers: seq<int>) {
    if hs == [] then []
    else (if From(ssrc, hs[0].datagram) then [hs[0].number] else []) + NumbersFrom(ssrc, hs[1..])
  }

  lemma AcceptTouches(s: State, samples: nat, d: Datagram)
    requires d.Opus?
    ensures var r := Accepted(s, samples, d);
            && r.seen == s.seen && r.report.ssrc == s.report.ssrc
            && r.report.packets == s.report.packets + 1 && r.report.duplicates == s.report.duplicates
  {
  }

  /** What taking a datagram of this stream does to the two counts, told by the ring. */
  lemma TakeOurs(s: State, samples: nat, d: Datagram)
    requires |s.seen| == SEEN_WINDOW && Ours(s, d)
    ensures var r, first := Taken(s, samples, d), First(s, d);
            && r.seen == Arrive(s.seen, d.sequence).1
            && r.report.ssrc == Some(d.ssrc)
            && r.report.packets == s.report.packets + (if first then 1 else 0)
            && r.report.duplicates == s.report.duplicates + (if first then 0 else 1)
  {
    if First(s, d) {
      var o := Sized(s, d.length);
      var a := o.(seen := Arrive(s.seen, d.sequence).1, report := o.report.(ssrc := Some(d.ssrc)));
      AcceptTouches(a, samples, d);
    }
  }

  lemma TakeCountsDistinct(s: State, samples: nat, h: Heard, history: seq<int>)
    requires s.seen == After(SEEN_WINDOW, history)
    requires Ours(s, h.datagram) && h.datagram.sequence == Wrap16(h.number)
    requires InWindow(SEEN_WINDOW, history + [h.number]) && !Stale(SEEN_WINDOW, history, h.number)
    ensures var r := Taken(s, samples, h.datagram);
            && r.seen == After(SEEN_WINDOW, history + [h.number])
            && r.report.ssrc == Some(h.datagram.ssrc)
            && r.report.packets == s.report.packets + (if h.number in history then 0 else 1)
            && r.report.duplicates == s.report.duplicates + (if h.number in history then 1 else 0)
  {
    TakeOurs(s, samples, h.datagram);
    FreshExactly(SEEN_WINDOW, history, h.number);
    var more := history + [h.number];
    assert more[..|more| - 1] == history;
  }

  lemma FirstNumber(ssrc: uint32, history: seq<int>, hs: seq<Heard>)
    requires hs != [] && From(ssrc, hs[0].datagram)
    ensures NumbersFrom(ssrc, hs) != [] && NumbersFrom(ssrc, hs)[0] == hs[0].number
    ensures NumbersFrom(ssrc, hs)[1..] == NumbersFrom(ssrc, hs[1..])
    ensures history + NumbersFrom(ssrc, hs) == history + [hs[0].number] + NumbersFrom(ssrc, hs[1..])
  {
  }

  /** The stream the probe expects, or with none expected the first it will hear. */
  ghost predicate Tunes(expected: Option<uint32>, ssrc: uint32, ds: seq<Datagram>)
    decreases |ds|
  {
    match expected
    case Some(found) => found == ssrc
    case None => ds != [] ==> if ds[0].Opus? then ds[0].ssrc == ssrc else Tunes(expected, ssrc, ds[1..])
  }

  /** Anything else on the port leaves the stream's two counts and the ring alone. */
  lemma OthersAreSkipped(s: State, samples: nat, d: Datagram, ssrc: uint32)
    requires |s.seen| == SEEN_WINDOW && !From(ssrc, d) && (s.report.ssrc == Some(ssrc) || !d.Opus?)
    ensures var r := Taken(s, samples, d);
            && r.seen == s.seen && r.report.ssrc == s.report.ssrc
            && r.report.packets == s.report.packets && r.report.duplicates == s.report.duplicates
  {
  }

  lemma OneMoreElement(history: seq<int>, n: int)
    ensures |Elements(history + [n])| == |Elements(history)| + (if n in history then 0 else 1)
  {
    assert Elements(history + [n]) == Elements(history) + {n};
    assert n in history <==> n in Elements(history);
  }

  /**
   Of the one stream the probe expects or first hears, if steady, whatever else the port
   hears, the packets counted are the distinct ones and the duplicates all the rest.
   */
  lemma {:induction false} PacketsAreDistinct(s: State, samples: nat, hs: seq<Heard>, history: seq<int>, ssrc: uint32)
    requires s.seen == After(SEEN_WINDOW, history) && Steady(history, NumbersFrom(ssrc, hs))
    requires Tunes(s.report.ssrc, ssrc, Wire(hs))
    requires forall i | 0 <= i < |hs| :: From(ssrc, hs[i].datagram) ==> hs[i].datagram.sequence == Wrap16(hs[i].number)
    ensures var r, numbers := TakenAll(s, samples, Wire(hs)).report, NumbersFrom(ssrc, hs);
            && r.packets - s.report.packets == |Elements(history + numbers)| - |Elements(history)|
            && r.packets + r.duplicates == s.report.packets + s.report.duplicates + |numbers|
    decreases |hs|
  {
    if hs == [] {
      assert history + NumbersFrom(ssrc, hs) == history;
    } else {
      var d, n, more := hs[0].datagram, hs[0].number, history + [hs[0].number];
      assert Wire(hs)[1..] == Wire(hs[1..]);
      if From(ssrc, d) {
        FirstNumber(ssrc, history, hs);
        OneMoreElement(history, n);
        TakeCountsDistinct(s, samples, hs[0], history);
        PacketsAreDistinct(Taken(s, samples, d), samples, hs[1..], more, ssrc);
      } else {
        OthersAreSkipped(s, samples, d, ssrc);
        assert NumbersFrom(ssrc, hs) == NumbersFrom(ssrc, hs[1..]);
        PacketsAreDistinct(Taken(s, samples, d), samples, hs[1..], history, ssrc);
      }
    }
  }
}
