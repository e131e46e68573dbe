/**
 The packet probe with both halves in one process: a sender that records each
 payload's digest before it leaves, and a receiver that checks what arrives,
 interleaved in any way.
 */
module VerificationRuns {
  import opened Wrappers
  import opened Wrap
  import opened SeenWindows
  import opened RtpProbe

  /** One turn of either half; a datagram heard comes with the number of the packet it is said to be. */
  datatype Turn = Sends(digest: Digest) | Hears(datagram: Datagram, k: int)

  /** The receiver, every digest recorded so far, and the numbers whose entries the ledger still holds. */
  datatype Bench = Bench(state: State, sent: seq<Digest>, live: seq<int>)

  function Held(b: Bench): Entries
    requires b.state.ledger.Some?
  {
    b.state.ledger.value
  }

  /** Packet `k` of the stream carries the start's sequence number plus `k`. */
  function Number(base: int, k: int): uint16 {
    Wrap16(base + k)
  }

  function Added(live: seq<int>, n: int): seq<int> {
    (if |live| == VERIFY_WINDOW then live[1..] else live) + [n]
  }

  function Removed(live: seq<int>, position: nat): seq<int> {
    if position < |live| then live[..position] + live[position + 1..] else live
  }

  function Next(b: Bench, base: int, samples: nat, turn: Turn): (r: Bench)
    requires |b.state.seen| == SEEN_WINDOW && b.state.ledger.Some?
    ensures |r.state.seen| == SEEN_WINDOW
  {
    match turn
    case Sends(digest) =>
      var entries := Recorded(Held(b), Number(base, |b.sent|), digest);
      Bench(b.state.(ledger := Some(entries)), b.sent + [digest], Added(b.live, |b.sent|))
    case Hears(d, k) =>
      b.(state := Taken(b.state, samples, d),
         live := if Accepts(b.state, d) then Removed(b.live, PositionFrom(Held(b), d.sequence, 0)) else b.live)
  }

  /** The ledger holds, in order, what was sent under the live numbers. */
  ghost predicate Mirrors(entries: Entries, base: int, sent: seq<Digest>, live: seq<int>) {
    && |entries| == |live|
    && forall i | 0 <= i < |live| :: 0 <= live[i] < |sent| && entries[i] == (Number(base, live[i]), sent[live[i]])
  }

  ghost predicate Standing(b: Bench, base: int) {
    && |b.state.seen| == SEEN_WINDOW
    && b.state.ledger.Some? && b.state.report.verification.Digests?
    && Mirrors(Held(b), base, b.sent, b.live)
  }

  /** A turn in which a packet is accepted, and so checked. */
  predicate Heeds(b: Bench, turn: Turn)
    requires |b.state.seen| == SEEN_WINDOW
  {
    turn.Hears? && Accepts(b.state, turn.datagram)
  }

  /** An accepted datagram is one that was sent, unharmed. */
  ghost predicate Intact(b: Bench, base: int, turn: Turn)
    requires |b.state.seen| == SEEN_WINDOW
  {
    Heeds(b, turn) ==>
      && 0 <= turn.k < |b.sent|
      && turn.datagram.sequence == Number(base, turn.k)
      && turn.datagram.digest == b.sent[turn.k]
  }

  lemma SameNumber(base: int, j: int, k: int)
    ensures Number(base, j) == Number(base, k) <==> (j - k) % MOD16 == 0
  {
  }

  /** The first live number, at or after `i`, that the 16-bit counter cannot tell from `k`. */
  function Alike(live: seq<int>, k: int, i: nat): (r: nat)
    requires i <= |live|
    ensures i <= r <= |live|
    ensures r < |live| ==> (live[r] - k) % MOD16 == 0
    ensures forall j | i <= j < r :: (live[j] - k) % MOD16 != 0
    decreases |live| - i
  {
    if i == |live| || (live[i] - k) % MOD16 == 0 then i else Alike(live, k, i + 1)
  }

  /** The first of them was sent with another payload than `k` was. */
  ghost predicate Clash(live: seq<int>, sent: seq<Digest>, k: int)
    requires 0 <= k < |sent| && forall i | 0 <= i < |live| :: 0 <= live[i] < |sent|
  {
    var first := Alike(live, k, 0);
    first < |live| && sent[live[first]] != sent[k]
  }

  /**
   What a claim of an intact payload is answered, exactly: nothing if no entry left
   has its number, a mismatch if the first that has clashes, and otherwise a match.
   */
  lemma ClaimExactly(entries: Entries, base: int, sent: seq<Digest>, live: seq<int>, k: int)
    requires Mirrors(entries, base, sent, live) && 0 <= k < |sent|
    ensures var (rest, outcome) := Checked(entries, Number(base, k), sent[k]);
            && (outcome == Some(false) <==> Clash(live, sent, k))
            && (outcome == None <==> forall i | 0 <= i < |live| :: (live[i] - k) % MOD16 != 0)
            && Mirrors(rest, base, sent, Removed(live, PositionFrom(entries, Number(base, k), 0)))
  {
    var found := PositionFrom(entries, Number(base, k), 0);
    forall i | 0 <= i < |live|
      ensures entries[i].0 == Number(base, k) <==> (live[i] - k) % MOD16 == 0
    {
      SameNumber(base, live[i], k);
    }
    assert found == Alike(live, k, 0);
  }

  lemma RecordMirrors(entries: Entries, base: int, sent: seq<Digest>, live: seq<int>, digest: Digest)
    requires Mirrors(entries, base, sent, live)
    ensures Mirrors(Recorded(entries, Number(base, |sent|), digest), base, sent + [digest], Added(live, |sent|))
  {
  }

  /** What taking a datagram does to the ledger and the verdicts. */
  lemma TakenChecks(s: State, samples: nat, d: Datagram)
    requires |s.seen| == SEEN_WINDOW && s.ledger.Some?
    ensures var r := Taken(s, samples, d);
            if Accepts(s, d) then
              var (rest, outcome) := Checked(s.ledger.value, d.sequence, d.digest);
              r.ledger == Some(rest) && r.report.verification == s.report.verification.Record(outcome)
            else r.ledger == s.ledger && r.report.verification == s.report.verification
  {
    if Accepts(s, d) {
      var o := Sized(s, d.length);
      var a := o.(seen := Arrive(s.seen, d.sequence).1,
          report := o.report.(ssrc := Some(d.ssrc), packets := s.report.packets + 1));
      PairPlaces(Verified(a, d.sequence, d.digest), samples, d.sequence, d.timestamp);
    }
  }

  /** One in which it clashes with what the ledger still holds. */
  ghost predicate Clashes(b: Bench, base: int, turn: Turn)
    requires Standing(b, base) && Intact(b, base, turn)
  {
    Heeds(b, turn) && Clash(b.live, b.sent, turn.k)
  }

  /** One in which the ledger holds nothing to compare it with. */
  ghost predicate Aged(b: Bench, turn: Turn)
    requires |b.state.seen| == SEEN_WINDOW
  {
    Heeds(b, turn) && forall i | 0 <= i < |b.live| :: (b.live[i] - turn.k) % MOD16 != 0
  }

  /** The three verdicts after a turn that clashed, that found nothing, or neither. */
  ghost predicate Judged(v: Verification, w: Verification, heeds: bool, clashes: bool, aged: bool) {
    && v.Digests? && w.Digests?
    && w.mismatched == v.mismatched + (if clashes then 1 else 0)
    && w.unverifiable == v.unverifiable + (if aged then 1 else 0)
    && w.verified == v.verified + (if heeds && !clashes && !aged then 1 else 0)
  }

  lemma ClaimIsJudged(v: Verification, entries: Entries, base: int, sent: seq<Digest>, live: seq<int>, k: int)
    requires v.Digests? && Mirrors(entries, base, sent, live) && 0 <= k < |sent|
    ensures var (rest, outcome) := Checked(entries, Number(base, k), sent[k]);
            && Mirrors(rest, base, sent, Removed(live, PositionFrom(entries, Number(base, k), 0)))
            && Judged(v, v.Record(outcome), true, Clash(live, sent, k),
                      forall i | 0 <= i < |live| :: (live[i] - k) % MOD16 != 0)
  {
    ClaimExactly(entries, base, sent, live, k);
  }

  /**
   A record or an arrival keeps the ledger a mirror of what was sent, and each verdict
   is exactly what it should be.
   */
  lemma TurnStands(b: Bench, base: int, samples: nat, turn: Turn)
    requires Standing(b, base) && Intact(b, base, turn)
    ensures var r, v := Next(b, base, samples, turn), b.state.report.verification;
            && Standing(r, base)
            && Judged(v, r.state.report.verification, Heeds(b, turn), Clashes(b, base, turn), Aged(b, turn))
  {
    match turn
    case Sends(digest) => RecordMirrors(Held(b), base, b.sent, b.live, digest);
    case Hears(d, k) =>
      TakenChecks(b.state, samples, d);
      if Accepts(b.state, d) {
        ClaimIsJudged(b.state.report.verification, Held(b), base, b.sent, b.live, k);
      }
  }

  lemma NextHasLedger(b: Bench, base: int, samples: nat, turn: Turn)
    requires |b.state.seen| == SEEN_WINDOW && b.state.ledger.Some?
    ensures Next(b, base, samples, turn).state.ledger.Some?
  {
    if turn.Hears? {
      TakenChecks(b.state, samples, turn.datagram);
    }
  }

  ghost function After(b: Bench, base: int, samples: nat, turns: seq<Turn>): Bench
    requires |b.state.seen| == SEEN_WINDOW && b.state.ledger.Some?
    decreases |turns|
  {
    if turns == [] then b
    else
      NextHasLedger(b, base, samples, turns[0]);
      After(Next(b, base, samples, turns[0]), base, samples, turns[1..])
  }

  /** Every accepted datagram was sent and arrives unharmed. */
  ghost predicate AllUnharmed(b: Bench, base: int, samples: nat, turns: seq<Turn>)
    requires |b.state.seen| == SEEN_WINDOW && b.state.ledger.Some?
    decreases |turns|
  {
    turns != [] ==>
      && Intact(b, base, turns[0])
      && (NextHasLedger(b, base, samples, turns[0]);
          AllUnharmed(Next(b, base, samples, turns[0]), base, samples, turns[1..]))
  }

  /** How many accepted arrivals clash over a run. */
  ghost function ClashesIn(b: Bench, base: int, samples: nat, turns: seq<Turn>): nat
    requires Standing(b, base) && AllUnharmed(b, base, samples, turns)
    decreases |turns|
  {
    if turns == [] then 0
    else
      TurnStands(b, base, samples, turns[0]);
      (if Clashes(b, base, turns[0]) then 1 else 0)
      + ClashesIn(Next(b, base, samples, turns[0]), base, samples, turns[1..])
  }

  /**
   Over every interleaving of records and arrivals, with any loss, copies and
   reordering and however long the stream: what is reported as mismatched of payloads
   that all arrive unharmed is exactly the arrivals that clash.
   */
  lemma {:induction false} MismatchesAreClashes(b: Bench, base: int, samples: nat, turns: seq<Turn>)
    requires Standing(b, base) && AllUnharmed(b, base, samples, turns)
    ensures var r := After(b, base, samples, turns);
            && Standing(r, base)
            && r.state.report.verification.mismatched
               == b.state.report.verification.mismatched + ClashesIn(b, base, samples, turns)
    decreases |turns|
  {
    if turns != [] {
      TurnStands(b, base, samples, turns[0]);
      MismatchesAreClashes(Next(b, base, samples, turns[0]), base, samples, turns[1..]);
    }
  }

  // Runs with no clash

  /** No entry left belongs to another turn of the 16-bit counter than `k` does. */
  ghost predicate WithinCycle(live: seq<int>, k: int) {
    forall i | 0 <= i < |live| :: -MOD16 < live[i] - k < MOD16
  }

  lemma NoClashWithin(live: seq<int>, sent: seq<Digest>, k: int)
    requires 0 <= k < |sent| && (forall i | 0 <= i < |live| :: 0 <= live[i] < |sent|) && WithinCycle(live, k)
    ensures !Clash(live, sent, k)
  {
    var first := Alike(live, k, 0);
    assert first < |live| ==> live[first] == k;
  }

  /** Every accepted arrival comes while the entries left are of its own cycle. */
  ghost predicate AllWithin(b: Bench, base: int, samples: nat, turns: seq<Turn>)
    requires |b.state.seen| == SEEN_WINDOW && b.state.ledger.Some?
    decreases |turns|
  {
    turns != [] ==>
      && (Heeds(b, turns[0]) ==> WithinCycle(b.live, turns[0].k))
      && (NextHasLedger(b, base, samples, turns[0]);
          AllWithin(Next(b, base, samples, turns[0]), base, samples, turns[1..]))
  }

  /** So while the entries left are of the arriving packet's own cycle, nothing unharmed is reported as mismatched. */
  lemma {:induction false} IntactIsNeverMismatched(b: Bench, base: int, samples: nat, turns: seq<Turn>)
    requires Standing(b, base) && AllUnharmed(b, base, samples, turns) && AllWithin(b, base, samples, turns)
    ensures ClashesIn(b, base, samples, turns) == 0
    ensures After(b, base, samples, turns).state.report.verification.Digests?
    ensures After(b, base, samples, turns).state.report.verification.mismatched
         == b.state.report.verification.mismatched
    decreases |turns|
  {
    MismatchesAreClashes(b, base, samples, turns);
    if turns != [] {
      TurnStands(b, base, samples, turns[0]);
      if Heeds(b, turns[0]) {
        NoClashWithin(b.live, b.sent, turns[0].k);
      }
      IntactIsNeverMismatched(Next(b, base, samples, turns[0]), base, samples, turns[1..]);
    }
  }

  function SendsIn(turns: seq<Turn>): nat {
    if turns == [] then 0 else (if turns[0].Sends? then 1 else 0) + SendsIn(turns[1..])
  }

  lemma {:induction false} OneCycleIsEnough(b: Bench, base: int, samples: nat, turns: seq<Turn>)
    requires Standing(b, base) && AllUnharmed(b, base, samples, turns) && |b.sent| + SendsIn(turns) <= MOD16
    ensures AllWithin(b, base, samples, turns)
    decreases |turns|
  {
    if turns != [] {
      TurnStands(b, base, samples, turns[0]);
      OneCycleIsEnough(Next(b, base, samples, turns[0]), base, samples, turns[1..]);
    }
  }

  /** Over any run of at most 2^16 packets, from the start, nothing unharmed is reported as mismatched. */
  lemma OneCycleVerifies(start: Bench, wanted: Option<uint32>, base: int, samples: nat, turns: seq<Turn>)
    requires start == Bench(Initial(wanted, Some([])), [], [])
    requires AllUnharmed(start, base, samples, turns) && SendsIn(turns) <= MOD16
    ensures After(start, base, samples, turns).state.report.verification.Digests?
    ensures After(start, base, samples, turns).state.report.verification.mismatched == 0
  {
    OneCycleIsEnough(start, base, samples, turns);
    IntactIsNeverMismatched(start, base, samples, turns);
  }
}
