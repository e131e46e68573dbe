/**
 The capturing sender: each captured packet split into whole frames, each frame
 encoded, written and handed to the socket, and every stage counted at its own
 boundary. The encoder and the socket are outcomes given from outside.
 */
module Sender {
  import opened Wrappers
  import opened Wrap
  import opened Grid
  import P = Packetizer
  import B = SlotBuffer

  /** One interleaved sample, as the engine wrote it. */
  type Sample = int

  const FIXED_HEADER_LEN := 12

  datatype Split = Split(frames: nat, residue: nat)

  /** Whole frames in a captured packet, and what is left at its end. */
  function SplitPacket(packetFrames: nat, frameSamples: nat): (r: Split)
    ensures frameSamples > 0 ==> packetFrames == r.frames * frameSamples + r.residue && r.residue < frameSamples
    ensures frameSamples == 0 ==> r == Split(0, packetFrames)
  {
    if frameSamples == 0 then Split(0, packetFrames)
    else Split(packetFrames / frameSamples, packetFrames % frameSamples)
  }

  datatype Setup = Setup(frameSamples: uint32, channels: nat, start: P.Counters) {
    predicate Valid() {
      frameSamples > 0 && channels > 0
    }

    function Interleaved(): nat {
      frameSamples * channels
    }
  }

  /** A captured packet; its bytes are the samples they read as, or nothing when they read as none. */
  datatype Captured = Captured(frames: nat, silent: bool, samples: Option<seq<Sample>>) {
    /** The endpoint hands over at least as many samples as the frames it describes. */
    predicate Described(s: Setup) {
      !silent && samples.Some? ==> |samples.value| >= frames * s.channels
    }

    function Readable(): bool {
      silent || samples.Some?
    }
  }

  /** What became of one frame: what the encoder produced, and whether the socket took it. */
  datatype Attempt = Attempt(encoded: Option<seq<uint8>>, accepted: bool)

  datatype Counts = Counts(
    framesEncoded: nat, datagramsSent: nat, datagramBytes: nat, residueFrames: nat, unreadablePackets: nat,
    encodeFailures: nat, sendFailures: nat, timestampSteps: nat, timestampStepsExact: nat)

  /**
   `captured` is the endpoint's own count of frames. The last four fields are
   history: frames of unreadable packets, what the encoder was handed, what the
   socket took, and how many datagrams had been written before each of those.
   */
  datatype State = State(
    counts: Counts, captured: nat, counters: P.Counters,
    unreadableFrames: nat, inputs: seq<seq<Sample>>, wire: seq<B.Packet>, places: seq<nat>)

  function Initial(s: Setup): State {
    State(Counts(0, 0, 0, 0, 0, 0, 0, 0, 0), 0, s.start, 0, [], [], [])
  }

  function Silence(s: Setup): (frame: seq<Sample>)
    ensures |frame| == s.Interleaved()
  {
    seq(s.Interleaved(), _ => 0)
  }

  /** The frame at `index` of a packet, or silence when the packet's bytes are not to be read. */
  function FrameAt(s: Setup, source: Option<seq<Sample>>, index: nat): (frame: seq<Sample>)
    requires source.Some? ==> (index + 1) * s.Interleaved() <= |source.value|
    ensures |frame| == s.Interleaved()
  {
    match source
    case None => Silence(s)
    case Some(samples) =>
      assert (index + 1) * s.Interleaved() == index * s.Interleaved() + s.Interleaved();
      assert index * s.Interleaved() >= 0;
      samples[index * s.Interleaved()..index * s.Interleaved() + s.Interleaved()]
  }

  function Sent(st: State, s: Setup, written: P.Written, accepted: bool): State {
    match written
    case Refused(_) => st.(counts := st.counts.(sendFailures := st.counts.sendFailures + 1))
    case Written(packet, after) =>
      var advance := Wrap32(after.timestamp - st.counters.timestamp);
      var c := st.counts.(
        timestampSteps := st.counts.timestampSteps + 1,
        timestampStepsExact := st.counts.timestampStepsExact + (if advance == s.frameSamples then 1 else 0));
      if accepted then
        st.(counters := after, wire := st.wire + [packet], places := st.places + [st.counts.timestampSteps],
            counts := c.(datagramsSent := c.datagramsSent + 1,
                         datagramBytes := c.datagramBytes + FIXED_HEADER_LEN + |packet.payload|))
      else
        st.(counters := after, counts := c.(sendFailures := c.sendFailures + 1))
  }

  function Attempted(st: State, s: Setup, frame: seq<Sample>, a: Attempt): State {
    var h := st.(inputs := st.inputs + [frame]);
    match a.encoded
    case None => h.(counts := h.counts.(encodeFailures := h.counts.encodeFailures + 1))
    case Some(payload) =>
      var e := h.(counts := h.counts.(framesEncoded := h.counts.framesEncoded + 1));
      Sent(e, s, P.Write(e.counters, payload, s.frameSamples), a.accepted)
  }

  /** One attempt for each frame from `index` on. */
  function AttemptedFrom(st: State, s: Setup, frames: seq<seq<Sample>>, attempts: seq<Attempt>, index: nat): State
    requires index <= |attempts| == |frames|
    decreases |attempts| - index
  {
    if index == |attempts| then st
    else AttemptedFrom(Attempted(st, s, frames[index], attempts[index]), s, frames, attempts, index + 1)
  }

  /** Every slice taken of a packet is inside it. */
  lemma WithinPacket(s: Setup, source: Option<seq<Sample>>, frames: nat, index: nat)
    requires index < frames && (source.Some? ==> frames * s.Interleaved() <= |source.value|)
    ensures source.Some? ==> (index + 1) * s.Interleaved() <= |source.value|
  {
  }

  /** The first frames of a packet, in order. */
  function FramesOf(s: Setup, source: Option<seq<Sample>>, frames: nat): (r: seq<seq<Sample>>)
    requires source.Some? ==> frames * s.Interleaved() <= |source.value|
    ensures |r| == frames
  {
    seq(frames, i requires 0 <= i < frames => (WithinPacket(s, source, frames, i); FrameAt(s, source, i)))
  }

  lemma WholeFramesFit(s: Setup, packet: Captured)
    requires s.Valid() && packet.Described(s)
    ensures !packet.silent && packet.samples.Some? ==>
      SplitPacket(packet.frames, s.frameSamples).frames * s.Interleaved() <= |packet.samples.value|
  {
  }

  function Carried(st: State, s: Setup, packet: Captured, attempts: seq<Attempt>): State
    requires s.Valid() && packet.Described(s)
    requires |attempts| == SplitPacket(packet.frames, s.frameSamples).frames
  {
    WholeFramesFit(s, packet);
    var c := st.(captured := st.captured + packet.frames);
    if !packet.Readable() then
      c.(counts := c.counts.(unreadablePackets := c.counts.unreadablePackets + 1),
         unreadableFrames := c.unreadableFrames + packet.frames)
    else
      var split := SplitPacket(packet.frames, s.frameSamples);
      var r := c.(counts := c.counts.(residueFrames := c.counts.residueFrames + split.residue));
      var frames := FramesOf(s, if packet.silent then None else packet.samples, split.frames);
      AttemptedFrom(r, s, frames, attempts, 0)
  }

  class Carrier {
    const setup: Setup
    const packetizer: P.OpusPacketizer
    var counts: Counts
    var captured: nat
    ghost var unreadableFrames: nat
    ghost var inputs: seq<seq<Sample>>
    ghost var wire: seq<B.Packet>
    ghost var places: seq<nat>

    ghost function Contents(): State
      reads this, packetizer
    {
      State(counts, captured, packetizer.counters, unreadableFrames, inputs, wire, places)
    }

    constructor (setup: Setup)
      requires setup.Valid()
      ensures this.setup == setup && fresh(packetizer) && Contents() == Initial(setup)
    {
      this.setup := setup;
      packetizer := new P.OpusPacketizer(setup.start.sequence, setup.start.timestamp);
      counts := Counts(0, 0, 0, 0, 0, 0, 0, 0, 0);
      captured := 0;
      unreadableFrames := 0;
      inputs := [];
      wire := [];
      places := [];
    }

    /** A whole packet through every stage, or given up at the first if its bytes cannot be read. */
    method Carry(packet: Captured, attempts: seq<Attempt>)
      requires setup.Valid() && packet.Described(setup)
      requires |attempts| == SplitPacket(packet.frames, setup.frameSamples).frames
      modifies this, packetizer
      ensures Contents() == Carried(old(Contents()), setup, packet, attempts)
    {
      WholeFramesFit(setup, packet);
      captured := captured + packet.frames;
      if !packet.silent && packet.samples.None? {
        counts := counts.(unreadablePackets := counts.unreadablePackets + 1);
        unreadableFrames := unreadableFrames + packet.frames;
        return;
      }
      var source := if packet.silent then None else packet.samples;
      var divided := SplitPacket(packet.frames, setup.frameSamples);
      counts := counts.(residueFrames := counts.residueFrames + divided.residue);
      ghost var frames := FramesOf(setup, source, divided.frames);
      ghost var whole := AttemptedFrom(Contents(), setup, frames, attempts, 0);
      for index := 0 to divided.frames
        invariant AttemptedFrom(Contents(), setup, frames, attempts, index) == whole
      {
        WithinPacket(setup, source, divided.frames, index);
        CarryFrame(FrameAt(setup, source, index), attempts[index]);
      }
    }

    method CarryFrame(frame: seq<Sample>, attempt: Attempt)
      modifies this, packetizer
      ensures Contents() == Attempted(old(Contents()), setup, frame, attempt)
    {
      inputs := inputs + [frame];
      if attempt.encoded.None? {
        counts := counts.(encodeFailures := counts.encodeFailures + 1);
        return;
      }
      counts := counts.(framesEncoded := counts.framesEncoded + 1);
      ghost var encoded := Contents();
      var before := packetizer.counters.timestamp;
      var written := packetizer.Next(attempt.encoded.value, setup.frameSamples);
      match written {
        case Refused(_) => counts := counts.(sendFailures := counts.sendFailures + 1);
        case Written(datagram, _) =>
          var advance := Wrap32(packetizer.counters.timestamp - before);
          ghost var place := counts.timestampSteps;
          counts := counts.(timestampSteps := counts.timestampSteps + 1);
          if advance == setup.frameSamples {
            counts := counts.(timestampStepsExact := counts.timestampStepsExact + 1);
          }
          if attempt.accepted {
            counts := counts.(datagramsSent := counts.datagramsSent + 1,
                              datagramBytes := counts.datagramBytes + FIXED_HEADER_LEN + |datagram.payload|);
            wire := wire + [datagram];
            places := places + [place];
          } else {
            counts := counts.(sendFailures := counts.sendFailures + 1);
          }
      }
      assert Contents() == Sent(encoded, setup, written, attempt.accepted);
    }
  }

  // Conservation over every run

  /** A datagram of this stream: the start's counters plus however many were written before it. */
  ghost predicate OnClock(s: Setup, packet: B.Packet, written: nat) {
    && packet.sequence == Wrap16(s.start.sequence + written)
    && packet.timestamp == Wrap32(s.start.timestamp + Ticks(s.frameSamples, written))
  }

  /** The counts past the split agree with each other, with the RTP counter and with what was handed over. */
  ghost predicate Carries(st: State, s: Setup) {
    var c := st.counts;
    && c.framesEncoded == c.datagramsSent + c.sendFailures
    && st.counters == P.CountersAt(s.start, s.frameSamples, c.timestampSteps)
    && c.timestampStepsExact == c.timestampSteps
    && c.datagramsSent <= c.timestampSteps <= c.framesEncoded
    && |st.inputs| == c.framesEncoded + c.encodeFailures
    && |st.wire| == c.datagramsSent
  }

  ghost predicate Conserves(st: State, s: Setup) {
    var c := st.counts;
    && st.captured == Ticks(s.frameSamples, c.framesEncoded + c.encodeFailures) + c.residueFrames + st.unreadableFrames
    && Carries(st, s)
  }

  /** Every datagram the socket took carries its own place in the stream, in order, through both wraps. */
  ghost predicate Clocked(st: State, s: Setup) {
    && st.counters == P.CountersAt(s.start, s.frameSamples, st.counts.timestampSteps)
    && |st.places| == |st.wire|
    && (forall i | 0 <= i < |st.wire| ::
          st.places[i] < st.counts.timestampSteps && OnClock(s, st.wire[i], st.places[i]))
    && (forall i, j | 0 <= i < j < |st.places| :: st.places[i] < st.places[j])
  }

  lemma InitialConserves(s: Setup)
    requires s.Valid()
    ensures Conserves(Initial(s), s) && Clocked(Initial(s), s)
  {
  }

  /** Conserved but for `frames` of the packet not yet attempted. */
  ghost predicate Owes(st: State, s: Setup, frames: nat) {
    var c := st.counts;
    && st.captured == Ticks(s.frameSamples, c.framesEncoded + c.encodeFailures) + Ticks(s.frameSamples, frames)
                      + c.residueFrames + st.unreadableFrames
    && Carries(st, s)
  }

  lemma AdvanceWraps(before: int, step: uint32, after: int, a: uint32, b: uint32)
    requires after == before + step && a == Wrap32(after) && b == Wrap32(before)
    ensures Wrap32(a - b) == step
  {
    assert a == after - after / MOD32 * MOD32 && b == before - before / MOD32 * MOD32;
  }

  /**
   The advance is measured and not trusted: whatever a write did to the counter, a step
   counts as exact if and only if it moved the sample clock by exactly a frame.
   */
  lemma AdvanceIsChecked(st: State, s: Setup, written: P.Written, accepted: bool, before: int, after: int)
    requires written.Written? && st.counters.timestamp == Wrap32(before) && written.after.timestamp == Wrap32(after)
    requires before <= after < before + MOD32
    ensures var c, d := st.counts, Sent(st, s, written, accepted).counts;
            && d.timestampSteps == c.timestampSteps + 1
            && d.timestampStepsExact
               == c.timestampStepsExact + (if after - before == s.frameSamples then 1 else 0)
  {
    var advance: uint32 := after - before;
    AdvanceWraps(before, advance, after, written.after.timestamp, st.counters.timestamp);
  }

  lemma AdvanceIsExact(s: Setup, written: nat, payload: seq<uint8>)
    requires P.Write(P.CountersAt(s.start, s.frameSamples, written), payload, s.frameSamples).Written?
    ensures var c := P.CountersAt(s.start, s.frameSamples, written);
            var w := P.Write(c, payload, s.frameSamples);
            && w.after == P.CountersAt(s.start, s.frameSamples, written + 1)
            && Wrap32(w.after.timestamp - c.timestamp) == s.frameSamples
  {
    P.StampsAreAffine(s.start, s.frameSamples, written, payload);
    var step, next := s.frameSamples, written + 1;
    TicksNext(step, written, next);
    var before, after := s.start.timestamp + Ticks(step, written), s.start.timestamp + Ticks(step, next);
    AdvanceWraps(before, step, after, P.CountersAt(s.start, step, next).timestamp,
        P.CountersAt(s.start, step, written).timestamp);
  }

  lemma SendingConserves(st: State, s: Setup, payload: seq<uint8>, accepted: bool)
    requires st.counters == P.CountersAt(s.start, s.frameSamples, st.counts.timestampSteps)
    requires st.counts.timestampStepsExact == st.counts.timestampSteps
    ensures var r := Sent(st, s, P.Write(st.counters, payload, s.frameSamples), accepted);
            && r.counters == P.CountersAt(s.start, s.frameSamples, r.counts.timestampSteps)
            && r.counts.timestampStepsExact == r.counts.timestampSteps
            && r.counts.datagramsSent + r.counts.sendFailures == st.counts.datagramsSent + st.counts.sendFailures + 1
            && |r.wire| - |st.wire| == r.counts.datagramsSent - st.counts.datagramsSent
            && 0 <= r.counts.datagramsSent - st.counts.datagramsSent
            && r.counts.datagramsSent - st.counts.datagramsSent <= r.counts.timestampSteps - st.counts.timestampSteps
                <= 1
            && r == st.(counters := r.counters, wire := r.wire, places := r.places,
                        counts := st.counts.(timestampSteps := r.counts.timestampSteps,
                                             timestampStepsExact := r.counts.timestampStepsExact,
                                             datagramsSent := r.counts.datagramsSent,
                                             datagramBytes := r.counts.datagramBytes,
                                             sendFailures := r.counts.sendFailures))
  {
    if P.Write(st.counters, payload, s.frameSamples).Written? {
      AdvanceIsExact(s, st.counts.timestampSteps, payload);
    }
  }

  lemma AttemptCarries(st: State, s: Setup, frame: seq<Sample>, a: Attempt)
    requires Carries(st, s)
    ensures var r := Attempted(st, s, frame, a);
            && Carries(r, s)
            && r.counts.framesEncoded + r.counts.encodeFailures
                == st.counts.framesEncoded + st.counts.encodeFailures + 1
            && r.counts.residueFrames == st.counts.residueFrames
            && r.captured == st.captured && r.unreadableFrames == st.unreadableFrames
  {
    if a.encoded.Some? {
      var e := st.(inputs := st.inputs + [frame], counts := st.counts.(framesEncoded := st.counts.framesEncoded + 1));
      SendingConserves(e, s, a.encoded.value, a.accepted);
    }
  }

  lemma AttemptConserves(st: State, s: Setup, frame: seq<Sample>, a: Attempt, frames: nat)
    requires frames > 0 && Owes(st, s, frames)
    ensures Owes(Attempted(st, s, frame, a), s, frames - 1)
  {
    var c, d := st.counts, Attempted(st, s, frame, a).counts;
    AttemptCarries(st, s, frame, a);
    TicksNext(s.frameSamples, frames - 1, frames);
    TicksNext(s.frameSamples, c.framesEncoded + c.encodeFailures, d.framesEncoded + d.encodeFailures);
  }

  lemma {:induction false} AttemptsConserve(st: State, s: Setup, frames: seq<seq<Sample>>, attempts: seq<Attempt>,
      index: nat)
    requires index <= |attempts| == |frames|
    requires Owes(st, s, |attempts| - index)
    ensures Conserves(AttemptedFrom(st, s, frames, attempts, index), s)
    decreases |attempts| - index
  {
    if index == |attempts| {
      assert Ticks(s.frameSamples, 0) == 0;
    } else {
      AttemptConserves(st, s, frames[index], attempts[index], |attempts| - index);
      AttemptsConserve(Attempted(st, s, frames[index], attempts[index]), s, frames, attempts, index + 1);
    }
  }

  lemma CarryConserves(st: State, s: Setup, packet: Captured, attempts: seq<Attempt>)
    requires s.Valid() && packet.Described(s) && Conserves(st, s)
    requires |attempts| == SplitPacket(packet.frames, s.frameSamples).frames
    ensures Conserves(Carried(st, s, packet, attempts), s)
  {
    if packet.Readable() {
      WholeFramesFit(s, packet);
      var split := SplitPacket(packet.frames, s.frameSamples);
      assert Ticks(s.frameSamples, split.frames) == split.frames * s.frameSamples >= 0;
      var c := st.(captured := st.captured + packet.frames,
                   counts := st.counts.(residueFrames := st.counts.residueFrames + split.residue));
      AttemptsConserve(c, s, FramesOf(s, if packet.silent then None else packet.samples, split.frames), attempts, 0);
    }
  }

  datatype Event = Event(packet: Captured, attempts: seq<Attempt>)

  ghost predicate AllDescribed(s: Setup, run: seq<Event>) {
    s.Valid() && forall i | 0 <= i < |run| ::
      run[i].packet.Described(s) && |run[i].attempts| == SplitPacket(run[i].packet.frames, s.frameSamples).frames
  }

  ghost function CarriedAll(st: State, s: Setup, run: seq<Event>): State
    requires AllDescribed(s, run)
    decreases |run|
  {
    if run == [] then st else CarriedAll(Carried(st, s, run[0].packet, run[0].attempts), s, run[1..])
  }

  /**
   Conservation over every run of captured packets, silent, unreadable and failing
   ones included: captured frames are those the encoder was handed, the residue and
   the unreadable ones; encoded frames are those sent and those that failed to
   leave; and the RTP counter is the base plus a frame per datagram written.
   */
  lemma {:induction false} EveryRunConserves(st: State, s: Setup, run: seq<Event>)
    requires AllDescribed(s, run) && Conserves(st, s)
    ensures Conserves(CarriedAll(st, s, run), s)
    decreases |run|
  {
    if run != [] {
      CarryConserves(st, s, run[0].packet, run[0].attempts);
      EveryRunConserves(Carried(st, s, run[0].packet, run[0].attempts), s, run[1..]);
    }
  }

  // What leaves

  lemma AttemptStaysClocked(st: State, s: Setup, frame: seq<Sample>, a: Attempt)
    requires Clocked(st, s)
    ensures Clocked(Attempted(st, s, frame, a), s)
  {
    if a.encoded.Some? && P.Write(st.counters, a.encoded.value, s.frameSamples).Written? {
      P.StampsAreAffine(s.start, s.frameSamples, st.counts.timestampSteps, a.encoded.value);
    }
  }

  lemma {:induction false} AttemptsStayClocked(st: State, s: Setup, frames: seq<seq<Sample>>, attempts: seq<Attempt>,
      index: nat)
    requires index <= |attempts| == |frames| && Clocked(st, s)
    ensures Clocked(AttemptedFrom(st, s, frames, attempts, index), s)
    decreases |attempts| - index
  {
    if index < |attempts| {
      AttemptStaysClocked(st, s, frames[index], attempts[index]);
      AttemptsStayClocked(Attempted(st, s, frames[index], attempts[index]), s, frames, attempts, index + 1);
    }
  }

  lemma {:induction false} EveryRunIsClocked(st: State, s: Setup, run: seq<Event>)
    requires AllDescribed(s, run) && Clocked(st, s)
    ensures Clocked(CarriedAll(st, s, run), s)
    decreases |run|
  {
    if run != [] {
      var packet, attempts := run[0].packet, run[0].attempts;
      if packet.Readable() {
        WholeFramesFit(s, packet);
        var split := SplitPacket(packet.frames, s.frameSamples);
        var c := st.(captured := st.captured + packet.frames,
                     counts := st.counts.(residueFrames := st.counts.residueFrames + split.residue));
        AttemptsStayClocked(c, s, FramesOf(s, if packet.silent then None else packet.samples, split.frames),
            attempts, 0);
      }
      EveryRunIsClocked(Carried(st, s, packet, attempts), s, run[1..]);
    }
  }

  // What the counters say of the outcomes

  predicate Failed(a: Attempt) {
    a.encoded.None?
  }

  function MadeBy(s: Setup, a: Attempt): seq<seq<uint8>> {
    if a.encoded.Some? && 0 < |a.encoded.value| <= 1188 && P.IsFrameLength(s.frameSamples) then [a.encoded.value]
    else []
  }

  /** The payloads that made a datagram, in order. */
  function Made(s: Setup, attempts: seq<Attempt>): seq<seq<uint8>>
    decreases |attempts|
  {
    if attempts == [] then [] else MadeBy(s, attempts[0]) + Made(s, attempts[1..])
  }

  function LeftBy(s: Setup, a: Attempt): seq<seq<uint8>> {
    if a.accepted then MadeBy(s, a) else []
  }

  /** And of those, the payloads the socket took. */
  function Left(s: Setup, attempts: seq<Attempt>): seq<seq<uint8>>
    decreases |attempts|
  {
    if attempts == [] then [] else LeftBy(s, attempts[0]) + Left(s, attempts[1..])
  }

  /** Their datagrams' bytes: a fixed header of twelve and the payload. */
  function Bytes(payloads: seq<seq<uint8>>): nat {
    if payloads == [] then 0 else 12 + |payloads[0]| + Bytes(payloads[1..])
  }

  function Payloads(wire: seq<B.Packet>): (payloads: seq<seq<uint8>>)
    ensures |payloads| == |wire| && forall i | 0 <= i < |wire| :: payloads[i] == wire[i].payload
  {
    seq(|wire|, i requires 0 <= i < |wire| => wire[i].payload)
  }

  lemma {:induction false} MadeJoins(s: Setup, a: seq<Attempt>, b: seq<Attempt>)
    ensures Made(s, a + b) == Made(s, a) + Made(s, b) && Left(s, a + b) == Left(s, a) + Left(s, b)
    decreases |a|
  {
    if a == [] {
      assert a + b == b;
    } else {
      assert (a + b)[1..] == a[1..] + b;
      MadeJoins(s, a[1..], b);
    }
  }

  lemma {:induction false} BytesJoin(a: seq<seq<uint8>>, b: seq<seq<uint8>>)
    ensures Bytes(a + b) == Bytes(a) + Bytes(b)
    decreases |a|
  {
    if a == [] {
      assert a + b == b;
    } else {
      assert (a + b)[1..] == a[1..] + b;
      BytesJoin(a[1..], b);
    }
  }

  /** From one state to the other, these attempts were made: every counter past the split is told by their outcomes. */
  ghost predicate Attempts(st: State, r: State, s: Setup, attempts: seq<Attempt>) {
    var c, d, failed, left := st.counts, r.counts, Count(Failed, attempts), Left(s, attempts);
    && d.encodeFailures == c.encodeFailures + failed
    && d.framesEncoded == c.framesEncoded + |attempts| - failed
    && d.timestampSteps == c.timestampSteps + |Made(s, attempts)|
    && d.datagramsSent == c.datagramsSent + |left|
    && d.sendFailures == c.sendFailures + |attempts| - failed - |left|
    && d.datagramBytes == c.datagramBytes + Bytes(left)
    && Payloads(r.wire) == Payloads(st.wire) + left
  }

  /** What only the split counts. */
  function Taken(st: State): (nat, nat, nat, nat) {
    (st.captured, st.counts.residueFrames, st.counts.unreadablePackets, st.unreadableFrames)
  }

  lemma AttemptIsCounted(st: State, s: Setup, frame: seq<Sample>, a: Attempt)
    ensures var r := Attempted(st, s, frame, a); Attempts(st, r, s, [a]) && Taken(r) == Taken(st)
  {
    assert [a][1..] == [];
    assert Left(s, [a]) == LeftBy(s, a) && Made(s, [a]) == MadeBy(s, a);
    if a.encoded.Some? {
      var payload := a.encoded.value;
      P.WritesExactly(st.counters, payload, s.frameSamples);
      assert Bytes([payload]) == 12 + |payload| + Bytes([payload][1..]);
    }
  }

  lemma AttemptsTwice(st: State, n: State, r: State, s: Setup, a: seq<Attempt>, b: seq<Attempt>)
    requires Attempts(st, n, s, a) && Attempts(n, r, s, b)
    ensures Attempts(st, r, s, a + b)
  {
    CountJoins(Failed, a, b);
    MadeJoins(s, a, b);
    BytesJoin(Left(s, a), Left(s, b));
  }

  lemma {:induction false} AttemptsAreCounted(st: State, s: Setup, frames: seq<seq<Sample>>, attempts: seq<Attempt>,
      index: nat)
    requires index <= |attempts| == |frames|
    ensures var r := AttemptedFrom(st, s, frames, attempts, index);
            Attempts(st, r, s, attempts[index..]) && Taken(r) == Taken(st)
    decreases |attempts| - index
  {
    if index < |attempts| {
      var a, later := attempts[index], attempts[index + 1..];
      var next := Attempted(st, s, frames[index], a);
      AttemptIsCounted(st, s, frames[index], a);
      AttemptsAreCounted(next, s, frames, attempts, index + 1);
      AttemptsTwice(st, next, AttemptedFrom(st, s, frames, attempts, index), s, [a], later);
      assert attempts[index..] == [a] + later;
    }
  }

  function TriedBy(e: Event): seq<Attempt> {
    if e.packet.Readable() then e.attempts else []
  }

  /** The attempts on the frames of the packets that could be read. */
  function Tried(run: seq<Event>): seq<Attempt> {
    if run == [] then [] else TriedBy(run[0]) + Tried(run[1..])
  }

  function CapturedIn(run: seq<Event>): nat {
    if run == [] then 0 else run[0].packet.frames + CapturedIn(run[1..])
  }

  /** What was left over of the packets that could be read. */
  function ResidueIn(s: Setup, run: seq<Event>): nat
    requires s.Valid()
    decreases |run|
  {
    if run == [] then 0
    else (if run[0].packet.Readable() then run[0].packet.frames % s.frameSamples else 0) + ResidueIn(s, run[1..])
  }

  predicate CannotBeRead(e: Event) {
    !e.packet.silent && e.packet.samples.None?
  }

  function UnreadIn(run: seq<Event>): nat {
    if run == [] then 0 else (if CannotBeRead(run[0]) then run[0].packet.frames else 0) + UnreadIn(run[1..])
  }

  lemma CarryIsCounted(st: State, s: Setup, e: Event)
    requires s.Valid() && e.packet.Described(s)
    requires |e.attempts| == SplitPacket(e.packet.frames, s.frameSamples).frames
    ensures var r, c, n := Carried(st, s, e.packet, e.attempts), st.counts, e.packet.frames;
            && Attempts(st, r, s, TriedBy(e))
            && Taken(r) == if CannotBeRead(e) then
                             (st.captured + n, c.residueFrames, c.unreadablePackets + 1, st.unreadableFrames + n)
                           else (st.captured + n, c.residueFrames + n % s.frameSamples, c.unreadablePackets,
                               st.unreadableFrames)
  {
    var packet, attempts := e.packet, e.attempts;
    if packet.Readable() {
      WholeFramesFit(s, packet);
      var split := SplitPacket(packet.frames, s.frameSamples);
      var c := st.(captured := st.captured + packet.frames,
                   counts := st.counts.(residueFrames := st.counts.residueFrames + split.residue));
      AttemptsAreCounted(c, s, FramesOf(s, if packet.silent then None else packet.samples, split.frames), attempts, 0);
      assert attempts[0..] == attempts;
    } else {
      assert Payloads(st.wire) + [] == Payloads(st.wire);
    }
  }

  /**
   Over every run, every counter past the split is told by what became of each frame:
   encoded or not, made into a datagram or not, taken by the socket or not; and the
   payloads on the wire are exactly those that left, in order.
   */
  lemma {:induction false} CountersAreOutcomes(st: State, s: Setup, run: seq<Event>)
    requires AllDescribed(s, run)
    ensures Attempts(st, CarriedAll(st, s, run), s, Tried(run))
    decreases |run|
  {
    if run == [] {
      assert Payloads(st.wire) + [] == Payloads(st.wire);
    } else {
      var next := Carried(st, s, run[0].packet, run[0].attempts);
      CarryIsCounted(st, s, run[0]);
      CountersAreOutcomes(next, s, run[1..]);
      AttemptsTwice(st, next, CarriedAll(st, s, run), s, TriedBy(run[0]), Tried(run[1..]));
    }
  }

  /** And those of the split by the packets captured: their frames, what was left over, and what could not be read. */
  lemma {:induction false} SplitIsCounted(st: State, s: Setup, run: seq<Event>)
    requires AllDescribed(s, run)
    ensures Taken(CarriedAll(st, s, run))
         == (st.captured + CapturedIn(run), st.counts.residueFrames + ResidueIn(s, run),
             st.counts.unreadablePackets + Count(CannotBeRead, run), st.unreadableFrames + UnreadIn(run))
    decreases |run|
  {
    if run != [] {
      CarryIsCounted(st, s, run[0]);
      SplitIsCounted(Carried(st, s, run[0].packet, run[0].attempts), s, run[1..]);
    }
  }

  /** So from the start the whole report of a run is read off what was captured and what became of each frame. */
  lemma RunIsReported(s: Setup, run: seq<Event>)
    requires AllDescribed(s, run)
    ensures var r, tried := CarriedAll(Initial(s), s, run), Tried(run);
            var c, failed, made, left := r.counts, Count(Failed, tried), Made(s, tried), Left(s, tried);
            && c.encodeFailures == failed && c.framesEncoded + failed == |tried|
            && c.datagramsSent == |left| && c.sendFailures + |left| + failed == |tried|
            && c.datagramBytes == Bytes(left) && Payloads(r.wire) == left
            && c.timestampSteps == c.timestampStepsExact == |made|
            && c.residueFrames == ResidueIn(s, run) && c.unreadablePackets == Count(CannotBeRead, run)
            && r.captured == CapturedIn(run) && r.unreadableFrames == UnreadIn(run)
  {
    InitialConserves(s);
    EveryRunConserves(Initial(s), s, run);
    CountersAreOutcomes(Initial(s), s, run);
    SplitIsCounted(Initial(s), s, run);
    assert Payloads(Initial(s).wire) + Left(s, Tried(run)) == Left(s, Tried(run));
  }

  // What was captured against what was encoded

  function SamplesEncoded(st: State, s: Setup): int {
    Ticks(s.frameSamples, st.counts.framesEncoded)
  }

  function SampleDisagreement(st: State, s: Setup): int {
    if st.captured >= SamplesEncoded(st, s) then st.captured - SamplesEncoded(st, s)
    else SamplesEncoded(st, s) - st.captured
  }

  lemma DisagreementIsBalance(st: State, s: Setup)
    requires s.Valid() && Conserves(st, s)
    ensures SampleDisagreement(st, s)
         == Ticks(s.frameSamples, st.counts.encodeFailures) + st.counts.residueFrames + st.unreadableFrames
    ensures Ticks(s.frameSamples, st.counts.encodeFailures) >= 0
    ensures Ticks(s.frameSamples, st.counts.encodeFailures) == 0 <==> st.counts.encodeFailures == 0
  {
    var c := st.counts;
    TicksDiffer(s.frameSamples, c.framesEncoded + c.encodeFailures, c.framesEncoded, c.encodeFailures);
    TicksZero(s.frameSamples, c.encodeFailures);
  }

  /**
   Over every run, the disagreement names exactly what was captured and never encoded: a
   frame's samples for each attempt that failed to encode, the residues of the packets
   read and all of those that could not be; and it is zero if and only if there were none.
   */
  lemma DisagreementIsWhatWasLost(s: Setup, run: seq<Event>)
    requires AllDescribed(s, run)
    ensures var r, failed := CarriedAll(Initial(s), s, run), Count(Failed, Tried(run));
            && SampleDisagreement(r, s) == Ticks(s.frameSamples, failed) + ResidueIn(s, run) + UnreadIn(run)
            && (SampleDisagreement(r, s) == 0 <==> failed == 0 && ResidueIn(s, run) == 0 && UnreadIn(run) == 0)
  {
    InitialConserves(s);
    EveryRunConserves(Initial(s), s, run);
    CountersAreOutcomes(Initial(s), s, run);
    SplitIsCounted(Initial(s), s, run);
    DisagreementIsBalance(CarriedAll(Initial(s), s, run), s);
  }

  // What the encoder is handed

  lemma AttemptHandsOver(st: State, s: Setup, frame: seq<Sample>, a: Attempt)
    ensures Attempted(st, s, frame, a).inputs == st.inputs + [frame]
  {
  }

  lemma {:induction false} EncoderIsHanded(st: State, s: Setup, frames: seq<seq<Sample>>, attempts: seq<Attempt>,
      index: nat)
    requires index <= |attempts| == |frames|
    ensures AttemptedFrom(st, s, frames, attempts, index).inputs == st.inputs + frames[index..]
    decreases |attempts| - index
  {
    if index < |attempts| {
      AttemptHandsOver(st, s, frames[index], attempts[index]);
      EncoderIsHanded(Attempted(st, s, frames[index], attempts[index]), s, frames, attempts, index + 1);
    }
  }

  lemma MultiplesInOrder(size: nat, a: nat, b: nat)
    requires a <= b
    ensures 0 <= a * size <= b * size
  {
    var gap := b - a;
    assert (a + gap) * size == a * size + gap * size;
    assert a * size >= 0 && gap * size >= 0;
  }

  function JoinedFront(frames: seq<seq<Sample>>): seq<Sample>
    decreases |frames|
  {
    if frames == [] then [] else frames[0] + JoinedFront(frames[1..])
  }

  lemma {:induction false} FramesRejoin(s: Setup, samples: seq<Sample>, frames: nat, index: nat)
    requires index <= frames && frames * s.Interleaved() <= |samples|
    ensures 0 <= index * s.Interleaved() <= frames * s.Interleaved()
    ensures JoinedFront(FramesOf(s, Some(samples), frames)[index..])
        == samples[index * s.Interleaved()..frames * s.Interleaved()]
    decreases frames - index
  {
    var size, all := s.Interleaved(), FramesOf(s, Some(samples), frames);
    MultiplesInOrder(size, index, frames);
    if index < frames {
      FramesRejoin(s, samples, frames, index + 1);
      MultiplesInOrder(size, index + 1, frames);
      var at, next, end := index * size, (index + 1) * size, frames * size;
      assert next == at + size;
      assert all[index..] == [all[index]] + all[index + 1..];
      assert all[index] == samples[at..next];
      assert samples[at..end] == samples[at..next] + samples[next..end];
    }
  }

  /**
   The split loses and repeats nothing: the frames the encoder is handed from a
   readable packet, put end to end, are the packet's own samples up to the residue,
   whatever the encoder and the socket then did with them.
   */
  lemma SplitHandsOverThePacket(st: State, s: Setup, packet: Captured, attempts: seq<Attempt>)
    requires s.Valid() && packet.Described(s) && !packet.silent && packet.samples.Some?
    requires |attempts| == SplitPacket(packet.frames, s.frameSamples).frames
    ensures 0 <= |attempts| * s.Interleaved() <= |packet.samples.value|
    ensures var r := Carried(st, s, packet, attempts);
            && st.inputs <= r.inputs
            && JoinedFront(r.inputs[|st.inputs|..]) == packet.samples.value[..|attempts| * s.Interleaved()]
  {
    WholeFramesFit(s, packet);
    var split := SplitPacket(packet.frames, s.frameSamples);
    var c := st.(captured := st.captured + packet.frames,
                 counts := st.counts.(residueFrames := st.counts.residueFrames + split.residue));
    var handed := FramesOf(s, packet.samples, |attempts|);
    EncoderIsHanded(c, s, handed, attempts, 0);
    FramesRejoin(s, packet.samples.value, |attempts|, 0);
    assert handed[0..] == handed && (st.inputs + handed)[|st.inputs|..] == handed;
    assert 0 * s.Interleaved() == 0;
  }

  /** A silent packet is as many frames of nothing but zeroes, whatever its bytes were. */
  lemma SilenceIsHandedOver(st: State, s: Setup, packet: Captured, attempts: seq<Attempt>)
    requires s.Valid() && packet.silent
    requires |attempts| == SplitPacket(packet.frames, s.frameSamples).frames
    ensures var r := Carried(st, s, packet, attempts);
            && st.inputs <= r.inputs && |r.inputs| == |st.inputs| + |attempts|
            && forall frame | frame in r.inputs[|st.inputs|..] ::
                 |frame| == s.frameSamples * s.channels && forall sample | sample in frame :: sample == 0
  {
    var split := SplitPacket(packet.frames, s.frameSamples);
    var c := st.(captured := st.captured + packet.frames,
                 counts := st.counts.(residueFrames := st.counts.residueFrames + split.residue));
    var handed := FramesOf(s, None, |attempts|);
    EncoderIsHanded(c, s, handed, attempts, 0);
    assert handed[0..] == handed && (st.inputs + handed)[|st.inputs|..] == handed;
  }
}
