/**
 What the two directions of the wire format say about each other: every
 datagram survives the wire, nothing cut short is accepted, and whatever is
 accepted has one normal form.
 */
module InputRoundTrip {
  import opened Wrappers
  import opened Wrap
  import opened BigEndian
  import opened InputWire

  lemma ControllerReads(s: Bytes, id: uint64, slot: uint8, session: uint32)
    requires s == Controller(id, slot, session)
    ensures At64(s, 0) == id && s[8] == slot && At32(s, 9) == session
  {
  }

  lemma PadRoundTrip(p: GamepadState)
    ensures DecodePad(Payload(Pad(p))) == Ok(Pad(p))
  {
  }

  lemma FeedbackRoundTrip(f: GamepadFeedback)
    ensures DecodeMessage(12, Payload(Feedback(f))) == Ok(Feedback(f))
  {
  }

  lemma KeyRoundTrip(id: uint64, scancode: uint16, down: bool, extended: bool)
    ensures DecodeMessage(3, Payload(Key(id, scancode, down, extended))) == Ok(Key(id, scancode, down, extended))
  {
  }

  lemma WheelRoundTrip(id: uint64, wx: int16, wy: int16)
    ensures DecodeMessage(4, Payload(Wheel(id, wx, wy))) == Ok(Wheel(id, wx, wy))
  {
  }

  lemma SnapshotRoundTrip(generation: uint32, keys: Keys, buttons: uint8)
    ensures DecodeMessage(5, Payload(Snapshot(generation, keys, buttons))) == Ok(Snapshot(generation, keys, buttons))
  {
  }

  lemma ButtonRoundTrip(id: uint64, button: Button, down: bool)
    ensures DecodeButton(Payload(ButtonEvent(id, button, down))) == Ok(ButtonEvent(id, button, down))
  {
  }

  lemma PairRoundTrip(dx: int32, dy: int32, top: uint64, missing: uint32)
    ensures DecodeMessage(1, Payload(Motion(dx, dy))) == Ok(Motion(dx, dy))
    ensures DecodeMessage(8, Payload(Ack(top, missing))) == Ok(Ack(top, missing))
  {
  }

  /** Each payload decodes to the message it was written for. */
  lemma MessageRoundTrip(m: Message)
    ensures DecodeMessage(Kind(m), Payload(m)) == Ok(m)
  {
    match m
    case Motion(dx, dy) => PairRoundTrip(dx, dy, 0, 0);
    case ButtonEvent(id, button, down) => ButtonRoundTrip(id, button, down);
    case Key(id, scancode, down, extended) => KeyRoundTrip(id, scancode, down, extended);
    case Wheel(id, wx, wy) => WheelRoundTrip(id, wx, wy);
    case Snapshot(generation, keys, buttons) => SnapshotRoundTrip(generation, keys, buttons);
    case ReleaseAll(id) =>
    case Heartbeat =>
    case Ack(top, missing) => PairRoundTrip(0, 0, top, missing);
    case GamepadAttach(id, slot, session) => ControllerReads(Payload(m), id, slot, session);
    case GamepadDetach(id, slot, session) => ControllerReads(Payload(m), id, slot, session);
    case Pad(p) => PadRoundTrip(p);
    case Feedback(f) => FeedbackRoundTrip(f);
  }

  /** Bytes past the payload never reach the message. */
  lemma TrailingIsIgnored(kind: uint8, body: Bytes)
    requires 1 <= kind <= 12 && |body| >= Need(kind)
    ensures DecodeMessage(kind, body) == DecodeMessage(kind, body[..Need(kind)])
  {
    assert kind == 5 ==> body[4..36] == body[..37][4..36];
  }

  lemma HeaderReads(d: Datagram, bytes: Bytes)
    requires |bytes| >= HEADER_LEN && bytes[..HEADER_LEN] == Header(d)
    ensures bytes[0] == VERSION && bytes[1] == Kind(d.message) && bytes[2] == bytes[3] == 0
    ensures At32(bytes, 4) == d.session && At32(bytes, 8) == d.sequence && At64(bytes, 12) == d.sentAt
  {
  }

  /** Every datagram survives the wire, whatever follows it in the buffer. */
  lemma RoundTrip(d: Datagram, rest: Bytes)
    ensures Decode(Encoded(d) + rest) == Ok(d)
  {
    var bytes, kind := Encoded(d) + rest, Kind(d.message);
    assert bytes[..HEADER_LEN] == Header(d);
    HeaderReads(d, bytes);
    var body := bytes[HEADER_LEN..];
    assert body == Payload(d.message) + rest;
    assert body[..Need(kind)] == Payload(d.message);
    TrailingIsIgnored(kind, body);
    MessageRoundTrip(d.message);
  }

  /** A datagram cut short anywhere is refused, and the refusal names the missing part. */
  lemma EveryPrefixIsRefused(d: Datagram, k: nat)
    requires k < |Encoded(d)|
    ensures Decode(Encoded(d)[..k]) ==
            Err(if k < HEADER_LEN then TooShort(k) else BadPayload(Kind(d.message), k - HEADER_LEN))
  {
  }

  /** What a receiver takes, in terms of the bytes alone. */
  predicate Acceptable(bytes: Bytes) {
    && |bytes| >= HEADER_LEN
    && bytes[0] == VERSION
    && 1 <= bytes[1] <= 12
    && |bytes| >= HEADER_LEN + Need(bytes[1])
    && (bytes[1] == 2 ==> bytes[HEADER_LEN + 8] < 5)
    && (bytes[1] == 11 ==> bytes[HEADER_LEN + 11] < 9)
  }

  lemma AcceptedExactly(bytes: Bytes)
    ensures Decode(bytes).Ok? <==> Acceptable(bytes)
  {
  }

  /** And what a refusal says, exactly: the first thing wrong, with the value that was. */
  lemma RefusedExactly(bytes: Bytes, error: DecodeError)
    ensures Decode(bytes) == Err(error) <==>
            match error
            case TooShort(len) => len == |bytes| < 20
            case BadVersion(version) => |bytes| >= 20 && version == bytes[0] != 2
            case UnknownKind(kind) => |bytes| >= 20 && bytes[0] == 2 && kind == bytes[1] && !(1 <= kind <= 12)
            case BadPayload(kind, len) =>
              && |bytes| >= 20 && bytes[0] == 2 && kind == bytes[1] && 1 <= kind <= 12
              && len == |bytes| - 20 < Need(kind)
            case BadButton(index) =>
              |bytes| >= 30 && bytes[0] == 2 && bytes[1] == 2 && index == bytes[28] >= 5
            case BadDpad(value) =>
              |bytes| >= 44 && bytes[0] == 2 && bytes[1] == 11 && value == bytes[31] >= 9
  {
  }

  // Re-encoding

  /** The payload with its flag byte reduced to the bits that mean something. */
  function Tidy(kind: uint8, body: Bytes): Bytes
    requires |body| == Need(kind)
  {
    if kind == 2 then body[9 := Bit(body[9] != 0)]
    else if kind == 3 then body[10 := body[10] % 4]
    else body
  }

  /** The normal form: trailing bytes dropped, the reserved bytes zeroed, the flags reduced. */
  function Canonical(bytes: Bytes): (canonical: Bytes)
    requires Acceptable(bytes)
    ensures |canonical| == HEADER_LEN + Need(bytes[1])
  {
    [bytes[0], bytes[1], 0, 0] + bytes[4..HEADER_LEN]
    + Tidy(bytes[1], bytes[HEADER_LEN..HEADER_LEN + Need(bytes[1])])
  }

  lemma StampWrites(s: Bytes)
    requires |s| >= 9
    ensures Stamp(At32(s, 0), s[4], At32(s, 5)) == s[..9]
  {
    Writes32(s, 0);
    Writes32(s, 5);
    assert s[..9] == s[0..4] + [s[4]] + s[5..9];
  }

  lemma ControllerWrites(s: Bytes)
    requires |s| == 13
    ensures Controller(At64(s, 0), s[8], At32(s, 9)) == s
  {
    Writes64(s, 0);
    Writes32(s, 9);
    assert s == s[0..8] + [s[8]] + s[9..13];
  }

  lemma PairWrites(s: Bytes, i: nat)
    requires i + 4 <= |s|
    ensures Be16(At16(s, i)) + Be16(At16(s, i + 2)) == s[i..i + 4]
    ensures Be16(Unsigned16(Signed16(At16(s, i)))) + Be16(Unsigned16(Signed16(At16(s, i + 2)))) == s[i..i + 4]
  {
  }

  lemma PadWrites(s: Bytes, m: Message)
    requires |s| == 24 && DecodePad(s) == Ok(m)
    ensures m.Pad? && Payload(m) == s
  {
    var p := m.pad;
    IndexMapsInvert(Left, Neutral, s[11]);
    StampWrites(s);
    PairWrites(s, 12);
    PairWrites(s, 16);
    PairWrites(s, 20);
    Writes16(s, 9);
    assert Sticks(p) == s[12..20] by { assert s[12..20] == s[12..16] + s[16..20]; }
    assert Controls(p) == s[9..24] by { assert s[9..24] == (s[9..11] + [s[11]]) + s[12..20] + s[20..24]; }
    assert s == s[..9] + s[9..24];
  }

  lemma FeedbackWrites(s: Bytes, m: Message)
    requires |s| == 13 && DecodeMessage(12, s) == Ok(m)
    ensures m.Feedback? && Payload(m) == s
  {
    StampWrites(s);
    PairWrites(s, 9);
    assert s == s[..9] + s[9..13];
  }

  lemma ButtonWrites(s: Bytes, m: Message)
    requires |s| == 10 && DecodeButton(s) == Ok(m)
    ensures m.ButtonEvent? && Payload(m) == Tidy(2, s)
  {
    IndexMapsInvert(Left, Neutral, s[8]);
    Writes64(s, 0);
    assert Tidy(2, s) == s[0..8] + [s[8], Bit(s[9] != 0)];
  }

  lemma FlagsReduce(x: uint8)
    ensures KeyFlags(x % 2 != 0, x / 2 % 2 != 0) == x % 4
  {
  }

  lemma KeyWrites(s: Bytes, m: Message)
    requires |s| == 11 && DecodeMessage(3, s) == Ok(m)
    ensures m.Key? && Payload(m) == Tidy(3, s)
  {
    Writes64(s, 0);
    Writes16(s, 8);
    FlagsReduce(s[10]);
    assert Tidy(3, s) == s[0..8] + s[8..10] + [s[10] % 4];
  }

  lemma WheelWrites(s: Bytes, m: Message)
    requires |s| == 12 && DecodeMessage(4, s) == Ok(m)
    ensures m.Wheel? && Payload(m) == s
  {
    Writes64(s, 0);
    Writes16(s, 8);
    Writes16(s, 10);
    assert s == s[0..8] + s[8..10] + s[10..12];
  }

  lemma SnapshotWrites(s: Bytes, m: Message)
    requires |s| == 37 && DecodeMessage(5, s) == Ok(m)
    ensures m.Snapshot? && Payload(m) == s
  {
    Writes32(s, 0);
    assert s == s[0..4] + s[4..36] + [s[36]];
  }

  lemma MotionWrites(s: Bytes, m: Message)
    requires |s| == 8 && DecodeMessage(1, s) == Ok(m)
    ensures m.Motion? && Payload(m) == s
  {
    Writes32(s, 0);
    Writes32(s, 4);
    assert s == s[0..4] + s[4..8];
  }

  lemma AckWrites(s: Bytes, m: Message)
    requires |s| == 12 && DecodeMessage(8, s) == Ok(m)
    ensures m.Ack? && Payload(m) == s
  {
    Writes64(s, 0);
    Writes32(s, 8);
    assert s == s[0..8] + s[8..12];
  }

  /** Writing a decoded message gives back the payload it was read from, tidied. */
  lemma MessageWrites(kind: uint8, s: Bytes, m: Message)
    requires 1 <= kind <= 12 && |s| == Need(kind) && DecodeMessage(kind, s) == Ok(m)
    ensures Kind(m) == kind && Payload(m) == Tidy(kind, s)
  {
    match kind
    case 1 => MotionWrites(s, m);
    case 2 => ButtonWrites(s, m);
    case 3 => KeyWrites(s, m);
    case 4 => WheelWrites(s, m);
    case 5 => SnapshotWrites(s, m);
    case 6 => Writes64(s, 0); assert s == s[0..8];
    case 7 =>
    case 8 => AckWrites(s, m);
    case 9 => ControllerWrites(s);
    case 10 => ControllerWrites(s);
    case 11 => PadWrites(s, m);
    case _ => FeedbackWrites(s, m);
  }

  /** Re-encoding whatever was accepted gives its normal form. */
  lemma ReencodesCanonically(bytes: Bytes, d: Datagram)
    requires Decode(bytes) == Ok(d)
    ensures Acceptable(bytes) && Encoded(d) == Canonical(bytes)
  {
    AcceptedExactly(bytes);
    var kind, body := bytes[1], bytes[HEADER_LEN..];
    var s := bytes[HEADER_LEN..HEADER_LEN + Need(kind)];
    assert s == body[..Need(kind)];
    TrailingIsIgnored(kind, body);
    MessageWrites(kind, s, d.message);
    Writes32(bytes, 4);
    Writes32(bytes, 8);
    Writes64(bytes, 12);
    assert bytes[4..HEADER_LEN] == bytes[4..8] + bytes[8..12] + bytes[12..20];
  }

  /** The normal form is accepted, means the same, and is its own normal form. */
  lemma CanonicalMeansTheSame(bytes: Bytes, d: Datagram)
    requires Decode(bytes) == Ok(d)
    ensures Acceptable(bytes) && Decode(Canonical(bytes)) == Ok(d)
    ensures Acceptable(Canonical(bytes)) && Canonical(Canonical(bytes)) == Canonical(bytes)
  {
    ReencodesCanonically(bytes, d);
    RoundTrip(d, []);
    assert Encoded(d) + [] == Encoded(d);
    ReencodesCanonically(Encoded(d), d);
  }

  /** Two accepted inputs carry the same datagram exactly when their normal forms agree. */
  lemma NormalFormsDecide(a: Bytes, b: Bytes)
    requires Acceptable(a) && Acceptable(b)
    ensures Decode(a) == Decode(b) <==> Canonical(a) == Canonical(b)
  {
    AcceptedExactly(a);
    AcceptedExactly(b);
    ReencodesCanonically(a, Decode(a).value);
    ReencodesCanonically(b, Decode(b).value);
    CanonicalMeansTheSame(a, Decode(a).value);
    CanonicalMeansTheSame(b, Decode(b).value);
  }

  lemma TidyAlready(kind: uint8, s: Bytes)
    requires |s| == Need(kind)
    ensures Tidy(kind, s) == s <==> (kind == 2 ==> s[9] <= 1) && (kind == 3 ==> s[10] < 4)
  {
  }

  lemma CanonicalAlready(bytes: Bytes)
    requires Acceptable(bytes) && |bytes| == HEADER_LEN + Need(bytes[1])
    ensures Canonical(bytes) == bytes <==>
            bytes[2] == bytes[3] == 0 && Tidy(bytes[1], bytes[HEADER_LEN..]) == bytes[HEADER_LEN..]
  {
  }

  /** Re-encoding reproduces the very bytes exactly when nothing in them was slack. */
  lemma ReencodesExactly(bytes: Bytes, d: Datagram)
    requires Decode(bytes) == Ok(d)
    ensures |bytes| >= HEADER_LEN && |bytes| >= HEADER_LEN + Need(bytes[1])
    ensures Encoded(d) == bytes <==>
            && |bytes| == HEADER_LEN + Need(bytes[1])
            && bytes[2] == bytes[3] == 0
            && (bytes[1] == 2 ==> bytes[HEADER_LEN + 9] <= 1)
            && (bytes[1] == 3 ==> bytes[HEADER_LEN + 10] < 4)
  {
    ReencodesCanonically(bytes, d);
    if |bytes| == HEADER_LEN + Need(bytes[1]) {
      CanonicalAlready(bytes);
      TidyAlready(bytes[1], bytes[HEADER_LEN..]);
    }
  }

  // The bytes themselves

  /** A message as a table has it: its number, and its fields one after another, each most significant byte first. */
  function Row(m: Message): (uint8, Bytes) {
    match m
    case Motion(dx, dy) => (1, Big(4, dx) + Big(4, dy))
    case ButtonEvent(id, button, down) => (2, Big(8, id) + [button.Index(), if down then 1 else 0])
    case Key(id, scancode, down, extended) =>
      (3, Big(8, id) + Big(2, scancode) + [(if down then 1 else 0) + (if extended then 2 else 0)])
    case Wheel(id, wx, wy) => (4, Big(8, id) + Big(2, wx) + Big(2, wy))
    case Snapshot(generation, keys, buttons) => (5, Big(4, generation) + keys + [buttons])
    case ReleaseAll(id) => (6, Big(8, id))
    case Heartbeat => (7, [])
    case Ack(top, missing) => (8, Big(8, top) + Big(4, missing))
    case GamepadAttach(id, slot, session) => (9, Big(8, id) + [slot] + Big(4, session))
    case GamepadDetach(id, slot, session) => (10, Big(8, id) + [slot] + Big(4, session))
    case Pad(p) =>
      (11, (Big(4, p.sessionGeneration) + [p.controllerSlot] + Big(4, p.sequence))
           + ((Big(2, p.buttons) + [p.dpad.Wire()])
              + ((Big(2, p.leftX) + Big(2, p.leftY)) + (Big(2, p.rightX) + Big(2, p.rightY)))
              + (Big(2, p.leftTrigger) + Big(2, p.rightTrigger))))
    case Feedback(f) =>
      (12, (Big(4, f.sessionGeneration) + [f.controllerSlot] + Big(4, f.sequence))
           + (Big(2, f.lowFrequency) + Big(2, f.highFrequency)))
  }

  lemma PadIsRow(p: GamepadState)
    ensures Payload(Pad(p)) == Row(Pad(p)).1
  {
    WritersAreBig(p.buttons, p.sessionGeneration, 0, p.leftX, 0);
    WritersAreBig(p.leftTrigger, p.sequence, 0, p.leftY, 0);
    WritersAreBig(p.rightTrigger, 0, 0, p.rightX, 0);
    WritersAreBig(0, 0, 0, p.rightY, 0);
  }

  lemma PayloadIsRow(m: Message)
    ensures Row(m) == (Kind(m), Payload(m))
  {
    match m
    case Motion(dx, dy) =>
      WritersAreBig(0, 0, 0, 0, dx);
      WritersAreBig(0, 0, 0, 0, dy);
    case ButtonEvent(id, button, down) => WritersAreBig(0, 0, id, 0, 0);
    case Key(id, scancode, down, extended) => WritersAreBig(scancode, 0, id, 0, 0);
    case Wheel(id, wx, wy) =>
      WritersAreBig(0, 0, id, wx, 0);
      WritersAreBig(0, 0, id, wy, 0);
    case Snapshot(generation, keys, buttons) => WritersAreBig(0, generation, 0, 0, 0);
    case ReleaseAll(id) => WritersAreBig(0, 0, id, 0, 0);
    case Heartbeat =>
    case Ack(top, missing) => WritersAreBig(0, missing, top, 0, 0);
    case GamepadAttach(id, slot, session) => WritersAreBig(0, session, id, 0, 0);
    case GamepadDetach(id, slot, session) => WritersAreBig(0, session, id, 0, 0);
    case Pad(p) => PadIsRow(p);
    case Feedback(f) =>
      WritersAreBig(f.lowFrequency, f.sessionGeneration, 0, 0, 0);
      WritersAreBig(f.highFrequency, f.sequence, 0, 0, 0);
  }

  /**
   What is on the wire, byte for byte: version 2, the message's number, two zeroes, then
   the session, the sequence number and the sender's clock, then the message's own fields.
   */
  lemma Layout(d: Datagram)
    ensures var (kind, fields) := Row(d.message);
            Encoded(d) == [2, kind, 0, 0] + Big(4, d.session) + Big(4, d.sequence) + Big(8, d.sentAt) + fields
  {
    PayloadIsRow(d.message);
    WritersAreBig(0, d.session, d.sentAt, 0, 0);
    WritersAreBig(0, d.sequence, 0, 0, 0);
  }

  // What may be lost

  /** The messages that are retransmitted until acknowledged. */
  predicate Reliable(m: Message) {
    match m
    case Motion(_, _) => false
    case Heartbeat => false
    case Ack(_, _) => false
    case Snapshot(_, _, _) => false
    case Pad(_) => false
    case Feedback(_) => false
    case ButtonEvent(_, _, _) => true
    case Key(_, _, _, _) => true
    case Wheel(_, _, _) => true
    case ReleaseAll(_) => true
    case GamepadAttach(_, _, _) => true
    case GamepadDetach(_, _, _) => true
  }

  function EventId(m: Message): Option<uint64> {
    match m
    case ButtonEvent(id, _, _) => Some(id)
    case Key(id, _, _, _) => Some(id)
    case Wheel(id, _, _) => Some(id)
    case ReleaseAll(id) => Some(id)
    case GamepadAttach(id, _, _) => Some(id)
    case GamepadDetach(id, _, _) => Some(id)
    case _ => None
  }

  /**
   A message is retransmitted exactly when it carries the id its receiver
   deduplicates on, and that id is always the first eight bytes of the payload.
   */
  lemma ReliableCarriesItsId(bytes: Bytes, d: Datagram)
    requires Decode(bytes) == Ok(d)
    ensures |bytes| >= HEADER_LEN
    ensures Reliable(d.message) <==> EventId(d.message).Some?
    ensures Reliable(d.message) <==> bytes[1] in {2, 3, 4, 6, 9, 10}
    ensures Reliable(d.message) ==>
              |bytes| >= HEADER_LEN + 8 && EventId(d.message) == Some(At64(bytes, HEADER_LEN))
  {
  }
}
