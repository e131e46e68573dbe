/**
 The input wire format: one message per datagram, a fixed 20-byte header, and a
 payload whose length its kind decides. Integers travel big-endian.
 */
module InputWire {
  import opened Wrappers
  import opened Wrap
  import opened BigEndian

  const VERSION: uint8 := 2
  const HEADER_LEN := 20
  const MAX_DATAGRAM := 57

  // Messages

  datatype Button = Left | Right | Middle | X1 | X2 {
    function Index(): uint8 {
      match this
      case Left => 0
      case Right => 1
      case Middle => 2
      case X1 => 3
      case X2 => 4
    }
  }

  function ButtonOf(index: uint8): Option<Button> {
    match index
    case 0 => Some(Left)
    case 1 => Some(Right)
    case 2 => Some(Middle)
    case 3 => Some(X1)
    case 4 => Some(X2)
    case _ => None
  }

  datatype Dpad = Neutral | North | NorthEast | East | SouthEast | South | SouthWest | West | NorthWest {
    function Wire(): uint8 {
      match this
      case Neutral => 0
      case North => 1
      case NorthEast => 2
      case East => 3
      case SouthEast => 4
      case South => 5
      case SouthWest => 6
      case West => 7
      case NorthWest => 8
    }
  }

  function DpadOf(value: uint8): Option<Dpad> {
    match value
    case 0 => Some(Neutral)
    case 1 => Some(North)
    case 2 => Some(NorthEast)
    case 3 => Some(East)
    case 4 => Some(SouthEast)
    case 5 => Some(South)
    case 6 => Some(SouthWest)
    case 7 => Some(West)
    case 8 => Some(NorthWest)
    case _ => None
  }

  /** Each index map inverts the other: a value is accepted exactly when it is some position's own. */
  lemma IndexMapsInvert(b: Button, d: Dpad, x: uint8)
    ensures ButtonOf(b.Index()) == Some(b) && DpadOf(d.Wire()) == Some(d)
    ensures ButtonOf(x).Some? ==> ButtonOf(x).value.Index() == x
    ensures DpadOf(x).Some? ==> DpadOf(x).value.Wire() == x
    ensures (ButtonOf(x).Some? <==> x < 5) && (DpadOf(x).Some? <==> x < 9)
    ensures [Left, Right, Middle, X1, X2][b.Index()] == b
    ensures [Neutral, North, NorthEast, East, SouthEast, South, SouthWest, West, NorthWest][d.Wire()] == d
  {
  }

  datatype GamepadState = GamepadState(
    sessionGeneration: uint32, controllerSlot: uint8, sequence: uint32, buttons: uint16, dpad: Dpad,
    leftX: int16, leftY: int16, rightX: int16, rightY: int16, leftTrigger: uint16, rightTrigger: uint16)

  datatype GamepadFeedback = GamepadFeedback(
    sessionGeneration: uint32, controllerSlot: uint8, sequence: uint32, lowFrequency: uint16, highFrequency: uint16)

  type Keys = bs: Bytes | |bs| == 32 witness seq(32, _ => 0)

  datatype Message =
    | Motion(dx: int32, dy: int32)
    | ButtonEvent(id: uint64, button: Button, down: bool)
    | Key(id: uint64, scancode: uint16, down: bool, extended: bool)
    | Wheel(id: uint64, wx: int16, wy: int16)
    | Snapshot(generation: uint32, keys: Keys, buttons: uint8)
    | ReleaseAll(id: uint64)
    | Heartbeat
    | Ack(top: uint64, missing: uint32)
    | GamepadAttach(id: uint64, slot: uint8, session: uint32)
    | GamepadDetach(id: uint64, slot: uint8, session: uint32)
    | Pad(pad: GamepadState)
    | Feedback(feedback: GamepadFeedback)

  datatype Datagram = Datagram(session: uint32, sequence: uint32, sentAt: uint64, message: Message)

  datatype DecodeError =
    | TooShort(len: nat)
    | BadVersion(version: uint8)
    | UnknownKind(kind: uint8)
    | BadPayload(kind: uint8, len: nat)
    | BadButton(index: uint8)
    | BadDpad(value: uint8)

  datatype Result<+T> = Ok(value: T) | Err(error: DecodeError)

  function Kind(m: Message): uint8 {
    match m
    case Motion(_, _) => 1
    case ButtonEvent(_, _, _) => 2
    case Key(_, _, _, _) => 3
    case Wheel(_, _, _) => 4
    case Snapshot(_, _, _) => 5
    case ReleaseAll(_) => 6
    case Heartbeat => 7
    case Ack(_, _) => 8
    case GamepadAttach(_, _, _) => 9
    case GamepadDetach(_, _, _) => 10
    case Pad(_) => 11
    case Feedback(_) => 12
  }

  /** Payload bytes of each kind. */
  function Need(kind: uint8): nat {
    match kind
    case 1 => 8
    case 2 => 10
    case 3 => 11
    case 4 => 12
    case 5 => 37
    case 6 => 8
    case 8 => 12
    case 9 => 13
    case 10 => 13
    case 11 => 24
    case 12 => 13
    case _ => 0
  }

  function Bit(b: bool): uint8 {
    if b then 1 else 0
  }

  function KeyFlags(down: bool, extended: bool): uint8 {
    Bit(down) + 2 * Bit(extended)
  }

  /** What a gamepad state and its feedback both open with. */
  function Stamp(generation: uint32, slot: uint8, sequence: uint32): (bs: Bytes)
    ensures |bs| == 9
  {
    Be32(generation) + [slot] + Be32(sequence)
  }

  function Controller(id: uint64, slot: uint8, session: uint32): (bs: Bytes)
    ensures |bs| == 13
  {
    Be64(id) + [slot] + Be32(session)
  }

  function Sticks(p: GamepadState): (bs: Bytes)
    ensures |bs| == 8
  {
    (Be16(Unsigned16(p.leftX)) + Be16(Unsigned16(p.leftY))) + (Be16(Unsigned16(p.rightX)) + Be16(Unsigned16(p.rightY)))
  }

  function Controls(p: GamepadState): (bs: Bytes)
    ensures |bs| == 15
  {
    (Be16(p.buttons) + [p.dpad.Wire()]) + Sticks(p) + (Be16(p.leftTrigger) + Be16(p.rightTrigger))
  }

  function Payload(m: Message): (bs: Bytes)
    ensures |bs| == Need(Kind(m))
  {
    match m
    case Motion(dx, dy) => Be32(Unsigned32(dx)) + Be32(Unsigned32(dy))
    case ButtonEvent(id, button, down) => Be64(id) + [button.Index(), Bit(down)]
    case Key(id, scancode, down, extended) => Be64(id) + Be16(scancode) + [KeyFlags(down, extended)]
    case Wheel(id, dx, dy) => Be64(id) + Be16(Unsigned16(dx)) + Be16(Unsigned16(dy))
    case Snapshot(generation, keys, buttons) => Be32(generation) + keys + [buttons]
    case ReleaseAll(id) => Be64(id)
    case Heartbeat => []
    case Ack(top, missing) => Be64(top) + Be32(missing)
    case GamepadAttach(id, slot, session) => Controller(id, slot, session)
    case GamepadDetach(id, slot, session) => Controller(id, slot, session)
    case Pad(p) => Stamp(p.sessionGeneration, p.controllerSlot, p.sequence) + Controls(p)
    case Feedback(f) =>
      Stamp(f.sessionGeneration, f.controllerSlot, f.sequence) + (Be16(f.lowFrequency) + Be16(f.highFrequency))
  }

  function Header(d: Datagram): (bs: Bytes)
    ensures |bs| == HEADER_LEN
  {
    [VERSION, Kind(d.message), 0, 0] + (Be32(d.session) + Be32(d.sequence) + Be64(d.sentAt))
  }

  /** The datagram's one canonical encoding. */
  function Encoded(d: Datagram): (bs: Bytes)
    ensures |bs| == HEADER_LEN + Need(Kind(d.message)) <= MAX_DATAGRAM
  {
    Header(d) + Payload(d.message)
  }

  // Decoding

  function DecodeButton(body: Bytes): Result<Message>
    requires |body| >= 10
  {
    var button := ButtonOf(body[8]);
    if button.None? then Err(BadButton(body[8]))
    else Ok(ButtonEvent(At64(body, 0), button.value, body[9] != 0))
  }

  function DecodePad(body: Bytes): Result<Message>
    requires |body| >= 24
  {
    var dpad := DpadOf(body[11]);
    if dpad.None? then Err(BadDpad(body[11]))
    else
      Ok(Pad(GamepadState(
               At32(body, 0), body[4], At32(body, 5), At16(body, 9), dpad.value,
               Signed16(At16(body, 12)), Signed16(At16(body, 14)), Signed16(At16(body, 16)), Signed16(At16(body, 18)),
               At16(body, 20), At16(body, 22))))
  }

  function DecodeMessage(kind: uint8, body: Bytes): Result<Message>
    requires 1 <= kind <= 12 && |body| >= Need(kind)
  {
    match kind
    case 1 => Ok(Motion(Signed32(At32(body, 0)), Signed32(At32(body, 4))))
    case 2 => DecodeButton(body)
    case 3 => Ok(Key(At64(body, 0), At16(body, 8), body[10] % 2 != 0, body[10] / 2 % 2 != 0))
    case 4 => Ok(Wheel(At64(body, 0), Signed16(At16(body, 8)), Signed16(At16(body, 10))))
    case 5 => Ok(Snapshot(At32(body, 0), body[4..36], body[36]))
    case 6 => Ok(ReleaseAll(At64(body, 0)))
    case 7 => Ok(Heartbeat)
    case 8 => Ok(Ack(At64(body, 0), At32(body, 8)))
    case 9 => Ok(GamepadAttach(At64(body, 0), body[8], At32(body, 9)))
    case 10 => Ok(GamepadDetach(At64(body, 0), body[8], At32(body, 9)))
    case 11 => DecodePad(body)
    case _ => Ok(Feedback(GamepadFeedback(At32(body, 0), body[4], At32(body, 5), At16(body, 9), At16(body, 11))))
  }

  function Decode(bytes: Bytes): Result<Datagram> {
    if |bytes| < HEADER_LEN then Err(TooShort(|bytes|))
    else if bytes[0] != VERSION then Err(BadVersion(bytes[0]))
    else
      var kind, body := bytes[1], bytes[HEADER_LEN..];
      if kind < 1 || kind > 12 then Err(UnknownKind(kind))
      else if |body| < Need(kind) then Err(BadPayload(kind, |body|))
      else
        match DecodeMessage(kind, body)
        case Err(error) => Err(error)
        case Ok(message) => Ok(Datagram(At32(bytes, 4), At32(bytes, 8), At64(bytes, 12), message))
  }

  // Writing into the caller's buffer

  /** Copies `bytes` into place, leaving everything else alone. */
  method Put(out: array<uint8>, at: nat, bytes: Bytes)
    requires at + |bytes| <= out.Length
    modifies out
    ensures out[..] == old(out[..at]) + bytes + old(out[at + |bytes|..])
  {
    forall i | 0 <= i < |bytes| {
      out[at + i] := bytes[i];
    }
  }

  /** Two writes side by side are one write of both. */
  lemma Spliced(s0: Bytes, s1: Bytes, s2: Bytes, at: nat, a: Bytes, b: Bytes)
    requires at + |a| + |b| <= |s0|
    requires s1 == s0[..at] + a + s0[at + |a|..]
    requires s2 == s1[..at + |a|] + b + s1[at + |a| + |b|..]
    ensures s2 == s0[..at] + (a + b) + s0[at + |a| + |b|..]
  {
  }

  /** Two fields in a row. */
  method PutPair(out: array<uint8>, at: nat, a: Bytes, b: Bytes)
    requires at + |a| + |b| <= out.Length
    modifies out
    ensures out[..] == old(out[..at]) + (a + b) + old(out[at + |a| + |b|..])
  {
    ghost var s0 := out[..];
    Put(out, at, a);
    ghost var s1 := out[..];
    Put(out, at + |a|, b);
    Spliced(s0, s1, out[..], at, a, b);
  }

  /** Three fields in a row. */
  method PutTriple(out: array<uint8>, at: nat, a: Bytes, b: Bytes, c: Bytes)
    requires at + |a| + |b| + |c| <= out.Length
    modifies out
    ensures out[..] == old(out[..at]) + (a + b + c) + old(out[at + |a| + |b| + |c|..])
  {
    ghost var s0 := out[..];
    PutPair(out, at, a, b);
    ghost var s1 := out[..];
    Put(out, at + |a| + |b|, c);
    Spliced(s0, s1, out[..], at, a + b, c);
  }

  method PutSticks(out: array<uint8>, at: nat, p: GamepadState)
    requires at + 8 <= out.Length
    modifies out
    ensures out[..] == old(out[..at]) + Sticks(p) + old(out[at + 8..])
  {
    ghost var s0 := out[..];
    ghost var left := Be16(Unsigned16(p.leftX)) + Be16(Unsigned16(p.leftY));
    ghost var right := Be16(Unsigned16(p.rightX)) + Be16(Unsigned16(p.rightY));
    PutPair(out, at, Be16(Unsigned16(p.leftX)), Be16(Unsigned16(p.leftY)));
    ghost var s1 := out[..];
    PutPair(out, at + 4, Be16(Unsigned16(p.rightX)), Be16(Unsigned16(p.rightY)));
    Spliced(s0, s1, out[..], at, left, right);
  }

  /** Everything of a gamepad state after its stamp. */
  method PutControls(out: array<uint8>, at: nat, p: GamepadState)
    requires at + 15 <= out.Length
    modifies out
    ensures out[..] == old(out[..at]) + Controls(p) + old(out[at + 15..])
  {
    ghost var s0 := out[..];
    ghost var buttons := Be16(p.buttons) + [p.dpad.Wire()];
    PutPair(out, at, Be16(p.buttons), [p.dpad.Wire()]);
    ghost var s1 := out[..];
    PutSticks(out, at + 3, p);
    ghost var s2 := out[..];
    Spliced(s0, s1, s2, at, buttons, Sticks(p));
    PutPair(out, at + 11, Be16(p.leftTrigger), Be16(p.rightTrigger));
    Spliced(s0, s2, out[..], at, buttons + Sticks(p), Be16(p.leftTrigger) + Be16(p.rightTrigger));
  }

  method PutPad(out: array<uint8>, at: nat, p: GamepadState)
    requires at + 24 <= out.Length
    modifies out
    ensures out[..] == old(out[..at]) + Payload(Pad(p)) + old(out[at + 24..])
  {
    ghost var s0 := out[..];
    ghost var stamp := Stamp(p.sessionGeneration, p.controllerSlot, p.sequence);
    PutTriple(out, at, Be32(p.sessionGeneration), [p.controllerSlot], Be32(p.sequence));
    ghost var s1 := out[..];
    PutControls(out, at + 9, p);
    Spliced(s0, s1, out[..], at, stamp, Controls(p));
  }

  method PutFeedback(out: array<uint8>, at: nat, f: GamepadFeedback)
    requires at + 13 <= out.Length
    modifies out
    ensures out[..] == old(out[..at]) + Payload(Feedback(f)) + old(out[at + 13..])
  {
    ghost var s0 := out[..];
    ghost var stamp := Stamp(f.sessionGeneration, f.controllerSlot, f.sequence);
    PutTriple(out, at, Be32(f.sessionGeneration), [f.controllerSlot], Be32(f.sequence));
    ghost var s1 := out[..];
    PutPair(out, at + 9, Be16(f.lowFrequency), Be16(f.highFrequency));
    Spliced(s0, s1, out[..], at, stamp, Be16(f.lowFrequency) + Be16(f.highFrequency));
  }

  /** The messages that carry an event id, which opens their payload. */
  method PutEvent(out: array<uint8>, at: nat, m: Message)
    requires m.ButtonEvent? || m.Key? || m.Wheel? || m.ReleaseAll? || m.GamepadAttach? || m.GamepadDetach?
    requires at + Need(Kind(m)) <= out.Length
    modifies out
    ensures out[..] == old(out[..at]) + Payload(m) + old(out[at + Need(Kind(m))..])
  {
    match m {
      case ButtonEvent(id, button, down) => PutPair(out, at, Be64(id), [button.Index(), Bit(down)]);
      case Key(id, scancode, down, extended) =>
        PutTriple(out, at, Be64(id), Be16(scancode), [KeyFlags(down, extended)]);
      case Wheel(id, dx, dy) => PutTriple(out, at, Be64(id), Be16(Unsigned16(dx)), Be16(Unsigned16(dy)));
      case ReleaseAll(id) => Put(out, at, Be64(id));
      case GamepadAttach(id, slot, session) => PutTriple(out, at, Be64(id), [slot], Be32(session));
      case GamepadDetach(id, slot, session) => PutTriple(out, at, Be64(id), [slot], Be32(session));
    }
  }

  method PutMessage(out: array<uint8>, at: nat, m: Message)
    requires at + Need(Kind(m)) <= out.Length
    modifies out
    ensures out[..] == old(out[..at]) + Payload(m) + old(out[at + Need(Kind(m))..])
  {
    match m {
      case Motion(dx, dy) => PutPair(out, at, Be32(Unsigned32(dx)), Be32(Unsigned32(dy)));
      case Snapshot(generation, keys, buttons) => PutTriple(out, at, Be32(generation), keys, [buttons]);
      case Heartbeat => assert out[..] == out[..at] + [] + out[at..];
      case Ack(top, missing) => PutPair(out, at, Be64(top), Be32(missing));
      case Pad(p) => PutPad(out, at, p);
      case Feedback(f) => PutFeedback(out, at, f);
      case _ => PutEvent(out, at, m);
    }
  }

  /** Writes a datagram at the front of `out`, or leaves it untouched when it does not fit. */
  method Encode(d: Datagram, out: array<uint8>) returns (used: Option<nat>)
    modifies out
    ensures out.Length < |Encoded(d)| ==> used == None && out[..] == old(out[..])
    ensures out.Length >= |Encoded(d)| ==>
      used == Some(|Encoded(d)|) && out[..] == Encoded(d) + old(out[|Encoded(d)|..])
  {
    var need := Need(Kind(d.message));
    if out.Length < HEADER_LEN + need {
      return None;
    }
    Put(out, 0, [VERSION, Kind(d.message), 0, 0]);
    PutTriple(out, 4, Be32(d.session), Be32(d.sequence), Be64(d.sentAt));
    assert out[..HEADER_LEN] == Header(d);
    PutMessage(out, HEADER_LEN, d.message);
    return Some(HEADER_LEN + need);
  }
}
