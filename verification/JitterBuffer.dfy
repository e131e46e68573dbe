/**
 The jitter buffer as the program holds it: one slot array and one duplicate
 ring, updated in place. Every method is tied to the value-level function that
 says what the call does to the buffer's contents.
 */
module Jitter {
  import opened Wrappers
  import opened Wrap
  import opened SeenWindows
  import opened SlotBuffer

  datatype Pull = Frame(len: nat) | Conceal | Underrun

  /** What the caller holds after a pull: the payload over the front of its bytes, or nothing new. */
  ghost predicate Handed(served: Outcome, outcome: Pull, before: seq<uint8>, after: seq<uint8>) {
    match served
    case Frame(payload) =>
      |payload| <= |before| && outcome == Pull.Frame(|payload|) && after == payload + before[|payload|..]
    case Conceal => outcome == Pull.Conceal && after == before
    case Underrun => outcome == Pull.Underrun && after == before
  }

  class JitterBuffer {
    const shape: Shape
    const slots: array<Slot>
    const seen: SeenWindow
    var occupied: nat
    var anchor: Option<Anchor>
    var cursor: uint32
    var highestSequence: Option<uint16>
    var highestTimestamp: Option<uint32>
    var counts: Counts

    /** The buffer's whole state as a value. */
    ghost function Contents(): (b: Buffer)
      reads this, slots, seen.slots
    {
      Buffer(shape, slots[..], occupied, anchor, cursor, highestSequence, highestTimestamp, seen.slots[..], counts)
    }

    ghost predicate Valid()
      reads this, slots, seen.slots
    {
      seen.Valid() && Contents().Valid()
    }

    constructor (rate: SampleRate, frame: FrameDuration, target: nat)
      ensures Valid() && fresh(slots) && fresh(seen) && fresh(seen.slots)
      ensures Contents() == New(ShapeFor(rate, frame, target))
    {
      var sized := ShapeFor(rate, frame, target);
      shape := sized;
      slots := new Slot[sized.ceilingFrames + 2](_ => EMPTY_SLOT);
      seen := new SeenWindow(SEEN_WINDOW);
      occupied := 0;
      anchor := None;
      cursor := 0;
      highestSequence := None;
      highestTimestamp := None;
      counts := ZERO;
      new;
      assert Contents() == New(shape);
    }

    method Drained() returns (drained: bool)
      requires Valid()
      ensures drained == Contents().Drained()
    {
      match highestTimestamp
      case Some(highest) => drained := occupied == 0 && Distance32(cursor, highest) > 0;
      case None => drained := false;
    }

    method Push(packet: Packet, at: nat) returns (admission: Admission)
      requires Valid() && packet.payload != []
      modifies this, slots, seen.slots
      ensures (Contents(), admission) == SlotBuffer.Push(old(Contents()), packet, at)
      ensures Valid()
    {
      counts := counts.(received := counts.received + 1);
      ghost var was := Contents();
      assert was == Received(old(Contents()));
      if |packet.payload| > MAX_OPUS_PAYLOAD {
        counts := counts.(oversize := counts.oversize + 1);
        return Oversize;
      }
      var first := seen.Arrived(packet.sequence);
      if !first {
        counts := counts.(duplicate := counts.duplicate + 1);
        return Duplicate;
      }

      if anchor == None {
        anchor := Some(Anchor(packet.timestamp, at + shape.Target()));
        cursor := packet.timestamp;
      }
      assert Contents() == Anchored(was.(seen := Arrive(was.seen, packet.sequence).1), packet.timestamp, at);
      admission := AdmitFrame(packet);
    }

    /** The rest of a push, once the packet is a first arrival and the stream is anchored. */
    method AdmitFrame(packet: Packet) returns (admission: Admission)
      requires Valid() && anchor.Some? && 0 < |packet.payload| <= MAX_OPUS_PAYLOAD
      modifies this, slots
      ensures (Contents(), admission) == Admit(old(Contents()), packet)
      ensures Valid()
    {
      var fromAnchor := Distance32(packet.timestamp, anchor.value.rtp);
      if fromAnchor % shape.frameSamples != 0 {
        counts := counts.(offGrid := counts.offGrid + 1);
        return OffGrid;
      }

      var reordered := false;
      if highestSequence.Some? && Distance16(packet.sequence, highestSequence.value) < 0 {
        reordered := true;
        counts := counts.(reordered := counts.reordered + 1);
      } else {
        highestSequence := Some(packet.sequence);
      }
      assert Contents() == Sequenced(old(Contents()), packet.sequence);

      if Distance32(packet.timestamp, cursor) < 0 {
        counts := counts.(late := counts.late + 1);
        return Late;
      }
      EnqueueFrame(packet.timestamp, packet.payload);
      return Queued(reordered);
    }

    method EnqueueFrame(timestamp: uint32, payload: seq<uint8>)
      requires Valid() && 0 < |payload| <= MAX_OPUS_PAYLOAD
      modifies this, slots
      ensures Contents() == Enqueue(old(Contents()), timestamp, payload)
      ensures Valid()
    {
      if !(highestTimestamp.Some? && Distance32(highestTimestamp.value, timestamp) >= 0) {
        highestTimestamp := Some(timestamp);
      }
      ghost var furthest := Contents();
      assert furthest == Furthest(old(Contents()), timestamp);
      if occupied == slots.Length {
        SkipOldest();
        counts := counts.(overruns := counts.overruns + 1);
      }
      assert Contents() == MakeRoom(furthest);
      StoreFrame(timestamp, payload);
      HoldCeiling();
    }

    /** Serves one frame period, copying a real frame's payload into `into`. */
    method PullFrame(into: array<uint8>) returns (outcome: Pull, occupancy: nat)
      requires Valid() && into.Length >= MAX_OPUS_PAYLOAD
      modifies this, slots, into
      ensures Contents() == SlotBuffer.Pull(old(Contents())).0 && occupancy == occupied
      ensures Handed(SlotBuffer.Pull(old(Contents())).1, outcome, old(into[..]), into[..])
      ensures Valid()
    {
      outcome := ServeFrame(into);
      cursor := Wrap32(cursor + shape.frameSamples);
      counts := counts.(expectedSamples := counts.expectedSamples + shape.frameSamples);
      occupancy := occupied;
    }

    method ServeFrame(into: array<uint8>) returns (outcome: Pull)
      requires Valid() && into.Length >= MAX_OPUS_PAYLOAD
      modifies this, slots, into
      ensures Contents() == Serve(old(Contents())).0
      ensures Handed(Serve(old(Contents())).1, outcome, old(into[..]), into[..])
      ensures Valid()
    {
      var held := occupied;
      var taken := Take(cursor);
      match taken {
        case Some((offset, len)) =>
          forall k | 0 <= k < len {
            into[k] := slots[offset].bytes[k];
          }
          counts := counts.(played := counts.played + 1, playedSamples := counts.playedSamples + shape.frameSamples);
          outcome := Pull.Frame(len);
        case None =>
          if held > 0 {
            counts := counts.(concealed := counts.concealed + 1,
                playedSamples := counts.playedSamples + shape.frameSamples);
            outcome := Pull.Conceal;
          } else {
            counts := counts.(concealed := counts.concealed + 1, underruns := counts.underruns + 1);
            outcome := Pull.Underrun;
          }
      }
    }

    method HoldCeiling()
      requires Valid()
      modifies this, slots
      ensures Contents() == SlotBuffer.HoldCeiling(old(Contents()))
      ensures Valid()
    {
      if occupied <= shape.ceilingFrames {
        return;
      }
      counts := counts.(overruns := counts.overruns + 1);
      ghost var overrun := Overrun(old(Contents()));
      assert Contents() == overrun && overrun.Valid();
      SkipDown();
    }

    method SkipDown()
      requires Valid()
      modifies this, slots
      ensures Contents() == SkipToTarget(old(Contents()))
      ensures Valid()
    {
      ghost var left := Contents();
      while occupied > shape.targetFrames
        invariant Contents() == left && left.Valid() && seen.Valid()
        invariant SkipToTarget(left) == SkipToTarget(old(Contents()))
        decreases occupied
      {
        left := SlotBuffer.SkipOldest(left);
        SkipOldest();
      }
    }

    method SkipOldest()
      requires Valid()
      modifies this, slots
      ensures Contents() == SlotBuffer.SkipOldest(old(Contents()))
      ensures Valid()
    {
      AllFree(slots[..]);
      var oldest := Oldest();
      match oldest {
        case None =>
        case Some(index) =>
          var timestamp := slots[index].timestamp;
          UsedAfter(slots[..], index, slots[index].(len := 0));
          slots[index] := slots[index].(len := 0);
          occupied := occupied - 1;
          var travelled := Max(Distance32(timestamp, cursor), 0) + shape.frameSamples;
          cursor := Wrap32(timestamp + shape.frameSamples);
          counts := counts.(overrunFrames := counts.overrunFrames + 1,
                            expectedSamples := counts.expectedSamples + travelled);
      }
    }

    method Oldest() returns (best: Option<nat>)
      requires Valid()
      ensures best == OldestIn(slots[..], cursor, slots.Length)
    {
      best := None;
      var least := 0;
      for index := 0 to slots.Length
        invariant best == OldestIn(slots[..], cursor, index)
        invariant best.Some? ==> least == Distance32(slots[best.value].timestamp, cursor)
      {
        if slots[index].len != 0 {
          var distance := Distance32(slots[index].timestamp, cursor);
          if best == None || distance < least {
            best, least := Some(index), distance;
          }
        }
      }
    }

    method StoreFrame(timestamp: uint32, payload: seq<uint8>)
      requires Valid() && occupied < slots.Length && 0 < |payload| <= MAX_OPUS_PAYLOAD
      modifies this, slots
      ensures Contents() == Store(old(Contents()), timestamp, payload)
      ensures Valid()
    {
      NoneFree(slots[..]);
      var free := 0;
      while slots[free].len != 0
        invariant free < slots.Length
        invariant FreeFrom(slots[..], 0) == FreeFrom(slots[..], free)
        decreases slots.Length - free
      {
        assert FreeFrom(slots[..], free) > free;
        free := free + 1;
      }
      UsedAfter(slots[..], free, Filled(slots[free], timestamp, payload));
      slots[free] := Slot(timestamp, |payload|, payload + slots[free].bytes[|payload|..]);
      occupied := occupied + 1;
    }

    /** Frees the slot holding `timestamp`, if one does. */
    method Take(timestamp: uint32) returns (taken: Option<(nat, nat)>)
      requires Valid()
      modifies this`occupied, slots
      ensures var was, found := old(Contents()), HoldingFrom(old(slots[..]), timestamp, 0);
              if found == slots.Length then taken == None && Contents() == was
              else taken == Some((found, was.slots[found].len)) && Contents() == Vacate(was, found)
      ensures Valid()
    {
      var found := 0;
      while found < slots.Length && (slots[found].len == 0 || slots[found].timestamp != timestamp)
        invariant found <= slots.Length
        invariant HoldingFrom(slots[..], timestamp, 0) == HoldingFrom(slots[..], timestamp, found)
      {
        found := found + 1;
      }
      if found == slots.Length {
        return None;
      }
      var len := slots[found].len;
      UsedAfter(slots[..], found, slots[found].(len := 0));
      slots[found] := slots[found].(len := 0);
      occupied := occupied - 1;
      return Some((found, len));
    }
  }
}
