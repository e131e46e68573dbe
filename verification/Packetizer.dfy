/**
 The sender's RTP counters: a 16-bit sequence number and a 32-bit sample count,
 each wrapping, each moved only by a datagram that was written.
 */
module Packetizer {
  import opened Wrappers
  import opened Wrap
  import opened Grid
  import opened SlotBuffer

  /** 2.5, 5, 10, 20, 40 and 60 ms of one channel at 48 kHz. */
  const FRAME_SAMPLE_COUNTS: set<int> := {120, 240, 480, 960, 1920, 2880}

  datatype Counters = Counters(sequence: uint16, timestamp: uint32)

  datatype Refusal = EmptyFrame | PayloadTooLarge(bytes: nat) | NotAFrameLength(samples: nat)

  datatype Written = Written(packet: Packet, after: Counters) | Refused(why: Refusal)

  function Write(c: Counters, frame: seq<uint8>, samples: uint32): Written {
    if frame == [] then Refused(EmptyFrame)
    else if |frame| > MAX_OPUS_PAYLOAD then Refused(PayloadTooLarge(|frame|))
    else if samples !in FRAME_SAMPLE_COUNTS then Refused(NotAFrameLength(samples))
    else
      Written(Packet(c.sequence, c.timestamp, frame),
              Counters(Wrap16(c.sequence + 1), Wrap32(c.timestamp + samples)))
  }

  /** A frame length Opus has, in milliseconds at 48 kHz. */
  predicate IsFrameLength(samples: uint32) {
    samples as real / 48.0 in {2.5, 5.0, 10.0, 20.0, 40.0, 60.0}
  }

  /**
   A frame is written exactly when it is not empty, not over the payload limit and of a
   length Opus has; otherwise it is refused for the first of those it fails.
   */
  lemma WritesExactly(c: Counters, frame: seq<uint8>, samples: uint32)
    ensures var w := Write(c, frame, samples);
            && (w.Written? <==> 0 < |frame| <= 1188 && IsFrameLength(samples))
            && (w.Written? ==> w.packet.payload == frame)
            && (w == Refused(EmptyFrame) <==> |frame| == 0)
            && (w == Refused(PayloadTooLarge(|frame|)) <==> |frame| > 1188)
            && (w == Refused(NotAFrameLength(samples)) <==> 0 < |frame| <= 1188 && !IsFrameLength(samples))
  {
  }

  class OpusPacketizer {
    var counters: Counters

    constructor (sequence: uint16, timestamp: uint32)
      ensures counters == Counters(sequence, timestamp)
    {
      counters := Counters(sequence, timestamp);
    }

    /** A refused frame leaves both counters where they were. */
    method Next(frame: seq<uint8>, samples: uint32) returns (written: Written)
      modifies this
      ensures written == Write(old(counters), frame, samples)
      ensures counters == if written.Written? then written.after else old(counters)
    {
      if frame == [] {
        return Refused(EmptyFrame);
      }
      if |frame| > MAX_OPUS_PAYLOAD {
        return Refused(PayloadTooLarge(|frame|));
      }
      if samples !in FRAME_SAMPLE_COUNTS {
        return Refused(NotAFrameLength(samples));
      }
      var packet := Packet(counters.sequence, counters.timestamp, frame);
      counters := Counters(Wrap16(counters.sequence + 1), Wrap32(counters.timestamp + samples));
      return Written(packet, counters);
    }
  }

  /** The counters after `written` datagrams of one frame length. */
  function CountersAt(start: Counters, samples: uint32, written: nat): Counters {
    Counters(Wrap16(start.sequence + written), Wrap32(start.timestamp + Ticks(samples, written)))
  }

  /**
   Through both wraps, the datagram written after `written` others carries the
   start's sequence number plus `written` and its timestamp plus as many frames.
   */
  lemma StampsAreAffine(start: Counters, samples: uint32, written: nat, frame: seq<uint8>)
    requires Write(CountersAt(start, samples, written), frame, samples).Written?
    ensures var w := Write(CountersAt(start, samples, written), frame, samples);
            && w.packet == Packet(Wrap16(start.sequence + written),
                Wrap32(start.timestamp + Ticks(samples, written)), frame)
            && w.after == CountersAt(start, samples, written + 1)
            && 0 < |frame| <= MAX_OPUS_PAYLOAD
  {
    TicksNext(samples, written, written + 1);
    WrapAdds16(start.sequence + written, 1, start.sequence + (written + 1));
    WrapAdds32(start.timestamp + Ticks(samples, written), samples, start.timestamp + Ticks(samples, written + 1));
  }
}
