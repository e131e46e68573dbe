/**
 The keys a snapshot says are held: 256 scan codes as one bit each in 32 bytes,
 changed in place, and what those bytes mean as a set.
 */
module KeyBits {
  import opened Wrap

  const SIZE := 32

  /** The byte with only this bit set: one shifted left by `bit`. */
  function Mask(bit: nat): bv8
    requires bit < 8
  {
    match bit
    case 0 => 0x01
    case 1 => 0x02
    case 2 => 0x04
    case 3 => 0x08
    case 4 => 0x10
    case 5 => 0x20
    case 6 => 0x40
    case _ => 0x80
  }

  predicate On(byte: bv8, bit: nat)
    requires bit < 8
  {
    byte & Mask(bit) != 0
  }

  /** A bit of a byte is its digit in base two, counted from the low end. */
  lemma BitIsDigit(byte: bv8, bit: nat)
    requires bit < 8
    ensures Mask(bit) == 1 << bit
    ensures On(byte, bit) <==> (byte >> bit) & 1 == 1
  {
  }

  /** Setting one bit changes that bit alone. */
  lemma SetBit(byte: bv8, bit: nat, other: nat)
    requires bit < 8 && other < 8
    ensures On(byte | Mask(bit), other) <==> other == bit || On(byte, other)
  {
  }

  /** And clearing one bit changes that bit alone. */
  lemma ClearBit(byte: bv8, bit: nat, other: nat)
    requires bit < 8 && other < 8
    ensures On(byte & !Mask(bit), other) <==> other != bit && On(byte, other)
  {
    var m, n := Mask(bit), Mask(other);
    assert (byte & !m) & n == byte & (n & !m);
  }

  /** A byte is no more than its eight bits. */
  lemma BitsDecide(a: bv8, b: bv8)
    requires forall bit: nat | bit < 8 :: On(a, bit) == On(b, bit)
    ensures a == b
  {
    assert On(a, 0) == On(b, 0) && On(a, 1) == On(b, 1) && On(a, 2) == On(b, 2) && On(a, 3) == On(b, 3);
    assert On(a, 4) == On(b, 4) && On(a, 5) == On(b, 5) && On(a, 6) == On(b, 6) && On(a, 7) == On(b, 7);
  }

  predicate Holds(bytes: seq<bv8>, code: uint8)
    requires |bytes| == SIZE
  {
    On(bytes[code / 8], code % 8)
  }

  /** The set the bytes stand for. */
  ghost function Codes(bytes: seq<bv8>): set<uint8>
    requires |bytes| == SIZE
  {
    set code: uint8 | 0 <= code < 0x100 && Holds(bytes, code)
  }

  /** Where a key is: bit `code % 8`, from the low end, of byte `code / 8`. */
  lemma CodesAreBits(bytes: seq<bv8>, i: nat, bit: nat, code: uint8)
    requires |bytes| == SIZE && i < 32 && bit < 8 && code == 8 * i + bit
    ensures code in Codes(bytes) <==> (bytes[i] >> bit) & 1 == 1
  {
    assert code / 8 == i && code % 8 == bit;
    BitIsDigit(bytes[i], bit);
  }

  /** The bytes lose nothing: two bitsets hold the same keys exactly when they are the same bytes. */
  lemma CodesDecide(a: seq<bv8>, b: seq<bv8>)
    requires |a| == |b| == SIZE
    ensures Codes(a) == Codes(b) <==> a == b
  {
    if Codes(a) == Codes(b) {
      forall i | 0 <= i < SIZE ensures a[i] == b[i] {
        forall bit: nat | bit < 8 ensures On(a[i], bit) == On(b[i], bit) {
          var code: uint8 := i * 8 + bit;
          assert code / 8 == i && code % 8 == bit;
          assert Holds(a, code) == (code in Codes(a)) == (code in Codes(b)) == Holds(b, code);
        }
        BitsDecide(a[i], b[i]);
      }
    }
  }

  /** One byte rewritten is one key pressed or released, whatever else that byte carries. */
  lemma OneKey(before: seq<bv8>, after: seq<bv8>, code: uint8, down: bool)
    requires |before| == |after| == SIZE
    requires after == before[code / 8 := if down then before[code / 8] | Mask(code % 8)
                                         else before[code / 8] & !Mask(code % 8)]
    ensures Codes(after) == if down then Codes(before) + {code} else Codes(before) - {code}
  {
    forall other: uint8 | 0 <= other < 0x100
      ensures Holds(after, other) <==> if other == code then down else Holds(before, other)
    {
      if other / 8 == code / 8 {
        assert other == code <==> other % 8 == code % 8;
        if down {
          SetBit(before[code / 8], code % 8, other % 8);
        } else {
          ClearBit(before[code / 8], code % 8, other % 8);
        }
      }
    }
  }

  /** A byte that is not zero has a bit set. */
  ghost function SomeBit(byte: bv8): (bit: nat)
    requires byte != 0
    ensures bit < 8 && On(byte, bit)
  {
    if On(byte, 0) then 0 else if On(byte, 1) then 1 else if On(byte, 2) then 2 else if On(byte, 3) then 3
    else if On(byte, 4) then 4 else if On(byte, 5) then 5 else if On(byte, 6) then 6 else 7
  }

  class KeyBitset {
    const bytes: array<bv8>

    ghost predicate Valid() {
      bytes.Length == SIZE
    }

    ghost function Held(): set<uint8>
      reads bytes
      requires Valid()
    {
      Codes(bytes[..])
    }

    constructor ()
      ensures Valid() && fresh(bytes) && Held() == {}
    {
      bytes := new bv8[SIZE](_ => 0);
      new;
      assert forall code: uint8 | 0 <= code < 0x100 :: !Holds(bytes[..], code);
    }

    method Set(code: uint8, down: bool)
      requires Valid()
      modifies bytes
      ensures Held() == if down then old(Held()) + {code} else old(Held()) - {code}
    {
      var i, bit := code / 8, Mask(code % 8);
      if down {
        bytes[i] := bytes[i] | bit;
      } else {
        bytes[i] := bytes[i] & !bit;
      }
      OneKey(old(bytes[..]), bytes[..], code, down);
    }

    method Contains(code: uint8) returns (held: bool)
      requires Valid()
      ensures held <==> code in Held()
    {
      held := bytes[code / 8] & Mask(code % 8) != 0;
      assert held == Holds(bytes[..], code);
    }

    method IsEmpty() returns (empty: bool)
      requires Valid()
      ensures empty <==> Held() == {}
    {
      var i := 0;
      while i < SIZE && bytes[i] == 0
        invariant 0 <= i <= SIZE
        invariant forall k | 0 <= k < i :: bytes[k] == 0
      {
        i := i + 1;
      }
      empty := i == SIZE;
      if empty {
        assert forall code: uint8 | 0 <= code < 0x100 :: !Holds(bytes[..], code);
      } else {
        var bit := SomeBit(bytes[i]);
        var code: uint8 := i * 8 + bit;
        assert code / 8 == i && code % 8 == bit;
        assert Holds(bytes[..], code) && code in Held();
      }
    }

    /** Every held key once, in scan code order. */
    method List() returns (codes: seq<uint8>)
      requires Valid()
      ensures forall j, k | 0 <= j < k < |codes| :: codes[j] < codes[k]
      ensures forall code: uint8 :: code in codes <==> code in Held()
    {
      codes := [];
      var next: int := 0;
      while next < 0x100
        invariant 0 <= next <= 0x100
        invariant forall j, k | 0 <= j < k < |codes| :: codes[j] < codes[k]
        invariant forall j | 0 <= j < |codes| :: codes[j] < next
        invariant forall code: uint8 :: code in codes <==> code < next && code in Held()
      {
        var code: uint8 := next;
        var held := Contains(code);
        if held {
          codes := codes + [code];
        }
        next := next + 1;
      }
    }
  }
}
