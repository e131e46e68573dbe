/** Fixed-width integers as the bytes they travel in, most significant first. */
module BigEndian {
  import opened Wrap

  type uint64 = x: int | 0 <= x < 0x1_0000_0000_0000_0000
  type int16 = x: int | -0x8000 <= x < 0x8000
  type int32 = x: int | -0x8000_0000 <= x < 0x8000_0000
  type Bytes = seq<uint8>

  function Be16(x: uint16): (bs: Bytes)
    ensures |bs| == 2
  {
    assert x / 0x100 < 0x100;
    [x / 0x100, x % 0x100]
  }

  function Be32(x: uint32): (bs: Bytes)
    ensures |bs| == 4
  {
    assert x / 0x1_0000 < 0x1_0000;
    Be16(x / 0x1_0000) + Be16(x % 0x1_0000)
  }

  function Be64(x: uint64): (bs: Bytes)
    ensures |bs| == 8
  {
    assert x / 0x1_0000_0000 < 0x1_0000_0000;
    Be32(x / 0x1_0000_0000) + Be32(x % 0x1_0000_0000)
  }

  function At16(bs: Bytes, i: nat): uint16
    requires i + 2 <= |bs|
  {
    var high: int := bs[i];
    high * 0x100 + bs[i + 1]
  }

  function At32(bs: Bytes, i: nat): uint32
    requires i + 4 <= |bs|
  {
    At16(bs, i) * 0x1_0000 + At16(bs, i + 2)
  }

  function At64(bs: Bytes, i: nat): uint64
    requires i + 8 <= |bs|
  {
    At32(bs, i) * 0x1_0000_0000 + At32(bs, i + 4)
  }

  // The same bits reread with the other signedness

  function Unsigned16(x: int16): uint16 {
    if x < 0 then x + 0x1_0000 else x
  }

  function Signed16(x: uint16): int16 {
    if x < 0x8000 then x else x - 0x1_0000
  }

  function Unsigned32(x: int32): uint32 {
    if x < 0 then x + 0x1_0000_0000 else x
  }

  function Signed32(x: uint32): int32 {
    if x < 0x8000_0000 then x else x - 0x1_0000_0000
  }

  /** The low bytes of a number, most significant first; of a negative one, those of its two's complement. */
  function Big(width: nat, x: int): (bs: Bytes)
    ensures |bs| == width
  {
    if width == 0 then [] else Big(width - 1, x / 0x100) + [x % 0x100]
  }

  lemma Split8(x: int, high: int, low: int)
    requires x == 0x100 * high + low && 0 <= low < 0x100
    ensures x / 0x100 == high && x % 0x100 == low
  {
  }

  lemma Split16(x: int, high: int, low: int)
    requires x == 0x1_0000 * high + low && 0 <= low < 0x1_0000
    ensures x / 0x1_0000 == high && x % 0x1_0000 == low
  {
  }

  lemma Big16(x: int, turns: int, low: uint16)
    requires x == 0x1_0000 * turns + low
    ensures Big(2, x) == Be16(low)
  {
    var q := x / 0x100;
    Split8(low, low / 0x100, low % 0x100);
    Split8(x, 0x100 * turns + low / 0x100, low % 0x100);
    Split8(q, turns, low / 0x100);
    assert Big(1, q) == [q % 0x100];
  }

  lemma BigTwoMore(width: nat, x: int, high: int)
    requires high == x / 0x1_0000
    ensures Big(width + 2, x) == Big(width, high) + Big(2, x)
  {
    assert x / 0x100 / 0x100 == high;
    assert Big(width + 1, x / 0x100) == Big(width, high) + [x / 0x100 % 0x100];
    assert Big(2, x) == [x / 0x100 % 0x100, x % 0x100];
  }

  lemma Big32(x: int, turns: int, low: uint32)
    requires x == 0x1_0000_0000 * turns + low
    ensures Big(4, x) == Be32(low)
  {
    var middle, r: uint16 := low / 0x1_0000, low % 0x1_0000;
    var q := 0x1_0000 * turns + middle;
    Split16(x, q, r);
    BigTwoMore(2, x, q);
    Big16(x, q, r);
    Big16(q, turns, middle);
  }

  lemma Big64(x: uint64)
    ensures Big(8, x) == Be64(x)
  {
    var middle, high: uint32 := x / 0x1_0000, x / 0x1_0000_0000;
    Split16(middle, high, middle % 0x1_0000);
    BigTwoMore(6, x, middle);
    BigTwoMore(4, middle, high);
    BigTwoMore(2, x, middle);
    Big32(x, high, x % 0x1_0000_0000);
    Big32(high, 0, high);
    assert Big(8, x) == Big(4, high) + Big(4, x);
  }

  /** Each field is written as its big-endian bytes, signed or not. */
  lemma WritersAreBig(x: uint16, y: uint32, z: uint64, i: int16, j: int32)
    ensures Be16(x) == Big(2, x) && Be32(y) == Big(4, y) && Be64(z) == Big(8, z)
    ensures Be16(Unsigned16(i)) == Big(2, i) && Be32(Unsigned32(j)) == Big(4, j)
  {
    Big16(x, 0, x);
    Big32(y, 0, y);
    Big64(z);
    Big16(i, if i < 0 then -1 else 0, Unsigned16(i));
    Big32(j, if j < 0 then -1 else 0, Unsigned32(j));
  }

  /** Whatever is read at `i`, written back, is the bytes that were there. */
  lemma Writes16(bs: Bytes, i: nat)
    requires i + 2 <= |bs|
    ensures Be16(At16(bs, i)) == bs[i..i + 2]
  {
  }

  lemma Writes32(bs: Bytes, i: nat)
    requires i + 4 <= |bs|
    ensures Be32(At32(bs, i)) == bs[i..i + 4]
  {
  }

  lemma Writes64(bs: Bytes, i: nat)
    requires i + 8 <= |bs|
    ensures Be64(At64(bs, i)) == bs[i..i + 8]
  {
    Writes32(bs, i);
    Writes32(bs, i + 4);
    assert At64(bs, i) / 0x1_0000_0000 == At32(bs, i);
    assert bs[i..i + 8] == bs[i..i + 4] + bs[i + 4..i + 8];
  }
}
