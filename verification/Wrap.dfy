/**
 Wrapping counters, and the two signed distances taken between them.

 A wire timestamp is an unbounded sample count reduced to 32 bits, and a wire
 sequence number an unbounded packet count reduced to 16. `Distance32` and
 `Distance16` are the wrapped subtraction reread as a signed number, so each is
 the true difference exactly while that difference fits in half the range.
 */
module Wrap {
  const MOD16 := 0x1_0000
  const HALF16 := 0x8000
  const MOD32 := 0x1_0000_0000
  const HALF32 := 0x8000_0000

  type uint8 = x: int | 0 <= x < 0x100
  type uint16 = x: int | 0 <= x < 0x1_0000
  type uint32 = x: int | 0 <= x < 0x1_0000_0000

  function Wrap16(x: int): uint16 {
    x % MOD16
  }

  function Wrap32(x: int): uint32 {
    x % MOD32
  }

  function Distance16(later: uint16, earlier: uint16): int {
    var d := (later - earlier) % MOD16;
    if d < HALF16 then d else d - MOD16
  }

  function Distance32(later: uint32, earlier: uint32): int {
    var d := (later - earlier) % MOD32;
    if d < HALF32 then d else d - MOD32
  }

  /** The wrapped distance is the true one exactly within half the range. */
  lemma DistanceIsDifference32(x: int, y: int)
    ensures Distance32(Wrap32(x), Wrap32(y)) == x - y <==> -HALF32 <= x - y < HALF32
  {
  }

  lemma DistanceIsDifference16(x: int, y: int)
    ensures Distance16(Wrap16(x), Wrap16(y)) == x - y <==> -HALF16 <= x - y < HALF16
  {
  }

  /** A counter wraps the same whether it wraps at each step or once at the end. */
  lemma WrapAdds32(x: int, step: int, sum: int)
    requires sum == x + step
    ensures Wrap32(Wrap32(x) + step) == Wrap32(sum)
  {
  }

  lemma WrapAdds16(x: int, step: int, sum: int)
    requires sum == x + step
    ensures Wrap16(Wrap16(x) + step) == Wrap16(sum)
  {
  }
}
