/**
 The ring that tells a first arrival from a copy, used with 1024 slots by the
 jitter buffer and with 4096 by the packet probe.

 The ring remembers one sequence number per slot. What it stands for is the set
 of every number that ever arrived, and `FreshExactly` says when the two agree.
 */
module SeenWindows {
  import opened Wrappers
  import opened Wrap

  type Ring = seq<Option<uint16>>

  /** What one arrival does to the ring, and whether it is a first sighting. */
  function Arrive(ring: Ring, sequence: uint16): (r: (bool, Ring))
    requires |ring| > 0
    ensures |r.1| == |ring|
  {
    var slot := sequence % |ring|;
    if ring[slot] == Some(sequence) then (false, ring)
    else (true, ring[slot := Some(sequence)])
  }

  function Empty(size: nat): (ring: Ring)
    ensures |ring| == size
  {
    seq(size, _ => None)
  }

  class SeenWindow {
    const size: nat
    const slots: array<Option<uint16>>

    ghost predicate Valid() {
      size > 0 && slots.Length == size
    }

    constructor (size: nat)
      requires size > 0
      ensures Valid() && fresh(slots) && this.size == size
      ensures slots[..] == Empty(size)
    {
      this.size := size;
      slots := new Option<uint16>[size](_ => None);
    }

    method Arrived(sequence: uint16) returns (first: bool)
      requires Valid()
      modifies slots
      ensures (first, slots[..]) == Arrive(old(slots[..]), sequence)
    {
      var slot := sequence % size;
      if slots[slot] == Some(sequence) {
        return false;
      }
      slots[slot] := Some(sequence);
      return true;
    }
  }

  /** The ring after a history of arrivals, given by their unwrapped numbers. */
  function After(size: nat, history: seq<int>): (ring: Ring)
    requires size > 0
    ensures |ring| == size
  {
    if history == [] then Empty(size)
    else Arrive(After(size, history[..|history| - 1]), Wrap16(history[|history| - 1])).1
  }

  ghost predicate Fresh(size: nat, history: seq<int>, number: int)
    requires size > 0
  {
    Arrive(After(size, history), Wrap16(number)).0
  }

  /** No arrival is a whole window or more behind one that came before it. */
  ghost predicate InWindow(size: nat, history: seq<int>) {
    forall i, j | 0 <= i < j < |history| :: history[i] < history[j] + size
  }

  /** The latest arrival that shares a slot with `number`. */
  ghost function LastSharing(size: nat, history: seq<int>, number: int): (last: Option<int>)
    requires size > 0
    ensures last.Some? ==> last.value in history && last.value % size == number % size
  {
    if history == [] then None
    else
      var latest := history[|history| - 1];
      if latest % size == number % size then Some(latest)
      else LastSharing(size, history[..|history| - 1], number)
  }

  /** The slot was last visited whole cycles of the 16-bit counter ago. */
  ghost predicate Stale(size: nat, history: seq<int>, number: int)
    requires size > 0
  {
    match LastSharing(size, history, number)
    case None => false
    case Some(last) => last < number && (number - last) % MOD16 == 0
  }

  /** Both ring sizes in use divide the 16-bit cycle, so a slot is a residue class. */
  ghost predicate RingSize(size: nat) {
    size == 1024 || size == 4096
  }

  lemma Residue1024(x: int, k: int, r: int)
    requires x == 1024 * k + r && 0 <= r < 1024
    ensures x % 1024 == r
  {
  }

  lemma Residue4096(x: int, k: int, r: int)
    requires x == 4096 * k + r && 0 <= r < 4096
    ensures x % 4096 == r
  {
  }

  lemma SlotIsResidue(size: nat, x: int)
    requires RingSize(size)
    ensures Wrap16(x) % size == x % size
  {
    var turns, wrapped: int := x / MOD16, Wrap16(x);
    if size == 1024 {
      Residue1024(x, 64 * turns + wrapped / 1024, wrapped % 1024);
    } else {
      Residue4096(x, 16 * turns + wrapped / 4096, wrapped % 4096);
    }
  }

  lemma SameSlotFarApart(size: nat, x: int, y: int)
    requires RingSize(size) && x % size == y % size && x != y
    ensures x + size <= y || y + size <= x
  {
  }

  /** The ring's own content: in each slot, the latest arrival of its class. */
  lemma {:induction false} SlotHoldsLast(size: nat, history: seq<int>, number: int)
    requires RingSize(size)
    ensures After(size, history)[number % size]
         == match LastSharing(size, history, number) { case None => None case Some(last) => Some(Wrap16(last)) }
  {
    if history != [] {
      var before, latest := history[..|history| - 1], history[|history| - 1];
      SlotHoldsLast(size, before, number);
      SlotIsResidue(size, latest);
    }
  }

  lemma FreshReadsLast(size: nat, history: seq<int>, number: int)
    requires RingSize(size)
    ensures var last := LastSharing(size, history, number);
            Fresh(size, history, number) <==> last.None? || Wrap16(last.value) != Wrap16(number)
  {
    SlotHoldsLast(size, history, number);
    SlotIsResidue(size, number);
  }

  /** Under the window, the last arrival sharing a slot with a known number is that number. */
  lemma {:induction false} LastSharingIsItself(size: nat, history: seq<int>, number: int)
    requires RingSize(size)
    requires InWindow(size, history + [number]) && number in history
    ensures LastSharing(size, history, number) == Some(number)
  {
    var before, latest := history[..|history| - 1], history[|history| - 1];
    var whole := history + [number];
    var i :| 0 <= i < |history| && history[i] == number;
    assert whole[i] == whole[|history|] == number && whole[|history| - 1] == latest;
    if latest % size == number % size {
      if latest != number {
        SameSlotFarApart(size, latest, number);
      }
    } else {
      assert before[i] == number;
      assert forall j | 0 <= j < |history| :: (before + [number])[j] == whole[if j < |before| then j else |history|];
      LastSharingIsItself(size, before, number);
    }
  }

  /** Under the window, whatever last shared a slot with an unseen number is behind it. */
  lemma LastSharingIsBehind(size: nat, history: seq<int>, number: int)
    requires RingSize(size)
    requires InWindow(size, history + [number]) && number !in history
    ensures var last := LastSharing(size, history, number); last.Some? ==> last.value < number
  {
    if LastSharing(size, history, number).Some? {
      var last := LastSharing(size, history, number).value;
      SameSlotFarApart(size, last, number);
      var i :| 0 <= i < |history| && history[i] == last;
      assert (history + [number])[i] == last && (history + [number])[|history|] == number;
    }
  }

  lemma SameOnTheWire(x: int, y: int)
    ensures Wrap16(x) == Wrap16(y) <==> (y - x) % MOD16 == 0
  {
  }

  /**
   The ring against the unbounded set it stands for, on every history that stays
   within one window: it calls a number fresh exactly when the number never
   arrived and its slot was not last visited whole 16-bit cycles ago.
   */
  lemma FreshExactly(size: nat, history: seq<int>, number: int)
    requires RingSize(size)
    requires InWindow(size, history + [number])
    ensures Fresh(size, history, number) <==> number !in history && !Stale(size, history, number)
  {
    var last := LastSharing(size, history, number);
    FreshReadsLast(size, history, number);
    if number in history {
      LastSharingIsItself(size, history, number);
    } else {
      LastSharingIsBehind(size, history, number);
      if last.Some? {
        SameOnTheWire(last.value, number);
      }
    }
  }

  /**
   Outside the window the ring forgets: a late straggler evicts the number it
   shares a slot with, and a copy of that number then passes for new.
   */
  lemma StragglerEvicts()
    ensures Fresh(1024, [1024, 0], 1024)
    ensures !InWindow(1024, [1024, 0, 1024])
  {
    var history := [1024, 0];
    assert LastSharing(1024, history, 1024) == Some(0);
    FreshReadsLast(1024, history, 1024);
    assert [1024, 0, 1024][0] == 1024 && [1024, 0, 1024][1] == 0;
  }
}
