/** Ticks a whole number of frames apart, and least elements of finite sets of ticks. */
module Grid {
  /** The ticks in a number of frames. */
  function Ticks(step: int, frames: int): int {
    step * frames
  }

  lemma TicksNext(step: int, frames: int, next: int)
    requires next == frames + 1
    ensures Ticks(step, next) == Ticks(step, frames) + step
  {
  }

  lemma TicksForward(step: nat, frames: nat)
    ensures Ticks(step, frames) >= 0
  {
  }

  lemma TicksZero(step: nat, frames: nat)
    requires step > 0
    ensures Ticks(step, frames) >= 0
    ensures Ticks(step, frames) == 0 <==> frames == 0
  {
    assert frames >= 1 ==> Ticks(step, frames) >= step;
  }

  lemma TicksDiffer(step: int, a: int, b: int, difference: int)
    requires difference == a - b
    ensures Ticks(step, difference) == Ticks(step, a) - Ticks(step, b)
  {
  }

  predicate Aligned(step: int, a: int, b: int)
    requires step > 0
  {
    (a - b) % step == 0
  }

  lemma MultipleIsWhole(step: int, k: int)
    requires step > 0
    ensures k * step % step == 0
  {
    var q, r := k * step / step, k * step % step;
    assert k * step == q * step + r;
    assert (k - q) * step == r;
    assert k - q >= 1 ==> (k - q) * step >= step;
    assert k - q <= -1 ==> (k - q) * step <= -step;
  }

  lemma AlignedSelf(step: int, a: int)
    requires step > 0
    ensures Aligned(step, a, a)
  {
  }

  lemma AlignedSymmetric(step: int, a: int, b: int)
    requires step > 0 && Aligned(step, a, b)
    ensures Aligned(step, b, a)
  {
    var k := (a - b) / step;
    assert a - b == k * step;
    MultipleIsWhole(step, -k);
    assert -k * step == b - a;
  }

  lemma AlignedTransitive(step: int, a: int, b: int, c: int)
    requires step > 0 && Aligned(step, a, b) && Aligned(step, b, c)
    ensures Aligned(step, a, c)
  {
    var j, k := (a - b) / step, (b - c) / step;
    assert a - b == j * step && b - c == k * step;
    MultipleIsWhole(step, j + k);
    assert (j + k) * step == a - c;
  }

  lemma AlignedNext(step: int, a: int, next: int)
    requires step > 0 && next == a + step
    ensures Aligned(step, next, a) && Aligned(step, a, next)
  {
  }

  /** Two ticks on one grid are at least a step apart. */
  lemma AlignedGap(step: int, a: int, b: int)
    requires step > 0 && a < b && Aligned(step, b, a)
    ensures a + step <= b
  {
  }

  ghost function Member<T>(s: set<T>): (x: T)
    requires s != {}
    ensures x in s
  {
    var x :| x in s; x
  }

  lemma {:induction false} LeastExists(s: set<int>)
    requires s != {}
    ensures exists least :: least in s && forall x | x in s :: least <= x
    decreases |s|
  {
    var x := Member(s);
    var rest := s - {x};
    if rest == {} {
      assert s == {x};
    } else {
      LeastExists(rest);
      var least :| least in rest && forall y | y in rest :: least <= y;
      assert forall y | y in s :: y == x || y in rest;
      var smaller := if x < least then x else least;
      assert smaller in s && forall y | y in s :: smaller <= y;
    }
  }

  ghost function Least(s: set<int>): (least: int)
    requires s != {}
    ensures least in s && forall x | x in s :: least <= x
  {
    LeastExists(s);
    var least :| least in s && forall x | x in s :: least <= x;
    least
  }
}
