/** What the modules share: the option type, the larger of two numbers, and counting. */
module Wrappers {
  datatype Option<+T> = None | Some(value: T)

  function Max(a: int, b: int): int {
    if a < b then b else a
  }

  /** How many of these satisfy it. */
  function Count<T>(satisfies: T -> bool, xs: seq<T>): nat {
    if xs == [] then 0 else (if satisfies(xs[0]) then 1 else 0) + Count(satisfies, xs[1..])
  }

  lemma {:induction false} CountJoins<T>(satisfies: T -> bool, a: seq<T>, b: seq<T>)
    ensures Count(satisfies, a + b) == Count(satisfies, a) + Count(satisfies, b)
    decreases |a|
  {
    if a == [] {
      assert a + b == b;
    } else {
      assert (a + b)[1..] == a[1..] + b;
      CountJoins(satisfies, a[1..], b);
    }
  }
}
