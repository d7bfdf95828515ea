/** Shared value types and sequence facts. */
module Prelude {
  datatype Option<+T> = None | Some(value: T)

  /** The sequence obtained by joining all the parts in order. */
  function Flatten<T>(parts: seq<seq<T>>): seq<T> {
    if parts == [] then [] else Flatten(parts[..|parts| - 1]) + parts[|parts| - 1]
  }

  /** Consecutive elements, and hence any two elements, are in increasing order. */
  ghost predicate StrictlyIncreasing(xs: seq<int>) {
    forall i, j :: 0 <= i < j < |xs| ==> xs[i] < xs[j]
  }

  /** How often x occurs in xs. */
  function Count<T(==)>(xs: seq<T>, x: T): nat {
    if xs == [] then 0 else Count(xs[..|xs| - 1], x) + if xs[|xs| - 1] == x then 1 else 0
  }

  lemma {:induction false} CountAbsent<T>(xs: seq<T>, x: T)
    requires x !in xs
    ensures Count(xs, x) == 0
  {
    if xs != [] {
      CountAbsent(xs[..|xs| - 1], x);
    }
  }

  lemma {:induction false} CountOnce(xs: seq<int>, x: int)
    requires StrictlyIncreasing(xs) && x in xs
    ensures Count(xs, x) == 1
  {
    var front, last := xs[..|xs| - 1], xs[|xs| - 1];
    if x == last {
      assert x !in front;
      CountAbsent(front, x);
    } else {
      assert x in front;
      CountOnce(front, x);
    }
  }
}
