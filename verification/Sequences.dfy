/** Concatenation is associative; stated once because the solver does not try it by itself. */
module Sequences {
  lemma Regroup<T>(a: seq<T>, b: seq<T>, c: seq<T>)
    ensures (a + b) + c == a + (b + c)
  {
  }

  /** Positions in ascending order. */
  ghost predicate Increasing(pos: seq<nat>) {
    forall j, k | 0 <= j < k < |pos| :: pos[j] < pos[k]
  }
}
