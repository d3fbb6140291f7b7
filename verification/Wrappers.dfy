/** The optional value, and what other modules share about sequences. */
module Wrappers {
  datatype Option<+T> = None | Some(value: T)

  lemma Regroup<T>(a: seq<T>, b: seq<T>, c: seq<T>)
    ensures (a + b) + c == a + (b + c)
  {
  }

  /** The indices pick the part out of the whole, in order. */
  predicate Picks<T(==)>(part: seq<T>, whole: seq<T>, at: seq<nat>) {
    && |at| == |part|
    && (forall k :: 0 <= k < |at| ==> at[k] < |whole| && part[k] == whole[at[k]])
    && (forall j, k :: 0 <= j < k < |at| ==> at[j] < at[k])
  }

  lemma PicksLater<T>(part: seq<T>, whole: seq<T>, at: seq<nat>) returns (moved: seq<nat>)
    requires whole != [] && Picks(part, whole[1..], at)
    ensures Picks(part, whole, moved) && forall k :: 0 <= k < |moved| ==> moved[k] > 0
  {
    moved := seq(|at|, (k: int) requires 0 <= k < |at| => at[k] + 1);
  }

  lemma PicksFirst<T>(part: seq<T>, whole: seq<T>, at: seq<nat>)
    requires whole != [] && Picks(part, whole, at) && forall k :: 0 <= k < |at| ==> at[k] > 0
    ensures Picks([whole[0]] + part, whole, [0] + at)
  {
  }
}
