/** Small helpers shared by every component of the model. */
module Util {

  datatype Option<+T> = None | Some(value: T)

  /** The position of the first occurrence of `x`, or `|xs|` when there is none. */
  function IndexOf<T(==)>(xs: seq<T>, x: T): (i: nat)
    ensures i <= |xs|
    ensures x in xs <==> i < |xs|
    ensures i < |xs| ==> xs[i] == x
    ensures forall j :: 0 <= j < i ==> xs[j] != x
  {
    if xs == [] then 0
    else if xs[0] == x then 0
    else 1 + IndexOf(xs[1..], x)
  }

  ghost predicate NoDup<T>(xs: seq<T>) {
    forall i, j :: 0 <= i < j < |xs| ==> xs[i] != xs[j]
  }

  /** In a duplicate-free sequence every element is found where it stands. */
  lemma IndexOfAt<T>(xs: seq<T>, i: nat)
    requires i < |xs| && NoDup(xs)
    ensures IndexOf(xs, xs[i]) == i
  {
  }
}
