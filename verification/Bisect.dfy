// Positions in a sorted list, as Python's bisect module finds them.
module Bisect {

  ghost predicate Sorted(xs: seq<int>) {
    forall i, j :: 0 <= i < j < |xs| ==> xs[i] <= xs[j]
  }

  // The position after the last element that is at most x.
  function Right(xs: seq<int>, x: int): (p: nat)
    ensures p <= |xs|
    ensures 0 < p ==> xs[p - 1] <= x
    ensures forall i :: p <= i < |xs| ==> x < xs[i]
  {
    if xs == [] then 0
    else if xs[|xs| - 1] <= x then |xs|
    else Right(xs[..|xs| - 1], x)
  }

  // The position of the first element that is at least x, in a sorted list.
  function Left(xs: seq<int>, x: int): (p: nat)
    ensures p <= |xs|
    ensures 0 < p ==> xs[p - 1] < x
    ensures forall i :: p <= i < |xs| ==> x <= xs[i]
  {
    if xs == [] then 0
    else if xs[|xs| - 1] < x then |xs|
    else Left(xs[..|xs| - 1], x)
  }

  // Two bisections cut out of a sorted list exactly the elements within the bounds.
  lemma Between(xs: seq<int>, lo: int, hi: int, l: nat, r: nat)
    requires Sorted(xs) && lo <= hi && l == Left(xs, lo) && r == Right(xs, hi)
    ensures l <= r <= |xs|
    ensures forall i :: 0 <= i < |xs| ==> (l <= i < r <==> lo <= xs[i] <= hi)
  {
    assert forall i :: 0 <= i < l ==> xs[i] <= xs[l - 1] < lo;
    assert forall i :: 0 <= i < r ==> xs[i] <= xs[r - 1] <= hi;
    assert r < |xs| ==> hi < xs[r];
  }
}
