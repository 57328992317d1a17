// Sequences of integers without repetition, and in ascending order.
module Sequences {

  // Each element once, in the order of first appearance.
  function Distinct(xs: seq<int>): (out: seq<int>)
    ensures forall x :: x in out <==> x in xs
    ensures forall i, j :: 0 <= i < j < |out| ==> out[i] != out[j]
  {
    if xs == [] then []
    else
      var front, x := Distinct(xs[..|xs| - 1]), xs[|xs| - 1];
      assert xs == xs[..|xs| - 1] + [x];
      if x in front then front else front + [x]
  }

  predicate Ascending(xs: seq<int>) { forall i, j :: 0 <= i < j < |xs| ==> xs[i] < xs[j] }

  // A new element at its place.
  function Inserted(xs: seq<int>, x: int): (out: seq<int>)
    requires Ascending(xs) && x !in xs
    ensures Ascending(out) && forall y :: y in out <==> y in xs || y == x
  {
    if xs == [] || x < xs[0] then [x] + xs
    else
      assert forall y :: y in xs <==> y == xs[0] || y in xs[1..];
      assert forall j :: 0 <= j < |xs| - 1 ==> xs[1..][j] == xs[j + 1] && xs[0] < xs[1..][j];
      assert forall y :: y in xs[1..] ==> xs[0] < y;
      var rest := Inserted(xs[1..], x);
      assert xs[0] < x;
      assert forall y :: y in rest ==> xs[0] < y;
      assert forall j :: 0 <= j < |rest| ==> rest[j] in rest;
      [xs[0]] + rest
  }

  function Sorted(xs: seq<int>): (out: seq<int>)
    ensures Ascending(out) && forall x :: x in out <==> x in xs
  {
    if xs == [] then []
    else
      var front, x := Sorted(xs[..|xs| - 1]), xs[|xs| - 1];
      assert xs == xs[..|xs| - 1] + [x];
      if x in front then front else Inserted(front, x)
  }
}
