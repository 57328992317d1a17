// Scaling a sample of error counts up to a window's total by largest remainders (lib/own-error-bucket.js).
module Apportion {

  function Sum(xs: seq<nat>): nat {
    if xs == [] then 0 else Sum(xs[..|xs| - 1]) + xs[|xs| - 1]
  }

  // The exact share of a weight is w * target / sum: its whole part, and the numerator of its fraction over sum.
  function Whole(w: nat, target: nat, sum: nat): nat
    requires sum > 0
  {
    w * target / sum
  }

  function Fraction(w: nat, target: nat, sum: nat): nat
    requires sum > 0
  {
    w * target % sum
  }

  // Greater fractions come first, equal ones in the order they are given.
  predicate Precedes(weights: seq<nat>, target: nat, i: nat, j: nat)
    requires i < |weights| && j < |weights| && Sum(weights) > 0
  {
    var f, g := Fraction(weights[i], target, Sum(weights)), Fraction(weights[j], target, Sum(weights));
    f > g || (f == g && i < j)
  }

  // What the parts have to be: whole shares, and one more for as many of the first ones as it takes to reach the target.
  ghost predicate Apportioned(weights: seq<nat>, target: nat, parts: seq<nat>) {
    && |parts| == |weights|
    && if Sum(weights) == 0 then forall i :: 0 <= i < |parts| ==> parts[i] == 0
       else
         && Sum(parts) == target
         && (forall i :: 0 <= i < |parts| ==> RoundedAt(weights, target, parts, i))
         && (forall i, j :: 0 <= i < |parts| && 0 <= j < |parts| && RaisedAt(weights, target, parts, i) && !RaisedAt(weights, target, parts, j)
               ==> Precedes(weights, target, i, j))
  }

  predicate RaisedAt(weights: seq<nat>, target: nat, parts: seq<nat>, i: nat)
    requires |parts| == |weights| && i < |parts| && Sum(weights) > 0
  {
    parts[i] > Whole(weights[i], target, Sum(weights))
  }

  // A part is its exact share rounded down or up; one that is exact already is not rounded.
  predicate RoundedAt(weights: seq<nat>, target: nat, parts: seq<nat>, i: nat)
    requires |parts| == |weights| && i < |parts| && Sum(weights) > 0
  {
    var whole, f := Whole(weights[i], target, Sum(weights)), Fraction(weights[i], target, Sum(weights));
    parts[i] == whole || (parts[i] == whole + 1 && f > 0)
  }

  // ----- shares

  function Wholes(weights: seq<nat>, target: nat, sum: nat): seq<nat>
    requires sum > 0
  {
    seq(|weights|, i requires 0 <= i < |weights| => Whole(weights[i], target, sum))
  }

  function Fractions(weights: seq<nat>, target: nat, sum: nat): seq<nat>
    requires sum > 0
  {
    seq(|weights|, i requires 0 <= i < |weights| => Fraction(weights[i], target, sum))
  }

  // Whole shares and fractions together are the exact shares.
  lemma {:induction false} SharesAddUp(weights: seq<nat>, target: nat, sum: nat)
    requires sum > 0
    ensures sum * Sum(Wholes(weights, target, sum)) + Sum(Fractions(weights, target, sum)) == Sum(weights) * target
  {
    if weights != [] {
      var n := |weights| - 1;
      var front, w := weights[..n], weights[n];
      SharesAddUp(front, target, sum);
      assert Wholes(weights, target, sum)[..n] == Wholes(front, target, sum);
      assert Fractions(weights, target, sum)[..n] == Fractions(front, target, sum);
      DivMod(w * target, sum);
      hide Sum, Wholes, Fractions;
      ShareStep(sum, target, Sum(front), w, Sum(Wholes(front, target, sum)), Whole(w, target, sum), Sum(Fractions(front, target, sum)), Fraction(w, target, sum));
      SumOneMore(weights);
      SumOneMore(Wholes(weights, target, sum));
      SumOneMore(Fractions(weights, target, sum));
      LastShare(weights, target, sum);
    }
  }

  lemma SumOneMore(xs: seq<nat>)
    ensures xs != [] ==> Sum(xs) == Sum(xs[..|xs| - 1]) + xs[|xs| - 1]
  {}

  lemma LastShare(weights: seq<nat>, target: nat, sum: nat)
    requires sum > 0 && weights != []
    ensures var n, ws, fs := |weights| - 1, Wholes(weights, target, sum), Fractions(weights, target, sum);
            |ws| == n + 1 && |fs| == n + 1 && ws[n] == Whole(weights[n], target, sum) && fs[n] == Fraction(weights[n], target, sum)
  {}

  lemma ShareStep(sum: int, target: int, s: int, w: int, whole: int, q: int, fraction: int, r: int)
    requires sum * whole + fraction == s * target && sum * q + r == w * target
    ensures sum * (whole + q) + (fraction + r) == (s + w) * target
  {}

  lemma DivMod(x: nat, d: nat)
    requires d > 0
    ensures d * (x / d) + x % d == x
  {}

  lemma Distribute(a: int, b: int, c: int)
    ensures a * (b + c) == a * b + a * c
  {}

  function Positives(xs: seq<nat>): nat {
    if xs == [] then 0 else Positives(xs[..|xs| - 1]) + if xs[|xs| - 1] > 0 then 1 else 0
  }

  lemma {:induction false} SmallFractions(fractions: seq<nat>, sum: nat)
    requires forall i :: 0 <= i < |fractions| ==> fractions[i] < sum
    ensures Sum(fractions) <= sum * Positives(fractions)
    ensures Positives(fractions) > 0 ==> Sum(fractions) < sum * Positives(fractions)
  {
    if fractions != [] {
      var n := |fractions| - 1;
      SmallFractions(fractions[..n], sum);
      Distribute(sum, Positives(fractions[..n]), 1);
    }
  }

  // What is left after rounding down is at most the number of fractions that are not zero.
  lemma LeftOver(weights: seq<nat>, target: nat)
    requires Sum(weights) > 0
    ensures var sum := Sum(weights);
            && 0 <= target - Sum(Wholes(weights, target, sum)) <= Positives(Fractions(weights, target, sum))
  {
    var sum := Sum(weights);
    var whole, fractions := Sum(Wholes(weights, target, sum)), Fractions(weights, target, sum);
    SharesAddUp(weights, target, sum);
    SmallFractions(fractions, sum);
    Distribute(sum, target - whole, whole);
    assert sum * (target - whole) == Sum(fractions);
    if target < whole { Larger(sum, whole - target); }
    if target - whole > Positives(fractions) { Monotone(sum, Positives(fractions) + 1, target - whole); Distribute(sum, Positives(fractions), 1); }
  }

  lemma Larger(a: int, b: int)
    requires a > 0 && b > 0
    ensures a * -b < 0
  {}

  lemma Monotone(a: int, b: int, c: int)
    requires a > 0 && b <= c
    ensures a * b <= a * c
  {}

  // ----- the order of fractions

  predicate Orders(order: seq<nat>, fractions: seq<nat>) {
    && (forall p :: 0 <= p < |order| ==> order[p] < |fractions|)
    && (forall p, q :: 0 <= p < q < |order| ==> Before(fractions, order[p], order[q]))
  }

  predicate Before(fractions: seq<nat>, i: nat, j: nat) {
    i < |fractions| && j < |fractions| && (fractions[i] > fractions[j] || (fractions[i] == fractions[j] && i < j))
  }

  function Placed(order: seq<nat>, fractions: seq<nat>, i: nat): (out: seq<nat>)
    requires Orders(order, fractions) && i < |fractions| && i !in order
    ensures Orders(out, fractions) && forall x :: x in out <==> x in order || x == i
  {
    if order == [] || Before(fractions, i, order[0]) then [i] + order
    else
      assert forall x :: x in order <==> x == order[0] || x in order[1..];
      assert forall q :: 0 <= q < |order| - 1 ==> order[1..][q] == order[q + 1];
      assert forall x :: x in order[1..] ==> Before(fractions, order[0], x);
      var rest := Placed(order[1..], fractions, i);
      assert forall p :: 0 <= p < |rest| ==> rest[p] in rest && Before(fractions, order[0], rest[p]);
      [order[0]] + rest
  }

  method SortedByFraction(fractions: seq<nat>) returns (order: seq<nat>)
    ensures Orders(order, fractions) && forall i: nat :: i in order <==> i < |fractions|
  {
    order := [];
    for i := 0 to |fractions|
      invariant Orders(order, fractions) && forall x: nat :: x in order <==> x < i
    {
      order := Placed(order, fractions, i);
    }
  }

  // ----- handing out what is left

  // The first `given` of the order have one more.
  predicate GivenTo(order: seq<nat>, given: nat, wholes: seq<nat>, parts: seq<nat>) {
    && |parts| == |wholes| && given <= |order|
    && forall i: nat :: i < |parts| ==> parts[i] == wholes[i] + if i in order[..given] then 1 else 0
  }

  lemma {:induction false} SumRaised(parts: seq<nat>, i: nat)
    requires i < |parts|
    ensures Sum(parts[i := parts[i] + 1]) == Sum(parts) + 1
  {
    var n := |parts| - 1;
    if i < n {
      SumRaised(parts[..n], i);
      assert parts[i := parts[i] + 1][..n] == parts[..n][i := parts[i] + 1];
    } else {
      assert parts[i := parts[i] + 1][..n] == parts[..n];
    }
  }

  // Fractions that are not zero come before those that are.
  lemma {:induction false} PositivesFirst(order: seq<nat>, fractions: seq<nat>, p: nat)
    requires Orders(order, fractions) && forall i: nat :: i in order <==> i < |fractions|
    requires p < |order| && p < Positives(fractions)
    ensures fractions[order[p]] > 0
  {
    if fractions[order[p]] == 0 {
      var first := set q | 0 <= q < p :: order[q];
      forall i: nat | i < |fractions| && fractions[i] > 0 ensures i in first {
        assert i in order;
        var q :| 0 <= q < |order| && order[q] == i;
        assert q < p;
      }
      CountPositives(fractions, first);
      ImageSize(order, p);
    }
  }

  lemma {:induction false} ImageSize(order: seq<nat>, p: nat)
    requires p <= |order|
    ensures |set q | 0 <= q < p :: order[q]| <= p
  {
    if p > 0 {
      ImageSize(order, p - 1);
      assert (set q | 0 <= q < p :: order[q]) == (set q | 0 <= q < p - 1 :: order[q]) + {order[p - 1]};
    }
  }

  lemma {:induction false} CountPositives(fractions: seq<nat>, where: set<nat>)
    requires forall i: nat :: i < |fractions| && fractions[i] > 0 ==> i in where
    ensures Positives(fractions) <= |where|
  {
    if fractions != [] {
      var n := |fractions| - 1;
      if fractions[n] > 0 {
        assert forall i: nat :: i < n && fractions[..n][i] > 0 ==> i in where - {n};
        CountPositives(fractions[..n], where - {n});
      } else {
        CountPositives(fractions[..n], where);
      }
    }
  }

  method ApportionTo(weights: seq<nat>, target: nat) returns (parts: seq<nat>)
    ensures Apportioned(weights, target, parts)
  {
    var sum := 0;
    for i := 0 to |weights|
      invariant sum == Sum(weights[..i])
    {
      assert weights[..i + 1][..i] == weights[..i];
      sum := sum + weights[i];
    }
    assert weights[..|weights|] == weights;
    if sum == 0 { return seq(|weights|, _ => 0); }
    var wholes, fractions := Wholes(weights, target, sum), Fractions(weights, target, sum);
    LeftOver(weights, target);
    var order := SortedByFraction(fractions);
    parts := HandOut(wholes, order, fractions, target);
    Hands(weights, target, order, parts, target - Sum(wholes));
  }

  method HandOut(wholes: seq<nat>, order: seq<nat>, fractions: seq<nat>, target: nat) returns (parts: seq<nat>)
    requires |wholes| == |fractions| && Orders(order, fractions) && forall i: nat :: i in order <==> i < |fractions|
    requires 0 <= target - Sum(wholes) <= Positives(fractions)
    ensures target - Sum(wholes) <= |order| && GivenTo(order, target - Sum(wholes), wholes, parts) && Sum(parts) == target
  {
    parts := wholes;
    var left, p := target - Sum(wholes), 0;
    PositivesFit(order, fractions);
    while p < |order| && left > 0
      invariant 0 <= p <= |order| && left == target - Sum(wholes) - p >= 0
      invariant GivenTo(order, p, wholes, parts) && Sum(parts) == Sum(wholes) + p
      decreases |order| - p
    {
      var i := order[p];
      assert i !in order[..p];
      assert order[..p + 1] == order[..p] + [i];
      SumRaised(parts, i);
      parts := parts[i := parts[i] + 1];
      left, p := left - 1, p + 1;
    }
  }

  lemma PositivesFit(order: seq<nat>, fractions: seq<nat>)
    requires forall i: nat :: i < |fractions| ==> i in order
    ensures Positives(fractions) <= |order|
  {
    var all := set q | 0 <= q < |order| :: order[q];
    forall i: nat | i < |fractions| ensures i in all {
      assert i in order;
      var q :| 0 <= q < |order| && order[q] == i;
    }
    CountPositives(fractions, all);
    ImageSize(order, |order|);
  }

  lemma Hands(weights: seq<nat>, target: nat, order: seq<nat>, parts: seq<nat>, given: nat)
    requires Sum(weights) > 0
    requires var fractions, wholes := Fractions(weights, target, Sum(weights)), Wholes(weights, target, Sum(weights));
             && Orders(order, fractions) && (forall i: nat :: i in order <==> i < |fractions|)
             && given <= |order| && given <= Positives(fractions) && GivenTo(order, given, wholes, parts)
    requires Sum(parts) == target
    ensures Apportioned(weights, target, parts)
  {
    hide Whole, Fraction, Positives, Sum, Before;
    var fractions := Fractions(weights, target, Sum(weights));
    forall i | 0 <= i < |parts| ensures RoundedAt(weights, target, parts, i) {
      if i in order[..given] {
        var p :| 0 <= p < given && order[..given][p] == i;
        PositivesFirst(order, fractions, p);
      }
    }
    hide RoundedAt;
    forall i, j | 0 <= i < |parts| && 0 <= j < |parts| && RaisedAt(weights, target, parts, i) && !RaisedAt(weights, target, parts, j)
      ensures Precedes(weights, target, i, j) {
      FirstAreRaised(weights, target, order, parts, given, i, j);
    }
  }

  lemma FirstAreRaised(weights: seq<nat>, target: nat, order: seq<nat>, parts: seq<nat>, given: nat, i: nat, j: nat)
    requires Sum(weights) > 0 && |parts| == |weights| && i < |parts| && j < |parts|
    requires var fractions, wholes := Fractions(weights, target, Sum(weights)), Wholes(weights, target, Sum(weights));
             && Orders(order, fractions) && (forall i: nat :: i in order <==> i < |fractions|)
             && given <= |order| && GivenTo(order, given, wholes, parts)
    requires RaisedAt(weights, target, parts, i) && !RaisedAt(weights, target, parts, j)
    ensures Precedes(weights, target, i, j)
  {
    hide Whole, Fraction, Sum;
    var fractions := Fractions(weights, target, Sum(weights));
    assert i in order[..given] && j !in order[..given] && j in order;
    var p :| 0 <= p < given && order[..given][p] == i;
    var q :| 0 <= q < |order| && order[q] == j;
    forall r | 0 <= r < given ensures order[r] != j {
      assert order[..given][r] == order[r];
    }
    assert order[p] == i && Before(fractions, order[p], order[q]);
  }

  // ----- what follows

  // A weight of zero gets nothing.
  lemma NothingFromNothing(weights: seq<nat>, target: nat, parts: seq<nat>, i: nat)
    requires Apportioned(weights, target, parts) && i < |weights| && weights[i] == 0
    ensures parts[i] == 0
  {
    if Sum(weights) > 0 {
      assert RoundedAt(weights, target, parts, i);
      assert weights[i] * target == 0;
    }
  }

  // The parts are determined: as many are raised as are needed, and always the first.
  lemma PartsAreUnique(weights: seq<nat>, target: nat, parts: seq<nat>, other: seq<nat>)
    requires Apportioned(weights, target, parts) && Apportioned(weights, target, other)
    ensures parts == other
  {
    if Sum(weights) > 0 {
      forall i | 0 <= i < |parts| ensures parts[i] == other[i] {
        NoneBelow(weights, target, parts, other, i);
        NoneBelow(weights, target, other, parts, i);
      }
    }
  }

  lemma NoneBelow(weights: seq<nat>, target: nat, parts: seq<nat>, other: seq<nat>, i: nat)
    requires Apportioned(weights, target, parts) && Apportioned(weights, target, other) && Sum(weights) > 0 && i < |parts|
    ensures parts[i] >= other[i]
  {
    if parts[i] < other[i] {
      forall j | 0 <= j < |parts| ensures parts[j] <= other[j] {
        SameSide(weights, target, parts, other, i, j);
      }
      hide Apportioned;
      assert Sum(parts) == Sum(other) by { SameTotal(weights, target, parts, other); }
      SmallerSum(parts, other, i);
    }
  }

  lemma SameTotal(weights: seq<nat>, target: nat, parts: seq<nat>, other: seq<nat>)
    requires Apportioned(weights, target, parts) && Apportioned(weights, target, other) && Sum(weights) > 0
    ensures Sum(parts) == Sum(other)
  {}

  // Where one part is lower, none can be higher.
  lemma SameSide(weights: seq<nat>, target: nat, parts: seq<nat>, other: seq<nat>, i: nat, j: nat)
    requires Apportioned(weights, target, parts) && Apportioned(weights, target, other) && Sum(weights) > 0
    requires i < |parts| && j < |parts| && parts[i] < other[i]
    ensures parts[j] <= other[j]
  {
    hide Whole, Fraction, Sum;
    assert RoundedAt(weights, target, parts, i) && RoundedAt(weights, target, other, i);
    assert RoundedAt(weights, target, parts, j) && RoundedAt(weights, target, other, j);
    assert RaisedAt(weights, target, other, i) && !RaisedAt(weights, target, parts, i);
    assert !(RaisedAt(weights, target, parts, j) && !RaisedAt(weights, target, other, j));
  }

  lemma {:induction false} SmallerSum(xs: seq<nat>, ys: seq<nat>, i: nat)
    requires |xs| == |ys| && (forall j :: 0 <= j < |xs| ==> xs[j] <= ys[j]) && i <= |xs|
    ensures Sum(xs) <= Sum(ys) && (i < |xs| && xs[i] < ys[i] ==> Sum(xs) < Sum(ys))
  {
    if xs != [] {
      var n := |xs| - 1;
      SmallerSum(xs[..n], ys[..n], if i < n then i else n);
    }
  }
}
