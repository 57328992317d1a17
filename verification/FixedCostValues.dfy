// Which purchases and weights count, and what each of them comes to, from the given numbers alone.
module FixedCostValues {
  import opened Outcomes
  import opened FixedCosts

  // ----- which purchases count

  // Purchases with an amount that is not negative and a positive number of days, in their order, and no others.
  lemma {:induction false} CountedPurchases(a: seq<Purchase>, b: seq<Purchase>, p: Purchase)
    ensures ValidOnes(a + b) == ValidOnes(a) + ValidOnes(b)
    ensures ValidOnes([p]) == if p.amount >= 0.0 && p.days > 0.0 then [p] else []
  {
    assert [p][..0] == [];
    if b == [] {
      assert a + b == a;
    } else {
      var n := |b| - 1;
      assert (a + b)[..|a + b| - 1] == a + b[..n];
      CountedPurchases(a, b[..n], p);
    }
  }

  lemma {:induction false} CountedIff(ps: seq<Purchase>, p: Purchase)
    ensures multiset(ValidOnes(ps))[p] == if p.amount >= 0.0 && p.days > 0.0 then multiset(ps)[p] else 0
  {
    if ps != [] {
      var front, last := ps[..|ps| - 1], ps[|ps| - 1];
      assert ps == front + [last];
      CountedIff(front, p);
    }
  }

  // ----- what a purchase costs

  // The part of its life that lies within a window.
  function Overlap(p: Purchase, from: real, to: real): real {
    if p.start.None? then if to > from then to - from else 0.0
    else
      var end := p.start.value + p.days * 86400000.0;
      var first, last := if from > p.start.value then from else p.start.value, if to < end then to else end;
      if last > first then last - first else 0.0
  }

  // A window costs as much of the amount as it covers of the days paid for; without a start the purchase renews itself, and
  // every window costs that way.
  lemma CostsInProportion(p: Purchase, from: real, to: real)
    requires Valid(p)
    ensures Share(p, from, to) * (p.days * 86400000.0) == p.amount * Overlap(p, from, to)
  {
    var span := Overlap(p, from, to);
    assert Share(p, from, to) == Cost(Daily(p), span) by { ShareOverlaps(p, from, to); }
    hide Overlap;
    Proportional(p.amount, p.days, span);
  }

  lemma ShareOverlaps(p: Purchase, from: real, to: real)
    requires Valid(p)
    ensures Share(p, from, to) == Cost(Daily(p), Overlap(p, from, to))
  {
    hide Cost, Daily;
  }

  lemma Proportional(amount: real, days: real, span: real)
    requires days > 0.0
    ensures (amount / days * (span / 86400000.0)) * (days * 86400000.0) == amount * span
  {
    var d, s := amount / days, span / 86400000.0;
    assert d * days == amount && s * 86400000.0 == span;
    Regroup(d, s, days, 86400000.0);
  }

  lemma Regroup(d: real, s: real, days: real, day: real)
    ensures (d * s) * (days * day) == (d * days) * (s * day)
  {
    calc {
      (d * s) * (days * day);
      d * (s * (days * day));
      { assert s * (days * day) == days * (s * day) by { Swap(s, days, day); } }
      d * (days * (s * day));
      (d * days) * (s * day);
    }
  }

  lemma Swap(s: real, days: real, day: real)
    ensures s * (days * day) == days * (s * day)
  {
    assert s * (days * day) == (s * days) * day;
    assert s * days == days * s;
  }

  // At any moment a purchase is in use, over or still to come; one without a start is always in use.
  lemma StageIs(p: Purchase, now: real)
    ensures StageAt(p, now) == Expired <==> p.start.Some? && p.start.value + p.days * 86400000.0 <= now
    ensures StageAt(p, now) == Upcoming <==> p.start.Some? && p.start.value + p.days * 86400000.0 > now && p.start.value >= now
  {}

  // ----- splitting by any weights

  // The positive weights together.
  function Together(raw: seq<real>): real {
    if raw == [] then 0.0 else Together(raw[..|raw| - 1]) + if raw[|raw| - 1] > 0.0 then raw[|raw| - 1] else 0.0
  }

  lemma {:induction false} WeightsTogether(raw: seq<real>)
    ensures Sum(Weights(raw)) == Together(raw) && Together(raw) >= 0.0
    ensures (exists i :: 0 <= i < |raw| && raw[i] > 0.0) <==> Together(raw) > 0.0
  {
    if raw != [] {
      var n := |raw| - 1;
      WeightsTogether(raw[..n]);
      assert Weights(raw)[..n] == Weights(raw[..n]);
      if i :| 0 <= i < |raw| && raw[i] > 0.0 {
        assert i < n ==> raw[..n][i] > 0.0;
      }
      if i :| 0 <= i < n && raw[..n][i] > 0.0 {
        assert raw[i] > 0.0;
      }
    }
  }

  // Within a cent of its share of the total.
  predicate NearShare(part: int, weight: real, sum: real, cents: int)
    requires sum > 0.0
  {
    weight / sum * cents as real - 1.0 <= part as real <= weight / sum * cents as real + 1.0
  }

  lemma SharesAreProportions(part: int, weight: real, sum: real, cents: int)
    requires sum > 0.0
    ensures NearShare(part, weight, sum, cents)
            <==> Proportion(weight, sum, cents) - 1.0 <= part as real <= Proportion(weight, sum, cents) + 1.0
  {}

  lemma NothingWithoutWeight(weights: seq<real>, cents: int, parts: seq<int>, i: nat)
    requires Split(weights, cents, parts) && i < |parts| && Sum(weights) <= 0.0
    ensures parts[i] == 0
  {
    hide Proportion, Round;
    assert parts[i] == Boundary(weights, cents, i + 1) - Boundary(weights, cents, i);
  }

  lemma OnePart(raw: seq<real>, cents: int, parts: seq<int>, i: nat)
    requires Split(Weights(raw), cents, parts) && i < |raw|
    ensures raw[i] <= 0.0 ==> parts[i] == 0
    ensures raw[i] > 0.0 ==> Together(raw) > 0.0 && NearShare(parts[i], raw[i], Together(raw), cents)
  {
    WeightsTogether(raw);
    var weights := Weights(raw);
    assert weights[i] == if raw[i] > 0.0 then raw[i] else 0.0;
    hide Split, Weights, Together, Sum, Proportion, NearShare;
    assert |parts| == |raw| by { SplitLength(weights, cents, parts); }
    if Sum(weights) > 0.0 {
      PartIsNear(weights, cents, parts, i);
      SharesAreProportions(parts[i], weights[i], Sum(weights), cents);
    } else {
      NothingWithoutWeight(weights, cents, parts, i);
    }
  }

  lemma SplitLength(weights: seq<real>, cents: int, parts: seq<int>)
    requires Split(weights, cents, parts)
    ensures |parts| == |weights|
  {}

  // The parts of a total split by any numbers: they add up to the total if some weight is positive and to nothing otherwise; a
  // weight that is not positive gets nothing, a positive one its share of the total among the positive ones, to the cent.
  lemma SplitByAnyWeights(raw: seq<real>, cents: int, parts: seq<int>)
    requires Split(Weights(raw), cents, parts) && raw != []
    ensures SumCents(parts) == if exists i :: 0 <= i < |raw| && raw[i] > 0.0 then cents else 0
    ensures forall i :: 0 <= i < |parts| ==>
              if raw[i] > 0.0 then Together(raw) > 0.0 && NearShare(parts[i], raw[i], Together(raw), cents) else parts[i] == 0
  {
    PartsAddUp(Weights(raw), cents, parts);
    WeightsTogether(raw);
    SplitLength(Weights(raw), cents, parts);
    hide Split, Together, NearShare;
    forall i | 0 <= i < |parts|
      ensures if raw[i] > 0.0 then Together(raw) > 0.0 && NearShare(parts[i], raw[i], Together(raw), cents) else parts[i] == 0
    {
      OnePart(raw, cents, parts, i);
    }
  }

  // Amounts are rounded to the nearest cent, halves up.
  lemma RoundsHalfUp(x: real)
    ensures x - 0.5 < Round(x) as real <= x + 0.5
  {}
}
