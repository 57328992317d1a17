// Fixed costs spread over time, and a total spread over days without losing a cent (lib/profit.js). Amounts and times are
// exact numbers; rounding happens where the program rounds.
module FixedCosts {
  import opened Outcomes

  const DAY := 86400000.0

  // ----- splitting a total

  function Round(x: real): int { (x + 0.5).Floor }

  function Sum(xs: seq<real>): real { if xs == [] then 0.0 else Sum(xs[..|xs| - 1]) + xs[|xs| - 1] }

  function SumCents(xs: seq<int>): int { if xs == [] then 0 else SumCents(xs[..|xs| - 1]) + xs[|xs| - 1] }

  // Weights that are not positive count as zero.
  function Weights(raw: seq<real>): (out: seq<real>)
    ensures |out| == |raw| && forall i :: 0 <= i < |out| ==> out[i] >= 0.0
  {
    seq(|raw|, i requires 0 <= i < |raw| => if raw[i] > 0.0 then raw[i] else 0.0)
  }

  // A part of a sum in proportion to a total.
  function Proportion(part: real, sum: real, cents: int): real
    requires sum > 0.0
  {
    part / sum * cents as real
  }

  // What the first n parts come to.
  function Boundary(weights: seq<real>, cents: int, n: nat): int
    requires n <= |weights|
  {
    if n == 0 || Sum(weights) <= 0.0 then 0
    else if n == |weights| then cents
    else Round(Proportion(Sum(weights[..n]), Sum(weights), cents))
  }

  method SplitByCumulative(raw: seq<real>, cents: int) returns (parts: seq<int>)
    ensures |parts| == |raw|
    ensures forall i :: 0 <= i < |parts| ==> parts[i] == Boundary(Weights(raw), cents, i + 1) - Boundary(Weights(raw), cents, i)
  {
    var list := Weights(raw);
    var sum := SumOf(list);
    if !(sum > 0.0) { return seq(|list|, _ => 0); }
    var acc, prev := 0.0, 0;
    parts := [];
    for i := 0 to |list|
      invariant acc == Sum(list[..i]) && prev == Boundary(list, cents, i) && |parts| == i
      invariant forall j :: 0 <= j < i ==> parts[j] == Boundary(list, cents, j + 1) - Boundary(list, cents, j)
    {
      assert list[..i + 1][..i] == list[..i];
      acc := acc + list[i];
      var cur := if i == |list| - 1 then cents else Round(Proportion(acc, sum, cents));
      parts := parts + [cur - prev];
      prev := cur;
    }
  }

  method SumOf(xs: seq<real>) returns (sum: real)
    ensures sum == Sum(xs)
  {
    sum := 0.0;
    for i := 0 to |xs|
      invariant sum == Sum(xs[..i])
    {
      assert xs[..i + 1][..i] == xs[..i];
      sum := sum + xs[i];
    }
    assert xs[..|xs|] == xs;
  }

  predicate Split(weights: seq<real>, cents: int, parts: seq<int>) {
    |parts| == |weights| && forall i :: 0 <= i < |parts| ==> parts[i] == Boundary(weights, cents, i + 1) - Boundary(weights, cents, i)
  }

  lemma {:induction false} PartsUpTo(weights: seq<real>, cents: int, parts: seq<int>, n: nat)
    requires Split(weights, cents, parts) && n <= |parts|
    ensures SumCents(parts[..n]) == Boundary(weights, cents, n)
  {
    if n > 0 {
      PartsUpTo(weights, cents, parts, n - 1);
      assert parts[..n][..n - 1] == parts[..n - 1];
    }
  }

  // The parts add up to the total exactly, or to nothing when no weight is positive.
  lemma PartsAddUp(weights: seq<real>, cents: int, parts: seq<int>)
    requires Split(weights, cents, parts) && weights != []
    ensures SumCents(parts) == if Sum(weights) > 0.0 then cents else 0
  {
    PartsUpTo(weights, cents, parts, |parts|);
    assert parts[..|parts|] == parts;
  }

  lemma RoundIsNear(x: real)
    ensures x - 0.5 <= Round(x) as real <= x + 0.5
  {}

  lemma ProportionEnds(sum: real, cents: int)
    requires sum > 0.0
    ensures Proportion(0.0, sum, cents) == 0.0 && Proportion(sum, sum, cents) == cents as real && Round(cents as real) == cents && Round(0.0) == 0
  {
    assert 0.0 / sum == 0.0 && sum / sum == 1.0;
  }

  lemma ProportionAdds(a: real, w: real, sum: real, cents: int)
    requires sum > 0.0
    ensures Proportion(a + w, sum, cents) == Proportion(a, sum, cents) + Proportion(w, sum, cents)
  {
    var x, y, c := a / sum, w / sum, cents as real;
    assert (a + w) / sum == x + y;
    assert (x + y) * c == x * c + y * c;
  }

  lemma SumOneMore(xs: seq<real>, i: nat)
    requires i < |xs|
    ensures Sum(xs[..i + 1]) == Sum(xs[..i]) + xs[i] && xs[..|xs|] == xs && Sum(xs[..0]) == 0.0
  {
    assert xs[..i + 1][..i] == xs[..i];
  }

  // A boundary is the rounded proportion, at the ends as well.
  lemma BoundaryIsRounded(weights: seq<real>, cents: int, n: nat)
    requires n <= |weights| && Sum(weights) > 0.0
    ensures Boundary(weights, cents, n) == Round(Proportion(Sum(weights[..n]), Sum(weights), cents))
  {
    ProportionEnds(Sum(weights), cents);
    SumOneMore(weights, 0);
    hide Proportion, Round;
  }

  // Every part is within a cent of its proportional share; a weight of zero gets nothing.
  lemma PartIsNear(weights: seq<real>, cents: int, parts: seq<int>, i: nat)
    requires Split(weights, cents, parts) && i < |parts| && Sum(weights) > 0.0
    ensures var share := Proportion(weights[i], Sum(weights), cents); share - 1.0 <= parts[i] as real <= share + 1.0
    ensures weights[i] == 0.0 ==> parts[i] == 0
  {
    var sum := Sum(weights);
    BoundaryIsRounded(weights, cents, i);
    BoundaryIsRounded(weights, cents, i + 1);
    SumOneMore(weights, i);
    ProportionAdds(Sum(weights[..i]), weights[i], sum, cents);
    ProportionEnds(sum, cents);
    RoundIsNear(Proportion(Sum(weights[..i]), sum, cents));
    RoundIsNear(Proportion(Sum(weights[..i + 1]), sum, cents));
    hide Proportion, Round, Boundary, Sum;
    assert parts[i] == Boundary(weights, cents, i + 1) - Boundary(weights, cents, i);
  }

  // ----- fixed costs

  // A purchase: what it costs a day, and from when to when; without a start it renews itself for ever.
  datatype Purchase = Purchase(amount: real, days: real, start: Option<real>)

  predicate Valid(p: Purchase) { p.amount >= 0.0 && p.days > 0.0 }

  function Daily(p: Purchase): real
    requires Valid(p)
  {
    p.amount / p.days
  }

  function End(p: Purchase): real
    requires p.start.Some?
  {
    p.start.value + p.days * DAY
  }

  function Min(a: real, b: real): real { if a < b then a else b }

  function Max(a: real, b: real): real { if a > b then a else b }

  // A daily amount over a span of time.
  function Cost(daily: real, span: real): real { daily * (span / DAY) }

  // What a purchase costs within [from, to).
  function Share(p: Purchase, from: real, to: real): real
    requires Valid(p)
  {
    if p.start.None? then Cost(Daily(p), Max(0.0, to - from))
    else Cost(Daily(p), Max(0.0, Min(to, End(p)) - Max(from, p.start.value)))
  }

  datatype Stage = Active | Expired | Upcoming

  function StageAt(p: Purchase, now: real): Stage {
    if p.start.None? then Active else if End(p) <= now then Expired else if p.start.value < now then Active else Upcoming
  }

  function ValidOnes(ps: seq<Purchase>): (out: seq<Purchase>)
    ensures forall i :: 0 <= i < |out| ==> Valid(out[i])
  {
    if ps == [] then []
    else ValidOnes(ps[..|ps| - 1]) + if Valid(ps[|ps| - 1]) then [ps[|ps| - 1]] else []
  }

  predicate AllValid(ps: seq<Purchase>) { forall i :: 0 <= i < |ps| ==> Valid(ps[i]) }

  function Exact(ps: seq<Purchase>, from: real, to: real): real
    requires AllValid(ps)
  {
    if ps == [] then 0.0 else Exact(ps[..|ps| - 1], from, to) + Share(ps[|ps| - 1], from, to)
  }

  function Count(ps: seq<Purchase>, stage: Stage, now: real): nat {
    if ps == [] then 0 else Count(ps[..|ps| - 1], stage, now) + if StageAt(ps[|ps| - 1], now) == stage then 1 else 0
  }

  datatype Amortized = Amortized(cents: int, exact: real, active: nat, expired: nat, upcoming: nat, total: nat)

  method AmortizeFixedCost(purchases: seq<Purchase>, from: real, to: real) returns (a: Amortized)
    ensures var valid := ValidOnes(purchases);
            a == Amortized(Round(Exact(valid, from, to) * 100.0), Exact(valid, from, to),
                           Count(valid, Active, to), Count(valid, Expired, to), Count(valid, Upcoming, to), |valid|)
  {
    hide Cost, Daily, Min, Max, End;
    var valid := ValidOnes(purchases);
    var span := Max(0.0, to - from);
    var exact, active, expired, upcoming := 0.0, 0, 0, 0;
    for i := 0 to |valid|
      invariant exact == Exact(valid[..i], from, to)
      invariant active == Count(valid[..i], Active, to) && expired == Count(valid[..i], Expired, to) && upcoming == Count(valid[..i], Upcoming, to)
    {
      assert valid[..i + 1][..i] == valid[..i];
      var p := valid[i];
      if p.start.None? {
        exact := exact + Cost(Daily(p), span);
        active := active + 1;
        continue;
      }
      exact := exact + Cost(Daily(p), Max(0.0, Min(to, End(p)) - Max(from, p.start.value)));
      if End(p) <= to { expired := expired + 1; }
      else if p.start.value < to { active := active + 1; }
      else { upcoming := upcoming + 1; }
    }
    assert valid[..|valid|] == valid;
    a := Amortized(Round(exact * 100.0), exact, active, expired, upcoming, |valid|);
  }

  lemma {:induction false} CountsAddUp(ps: seq<Purchase>, now: real)
    ensures Count(ps, Active, now) + Count(ps, Expired, now) + Count(ps, Upcoming, now) == |ps|
  {
    if ps != [] {
      CountsAddUp(ps[..|ps| - 1], now);
    }
  }

  lemma ShareAdds(p: Purchase, a: real, b: real, c: real)
    requires Valid(p) && a <= b <= c
    ensures Share(p, a, c) == Share(p, a, b) + Share(p, b, c)
  {
    hide Cost, Daily;
    if p.start.None? {
      Spread(Daily(p), b - a, c - b);
    } else {
      var s, e := p.start.value, End(p);
      EndsLater(p);
      hide End;
      var x, y := Max(0.0, Min(b, e) - Max(a, s)), Max(0.0, Min(c, e) - Max(b, s));
      assert Max(0.0, Min(c, e) - Max(a, s)) == x + y;
      Spread(Daily(p), x, y);
    }
  }

  lemma EndsLater(p: Purchase)
    requires Valid(p) && p.start.Some?
    ensures End(p) > p.start.value
  {
    Longer(p.days, DAY);
  }

  lemma Longer(days: real, day: real)
    requires days > 0.0 && day > 0.0
    ensures days * day > 0.0
  {}

  lemma Spread(d: real, x: real, y: real)
    ensures Cost(d, x + y) == Cost(d, x) + Cost(d, y) && Cost(d, 0.0) == 0.0
  {
    assert (x + y) / DAY == x / DAY + y / DAY;
  }

  // Neighbouring windows add up, before rounding.
  lemma {:induction false} ExactAdds(ps: seq<Purchase>, a: real, b: real, c: real)
    requires AllValid(ps) && a <= b <= c
    ensures Exact(ps, a, c) == Exact(ps, a, b) + Exact(ps, b, c)
  {
    if ps != [] {
      hide Share;
      ExactAdds(ps[..|ps| - 1], a, b, c);
      ShareAdds(ps[|ps| - 1], a, b, c);
    }
  }

  // Over its whole life a purchase costs exactly what was paid; outside of it, nothing.
  lemma LifeCostsAmount(p: Purchase, from: real, to: real)
    requires Valid(p) && p.start.Some?
    ensures from <= p.start.value && End(p) <= to ==> Share(p, from, to) == p.amount
    ensures to <= p.start.value || End(p) <= from ==> Share(p, from, to) == 0.0
  {
    hide Cost, Daily;
    EndsLater(p);
    WholeLife(p);
    Spread(Daily(p), 0.0, 0.0);
    assert p.days * DAY == End(p) - p.start.value;
    hide End;
    if from <= p.start.value && End(p) <= to {
      assert Max(0.0, Min(to, End(p)) - Max(from, p.start.value)) == End(p) - p.start.value;
    }
  }

  lemma WholeLife(p: Purchase)
    requires Valid(p)
    ensures Cost(Daily(p), p.days * DAY) == p.amount
  {
    assert (p.days * DAY) / DAY == p.days;
    assert p.amount / p.days * p.days == p.amount;
  }

  // ----- right now

  // The daily cost of those in use, and when the first of them ends.
  function DailyNow(ps: seq<Purchase>, now: real): real
    requires AllValid(ps)
  {
    if ps == [] then 0.0
    else DailyNow(ps[..|ps| - 1], now) + if StageAt(ps[|ps| - 1], now) == Active then Daily(ps[|ps| - 1]) else 0.0
  }

  predicate FirstEnd(ps: seq<Purchase>, now: real, end: Option<real>) {
    && (end.Some? ==> exists i :: 0 <= i < |ps| && StageAt(ps[i], now) == Active && ps[i].start.Some? && End(ps[i]) == end.value)
    && (forall i :: 0 <= i < |ps| && StageAt(ps[i], now) == Active && ps[i].start.Some? ==> end.Some? && end.value <= End(ps[i]))
  }

  method FixedCostNowOf(purchases: seq<Purchase>, now: real) returns (daily: real, nextEnd: Option<real>, counts: Amortized)
    ensures daily == DailyNow(ValidOnes(purchases), now) && FirstEnd(ValidOnes(purchases), now, nextEnd)
    ensures counts.active == Count(ValidOnes(purchases), Active, now) && counts.exact == 0.0
    ensures counts.expired == Count(ValidOnes(purchases), Expired, now) && counts.upcoming == Count(ValidOnes(purchases), Upcoming, now)
    ensures counts.total == |ValidOnes(purchases)| == counts.active + counts.expired + counts.upcoming
  {
    counts := AmortizeFixedCost(purchases, now, now);
    var rows := ValidOnes(purchases);
    NothingInNoTime(rows, now);
    CountsAddUp(rows, now);
    daily, nextEnd := 0.0, None;
    for i := 0 to |rows|
      invariant daily == DailyNow(rows[..i], now) && FirstEnd(rows[..i], now, nextEnd)
    {
      assert rows[..i + 1][..i] == rows[..i];
      var row := rows[i];
      if row.start.Some? && (row.start.value >= now || End(row) <= now) {
        EndStays(rows, i, now, nextEnd);
        continue;
      }
      daily := daily + Daily(row);
      ghost var before := nextEnd;
      if row.start.Some? && (nextEnd.None? || End(row) < nextEnd.value) { nextEnd := Some(End(row)); }
      EndMoves(rows, i, now, before, nextEnd);
    }
    assert rows[..|rows|] == rows;
  }

  lemma EndStays(rows: seq<Purchase>, i: nat, now: real, end: Option<real>)
    requires i < |rows| && FirstEnd(rows[..i], now, end) && (StageAt(rows[i], now) != Active || rows[i].start.None?)
    ensures FirstEnd(rows[..i + 1], now, end)
  {
    var next := rows[..i + 1];
    if end.Some? {
      var j :| 0 <= j < i && StageAt(rows[..i][j], now) == Active && rows[..i][j].start.Some? && End(rows[..i][j]) == end.value;
      assert next[j] == rows[..i][j];
    }
    forall j | 0 <= j < |next| && StageAt(next[j], now) == Active && next[j].start.Some? ensures end.Some? && end.value <= End(next[j]) {
      assert j < i && next[j] == rows[..i][j];
    }
  }

  lemma EndMoves(rows: seq<Purchase>, i: nat, now: real, before: Option<real>, end: Option<real>)
    requires i < |rows| && FirstEnd(rows[..i], now, before) && StageAt(rows[i], now) == Active
    requires end == if rows[i].start.Some? && (before.None? || End(rows[i]) < before.value) then Some(End(rows[i])) else before
    ensures FirstEnd(rows[..i + 1], now, end)
  {
    var next := rows[..i + 1];
    if end == before && before.Some? {
      var j :| 0 <= j < i && StageAt(rows[..i][j], now) == Active && rows[..i][j].start.Some? && End(rows[..i][j]) == before.value;
      assert next[j] == rows[..i][j];
    } else if end.Some? {
      assert next[i] == rows[i];
    }
    forall j | 0 <= j < |next| && StageAt(next[j], now) == Active && next[j].start.Some? ensures end.Some? && end.value <= End(next[j]) {
      if j < i { assert next[j] == rows[..i][j]; }
    }
  }

  lemma {:induction false} NothingInNoTime(ps: seq<Purchase>, now: real)
    requires AllValid(ps)
    ensures Exact(ps, now, now) == 0.0
  {
    if ps != [] {
      hide Cost, Daily;
      NothingInNoTime(ps[..|ps| - 1], now);
      Spread(Daily(ps[|ps| - 1]), 0.0, 0.0);
    }
  }

  // In use or not, from now until then.
  predicate Steady(p: Purchase, now: real, to: real) {
    match StageAt(p, now)
    case Active => p.start.Some? ==> to <= End(p)
    case Expired => true
    case Upcoming => to <= p.start.value
  }

  lemma SteadyShare(p: Purchase, now: real, to: real)
    requires Valid(p) && now <= to && Steady(p, now, to)
    ensures Share(p, now, to) == if StageAt(p, now) == Active then Cost(Daily(p), to - now) else 0.0
  {
    hide Cost, Daily;
    Spread(Daily(p), 0.0, 0.0);
    if p.start.Some? { EndsLater(p); }
    hide End;
  }

  // The daily cost now is what a window costs per day for as long as the purchases in use stay the same.
  lemma {:induction false} DailyIsTheRate(ps: seq<Purchase>, now: real, to: real)
    requires AllValid(ps) && now <= to && forall i :: 0 <= i < |ps| ==> Steady(ps[i], now, to)
    ensures Exact(ps, now, to) == Cost(DailyNow(ps, now), to - now)
  {
    if ps == [] {
      Together(0.0, 0.0, to - now);
    } else {
      hide Cost, Daily, Share;
      var front, p := ps[..|ps| - 1], ps[|ps| - 1];
      DailyIsTheRate(front, now, to);
      SteadyShare(p, now, to);
      Together(DailyNow(front, now), if StageAt(p, now) == Active then Daily(p) else 0.0, to - now);
    }
  }

  lemma Together(a: real, b: real, span: real)
    ensures Cost(a + b, span) == Cost(a, span) + Cost(b, span) && Cost(0.0, span) == 0.0
  {
    var x := span / DAY;
    assert (a + b) * x == a * x + b * x;
  }
}
