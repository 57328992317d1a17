// The instant at which a wall clock shows a given time (lib/business-time.js). A time zone is the function from instants to
// its offset from UTC, both in milliseconds.
module BusinessTime {
  import opened Outcomes
  import opened Sequences

  const DAY := 86400000

  type Zone = int -> int

  function Local(off: Zone, t: int): int { t + off(t) }

  // ----- candidates

  function Samples(off: Zone, wall: int): seq<int> {
    [off(wall - 2 * DAY), off(wall - DAY), off(wall), off(wall + DAY), off(wall + 2 * DAY)]
  }

  // The candidates are the instants that would show the wall time under one of the sampled offsets, in order.
  ghost predicate AreCandidates(off: Zone, wall: int, candidates: seq<int>) {
    Ascending(candidates) && forall t :: t in candidates <==> wall - t in Samples(off, wall)
  }

  method Candidates(off: Zone, wall: int) returns (candidates: seq<int>)
    ensures AreCandidates(off, wall, candidates)
  {
    hide Samples, Distinct, Inserted;
    var samples := Samples(off, wall);
    var offsets := Distinct(samples);
    candidates := [];
    var i := 0;
    while i < |offsets|
      invariant 0 <= i <= |offsets| && Ascending(candidates)
      invariant forall t :: t in candidates <==> wall - t in offsets[..i]
    {
      assert offsets[..i + 1] == offsets[..i] + [offsets[i]];
      assert wall - (wall - offsets[i]) !in offsets[..i];
      candidates := Inserted(candidates, wall - offsets[i]);
      i := i + 1;
    }
    assert offsets[..i] == offsets;
  }

  // ----- the search

  // The clock reaches the wall time at this instant: it shows it, or it jumps over it right then.
  predicate Reaches(off: Zone, wall: int, t: int) {
    Local(off, t) == wall || Local(off, t - 1) < wall <= Local(off, t)
  }

  // The choice between two neighbouring candidates with the gap between them.
  predicate Brackets(off: Zone, wall: int, candidates: seq<int>, i: nat) {
    0 < i < |candidates| && Local(off, candidates[i - 1]) < wall < Local(off, candidates[i])
  }

  // The first bracket is the one that is searched.
  predicate FirstBracket(off: Zone, wall: int, candidates: seq<int>, i: nat) {
    Brackets(off, wall, candidates, i) && forall j: nat :: j < i ==> !Brackets(off, wall, candidates, j)
  }

  function Bisected(off: Zone, wall: int, lo: int, hi: int): (after: int)
    requires lo < hi && Local(off, lo) < wall <= Local(off, hi)
    ensures lo < after <= hi && Local(off, after - 1) < wall <= Local(off, after)
    decreases hi - lo
  {
    var middle := (lo + hi) / 2;
    if hi - lo <= 1 then hi
    else if Local(off, middle) < wall then Bisected(off, wall, middle, hi)
    else Bisected(off, wall, lo, middle)
  }

  method Bisect(off: Zone, wall: int, lo: int, hi: int) returns (after: int)
    requires lo < hi && Local(off, lo) < wall <= Local(off, hi)
    ensures after == Bisected(off, wall, lo, hi)
  {
    var before;
    before, after := lo, hi;
    while after - before > 1
      invariant lo <= before < after <= hi && Local(off, before) < wall <= Local(off, after)
      invariant Bisected(off, wall, before, after) == Bisected(off, wall, lo, hi)
      decreases after - before
    {
      var middle := (before + after) / 2;
      if Local(off, middle) < wall { before := middle; } else { after := middle; }
    }
  }

  ghost predicate Shown(off: Zone, wall: int, candidates: seq<int>) {
    exists t :: t in candidates && Local(off, t) == wall
  }

  // The outcome of the search: the lowest candidate that shows the wall time, or else the end of the bisection of the first
  // bracket, or nothing.
  ghost predicate Found(off: Zone, wall: int, candidates: seq<int>, r: Option<int>) {
    && AreCandidates(off, wall, candidates)
    && (Shown(off, wall, candidates) ==>
          && r.Some? && r.value in candidates && Local(off, r.value) == wall
          && forall t :: t in candidates && Local(off, t) == wall ==> r.value <= t)
    && (!Shown(off, wall, candidates) ==>
          && (forall i: nat :: FirstBracket(off, wall, candidates, i)
                               ==> r == Some(Bisected(off, wall, candidates[i - 1], candidates[i])))
          && ((forall i: nat :: !Brackets(off, wall, candidates, i)) ==> r.None?))
  }

  lemma ExactIsFound(off: Zone, wall: int, candidates: seq<int>, k: nat)
    requires AreCandidates(off, wall, candidates) && k < |candidates| && Local(off, candidates[k]) == wall
    requires forall j :: 0 <= j < k ==> Local(off, candidates[j]) != wall
    ensures Found(off, wall, candidates, Some(candidates[k]))
  {
    hide Samples, Bisected;
    forall t | t in candidates && Local(off, t) == wall ensures candidates[k] <= t {
      var j :| 0 <= j < |candidates| && candidates[j] == t;
      assert k <= j;
    }
    assert candidates[k] in candidates;
  }

  lemma BracketIsFound(off: Zone, wall: int, candidates: seq<int>, i: nat)
    requires AreCandidates(off, wall, candidates) && !Shown(off, wall, candidates) && FirstBracket(off, wall, candidates, i)
    ensures Found(off, wall, candidates, Some(Bisected(off, wall, candidates[i - 1], candidates[i])))
  {
    hide Samples, Bisected, Shown;
  }

  method WallTime(off: Zone, wall: int) returns (r: Option<int>, ghost candidates: seq<int>)
    ensures Found(off, wall, candidates, r)
    ensures r.Some? ==> Reaches(off, wall, r.value)
  {
    hide AreCandidates, Bisected;
    var found := Candidates(off, wall);
    candidates := found;
    var k := 0;
    while k < |found|
      invariant 0 <= k <= |found| && forall j :: 0 <= j < k ==> Local(off, found[j]) != wall
    {
      if Local(off, found[k]) == wall {
        ExactIsFound(off, wall, found, k);
        return Some(found[k]), found;
      }
      k := k + 1;
    }
    assert !Shown(off, wall, found);
    var i := 1;
    while i < |found|
      invariant 1 <= i && (found == [] || i <= |found|) && forall j: nat :: j < i ==> !Brackets(off, wall, found, j)
      decreases |found| - i
    {
      if Local(off, found[i - 1]) < wall && Local(off, found[i]) > wall {
        assert FirstBracket(off, wall, found, i);
        BracketIsFound(off, wall, found, i);
        var after := Bisect(off, wall, found[i - 1], found[i]);
        return Some(after), found;
      }
      i := i + 1;
    }
    return None, found;
  }
}
