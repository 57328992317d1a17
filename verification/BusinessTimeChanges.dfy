// What the search finds when the offset changes more than once around the wall time.
module BusinessTimeChanges {
  import opened Outcomes
  import opened Sequences
  import opened BusinessTime
  import opened BusinessTimeMeaning

  // ----- any zone at all: exactly when the first instant is found

  // The instants the bisection looks at.
  function Probes(off: Zone, wall: int, lo: int, hi: int): seq<int>
    requires lo < hi && Local(off, lo) < wall <= Local(off, hi)
    decreases hi - lo
  {
    var middle := (lo + hi) / 2;
    if hi - lo <= 1 then []
    else [middle] + if Local(off, middle) < wall then Probes(off, wall, middle, hi) else Probes(off, wall, lo, middle)
  }

  // No probe meets the clock before the wall time again once it was past it.
  ghost predicate StaysPast(off: Zone, wall: int, probes: seq<int>, t: int) {
    forall m :: m in probes && t <= m ==> Local(off, m) >= wall
  }

  lemma {:induction false} BisectionEndsAt(off: Zone, wall: int, lo: int, hi: int, t: int)
    requires lo < hi && Local(off, lo) < wall <= Local(off, hi) && First(off, wall, t)
    ensures Bisected(off, wall, lo, hi) == t <==> lo < t && StaysPast(off, wall, Probes(off, wall, lo, hi), t)
    decreases hi - lo
  {
    var middle := (lo + hi) / 2;
    assert t <= hi;
    if hi - lo > 1 {
      if Local(off, middle) < wall {
        BisectionEndsAt(off, wall, middle, hi, t);
      } else {
        BisectionEndsAt(off, wall, lo, middle, t);
      }
    }
  }

  // The first bracket lies around t, and no probe is misled.
  ghost predicate BracketLeadsTo(off: Zone, wall: int, candidates: seq<int>, t: int)
    requires Ascending(candidates)
  {
    exists i: nat ::
      && FirstBracket(off, wall, candidates, i) && candidates[i - 1] < t
      && StaysPast(off, wall, Probes(off, wall, candidates[i - 1], candidates[i]), t)
  }

  // The first instant at which the clock is at or past the wall time is found if and only if
  // - where a candidate shows the wall time: the clock shows it at the first instant, under a sampled offset;
  // - where none does: the first bracket starts before it, and no probe meets the clock back before the wall time.
  lemma FirstIsFoundIff(off: Zone, wall: int, candidates: seq<int>, r: Option<int>, t: int)
    requires Found(off, wall, candidates, r) && First(off, wall, t)
    ensures r == Some(t) <==>
              if Shown(off, wall, candidates) then Local(off, t) == wall && off(t) in Samples(off, wall)
              else BracketLeadsTo(off, wall, candidates, t)
  {
    if Shown(off, wall, candidates) {
      assert t in candidates <==> wall - t in Samples(off, wall);
      hide Samples, Bisected;
    } else {
      hide AreCandidates, Samples, Bisected, Probes;
      if i: nat :| FirstBracket(off, wall, candidates, i) {
        BisectionEndsAt(off, wall, candidates[i - 1], candidates[i], t);
        assert forall j: nat :: FirstBracket(off, wall, candidates, j) ==> j == i;
      } else {
        forall i: nat ensures !Brackets(off, wall, candidates, i) {
          if Brackets(off, wall, candidates, i) {
            var _ := LowestBracket(off, wall, candidates, i);
          }
        }
      }
    }
  }

  // ----- zones in which no offset lasts less than a day

  // The offset in force at t is in force for a day or longer.
  ghost predicate LastsFrom(off: Zone, a: int, t: int) {
    a <= t < a + DAY && forall u :: a <= u < a + DAY ==> off(u) == off(t)
  }

  ghost predicate LastsADay(off: Zone, t: int) { exists a :: LastsFrom(off, a, t) }

  ghost predicate Lasting(off: Zone, wall: int) {
    forall t :: wall - DAY <= t <= wall + DAY ==> LastsADay(off, t)
  }

  // Offsets in use within two days of the wall time are at most a day apart.
  ghost predicate CloseOffsets(off: Zone, wall: int) {
    forall t, u :: wall - 2 * DAY <= t <= wall + 2 * DAY && wall - 2 * DAY <= u <= wall + 2 * DAY ==> off(t) - off(u) <= DAY
  }

  // Every offset in force within a day of the wall time is sampled.
  lemma OffsetIsSampled(off: Zone, wall: int, t: int)
    requires Lasting(off, wall) && wall - DAY <= t <= wall + DAY
    ensures off(t) in Samples(off, wall)
  {
    assert LastsADay(off, t);
    var a :| LastsFrom(off, a, t);
    var s := Samples(off, wall);
    if a <= wall - DAY {
      assert s[1] == off(wall - DAY);
    } else if a <= wall {
      assert s[2] == off(wall);
    } else {
      assert s[3] == off(wall + DAY);
    }
  }

  // A wall time the clock shows is found at its first occurrence, however often the offset changes.
  lemma EarlierIsTaken(off: Zone, wall: int, candidates: seq<int>, r: Option<int>, t: int)
    requires Bounded(off) && Lasting(off, wall) && Found(off, wall, candidates, r)
    requires First(off, wall, t) && Local(off, t) == wall
    ensures r == Some(t)
  {
    hide Samples, AreCandidates, Shown;
    assert -DAY <= off(t) <= DAY;
    OffsetIsSampled(off, wall, t);
    ShownWhereSampled(off, wall, candidates, t);
    FirstIsFoundIff(off, wall, candidates, r, t);
  }

  lemma ShownWhereSampled(off: Zone, wall: int, candidates: seq<int>, t: int)
    requires AreCandidates(off, wall, candidates) && Local(off, t) == wall && off(t) in Samples(off, wall)
    ensures Shown(off, wall, candidates)
  {
    hide Samples;
    assert wall - t == off(t);
    assert t in candidates;
  }

  // ----- a wall time that is skipped

  // The clock jumps over the wall time at t; the new offset is in force for a day from there.
  lemma JumpLasts(off: Zone, wall: int, t: int)
    requires Bounded(off) && Lasting(off, wall) && First(off, wall, t) && Local(off, t) > wall
    ensures wall - DAY <= t - 1 && t <= wall + DAY && off(t - 1) < off(t)
    ensures forall u :: t <= u < t + DAY ==> off(u) == off(t)
  {
    assert -DAY <= off(t) <= DAY && -DAY <= off(t - 1) <= DAY;
    assert Local(off, t - 1) < wall;
    assert LastsADay(off, t);
    var a :| LastsFrom(off, a, t);
    assert a <= t - 1 ==> off(t - 1) == off(t);
  }

  // Nothing shows the wall time: the clock is past it for a day, and after that no offset is small enough.
  lemma SkippedIsNotShown(off: Zone, wall: int, candidates: seq<int>, t: int)
    requires Bounded(off) && Lasting(off, wall) && CloseOffsets(off, wall) && AreCandidates(off, wall, candidates)
    requires First(off, wall, t) && Local(off, t) > wall
    ensures !Shown(off, wall, candidates)
  {
    hide AreCandidates;
    JumpLasts(off, wall, t);
    forall u | u in candidates ensures Local(off, u) != wall {
      if u >= t + DAY {
        assert -DAY <= off(u) && -DAY <= off(t) <= DAY;
        assert u <= wall + 2 * DAY ==> off(t) - off(u) <= DAY;
      } else if u >= t {
        assert off(u) == off(t);
      }
    }
  }

  // The first candidate from t on ends the first bracket.
  lemma BracketAround(off: Zone, wall: int, candidates: seq<int>, t: int) returns (i: nat)
    requires Bounded(off) && Lasting(off, wall) && CloseOffsets(off, wall) && AreCandidates(off, wall, candidates)
    requires First(off, wall, t) && Local(off, t) > wall
    ensures FirstBracket(off, wall, candidates, i) && candidates[i - 1] < t <= candidates[i] < t + DAY
  {
    JumpLasts(off, wall, t);
    OffsetIsSampled(off, wall, t);
    OffsetIsSampled(off, wall, t - 1);
    hide Samples;
    var lo, hi := wall - off(t), wall - off(t - 1);
    assert Local(off, t - 1) < wall;
    assert lo in candidates && hi in candidates && lo < t <= hi;
    assert off(t) - off(t - 1) <= DAY;
    i := 0;
    while candidates[i] < t
      invariant i < |candidates| && candidates[i] <= hi && forall j :: 0 <= j < i ==> candidates[j] < t
      decreases |candidates| - i
    {
      var k :| 0 <= k < |candidates| && candidates[k] == hi;
      i := i + 1;
      assert i <= k;
    }
    assert i > 0 by {
      var k :| 0 <= k < |candidates| && candidates[k] == lo;
      assert i == 0 ==> k < i;
    }
  }

  // A wall time the clock jumps over is answered with the jump, however often the offset changes.
  lemma SkippedIsTheJump(off: Zone, wall: int, candidates: seq<int>, r: Option<int>, t: int)
    requires Bounded(off) && Lasting(off, wall) && CloseOffsets(off, wall) && Found(off, wall, candidates, r)
    requires First(off, wall, t) && Local(off, t) > wall
    ensures r == Some(t)
  {
    SkippedIsNotShown(off, wall, candidates, t);
    var i := BracketAround(off, wall, candidates, t);
    JumpLasts(off, wall, t);
    hide AreCandidates;
    ProbesWithin(off, wall, candidates[i - 1], candidates[i]);
    assert BracketLeadsTo(off, wall, candidates, t);
    FirstIsFoundIff(off, wall, candidates, r, t);
  }

  lemma {:induction false} ProbesWithin(off: Zone, wall: int, lo: int, hi: int)
    requires lo < hi && Local(off, lo) < wall <= Local(off, hi)
    ensures forall m :: m in Probes(off, wall, lo, hi) ==> lo < m < hi
    decreases hi - lo
  {
    var middle := (lo + hi) / 2;
    if hi - lo > 1 {
      if Local(off, middle) < wall { ProbesWithin(off, wall, middle, hi); } else { ProbesWithin(off, wall, lo, middle); }
    }
  }

  lemma FirstExists(off: Zone, wall: int) returns (t: int)
    requires Bounded(off)
    ensures First(off, wall, t)
  {
    t := wall - 2 * DAY;
    while Local(off, t) < wall
      invariant t <= wall + DAY && forall u :: wall - 2 * DAY <= u < t ==> Local(off, u) < wall
      decreases wall + DAY - t
    {
      assert -DAY <= off(wall + DAY);
      t := t + 1;
    }
    FirstWithin(off, wall, t);
  }

  // Both promises together: with offsets of at most a day in size, each in force for a day or longer and at most a day apart,
  // the search finds the first instant at which the clock is at or past the wall time, however many changes there are.
  lemma FirstIsFound(off: Zone, wall: int, candidates: seq<int>, r: Option<int>)
    requires Bounded(off) && Lasting(off, wall) && CloseOffsets(off, wall) && Found(off, wall, candidates, r)
    ensures r.Some? && First(off, wall, r.value)
  {
    hide Lasting, CloseOffsets, Found, Bounded;
    var t := FirstExists(off, wall);
    if Local(off, t) == wall {
      EarlierIsTaken(off, wall, candidates, r, t);
    } else {
      SkippedIsTheJump(off, wall, candidates, r, t);
    }
  }

  // ----- an example with an offset that does not last a day

  const HOUR := 3600000

  // Summer time of an hour, taken back at midnight after 23 hours.
  function BriefSummer(t: int): int { if -23 * HOUR <= t < 0 then HOUR else 0 }

  // Midnight is shown at -1 h and again at 0; none of the samples meets the summer time, so the second one is found.
  lemma BriefOffsetIsMissed(candidates: seq<int>, r: Option<int>)
    requires Found(BriefSummer, 0, candidates, r)
    ensures First(BriefSummer, 0, -HOUR) && Local(BriefSummer, -HOUR) == 0 && r == Some(0)
  {
    var s := Samples(BriefSummer, 0);
    assert s == [0, 0, 0, 0, 0];
    assert forall t :: t in candidates ==> 0 - t in s && 0 - t == 0;
    assert 0 - 0 == s[2] && 0 in candidates && Local(BriefSummer, 0) == 0;
    hide AreCandidates, Samples;
    LowestIsFound(BriefSummer, 0, candidates, r, 0);
  }
}
