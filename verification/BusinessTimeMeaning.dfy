// What the search finds in a zone whose offset changes at most once around the wall time.
module BusinessTimeMeaning {
  import opened Outcomes
  import opened BusinessTime

  ghost predicate Bounded(off: Zone) { forall t :: -DAY <= off(t) <= DAY }

  // From the instant `change` on the offset is `later`, before it `earlier`, within two days of the wall time.
  ghost predicate OneChange(off: Zone, wall: int, change: int, earlier: int, later: int) {
    forall t :: wall - 2 * DAY <= t <= wall + 2 * DAY ==> off(t) == if t < change then earlier else later
  }

  // The first instant at which the local clock is at or past the wall time.
  ghost predicate First(off: Zone, wall: int, t: int) {
    Local(off, t) >= wall && forall u :: u < t ==> Local(off, u) < wall
  }

  // The lowest candidate that shows the wall time is what is found.
  lemma LowestIsFound(off: Zone, wall: int, candidates: seq<int>, r: Option<int>, t: int)
    requires Found(off, wall, candidates, r) && t in candidates && Local(off, t) == wall
    requires forall u :: u in candidates && Local(off, u) == wall ==> t <= u
    ensures r == Some(t)
  {
    hide AreCandidates, Bisected;
  }

  // Before the two-day window around it no clock shows the wall time yet.
  lemma FirstWithin(off: Zone, wall: int, t: int)
    requires Bounded(off) && Local(off, t) >= wall
    requires forall u :: wall - 2 * DAY <= u < t ==> Local(off, u) < wall
    ensures First(off, wall, t)
  {
    forall u | u < t ensures Local(off, u) < wall {
      if u < wall - 2 * DAY { assert off(u) <= DAY; }
    }
  }

  // No change within the window: the wall time is shown exactly once.
  lemma Unchanged(off: Zone, wall: int, o: int, candidates: seq<int>, r: Option<int>)
    requires Bounded(off) && Found(off, wall, candidates, r)
    requires forall t :: wall - 2 * DAY <= t <= wall + 2 * DAY ==> off(t) == o
    ensures r == Some(wall - o) && Local(off, wall - o) == wall && First(off, wall, wall - o)
  {
    assert -DAY <= off(wall) <= DAY;
    assert Samples(off, wall)[0] == o && wall - (wall - o) in Samples(off, wall);
    assert forall t :: t in candidates ==> wall - t in Samples(off, wall) && t == wall - o;
    assert wall - o in candidates && Local(off, wall - o) == wall;
    hide AreCandidates, Samples;
    LowestIsFound(off, wall, candidates, r, wall - o);
    FirstWithin(off, wall, wall - o);
  }

  // The two candidates when the change lies within the window.
  lemma TwoCandidates(off: Zone, wall: int, change: int, earlier: int, later: int, candidates: seq<int>)
    requires OneChange(off, wall, change, earlier, later) && AreCandidates(off, wall, candidates)
    requires wall - 2 * DAY < change <= wall + 2 * DAY
    ensures forall t :: t in candidates <==> t == wall - earlier || t == wall - later
  {
    var s := Samples(off, wall);
    assert s[0] == earlier && s[4] == later;
    assert forall x :: x in s <==> x == earlier || x == later;
    assert forall t :: t in candidates <==> wall - t in s;
  }

  // A clock put back (or left alone): the earlier of the instants that show the wall time.
  lemma PutBack(off: Zone, wall: int, change: int, earlier: int, later: int, candidates: seq<int>, r: Option<int>)
    requires Bounded(off) && OneChange(off, wall, change, earlier, later) && Found(off, wall, candidates, r)
    requires wall - 2 * DAY < change <= wall + 2 * DAY && later <= earlier
    ensures r.Some? && Local(off, r.value) == wall && First(off, wall, r.value)
    ensures r.value == if wall - earlier < change then wall - earlier else wall - later
  {
    Offsets(off, wall, change, earlier, later);
    TwoCandidates(off, wall, change, earlier, later, candidates);
    hide AreCandidates, Samples, Found;
    var t := if wall - earlier < change then wall - earlier else wall - later;
    assert t in candidates && Local(off, t) == wall;
    LowestIsFound(off, wall, candidates, r, t);
    FirstWithin(off, wall, t);
  }

  // A clock put forward that shows the wall time: it does so once.
  lemma PutForwardShown(off: Zone, wall: int, change: int, earlier: int, later: int, candidates: seq<int>, r: Option<int>)
    requires Bounded(off) && OneChange(off, wall, change, earlier, later) && Found(off, wall, candidates, r)
    requires wall - 2 * DAY < change <= wall + 2 * DAY && earlier < later && !(change + earlier <= wall < change + later)
    ensures r.Some? && Local(off, r.value) == wall && First(off, wall, r.value)
  {
    Offsets(off, wall, change, earlier, later);
    TwoCandidates(off, wall, change, earlier, later, candidates);
    hide AreCandidates, Samples, Found;
    var t := if wall - later >= change then wall - later else wall - earlier;
    assert t in candidates && Local(off, t) == wall;
    LowestIsFound(off, wall, candidates, r, t);
    FirstWithin(off, wall, t);
  }

  // A clock put forward over the wall time: no candidate shows it, and the two candidates lie on both sides of the change.
  lemma PutForwardSkips(off: Zone, wall: int, change: int, earlier: int, later: int, candidates: seq<int>) returns (k: nat)
    requires Bounded(off) && OneChange(off, wall, change, earlier, later) && AreCandidates(off, wall, candidates)
    requires wall - 2 * DAY < change <= wall + 2 * DAY && change + earlier <= wall < change + later
    ensures forall t :: t in candidates ==> Local(off, t) != wall
    ensures k < |candidates| && Brackets(off, wall, candidates, k)
    ensures forall t :: t in candidates ==> wall - DAY <= t <= wall + DAY
  {
    Offsets(off, wall, change, earlier, later);
    TwoCandidates(off, wall, change, earlier, later, candidates);
    var a, b := wall - later, wall - earlier;
    assert a in candidates && b in candidates;
    var j :| 0 <= j < |candidates| && candidates[j] == a;
    k :| 0 <= k < |candidates| && candidates[k] == b;
    assert j < k && candidates[j + 1] in candidates && candidates[j + 1] <= b;
    assert k == j + 1;
  }

  lemma {:induction false} LowestBracket(off: Zone, wall: int, candidates: seq<int>, k: nat) returns (i: nat)
    requires Brackets(off, wall, candidates, k)
    ensures FirstBracket(off, wall, candidates, i) && i <= k
  {
    i := k;
    if j: nat :| j < k && Brackets(off, wall, candidates, j) {
      i := LowestBracket(off, wall, candidates, j);
    }
  }

  // Then the bisection ends at the change.
  lemma JumpIsFirst(off: Zone, wall: int, change: int, earlier: int, later: int, r: int)
    requires Bounded(off) && OneChange(off, wall, change, earlier, later)
    requires wall - 2 * DAY < change <= wall + 2 * DAY && change + earlier <= wall < change + later
    requires wall - DAY < r <= wall + DAY && Local(off, r - 1) < wall <= Local(off, r)
    ensures r == change && First(off, wall, r) && Local(off, r) > wall
  {
    Offsets(off, wall, change, earlier, later);
    assert off(r) == (if r < change then earlier else later) && off(r - 1) == if r - 1 < change then earlier else later;
    FirstWithin(off, wall, r);
  }

  // A clock put forward: the instant that shows the wall time, or the change itself when the wall time is skipped.
  lemma PutForward(off: Zone, wall: int, change: int, earlier: int, later: int, candidates: seq<int>, r: Option<int>)
    requires Bounded(off) && OneChange(off, wall, change, earlier, later) && Found(off, wall, candidates, r)
    requires wall - 2 * DAY < change <= wall + 2 * DAY && earlier < later
    ensures r.Some? && First(off, wall, r.value)
    ensures Local(off, r.value) == wall <==> !(change + earlier <= wall < change + later)
    ensures change + earlier <= wall < change + later ==> r.value == change
  {
    if change + earlier <= wall < change + later {
      var k := PutForwardSkips(off, wall, change, earlier, later, candidates);
      var i := LowestBracket(off, wall, candidates, k);
      assert candidates[i - 1] in candidates && candidates[i] in candidates;
      JumpIsFirst(off, wall, change, earlier, later, r.value);
    } else {
      PutForwardShown(off, wall, change, earlier, later, candidates, r);
    }
  }

  lemma Offsets(off: Zone, wall: int, change: int, earlier: int, later: int)
    requires Bounded(off) && OneChange(off, wall, change, earlier, later) && wall - 2 * DAY < change <= wall + 2 * DAY
    ensures -DAY <= earlier <= DAY && -DAY <= later <= DAY
  {
    assert off(wall - 2 * DAY) == earlier && off(wall + 2 * DAY) == later;
  }

  // The instant found is the first at which the clock is at or past the wall time. It shows another time exactly when the
  // wall time is skipped, and then it is the instant of the change.
  lemma FoundIsFirst(off: Zone, wall: int, change: int, earlier: int, later: int, candidates: seq<int>, r: Option<int>)
    requires Bounded(off) && OneChange(off, wall, change, earlier, later) && Found(off, wall, candidates, r)
    ensures r.Some? && First(off, wall, r.value)
    ensures Local(off, r.value) != wall <==>
              wall - 2 * DAY < change <= wall + 2 * DAY && change + earlier <= wall < change + later
    ensures Local(off, r.value) != wall ==> r.value == change
  {
    if wall - 2 * DAY < change <= wall + 2 * DAY {
      if later <= earlier {
        PutBack(off, wall, change, earlier, later, candidates, r);
      } else {
        PutForward(off, wall, change, earlier, later, candidates, r);
      }
    } else {
      Unchanged(off, wall, if change <= wall then later else earlier, candidates, r);
    }
  }

  // Later wall times are not reached earlier; the first instant is unique.
  lemma FirstIsMonotone(off: Zone, wall: int, t: int, wall': int, t': int)
    requires First(off, wall, t) && First(off, wall', t') && wall <= wall'
    ensures t <= t'
  {
    assert t' < t ==> Local(off, t') < wall;
  }

  // A day starts later than the day before, since no clock jumps a day and both days' starts are first instants.
  lemma DaysAreOrdered(off: Zone, day: int, start: int, next: int)
    requires First(off, day, start) && First(off, day + DAY, next)
    ensures start <= next
    ensures start == next <==> Local(off, start) >= day + DAY
  {
    FirstIsMonotone(off, day, start, day + DAY, next);
    assert start < next ==> Local(off, start) < day + DAY;
  }
}
