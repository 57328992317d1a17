// What every interleaving of append, flush and purge keeps, however many queries fail.
module HistorySafety {
  import opened Outcomes
  import opened HistoryWrites

  ghost predicate NoRows<V>(m: map<Key, V>, id: string) {
    forall k :: k in m ==> k.0 != id
  }

  ghost predicate Gone(s: State, id: string) {
    NoRows(s.points, id) && NoRows(s.daily, id)
  }

  ghost predicate Without(ps: seq<Point>, id: string) {
    forall p :: p in ps ==> p.station != id
  }

  function Writable(s: State): seq<Point> {
    match s.phase
    case InsertPoints(w) => w
    case ClearDaily(w) => w
    case FillDaily(w) => w
    case _ => []
  }

  predicate Deleting(s: State) { s.phase.DeletePoints? || s.phase.DeleteDaily? }

  predicate DeletesDone(s: State) { !s.phase.Idle? && !Deleting(s) }

  // ----- purged stations

  ghost predicate Bounds(s: State) {
    && s.removed <= s.purged && s.taken <= s.purged && s.resolved <= s.purged
    && (forall j :: j in s.queue && j.ForPurge? ==> j.station in s.purged)
    && (!s.phase.Idle? && s.job.ForPurge? ==> s.job.station in s.purged)
    && (s.phase.Idle? ==> s.batch == [] && s.taken == {})
    && (forall p :: p in Writable(s) ==> p in s.batch)
    && (s.removed != {} ==> s.timer || s.queue != [])
  }

  // A purged station is out of the queue of points, and unless it still waits in `removed`
  // the running flush is deleting it or it is gone.
  ghost predicate Leaving(s: State, id: string) {
    && Without(s.pending, id)
    && (id !in s.removed ==> Without(s.batch, id) && ((Deleting(s) && id in s.taken) || Gone(s, id)))
    && (id in s.taken ==>
          && Without(s.batch, id)
          && (s.phase.DeleteDaily? ==> NoRows(s.points, id))
          && (DeletesDone(s) ==> Gone(s, id)))
    && (s.job == ForPurge(id) && !s.phase.Idle? ==>
          Without(s.batch, id) && ((Deleting(s) && id in s.taken) || Gone(s, id)))
    && (id in s.resolved ==> Without(s.batch, id) && Gone(s, id))
  }

  ghost predicate Safe(s: State) {
    Bounds(s) && forall id :: id in s.purged ==> Leaving(s, id)
  }

  lemma AppendSafe(s: State, station: string, remaining: Option<int>, used: int, now: int)
    requires Safe(s)
    ensures Safe(DoAppend(s, station, remaining, used, now))
  {
    var s' := DoAppend(s, station, remaining, used, now);
    forall id | id in s'.purged ensures Leaving(s', id) { assert Leaving(s, id); }
  }

  lemma PurgeSafe(s: State, station: string)
    requires Safe(s)
    ensures Safe(DoPurge(s, station))
  {
    var s' := DoPurge(s, station);
    forall id | id in s'.purged ensures Leaving(s', id) {
      if id in s.purged { assert Leaving(s, id); }
    }
  }

  lemma StartSafe(s: State)
    requires Safe(s)
    ensures Safe(DoStart(s))
  {
    if s.phase.Idle? && s.queue != [] {
      var begun := s.(job := s.queue[0], queue := s.queue[1..], batch := s.pending, pending := [], taken := s.removed, removed := {});
      var s' := DoStart(s);
      forall id | id in s'.purged ensures Leaving(s', id) { assert Leaving(s, id); }
      assert s.queue[0] in s.queue;
    }
  }

  lemma RetentionSafe(s: State, cutoff: int)
    requires Safe(s)
    ensures Safe(DoRetention(s, cutoff))
  {
    var s' := DoRetention(s, cutoff);
    forall id | id in s'.purged ensures Leaving(s', id) { assert Leaving(s, id); }
  }

  lemma FailsSafe(s: State)
    requires Safe(s) && !s.phase.Idle?
    ensures Safe(Fails(s))
  {
    var s' := Fails(s);
    forall id | id in s'.purged ensures Leaving(s', id) { assert Leaving(s, id); }
  }

  lemma SucceedsSafe(s: State)
    requires Safe(s) && s.phase.Cleanup?
    ensures Safe(Succeeds(s))
  {
    var s' := Succeeds(s);
    forall id | id in s'.purged ensures Leaving(s', id) { assert Leaving(s, id); }
  }

  lemma DeletesSafe(s: State, a: Answer)
    requires Safe(s) && Deleting(s)
    ensures Safe(DoQuery(s, a))
  {
    var acts := a.ok || a.effect;
    var s1 := if !acts then s
              else if s.phase.DeletePoints? then s.(points := WithoutStations(s.points, s.taken))
              else s.(daily := WithoutStations(s.daily, s.taken));
    forall id | id in s1.purged ensures Leaving(s1, id) { assert Leaving(s, id); }
    assert Safe(s1);
    if a.ok {
      var s' := DoQuery(s, a);
      forall id | id in s'.purged ensures Leaving(s', id) { assert Leaving(s, id) && Leaving(s1, id); }
    } else {
      FailsSafe(s1);
    }
  }

  lemma InsertSafe(s: State, a: Answer)
    requires Safe(s) && s.phase.InsertPoints?
    ensures Safe(DoQuery(s, a))
  {
    var s1 := if a.ok || a.effect then s.(points := Inserted(s.points, s.phase.writable)) else s;
    forall id | id in s1.purged ensures Leaving(s1, id) { assert Leaving(s, id); }
    assert Safe(s1);
    if a.ok {
      var s' := DoQuery(s, a);
      forall id | id in s'.purged ensures Leaving(s', id) { assert Leaving(s1, id); }
    } else {
      FailsSafe(s1);
    }
  }

  lemma RecountSafe(s: State, a: Answer)
    requires Safe(s) && (s.phase.ClearDaily? || s.phase.FillDaily?)
    ensures Safe(DoQuery(s, a))
  {
    var s' := DoQuery(s, a);
    var s1 := s.(daily := s'.daily);
    forall id | id in s1.purged ensures Leaving(s1, id) {
      assert Leaving(s, id);
      if Without(s.batch, id) && NoRows(s.daily, id) {
        assert id !in StationsOf(s.phase.writable);
      }
    }
    assert Safe(s1);
    if a.ok {
      forall id | id in s'.purged ensures Leaving(s', id) { assert Leaving(s1, id); }
    } else {
      FailsSafe(s1);
    }
  }

  lemma StepSafe(s: State, e: Event)
    requires Safe(s)
    ensures Safe(Step(s, e))
  {
    hide Safe, DoAppend, DoPurge, DoStart, DoRetention, DoQuery;
    match e
    case Append(station, remaining, used, now) => AppendSafe(s, station, remaining, used, now);
    case TimerFires => TimerSafe(s);
    case Purge(station) => PurgeSafe(s, station);
    case Start => StartSafe(s);
    case Query(a) => QuerySafe(s, a);
    case Retention(cutoff) => RetentionSafe(s, cutoff);
  }

  lemma TimerSafe(s: State)
    requires Safe(s)
    ensures Safe(DoTimer(s))
  {
    var s' := DoTimer(s);
    forall id | id in s'.purged ensures Leaving(s', id) { assert Leaving(s, id); }
  }

  lemma QuerySafe(s: State, a: Answer)
    requires Safe(s)
    ensures Safe(DoQuery(s, a))
  {
    match s.phase
    case Idle =>
    case DeletePoints => DeletesSafe(s, a);
    case DeleteDaily => DeletesSafe(s, a);
    case InsertPoints(_) => InsertSafe(s, a);
    case ClearDaily(_) => RecountSafe(s, a);
    case FillDaily(_) => RecountSafe(s, a);
    case Cleanup =>
      if (a.ok || a.effect) && a.cutoff.Some? {
        RetentionSafe(s, a.cutoff.value);
        SucceedsSafe(DoRetention(s, a.cutoff.value));
      } else {
        SucceedsSafe(s);
      }
  }

  lemma {:induction false} RunSafe(s: State, events: seq<Event>)
    requires Safe(s)
    ensures Safe(Run(s, events))
  {
    if events != [] {
      RunSafe(s, events[..|events| - 1]);
      StepSafe(Run(s, events[..|events| - 1]), events[|events| - 1]);
    }
  }

  lemma StepResolves(s: State, e: Event)
    ensures s.resolved <= Step(s, e).resolved
  {
    hide Keep, Trim, Inserted, Accepts;
    match e
    case Query(a) => QueryResolves(s, a);
    case _ =>
  }

  lemma QueryResolves(s: State, a: Answer)
    ensures s.resolved <= DoQuery(s, a).resolved
  {
    hide Keep, Inserted;
  }

  // A deletion that has not happened is under way or scheduled, also after purge() reported a failure.
  lemma DeletionsAreRetried(data: map<string, seq<int>>, points: map<Key, Point>, daily: map<Key, int>, events: seq<Event>, id: string)
    requires id in Run(Loaded(data, points, daily), events).purged
    ensures var s := Run(Loaded(data, points, daily), events);
            Gone(s, id) || (Deleting(s) && id in s.taken) || (id in s.removed && (s.timer || s.queue != []))
  {
    RunSafe(Loaded(data, points, daily), events);
    assert Leaving(Run(Loaded(data, points, daily), events), id);
  }

  lemma {:induction false} ResolvedForGood(s: State, past: seq<Event>, more: seq<Event>)
    ensures Run(s, past).resolved <= Run(s, past + more).resolved
  {
    hide Step;
    if more == [] {
      assert past + more == past;
    } else {
      var n := |more| - 1;
      assert (past + more)[..|past + more| - 1] == past + more[..n];
      ResolvedForGood(s, past, more[..n]);
      StepResolves(Run(s, past + more[..n]), more[n]);
    }
  }

  // Once purge(id) has resolved, the database never again holds a point or a daily row of that station.
  lemma PurgedStaysPurged(data: map<string, seq<int>>, points: map<Key, Point>, daily: map<Key, int>,
                          past: seq<Event>, more: seq<Event>, id: string)
    requires id in Run(Loaded(data, points, daily), past).resolved
    ensures Gone(Run(Loaded(data, points, daily), past + more), id)
  {
    var s := Loaded(data, points, daily);
    RunSafe(s, past + more);
    ResolvedForGood(s, past, more);
    assert Leaving(Run(s, past + more), id);
  }

  // ----- points of stations that are not purged

  ghost predicate Aged(s: State, p: Point) { s.cut.Some? && p.t < s.cut.value }

  ghost predicate Written(s: State, p: Point) { KeyOf(p) in s.points || Aged(s, p) }

  // Times accepted for one station only go up, and the hot cache remembers the last one.
  ghost predicate Clocked(s: State) {
    && (forall i, j :: 0 <= i < j < |s.accepted| && s.accepted[i].station == s.accepted[j].station ==> s.accepted[i].t < s.accepted[j].t)
    && (forall p :: p in s.accepted && p.station !in s.purged ==>
          HotTimes(s, p.station) != [] && HotTimes(s, p.station)[|HotTimes(s, p.station)| - 1] >= p.t)
  }

  ghost predicate NoRepeats(ps: seq<Point>) {
    forall i, j :: 0 <= i < j < |ps| ==> ps[i] != ps[j]
  }

  ghost predicate Queued(s: State) {
    && (forall p :: p in s.batch + s.pending ==> p in s.accepted)
    && NoRepeats(s.batch + s.pending)
    && (s.phase.Idle? ==> s.batch == [])
  }

  // The running flush has not lost sight of a point it took.
  ghost predicate InHand(s: State, p: Point) {
    && (s.phase.InsertPoints? ==> p in s.phase.writable)
    && (s.phase.ClearDaily? || s.phase.FillDaily? || s.phase.Cleanup? ==> Written(s, p))
  }

  ghost predicate Held(s: State, p: Point) {
    p in s.pending || p in s.batch || Written(s, p)
  }

  // Rows are those loaded at the start or points that were accepted.
  ghost predicate Genuine(s: State, loaded: map<Key, Point>) {
    forall k :: k in s.points ==> (k in loaded && s.points[k] == loaded[k]) || (s.points[k] in s.accepted && KeyOf(s.points[k]) == k)
  }

  ghost predicate Kept(s: State, loaded: map<Key, Point>) {
    && Clocked(s) && Queued(s) && Genuine(s, loaded)
    && (forall p :: p in Writable(s) ==> p in s.batch)
    && (forall p :: p in s.batch && p.station !in s.purged ==> InHand(s, p))
    && (forall p :: p in s.accepted && p.station !in s.purged ==> Held(s, p))
  }

  lemma AppendKeeps(s: State, loaded: map<Key, Point>, station: string, remaining: Option<int>, used: int, now: int)
    requires Kept(s, loaded)
    ensures Kept(DoAppend(s, station, remaining, used, now), loaded)
  {
    if Accepts(s, station, remaining, now) {
      var p := Point(station, now, remaining.value, used);
      var s' := DoAppend(s, station, remaining, used, now);
      assert p !in s.accepted;
      assert s'.batch + s'.pending == s.batch + s.pending + [p];
      assert p !in s.batch + s.pending;
      AppendClocked(s, s', p);
      forall q | q in s'.accepted && q.station !in s'.purged ensures Held(s', q) {
        if q in s.accepted { assert Held(s, q); }
      }
      forall q | q in s'.batch && q.station !in s'.purged ensures InHand(s', q) { assert InHand(s, q); }
    }
  }

  lemma AppendClocked(s: State, s': State, p: Point)
    requires Clocked(s) && p.station !in s.purged && s'.purged == s.purged && s'.accepted == s.accepted + [p]
    requires HotTimes(s, p.station) == [] || p.t - HotTimes(s, p.station)[|HotTimes(s, p.station)| - 1] >= MIN_GAP
    requires s'.data == s.data[p.station := Trim(HotTimes(s, p.station) + [p.t], p.t - HOT_AGE)]
    ensures Clocked(s')
  {
    var times := HotTimes(s, p.station) + [p.t];
    assert times[|times| - 1] == p.t;
    forall i, j | 0 <= i < j < |s'.accepted| && s'.accepted[i].station == s'.accepted[j].station
      ensures s'.accepted[i].t < s'.accepted[j].t
    {
      assert s'.accepted[i] in s.accepted;
    }
  }

  lemma {:induction false} KeepNoRepeats(ps: seq<Point>, rest: seq<Point>, purged: set<string>)
    requires NoRepeats(ps + rest)
    ensures NoRepeats(Keep(ps, purged) + rest)
  {
    if ps == [] {
      assert Keep(ps, purged) + rest == ps + rest;
    } else {
      assert ps + rest == [ps[0]] + (ps[1..] + rest);
      assert forall i :: 0 <= i < |ps[1..] + rest| ==> (ps + rest)[i + 1] == (ps[1..] + rest)[i];
      KeepNoRepeats(ps[1..], rest, purged);
      var kept := Keep(ps[1..], purged) + rest;
      if ps[0].station !in purged {
        assert Keep(ps, purged) + rest == [ps[0]] + kept;
        forall i | 0 <= i < |kept| ensures kept[i] != ps[0] {
          assert kept[i] in ps[1..] + rest;
          var m :| 0 <= m < |ps[1..] + rest| && (ps[1..] + rest)[m] == kept[i];
          assert (ps + rest)[0] != (ps + rest)[m + 1];
        }
      } else {
        assert Keep(ps, purged) + rest == kept;
      }
    }
  }

  lemma {:induction false} KeepTailNoRepeats(front: seq<Point>, ps: seq<Point>, purged: set<string>)
    requires NoRepeats(front + ps)
    ensures NoRepeats(front + Keep(ps, purged))
  {
    SplitNoRepeats(front, ps);
    assert ps + [] == ps && Keep(ps, purged) + [] == Keep(ps, purged);
    KeepNoRepeats(ps, [], purged);
    var kept := Keep(ps, purged);
    forall i, j | 0 <= i < j < |front + kept| ensures (front + kept)[i] != (front + kept)[j] {
      if i < |front| <= j { assert kept[j - |front|] in ps && front[i] in front; }
    }
  }

  lemma SplitNoRepeats(a: seq<Point>, b: seq<Point>)
    requires NoRepeats(a + b)
    ensures NoRepeats(a) && NoRepeats(b) && forall p :: p in a ==> p !in b
  {
    assert forall i :: 0 <= i < |a| ==> (a + b)[i] == a[i];
    assert forall i :: 0 <= i < |b| ==> (a + b)[|a| + i] == b[i];
  }

  lemma PurgeKeeps(s: State, loaded: map<Key, Point>, station: string)
    requires Kept(s, loaded)
    ensures Kept(DoPurge(s, station), loaded)
  {
    var s' := DoPurge(s, station);
    KeepTailNoRepeats(s.batch, s.pending, {station});
    forall p | p in s'.accepted && p.station !in s'.purged ensures Held(s', p) { assert Held(s, p); }
    forall p | p in s'.batch && p.station !in s'.purged ensures InHand(s', p) { assert InHand(s, p); }
    assert forall p :: p in s'.batch + s'.pending ==> p in s.batch + s.pending;
  }

  // The parts of the invariant that do not look at the running flush.
  lemma SameBackground(s: State, s': State, loaded: map<Key, Point>)
    requires Clocked(s) && Genuine(s, loaded)
    requires s'.data == s.data && s'.accepted == s.accepted && s'.purged == s.purged && s'.points == s.points
    ensures Clocked(s') && Genuine(s', loaded)
  {
  }

  lemma TakeKeeps(s: State, loaded: map<Key, Point>, job: Job, queue: seq<Job>)
    requires Kept(s, loaded) && s.phase.Idle?
    ensures Kept(s.(phase := DeletePoints, job := job, queue := queue, batch := s.pending, pending := [], taken := s.removed, removed := {}), loaded)
  {
    var s' := s.(phase := DeletePoints, job := job, queue := queue, batch := s.pending, pending := [], taken := s.removed, removed := {});
    SameBackground(s, s', loaded);
    assert s'.batch + s'.pending == s.batch + s.pending;
    hide Clocked, Genuine, NoRepeats;
    forall p | p in s'.accepted && p.station !in s'.purged ensures Held(s', p) { assert Held(s, p); }
  }

  lemma StartKeeps(s: State, loaded: map<Key, Point>)
    requires Kept(s, loaded)
    ensures Kept(DoStart(s), loaded)
  {
    hide Kept;
    if s.phase.Idle? && s.queue != [] {
      TakeKeeps(s, loaded, s.queue[0], s.queue[1..]);
      if s.removed == {} {
        WritesKeeps(s.(phase := DeletePoints, job := s.queue[0], queue := s.queue[1..], batch := s.pending, pending := [],
                       taken := s.removed, removed := {}), loaded);
      }
    }
  }

  lemma WritesKeeps(s: State, loaded: map<Key, Point>)
    requires Kept(s, loaded) && Deleting(s)
    ensures Kept(Writes(s), loaded)
  {
    var s' := Writes(s);
    forall p | p in s'.accepted && p.station !in s'.purged ensures Held(s', p) { assert Held(s, p); }
    forall p | p in s'.batch && p.station !in s'.purged ensures InHand(s', p) { assert p in Keep(s.batch, s.purged); }
  }

  lemma FailsKeeps(s: State, loaded: map<Key, Point>)
    requires Kept(s, loaded) && !s.phase.Idle?
    ensures Kept(Fails(s), loaded)
  {
    var s' := Fails(s);
    KeepNoRepeats(s.batch, s.pending, s.purged);
    assert s'.batch + s'.pending == Keep(s.batch, s.purged) + s.pending;
    forall p | p in s'.accepted && p.station !in s'.purged ensures Held(s', p) { assert Held(s, p); }
  }

  lemma SucceedsKeeps(s: State, loaded: map<Key, Point>)
    requires Kept(s, loaded) && s.phase.Cleanup?
    ensures Kept(Succeeds(s), loaded)
  {
    var s' := Succeeds(s);
    SplitNoRepeats(s.batch, s.pending);
    assert s'.batch + s'.pending == s.pending;
    forall p | p in s'.accepted && p.station !in s'.purged ensures Held(s', p) {
      assert Held(s, p);
      if p in s.batch { assert InHand(s, p); }
    }
  }

  lemma RetentionKeeps(s: State, loaded: map<Key, Point>, cutoff: int)
    requires Kept(s, loaded)
    ensures Kept(DoRetention(s, cutoff), loaded)
  {
    var s' := DoRetention(s, cutoff);
    forall p | p in s'.accepted && p.station !in s'.purged ensures Held(s', p) { assert Held(s, p); }
    forall p | p in s'.batch && p.station !in s'.purged ensures InHand(s', p) { assert InHand(s, p); }
  }

  // Changing rows without losing or forging any.
  lemma RowsKeep(s: State, loaded: map<Key, Point>, s': State)
    requires Kept(s, loaded) && s' == s.(points := s'.points, daily := s'.daily) && Genuine(s', loaded)
    requires forall p :: p in s.accepted && p.station !in s.purged && KeyOf(p) in s.points ==> KeyOf(p) in s'.points
    ensures Kept(s', loaded)
  {
    forall p | p in s'.accepted && p.station !in s'.purged ensures Held(s', p) { assert Held(s, p); }
    forall p | p in s'.batch && p.station !in s'.purged ensures InHand(s', p) { assert InHand(s, p) && p in s.batch + s.pending; }
  }

  lemma DeletesKeep(s: State, loaded: map<Key, Point>, a: Answer)
    requires Kept(s, loaded) && Bounds(s) && Deleting(s)
    ensures Kept(DoQuery(s, a), loaded)
  {
    var acts := a.ok || a.effect;
    var s1 := if !acts then s
              else if s.phase.DeletePoints? then s.(points := WithoutStations(s.points, s.taken))
              else s.(daily := WithoutStations(s.daily, s.taken));
    RowsKeep(s, loaded, s1);
    if !a.ok {
      FailsKeeps(s1, loaded);
    } else if s.phase.DeleteDaily? {
      WritesKeeps(s1, loaded);
    } else {
      var s' := DoQuery(s, a);
      forall p | p in s'.accepted && p.station !in s'.purged ensures Held(s', p) { assert Held(s1, p); }
    }
  }

  lemma InsertKeeps(s: State, loaded: map<Key, Point>, a: Answer)
    requires Kept(s, loaded) && s.phase.InsertPoints?
    ensures Kept(DoQuery(s, a), loaded)
  {
    var s1 := if a.ok || a.effect then s.(points := Inserted(s.points, s.phase.writable)) else s;
    assert forall p :: p in s.phase.writable ==> p in s.batch + s.pending;
    RowsKeep(s, loaded, s1);
    if !a.ok {
      FailsKeeps(s1, loaded);
    } else {
      NextPhaseKeeps(s1, loaded, ClearDaily(s.phase.writable));
    }
  }

  // Going on to recount what was just inserted, and then to clean up.
  lemma NextPhaseKeeps(s: State, loaded: map<Key, Point>, next: Phase)
    requires Kept(s, loaded)
    requires (s.phase.InsertPoints? && next == ClearDaily(s.phase.writable) && forall p :: p in s.phase.writable ==> KeyOf(p) in s.points)
             || (s.phase.ClearDaily? && next == FillDaily(s.phase.writable)) || (s.phase.FillDaily? && next == Cleanup)
    ensures Kept(s.(phase := next), loaded)
  {
    var s' := s.(phase := next);
    SameBackground(s, s', loaded);
    hide Clocked, Genuine, NoRepeats;
    forall p | p in s'.accepted && p.station !in s'.purged ensures Held(s', p) { assert Held(s, p); }
    forall p | p in s'.batch && p.station !in s'.purged ensures InHand(s', p) { assert InHand(s, p); }
  }

  lemma RecountKeeps(s: State, loaded: map<Key, Point>, a: Answer)
    requires Kept(s, loaded) && (s.phase.ClearDaily? || s.phase.FillDaily?)
    ensures Kept(DoQuery(s, a), loaded)
  {
    var s1 := s.(daily := DoQuery(s, a).daily);
    RowsKeep(s, loaded, s1);
    hide Kept;
    if !a.ok {
      FailsKeeps(s1, loaded);
    } else {
      NextPhaseKeeps(s1, loaded, if s.phase.ClearDaily? then FillDaily(s.phase.writable) else Cleanup);
    }
  }

  lemma QueryKeeps(s: State, loaded: map<Key, Point>, a: Answer)
    requires Kept(s, loaded) && Bounds(s)
    ensures Kept(DoQuery(s, a), loaded)
  {
    hide Kept, Bounds;
    match s.phase
    case Idle =>
    case DeletePoints => DeletesKeep(s, loaded, a);
    case DeleteDaily => DeletesKeep(s, loaded, a);
    case InsertPoints(_) => InsertKeeps(s, loaded, a);
    case ClearDaily(_) => RecountKeeps(s, loaded, a);
    case FillDaily(_) => RecountKeeps(s, loaded, a);
    case Cleanup =>
      if (a.ok || a.effect) && a.cutoff.Some? {
        RetentionKeeps(s, loaded, a.cutoff.value);
        SucceedsKeeps(DoRetention(s, a.cutoff.value), loaded);
      } else {
        SucceedsKeeps(s, loaded);
      }
  }

  lemma TimerKeeps(s: State, loaded: map<Key, Point>)
    requires Kept(s, loaded)
    ensures Kept(DoTimer(s), loaded)
  {
    var s' := DoTimer(s);
    forall p | p in s'.accepted && p.station !in s'.purged ensures Held(s', p) { assert Held(s, p); }
    forall p | p in s'.batch && p.station !in s'.purged ensures InHand(s', p) { assert InHand(s, p); }
  }

  lemma {:induction false} RunKeeps(s: State, loaded: map<Key, Point>, events: seq<Event>)
    requires Safe(s) && Kept(s, loaded)
    ensures Safe(Run(s, events)) && Kept(Run(s, events), loaded)
  {
    hide Kept, DoAppend, DoPurge, DoStart, DoRetention, DoQuery, DoTimer;
    if events != [] {
      var past := Run(s, events[..|events| - 1]);
      RunKeeps(s, loaded, events[..|events| - 1]);
      StepSafe(past, events[|events| - 1]);
      match events[|events| - 1]
      case Append(station, remaining, used, now) => AppendKeeps(past, loaded, station, remaining, used, now);
      case TimerFires => TimerKeeps(past, loaded);
      case Purge(station) => PurgeKeeps(past, loaded, station);
      case Start => StartKeeps(past, loaded);
      case Query(a) => QueryKeeps(past, loaded, a);
      case Retention(cutoff) => RetentionKeeps(past, loaded, cutoff);
    }
  }

  // Every accepted point of a station that is not purged is waiting, in the batch being written, stored, or past its age
  // limit; it is never in the queue twice, and its row, unless loaded before, is that very point.
  lemma NothingLost(data: map<string, seq<int>>, points: map<Key, Point>, daily: map<Key, int>, events: seq<Event>, p: Point)
    requires var s := Run(Loaded(data, points, daily), events); p in s.accepted && p.station !in s.purged
    ensures var s := Run(Loaded(data, points, daily), events);
            && (p in s.pending || p in s.batch || KeyOf(p) in s.points || (s.cut.Some? && p.t < s.cut.value))
            && NoRepeats(s.batch + s.pending)
            && (KeyOf(p) in s.points && KeyOf(p) !in points ==> s.points[KeyOf(p)] == p)
  {
    RunKeeps(Loaded(data, points, daily), points, events);
    var s := Run(Loaded(data, points, daily), events);
    assert Held(s, p);
    if KeyOf(p) in s.points && KeyOf(p) !in points {
      var q := s.points[KeyOf(p)];
      var i :| 0 <= i < |s.accepted| && s.accepted[i] == p;
      var j :| 0 <= j < |s.accepted| && s.accepted[j] == q;
    }
  }
}
