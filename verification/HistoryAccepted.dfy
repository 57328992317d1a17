// Which snapshots the history takes in, read off the events alone, and what becomes of them.
module HistoryAccepted {
  import opened Outcomes
  import opened HistoryWrites
  import opened HistorySafety

  // ----- read off the events

  predicate PurgedIn(events: seq<Event>, station: string) { Purge(station) in events }

  // The time of the station's last point, or of its newest loaded one.
  function LastTime(data: map<string, seq<int>>, points: seq<Point>, station: string): Option<int> {
    if points == [] then if station in data && data[station] != [] then Some(data[station][|data[station]| - 1]) else None
    else if points[|points| - 1].station == station then Some(points[|points| - 1].t)
    else LastTime(data, points[..|points| - 1], station)
  }

  // The snapshot carries a balance, its station has not been purged, and half a minute has passed since the last point.
  predicate TakenIn(data: map<string, seq<int>>, past: seq<Event>, points: seq<Point>, e: Event) {
    && e.Append? && e.remaining.Some? && !PurgedIn(past, e.station)
    && var last := LastTime(data, points, e.station); last.Some? ==> e.now >= last.value + 30000
  }

  function Snapshots(data: map<string, seq<int>>, events: seq<Event>): seq<Point> {
    if events == [] then []
    else
      var past, e := events[..|events| - 1], events[|events| - 1];
      var points := Snapshots(data, past);
      if TakenIn(data, past, points, e) then points + [Point(e.station, e.now, e.remaining.value, e.used)] else points
  }

  // ----- the state agrees

  ghost predicate Agrees(s: State, data: map<string, seq<int>>, events: seq<Event>, points: seq<Point>) {
    && (forall x :: x in s.purged <==> PurgedIn(events, x))
    && s.accepted == points
    && forall x :: x !in s.purged ==>
         var times := HotTimes(s, x);
         LastTime(data, points, x) == if times == [] then None else Some(times[|times| - 1])
  }

  lemma QueryLeaves(s: State, a: Answer)
    ensures var s' := DoQuery(s, a); s'.purged == s.purged && s'.accepted == s.accepted && s'.data == s.data
  {
    hide Keep, Inserted, WithoutStations, StationsOf, Since;
    match s.phase
    case Idle =>
    case DeletePoints =>
    case DeleteDaily =>
    case InsertPoints(w) =>
    case ClearDaily(w) =>
    case FillDaily(w) =>
    case Cleanup =>
  }

  lemma StartLeaves(s: State)
    ensures var s' := DoStart(s); s'.purged == s.purged && s'.accepted == s.accepted && s'.data == s.data
  {
    hide Keep;
  }

  lemma LastTimeOneMore(data: map<string, seq<int>>, points: seq<Point>, p: Point)
    ensures forall x :: LastTime(data, points + [p], x) == if x == p.station then Some(p.t) else LastTime(data, points, x)
  {
    assert (points + [p])[..|points|] == points;
  }

  lemma AgreesOneMore(s: State, data: map<string, seq<int>>, past: seq<Event>, points: seq<Point>, e: Event)
    requires Agrees(s, data, past, points)
    ensures Agrees(Step(s, e), data, past + [e],
                   if TakenIn(data, past, points, e) then points + [Point(e.station, e.now, e.remaining.value, e.used)] else points)
  {
    hide LastTime, Trim, Keep, DoQuery, DoStart, Accepts;
    assert forall x :: PurgedIn(past + [e], x) <==> PurgedIn(past, x) || e == Purge(x);
    match e
    case Append(station, remaining, used, now) => AppendAgrees(s, data, past, points, e);
    case Query(a) => QueryLeaves(s, a);
    case Start => StartLeaves(s);
    case _ =>
  }

  lemma AppendAgrees(s: State, data: map<string, seq<int>>, past: seq<Event>, points: seq<Point>, e: Event)
    requires Agrees(s, data, past, points) && e.Append?
    ensures Agrees(Step(s, e), data, past + [e],
                   if TakenIn(data, past, points, e) then points + [Point(e.station, e.now, e.remaining.value, e.used)] else points)
  {
    hide LastTime, Trim;
    assert forall x :: PurgedIn(past + [e], x) <==> PurgedIn(past, x);
    if TakenIn(data, past, points, e) {
      LastTimeOneMore(data, points, Point(e.station, e.now, e.remaining.value, e.used));
      var times := HotTimes(s, e.station) + [e.now];
      assert times[|times| - 1] == e.now;
      var kept := Trim(times, e.now - HOT_AGE);
      assert kept != [] && kept[|kept| - 1] == e.now;
      assert Step(s, e).data == s.data[e.station := kept];
    }
  }

  lemma {:induction false} RunAgrees(data: map<string, seq<int>>, points: map<Key, Point>, daily: map<Key, int>, events: seq<Event>)
    ensures Agrees(Run(Loaded(data, points, daily), events), data, events, Snapshots(data, events))
  {
    hide Step, TakenIn;
    if events == [] {
    } else {
      var past, e := events[..|events| - 1], events[|events| - 1];
      RunAgrees(data, points, daily, past);
      AgreesOneMore(Run(Loaded(data, points, daily), past), data, past, Snapshots(data, past), e);
      assert past + [e] == events;
    }
  }

  // ----- what is taken in

  // The history takes in exactly these snapshots, in this order, with the values and times they came with.
  lemma TakesInSnapshots(data: map<string, seq<int>>, points: map<Key, Point>, daily: map<Key, int>, events: seq<Event>)
    ensures Run(Loaded(data, points, daily), events).accepted == Snapshots(data, events)
  {
    RunAgrees(data, points, daily, events);
  }

  // Whether the next snapshot is taken in.
  lemma AcceptsIff(data: map<string, seq<int>>, points: map<Key, Point>, daily: map<Key, int>, events: seq<Event>,
                   station: string, remaining: Option<int>, used: int, now: int)
    ensures var s := Run(Loaded(data, points, daily), events);
            var last := LastTime(data, Snapshots(data, events), station);
            Accepts(s, station, remaining, now)
            <==> remaining.Some? && Purge(station) !in events && (last.Some? ==> now >= last.value + 30000)
  {
    RunAgrees(data, points, daily, events);
  }

  // The event at this place brought the point when it had to be taken in.
  ghost predicate Brings(data: map<string, seq<int>>, events: seq<Event>, p: Point, i: int) {
    && 0 <= i < |events| && events[i] == Append(p.station, Some(p.remaining), p.used, p.t)
    && TakenIn(data, events[..i], Snapshots(data, events[..i]), events[i])
  }

  lemma BroughtLast(data: map<string, seq<int>>, past: seq<Event>, e: Event, p: Point)
    ensures p in Snapshots(data, past + [e]) <==> p in Snapshots(data, past) || Brings(data, past + [e], p, |past|)
  {
    assert (past + [e])[..|past|] == past;
    hide TakenIn;
  }

  lemma BroughtBefore(data: map<string, seq<int>>, past: seq<Event>, e: Event, p: Point, i: nat)
    requires i < |past|
    ensures Brings(data, past + [e], p, i) <==> Brings(data, past, p, i)
  {
    hide TakenIn, Snapshots;
    assert (past + [e])[..i] == past[..i] && (past + [e])[i] == past[i];
  }

  // A point was taken in if and only if one of the events brought it when it had to be taken in.
  lemma {:induction false} SnapshotIff(data: map<string, seq<int>>, events: seq<Event>, p: Point)
    ensures p in Snapshots(data, events) <==> exists i :: Brings(data, events, p, i)
  {
    assert forall i :: Brings(data, events, p, i) ==> 0 <= i < |events|;
    if events != [] {
      var past, e := events[..|events| - 1], events[|events| - 1];
      assert events == past + [e];
      assert forall i :: Brings(data, past, p, i) ==> 0 <= i < |past|;
      hide Snapshots, Brings;
      SnapshotIff(data, past, p);
      BroughtLast(data, past, e, p);
      forall i | 0 <= i < |past| ensures Brings(data, events, p, i) <==> Brings(data, past, p, i) {
        BroughtBefore(data, past, e, p, i);
      }
    }
  }

  // So a snapshot taken in is, as long as its station is not purged, waiting, in the batch being written, stored with its own
  // values, or past its age limit.
  lemma SnapshotsAreKept(data: map<string, seq<int>>, points: map<Key, Point>, daily: map<Key, int>, events: seq<Event>, i: nat)
    requires i < |events| && TakenIn(data, events[..i], Snapshots(data, events[..i]), events[i])
    requires !PurgedIn(events, events[i].station)
    ensures var e, s := events[i], Run(Loaded(data, points, daily), events);
            var p := Point(e.station, e.now, e.remaining.value, e.used);
            && (p in s.pending || p in s.batch || KeyOf(p) in s.points || (s.cut.Some? && p.t < s.cut.value))
            && (KeyOf(p) in s.points && KeyOf(p) !in points ==> s.points[KeyOf(p)].remaining == e.remaining.value && s.points[KeyOf(p)].used == e.used)
  {
    var e := events[i];
    var p := Point(e.station, e.now, e.remaining.value, e.used);
    hide TakenIn, Run;
    assert e == Append(p.station, Some(p.remaining), p.used, p.t) by { IsAppend(data, events, i); }
    assert Brings(data, events, p, i);
    SnapshotIff(data, events, p);
    RunAgrees(data, points, daily, events);
    NothingLost(data, points, daily, events, p);
  }

  lemma IsAppend(data: map<string, seq<int>>, events: seq<Event>, i: nat)
    requires i < |events| && TakenIn(data, events[..i], Snapshots(data, events[..i]), events[i])
    ensures events[i] == Append(events[i].station, Some(events[i].remaining.value), events[i].used, events[i].now)
  {}

  // ----- the hot points, the flush and the clean-up

  // What stays hot: the longest stretch of newest points that is not too long and begins within the age limit.
  lemma {:induction false} TrimIs(times: seq<int>, cutoff: int) returns (n: nat)
    ensures n <= |times| && Trim(times, cutoff) == times[n..]
    ensures |times| - n <= 5000 && (n < |times| ==> times[n] >= cutoff)
    ensures n > 0 ==> |times| - (n - 1) > 5000 || times[n - 1] < cutoff
    decreases |times|
  {
    if times != [] && (|times| > MAX_POINTS || times[0] < cutoff) {
      n := TrimIs(times[1..], cutoff);
      assert times[1..][n..] == times[n + 1..];
      n := n + 1;
    } else {
      n := 0;
    }
  }

  // After a snapshot is taken in, its station keeps as many of its newest hot points as fit into 5000 and go back no more than 30
  // days.
  lemma HotAre(s: State, station: string, remaining: Option<int>, used: int, now: int) returns (n: nat)
    requires Accepts(s, station, remaining, now)
    ensures var times := HotTimes(s, station) + [now];
            && n <= |times| && HotTimes(DoAppend(s, station, remaining, used, now), station) == times[n..] && |times| - n <= 5000
            && (n < |times| ==> times[n] >= now - 30 * 24 * 60 * 60 * 1000)
            && (n > 0 ==> |times| - (n - 1) > 5000 || times[n - 1] < now - 30 * 24 * 60 * 60 * 1000)
  {
    n := TrimIs(HotTimes(s, station) + [now], now - 30 * 24 * 60 * 60 * 1000);
  }

  // An accepted snapshot schedules a flush, and stays the newest hot point.
  lemma AppendSchedules(s: State, station: string, remaining: Option<int>, used: int, now: int)
    requires Accepts(s, station, remaining, now)
    ensures var s' := DoAppend(s, station, remaining, used, now);
            && s'.timer && HotTimes(s', station) != [] && HotTimes(s', station)[|HotTimes(s', station)| - 1] == now
            && forall x :: x != station ==> HotTimes(s', x) == HotTimes(s, x)
  {
    var times := HotTimes(s, station) + [now];
    assert times[|times| - 1] == now;
  }

  // A flush whose queries all succeed: everything that waited is stored and nothing else, the recounted days of the stations
  // written hold exactly the new sums, and it is over.
  lemma FlushStores(s: State, insert: Answer, clear: Answer, fill: Answer, clean: Answer)
    requires s.phase.Idle? && s.queue != [] && s.removed == {} && s.pending != []
    requires forall p :: p in s.pending ==> p.station !in s.purged
    requires insert.ok && clear.ok && fill.ok && clean.ok && clean.cutoff.None?
    ensures var done := DoQuery(DoQuery(DoQuery(DoQuery(DoStart(s), insert), clear), fill), clean);
            && done.phase.Idle? && done.pending == [] && done.batch == [] && done.queue == s.queue[1..]
            && (forall k :: k in s.points ==> k in done.points && done.points[k] == s.points[k])
            && (forall p :: p in s.pending ==> KeyOf(p) in done.points)
            && (forall k :: k in done.points && k !in s.points ==> done.points[k] in s.pending && KeyOf(done.points[k]) == k)
            && (forall k :: k in done.daily <==>
                  if k.0 in StationsOf(s.pending) then k in fill.sums || (k in s.daily && !(clear.dayFrom <= k.1 < clear.dayTo)) else k in s.daily)
            && (forall k :: k in done.daily ==>
                  done.daily[k] == if k in fill.sums && k.0 in StationsOf(s.pending) then fill.sums[k] else s.daily[k])
  {
    KeepsAll(s.pending, s.purged);
    hide Keep, Inserted, StationsOf, DoQuery;
    var started := DoStart(s);
    assert started == s.(phase := InsertPoints(s.pending), job := s.queue[0], queue := s.queue[1..], batch := s.pending, pending := [],
                         taken := {});
    var inserted := DoQuery(started, insert);
    assert inserted == started.(points := Inserted(s.points, s.pending), phase := ClearDaily(s.pending)) by { InsertReturns(started, insert); }
    var cleared := DoQuery(inserted, clear);
    ClearReturns(inserted, clear);
    var filled := DoQuery(cleared, fill);
    FillReturns(cleared, fill);
    CleanReturns(filled, clean);
  }

  lemma InsertReturns(s: State, a: Answer)
    requires s.phase.InsertPoints? && a.ok
    ensures DoQuery(s, a) == s.(points := Inserted(s.points, s.phase.writable), phase := ClearDaily(s.phase.writable))
  {
    hide Inserted;
  }

  // The days within the window are gone for the stations written.
  lemma ClearReturns(s: State, a: Answer)
    requires s.phase.ClearDaily? && a.ok
    ensures DoQuery(s, a) == s.(daily := DoQuery(s, a).daily, phase := FillDaily(s.phase.writable))
    ensures forall k :: k in DoQuery(s, a).daily
                        <==> k in s.daily && !(k.0 in StationsOf(s.phase.writable) && a.dayFrom <= k.1 < a.dayTo)
    ensures forall k :: k in DoQuery(s, a).daily ==> DoQuery(s, a).daily[k] == s.daily[k]
  {
    hide StationsOf;
  }

  lemma FillReturns(s: State, a: Answer)
    requires s.phase.FillDaily? && a.ok
    ensures DoQuery(s, a) == s.(daily := DoQuery(s, a).daily, phase := Cleanup)
    ensures forall k :: k in DoQuery(s, a).daily <==> k in s.daily || (k in a.sums && k.0 in StationsOf(s.phase.writable))
    ensures forall k :: k in DoQuery(s, a).daily
                        ==> DoQuery(s, a).daily[k] == if k in a.sums && k.0 in StationsOf(s.phase.writable) then a.sums[k] else s.daily[k]
  {
    hide StationsOf;
  }

  lemma CleanReturns(s: State, a: Answer)
    requires s.phase.Cleanup? && a.ok && a.cutoff.None?
    ensures DoQuery(s, a) == s.(phase := Idle, batch := [], taken := {}, resolved := DoQuery(s, a).resolved)
  {}

  lemma {:induction false} KeepsAll(ps: seq<Point>, purged: set<string>)
    requires forall p :: p in ps ==> p.station !in purged
    ensures Keep(ps, purged) == ps
  {
    if ps != [] { KeepsAll(ps[1..], purged); }
  }

  // The clean-up deletes the rows older than its limit and no other.
  lemma RetentionDeletes(s: State, cutoff: int)
    ensures var s' := DoRetention(s, cutoff);
            && (forall k :: k in s'.points <==> k in s.points && k.1 >= cutoff)
            && (forall k :: k in s'.points ==> s'.points[k] == s.points[k])
  {}

  // What a flush could not do waits in front of what came since, in its order, without purged stations.
  lemma FailureRestores(s: State, i: nat, j: nat) returns (m: nat, n: nat)
    requires i < j < |s.batch| && s.batch[i].station !in s.purged && s.batch[j].station !in s.purged
    ensures m < n < |Fails(s).pending| && Fails(s).pending[m] == s.batch[i] && Fails(s).pending[n] == s.batch[j]
    ensures |s.pending| <= |Fails(s).pending| && Fails(s).pending[|Fails(s).pending| - |s.pending|..] == s.pending
  {
    m, n := KeepsOrder(s.batch, s.purged, i, j);
    var kept := Keep(s.batch, s.purged);
    hide Keep;
    assert Fails(s).pending == kept + s.pending;
  }

  lemma {:induction false} KeepsOrder(ps: seq<Point>, purged: set<string>, i: nat, j: nat) returns (m: nat, n: nat)
    requires i < j < |ps| && ps[i].station !in purged && ps[j].station !in purged
    ensures m < n < |Keep(ps, purged)| && Keep(ps, purged)[m] == ps[i] && Keep(ps, purged)[n] == ps[j]
  {
    var rest, kept := Keep(ps[1..], purged), Keep(ps, purged);
    assert ps[1..][j - 1] == ps[j] && (i > 0 ==> ps[1..][i - 1] == ps[i]);
    assert kept == if ps[0].station in purged then rest else [ps[0]] + rest;
    hide Keep;
    if i == 0 {
      assert ps[j] in ps[1..];
      var k :| 0 <= k < |rest| && rest[k] == ps[j];
      m, n := 0, k + 1;
    } else {
      m, n := KeepsOrder(ps[1..], purged, i - 1, j - 1);
      if ps[0].station !in purged { m, n := m + 1, n + 1; }
    }
  }
}
