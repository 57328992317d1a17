// Write-behind history: append, flush and purge interleaved with queries that may fail (db/history.js).
// Every stretch of code between two awaits is one event.
module HistoryWrites {
  import opened Outcomes

  const MAX_POINTS := 5000
  const HOT_AGE := 30 * 24 * 3600 * 1000
  const MIN_GAP := 30 * 1000

  datatype Point = Point(station: string, t: int, remaining: int, used: int)
  type Key = (string, int)

  function KeyOf(p: Point): Key { (p.station, p.t) }

  // A queued flush; one queued by purge() reports to its caller.
  datatype Job = Background | ForPurge(station: string)

  // Where the running flush stands: what it is about to query.
  datatype Phase =
    | Idle
    | DeletePoints | DeleteDaily
    | InsertPoints(writable: seq<Point>)
    | ClearDaily(writable: seq<Point>) | FillDaily(writable: seq<Point>)
    | Cleanup

  datatype State = State(
    data: map<string, seq<int>>,        // times of the points kept hot, ascending
    pending: seq<Point>,                // accepted, not yet taken by a flush
    removed: set<string>,               // to be deleted by the next flush
    purged: set<string>,                // never to be written again
    timer: bool,                        // a flush is scheduled
    queue: seq<Job>,                    // flushes waiting for their turn
    phase: Phase,
    job: Job, batch: seq<Point>, taken: set<string>, // of the running flush
    points: map<Key, Point>,            // history_points
    daily: map<Key, int>,               // station_daily_usage, by day number
    // what happened so far
    accepted: seq<Point>, resolved: set<string>, cut: Option<int>)

  // How a query went: whether it reported success and whether it took effect; the days and sums a recount
  // works on; the age limit a clean-up applies, if any.
  datatype Answer = Answer(ok: bool, effect: bool, dayFrom: int, dayTo: int, sums: map<Key, int>, cutoff: Option<int>)

  datatype Event =
    | Append(station: string, remaining: Option<int>, used: int, now: int)
    | TimerFires
    | Purge(station: string)
    | Start
    | Query(answer: Answer)
    | Retention(before: int)

  // ----- append

  function Trim(times: seq<int>, cutoff: int): (out: seq<int>)
    ensures times != [] && times[|times| - 1] >= cutoff ==> out != [] && out[|out| - 1] == times[|times| - 1]
  {
    if times != [] && (|times| > MAX_POINTS || times[0] < cutoff) then Trim(times[1..], cutoff) else times
  }

  function HotTimes(s: State, station: string): seq<int> {
    if station in s.data then s.data[station] else []
  }

  predicate Accepts(s: State, station: string, remaining: Option<int>, now: int) {
    && remaining.Some? && station !in s.purged
    && var times := HotTimes(s, station); times == [] || now - times[|times| - 1] >= MIN_GAP
  }

  function DoAppend(s: State, station: string, remaining: Option<int>, used: int, now: int): State {
    if !Accepts(s, station, remaining, now) then s
    else
      var p := Point(station, now, remaining.value, used);
      s.(data := s.data[station := Trim(HotTimes(s, station) + [now], now - HOT_AGE)],
         pending := s.pending + [p], timer := true, accepted := s.accepted + [p])
  }

  // ----- purge and the timer

  function Keep(ps: seq<Point>, purged: set<string>): (out: seq<Point>)
    ensures forall p :: p in out <==> p in ps && p.station !in purged
  {
    if ps == [] then []
    else if ps[0].station in purged then Keep(ps[1..], purged)
    else [ps[0]] + Keep(ps[1..], purged)
  }

  function DoPurge(s: State, station: string): State {
    s.(purged := s.purged + {station}, data := s.data - {station}, pending := Keep(s.pending, {station}),
       removed := s.removed + {station}, timer := false, queue := s.queue + [ForPurge(station)])
  }

  function DoTimer(s: State): State {
    if s.timer then s.(timer := false, queue := s.queue + [Background]) else s
  }

  // ----- the running flush

  // A flush takes all points and all deletions that are waiting.
  function Taken(s: State): State
    requires s.queue != []
  {
    s.(job := s.queue[0], queue := s.queue[1..], batch := s.pending, pending := [], taken := s.removed, removed := {})
  }

  function DoStart(s: State): State {
    if s.phase.Idle? && s.queue != [] then
      if s.removed != {} then Taken(s).(phase := DeletePoints) else Writes(Taken(s))
    else s
  }

  // Purged stations are filtered out of the batch once more, right before it is written.
  function Writes(s: State): State {
    var writable := Keep(s.batch, s.purged);
    s.(phase := if writable != [] then InsertPoints(writable) else Cleanup)
  }

  function Fails(s: State): State {
    s.(phase := Idle, batch := [], taken := {},
       pending := Keep(s.batch, s.purged) + s.pending,
       removed := s.removed + s.taken,
       timer := s.timer || s.taken != {} || s.job.ForPurge?)
  }

  function Succeeds(s: State): State {
    s.(phase := Idle, batch := [], taken := {},
       resolved := s.resolved + if s.job.ForPurge? then {s.job.station} else {})
  }

  function WithoutStations<V>(m: map<Key, V>, stations: set<string>): map<Key, V> {
    map k | k in m && k.0 !in stations :: m[k]
  }

  function Since(m: map<Key, Point>, cutoff: int): map<Key, Point> {
    map k | k in m && k.1 >= cutoff :: m[k]
  }

  // INSERT IGNORE.
  function Inserted(m: map<Key, Point>, ps: seq<Point>): (out: map<Key, Point>)
    ensures forall k :: k in m ==> k in out && out[k] == m[k]
    ensures forall p :: p in ps ==> KeyOf(p) in out
    ensures forall k :: k in out ==> k in m || (KeyOf(out[k]) == k && out[k] in ps)
    decreases |ps|
  {
    if ps == [] then m
    else Inserted(if KeyOf(ps[0]) in m then m else m[KeyOf(ps[0]) := ps[0]], ps[1..])
  }

  function StationsOf(ps: seq<Point>): (out: set<string>)
    ensures forall p :: p in ps ==> p.station in out
    ensures forall x :: x in out ==> exists p :: p in ps && p.station == x
  {
    set p | p in ps :: p.station
  }

  // One query of the running flush returns. A failed one may or may not have taken effect.
  function DoQuery(s: State, a: Answer): State {
    var ok, acts := a.ok, a.ok || a.effect;
    match s.phase
    case Idle => s
    case DeletePoints =>
      var s' := if acts then s.(points := WithoutStations(s.points, s.taken)) else s;
      if ok then s'.(phase := DeleteDaily) else Fails(s')
    case DeleteDaily =>
      var s' := if acts then s.(daily := WithoutStations(s.daily, s.taken)) else s;
      if ok then Writes(s') else Fails(s')
    case InsertPoints(writable) =>
      var s' := if acts then s.(points := Inserted(s.points, writable)) else s;
      if ok then s'.(phase := ClearDaily(writable)) else Fails(s')
    case ClearDaily(writable) =>
      // the days of the window are recomputed, for the stations just written
      var s' := if acts then s.(daily := map k | k in s.daily && !(k.0 in StationsOf(writable) && a.dayFrom <= k.1 < a.dayTo) :: s.daily[k]) else s;
      if ok then s'.(phase := FillDaily(writable)) else Fails(s')
    case FillDaily(writable) =>
      var s' := if acts then s.(daily := s.daily + map k | k in a.sums && k.0 in StationsOf(writable) :: a.sums[k]) else s;
      if ok then s'.(phase := Cleanup) else Fails(s')
    case Cleanup =>
      // its own errors are caught
      Succeeds(if acts && a.cutoff.Some? then DoRetention(s, a.cutoff.value) else s)
  }

  function DoRetention(s: State, cutoff: int): State {
    s.(points := Since(s.points, cutoff),
       cut := Some(if s.cut.Some? && s.cut.value > cutoff then s.cut.value else cutoff))
  }

  function Step(s: State, e: Event): State {
    match e
    case Append(station, remaining, used, now) => DoAppend(s, station, remaining, used, now)
    case TimerFires => DoTimer(s)
    case Purge(station) => DoPurge(s, station)
    case Start => DoStart(s)
    case Query(answer) => DoQuery(s, answer)
    case Retention(cutoff) => DoRetention(s, cutoff)
  }

  function Run(s: State, events: seq<Event>): State {
    if events == [] then s else Step(Run(s, events[..|events| - 1]), events[|events| - 1])
  }

  // A process that just loaded its tables.
  function Loaded(data: map<string, seq<int>>, points: map<Key, Point>, daily: map<Key, int>): State {
    State(data, [], {}, {}, false, [], Idle, Background, [], {}, points, daily, [], {}, None)
  }
}
