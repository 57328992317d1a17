// The History object: its fields, and each stretch of its code between two awaits as a method.
module HistoryStore {
  import opened Outcomes
  import opened HistoryWrites

  class History {
    var data: map<string, seq<int>>
    var pending: seq<Point>
    var removed: set<string>
    var purged: set<string>
    var timer: bool
    var queue: seq<Job>
    var phase: Phase
    var job: Job
    var batch: seq<Point>
    var taken: set<string>
    // the two tables it writes
    var points: map<Key, Point>
    var daily: map<Key, int>
    // what happened so far
    ghost var accepted: seq<Point>
    ghost var resolved: set<string>
    ghost var cut: Option<int>

    ghost function Now(): State
      reads this
    {
      State(data, pending, removed, purged, timer, queue, phase, job, batch, taken, points, daily, accepted, resolved, cut)
    }

    constructor (data: map<string, seq<int>>, points: map<Key, Point>, daily: map<Key, int>)
      ensures Now() == Loaded(data, points, daily)
    {
      this.data, this.points, this.daily := data, points, daily;
      pending, removed, purged, timer, queue := [], {}, {}, false, [];
      phase, job, batch, taken := Idle, Background, [], {};
      accepted, resolved, cut := [], {}, None;
    }

    // A snapshot is kept hot and queued for writing, unless the station is purged or the last one is too recent.
    method Append(station: string, remaining: Option<int>, used: int, now: int)
      modifies `data, `pending, `timer, `accepted
      ensures Now() == DoAppend(old(Now()), station, remaining, used, now)
    {
      if remaining.None? || station in purged { return; }
      var times := if station in data then data[station] else [];
      if times != [] && now - times[|times| - 1] < MIN_GAP { return; }
      times := times + [now];
      pending := pending + [Point(station, now, remaining.value, used)];
      accepted := accepted + [Point(station, now, remaining.value, used)];
      ghost var full := times;
      while times != [] && (|times| > MAX_POINTS || times[0] < now - HOT_AGE)
        invariant Trim(times, now - HOT_AGE) == Trim(full, now - HOT_AGE)
        decreases |times|
      {
        times := times[1..];
      }
      data := data[station := times];
      timer := true;
    }

    // The scheduled flush is queued.
    method TimerFires()
      modifies `timer, `queue
      ensures Now() == DoTimer(old(Now()))
    {
      if timer {
        timer, queue := false, queue + [Background];
      }
    }

    method Purge(station: string)
      modifies `purged, `data, `pending, `removed, `timer, `queue
      ensures Now() == DoPurge(old(Now()), station)
    {
      hide Keep;
      purged, removed := purged + {station}, removed + {station};
      data, pending := data - {station}, Keep(pending, {station});
      timer, queue := false, queue + [ForPurge(station)];
    }

    // A queued flush gets its turn.
    method Start()
      modifies this
      ensures Now() == DoStart(old(Now()))
    {
      hide Taken, Writes;
      if !phase.Idle? || queue == [] { return; }
      Take();
      if taken != {} { phase := DeletePoints; } else { Write(); }
    }

    method Take()
      requires queue != []
      modifies `job, `queue, `batch, `pending, `taken, `removed
      ensures Now() == Taken(old(Now())) && taken == old(removed)
    {
      job, queue := queue[0], queue[1..];
      batch, pending := pending, [];
      taken, removed := removed, {};
    }

    // Past the deletes: what may still be written is written next.
    method Write()
      modifies this`phase
      ensures Now() == Writes(old(Now()))
    {
      var writable := Keep(batch, purged);
      phase := if writable != [] then InsertPoints(writable) else Cleanup;
    }

    // The catch block: the batch goes back in front, the deletions are owed again.
    method Fail()
      modifies `pending, `removed, `timer, `phase, `batch, `taken
      ensures Now() == Fails(old(Now()))
    {
      hide Keep;
      pending := Keep(batch, purged) + pending;
      removed := removed + taken;
      timer := timer || taken != {} || job.ForPurge?;
      phase, batch, taken := Idle, [], {};
    }

    // The try block is left without an error.
    method Finish()
      modifies `resolved, `phase, `batch, `taken
      ensures Now() == Succeeds(old(Now()))
    {
      resolved := resolved + if job.ForPurge? then {job.station} else {};
      phase, batch, taken := Idle, [], {};
    }

    // The flush goes on when its query succeeded, and gives up otherwise.
    method GoOn(ok: bool, next: Phase)
      modifies `pending, `removed, `timer, `phase, `batch, `taken
      ensures Now() == if ok then old(Now()).(phase := next) else Fails(old(Now()))
    {
      if ok { phase := next; } else { Fail(); }
    }

    // A query of the running flush returns.
    method Returns(a: Answer)
      modifies this
      ensures Now() == DoQuery(old(Now()), a)
    {
      hide Fails, Succeeds, Writes, Inserted, WithoutStations, StationsOf;
      var acts := a.ok || a.effect;
      match phase
      case Idle => return;
      case DeletePoints =>
        if acts { points := WithoutStations(points, taken); }
        GoOn(a.ok, DeleteDaily);
      case DeleteDaily =>
        if acts { daily := WithoutStations(daily, taken); }
        if a.ok { Write(); } else { Fail(); }
      case InsertPoints(writable) =>
        if acts { points := Inserted(points, writable); }
        GoOn(a.ok, ClearDaily(writable));
      case ClearDaily(writable) =>
        if acts { daily := map k | k in daily && !(k.0 in StationsOf(writable) && a.dayFrom <= k.1 < a.dayTo) :: daily[k]; }
        GoOn(a.ok, FillDaily(writable));
      case FillDaily(writable) =>
        if acts { daily := daily + map k | k in a.sums && k.0 in StationsOf(writable) :: a.sums[k]; }
        GoOn(a.ok, Cleanup);
      case Cleanup =>
        if acts && a.cutoff.Some? { Retention(a.cutoff.value); }
        Finish();
    }

    // The daily clean-up deletes rows past their age limit.
    method Retention(before: int)
      modifies this`points, this`cut
      ensures Now() == DoRetention(old(Now()), before)
    {
      points := Since(points, before);
      cut := Some(if cut.Some? && cut.value > before then cut.value else before);
    }
  }
}
