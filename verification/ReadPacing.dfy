// When the agent reads the production database: cache, circuit breaker, stale fallback, one read in flight
// (agent/snapshot.js). Every stretch of code between two awaits is one event with the clock readings it takes.
module ReadPacing {
  import opened Outcomes
  import opened AgentReader

  const MIN_GAP := 4 * 60 * 1000
  const BREAKER_BASE := 10 * 60 * 1000
  const BREAKER_MAX := 60 * 60 * 1000
  const HOUR := 60 * 60 * 1000
  const STALE_MAX := 30 * 60 * 1000

  datatype Snapshot = Good(readAt: int, rows: seq<string>) | Bad(readAt: int, failure: Failure)

  // A read of the database: when it began, when each of its statements was issued, and how it ended.
  datatype Record = Record(start: int, end: Option<Ending>)
  datatype Ending = Ending(at: int, outcome: Outcome, issued: seq<int>)

  datatype SourceState = SourceState(current: Option<Snapshot>, lastGood: Option<Snapshot>, inflight: bool, failures: nat, pausedUntil: int,
                         reader: ReaderState,
                         // what happened so far
                         clock: int, history: seq<Record>)

  const IDLE := SourceState(None, None, false, 0, 0, NEW, 0, [])

  datatype Event =
    | Get(t: int)
    | Finish(at: int, servedAt: int, world: World, issued: seq<int>)

  datatype Answer = Served(snapshot: Snapshot, stale: bool) | Waits | Nothing

  function Pow2(n: nat): (r: nat)
    ensures r > 0
  {
    if n == 0 then 1 else 2 * Pow2(n - 1)
  }

  predicate Hourly(f: Failure) { f.DbFailure? && f.hourly }

  function BreakerPause(failures: nat, t: int, hourly: bool): (pause: int)
    requires failures > 0
    ensures hourly ==> 0 < pause <= HOUR && (t + pause) % HOUR == 0
    ensures !hourly ==> BREAKER_BASE <= pause <= BREAKER_MAX
  {
    if hourly then HOUR - t % HOUR
    else if BREAKER_BASE * Pow2(failures - 1) < BREAKER_MAX then BREAKER_BASE * Pow2(failures - 1) else BREAKER_MAX
  }

  // The old result instead of a failure, while it is young enough and the failure is not about the account.
  function Serve(s: SourceState, t: int): Answer {
    if s.current.None? then Nothing
    else
      var c := s.current.value;
      if c.Bad? && !c.failure.AccountTooBroad? && s.lastGood.Some? && 0 <= t - s.lastGood.value.readAt < STALE_MAX
      then Served(s.lastGood.value, true) else Served(c, false)
  }

  // The part of get() before its first await.
  function DoGet(s: SourceState, t: int): (SourceState, Answer) {
    var age := if s.current.Some? then t - s.current.value.readAt else -1;
    var s := s.(pausedUntil := if s.pausedUntil - t > BREAKER_MAX then 0 else s.pausedUntil, clock := t);
    if s.current.Some? && 0 <= age < MIN_GAP && s.failures == 0 then (s, Serve(s, t))
    else if s.current.Some? && s.failures > 0 && t < s.pausedUntil then (s, Serve(s, t))
    else if s.inflight then (s, Waits)
    else (s.(inflight := true, history := s.history + [Record(t, None)]), Waits)
  }

  // The part after the reader came back; its answer goes to everyone who waited.
  function DoFinish(s: SourceState, at: int, servedAt: int, w: World, issued: seq<int>): (SourceState, Answer) {
    if !s.inflight || s.history == [] then (s, Nothing)
    else
      var d := ReadStep(s.reader, w);
      var n := |s.history| - 1;
      var s := s.(inflight := false, reader := d.next, clock := servedAt,
                  history := s.history[n := s.history[n].(end := Some(Ending(at, d.outcome, issued)))]);
      var s := match d.outcome
        case Read(rows) => s.(current := Some(Good(at, rows)), lastGood := Some(Good(at, rows)), failures := 0, pausedUntil := 0)
        case Failed(f) => s.(current := Some(Bad(at, f)), failures := s.failures + 1,
                             pausedUntil := at + BreakerPause(s.failures + 1, at, Hourly(f)));
      (s, Serve(s, servedAt))
  }

  function Step(s: SourceState, e: Event): (SourceState, Answer) {
    match e
    case Get(t) => DoGet(s, t)
    case Finish(at, servedAt, w, issued) => DoFinish(s, at, servedAt, w, issued)
  }

  // The clock does not go back, and the statements of a read are issued while it runs.
  predicate Possible(s: SourceState, e: Event) {
    match e
    case Get(t) => s.clock <= t
    case Finish(at, servedAt, w, issued) =>
      && s.inflight && s.history != [] && s.clock <= at <= servedAt
      && |issued| == |ReadStep(s.reader, w).issued|
      && forall i :: 0 <= i < |issued| ==> s.history[|s.history| - 1].start <= issued[i] <= at
  }

  function Run(events: seq<Event>): SourceState {
    if events == [] then IDLE else Step(Run(events[..|events| - 1]), events[|events| - 1]).0
  }

  predicate PossibleRun(events: seq<Event>) {
    events == [] || (PossibleRun(events[..|events| - 1]) && Possible(Run(events[..|events| - 1]), events[|events| - 1]))
  }

  // ----- the object the agent keeps

  class SnapshotSource {
    var current: Option<Snapshot>
    var lastGood: Option<Snapshot>
    var inflight: bool
    var failures: nat
    var pausedUntil: int
    const reader: Reader
    ghost var clock: int
    ghost var history: seq<Record>

    constructor (reader: Reader)
      requires reader.Now() == NEW
      ensures this.reader == reader && Now() == IDLE
    {
      current, lastGood, inflight, failures, pausedUntil := None, None, false, 0, 0;
      this.reader := reader;
      clock, history := 0, [];
    }

    ghost function Now(): SourceState
      reads this, reader
    {
      SourceState(current, lastGood, inflight, failures, pausedUntil, reader.Now(), clock, history)
    }

    method ServeAt(t: int) returns (a: Answer)
      ensures a == Serve(Now(), t)
    {
      if current.None? { return Nothing; }
      if current.value.Bad? && !current.value.failure.AccountTooBroad? && lastGood.Some?
         && t - lastGood.value.readAt >= 0 && t - lastGood.value.readAt < STALE_MAX {
        return Served(lastGood.value, true);
      }
      return Served(current.value, false);
    }

    method Get(t: int) returns (a: Answer)
      modifies this
      ensures (Now(), a) == DoGet(old(Now()), t)
    {
      var age := if current.Some? then t - current.value.readAt else -1;
      clock := t;
      if pausedUntil - t > BREAKER_MAX { pausedUntil := 0; }
      if current.Some? && age >= 0 && age < MIN_GAP && failures == 0 { a := ServeAt(t); return; }
      if current.Some? && failures > 0 && t < pausedUntil { a := ServeAt(t); return; }
      if !inflight {
        inflight := true;
        history := history + [Record(t, None)];
      }
      return Waits;
    }

    method Finish(at: int, servedAt: int, w: World, ghost issued: seq<int>) returns (a: Answer)
      requires inflight && history != []
      modifies this, reader
      ensures (Now(), a) == DoFinish(old(Now()), at, servedAt, w, issued)
    {
      var outcome, statements := reader.ReadRows(w);
      match outcome {
        case Read(rows) =>
          current := Some(Good(at, rows));
          lastGood := current;
          failures := 0;
          pausedUntil := 0;
        case Failed(f) =>
          current := Some(Bad(at, f));
          failures := failures + 1;
          pausedUntil := at + BreakerPause(failures, at, Hourly(f));
      }
      inflight := false;
      clock := servedAt;
      ghost var n := |history| - 1;
      history := history[n := history[n].(end := Some(Ending(at, outcome, issued)))];
      a := ServeAt(servedAt);
    }
  }
}
