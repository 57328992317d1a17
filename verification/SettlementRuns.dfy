// How often the poller can try one day, over every automatic run: any mix of failures, local rechecks, rows that
// could not be written, and pauses, with a clock that does not go back and one configuration version.
module SettlementRuns {
  import opened Outcomes
  import opened Settlement
  import opened SettlementDecisions

  // What is stored about the day, and the time of the next local recheck kept in memory.
  datatype Day = Day(row: Option<Row>, booked: bool, notBefore: Option<int>)

  // One look of the poller: planned at `at`, finished at `done`.
  datatype Visit = Visit(
    at: int, done: int,
    accountingStart: Option<int>, archivedDayEnd: Option<int>, scopeEditedAt: Option<int>,
    fetched: Fetched, blocker: Option<Reason>, written: bool)

  function ContextOf(w: Window, version: Option<string>, d: Day, x: Visit): Context {
    Context(w, x.accountingStart, x.archivedDayEnd, d.booked, version, x.scopeEditedAt, d.notBefore, false, Auto)
  }

  function ActionOf(w: Window, version: Option<string>, d: Day, x: Visit): Action {
    Precheck(ContextOf(w, version, d, x), d.row, x.at)
  }

  function Visited(w: Window, version: Option<string>, d: Day, x: Visit): Day {
    match ActionOf(w, version, d, x)
    case Due =>
      if !x.written then d
      else
        (match Outcome(w, x.fetched, x.done, d.row, Auto, version)
         case Nothing => d
         case Delete => d.(row := None, booked := true)
         case Put(row) => d.(row := Some(row)))
    case Recheck =>
      (match AfterRecheck(w, d.row.value, x.blocker, x.done, version)
       case Nothing => d
       case Delete => d
       case Put(row) =>
         if RecheckUnchanged(d.row.value, row) then d.(notBefore := row.nextAttemptAt)
         else if x.written then d.(row := Some(row), notBefore := None)
         else d.(notBefore := None))
    case Settled => d.(row := None)
    case _ => d
  }

  // A visit that counts as a try: the row it leaves has one attempt more.
  predicate Counts(w: Window, version: Option<string>, d: Day, x: Visit) {
    AttemptsOf(Visited(w, version, d, x).row) > AttemptsOf(d.row)
  }

  const NEW_DAY := Day(None, false, None)

  function After(w: Window, version: Option<string>, run: seq<Visit>): Day {
    if run == [] then NEW_DAY else Visited(w, version, After(w, version, run[..|run| - 1]), run[|run| - 1])
  }

  // The planning times of the visits that counted.
  function Tries(w: Window, version: Option<string>, run: seq<Visit>): seq<int> {
    if run == [] then []
    else
      var past, x := run[..|run| - 1], run[|run| - 1];
      Tries(w, version, past) + if Counts(w, version, After(w, version, past), x) then [x.at] else []
  }

  // When the day first failed.
  function FirstFailure(w: Window, version: Option<string>, run: seq<Visit>): Option<int> {
    if run == [] then None
    else
      var first, row := FirstFailure(w, version, run[..|run| - 1]), After(w, version, run).row;
      if first.None? && row.Some? then row.value.firstFailedAt else first
  }

  ghost predicate Automatic(run: seq<Visit>) {
    && (forall i :: 0 <= i < |run| ==> run[i].at <= run[i].done)
    && (forall i :: 0 <= i < |run| - 1 ==> run[i].done <= run[i + 1].at)
  }

  // ----- the invariant

  function ReadyAt(w: Window, tries: seq<int>, first: Option<int>): int
    requires tries != [] && first.Some?
  {
    var last := tries[|tries| - 1];
    Max(last + RetryDelay(w, last, first), first.value + FAST_RETRY)
  }

  ghost predicate Spaced(w: Window, tries: seq<int>, first: Option<int>) {
    && (forall i :: 0 <= i < |tries| ==> w.endMs + SETTLE_DELAY <= tries[i] < w.endMs + LOOKBACK)
    && (forall i :: 0 <= i < |tries| - 1 ==> tries[i] + RetryDelay(w, tries[i], first) <= tries[i + 1])
    && (forall i :: 0 < i < |tries| ==> first.Some? && first.value + FAST_RETRY <= tries[i])
  }

  ghost predicate RowFits(w: Window, version: Option<string>, row: Row, tries: seq<int>, first: Option<int>, clock: int) {
    && row.attempts == |tries| && first.Some? && row.firstFailedAt == first && first.value <= clock
    && (row.sourceVersion.None? || version.None? || row.sourceVersion == version)
    && row.resettleRequestedAt.None?
    && (row.nextAttemptAt.None? <==> row.manualReason.Some? && row.manualReason.value.kind.Sticky?)
    && (row.nextAttemptAt.Some? ==>
          && (tries != [] ==> ReadyAt(w, tries, first) <= row.nextAttemptAt.value)
          && (row.cleared ==> row.nextAttemptAt.value <= clock))
  }

  ghost predicate Fits(w: Window, version: Option<string>, d: Day, tries: seq<int>, first: Option<int>, clock: int) {
    && (tries != [] ==> first.Some?)
    && Spaced(w, tries, first)
    && (if d.row.Some? then RowFits(w, version, d.row.value, tries, first, clock)
        else (tries == [] && first.None?) || d.booked)
  }

  lemma DelayGrows(w: Window, a: int, b: int, first: Option<int>)
    requires a <= b && first.Some?
    ensures RetryDelay(w, a, first) <= RetryDelay(w, b, first)
  {
  }

  // No visit happens before the row says so.
  lemma DueIsReady(w: Window, version: Option<string>, d: Day, x: Visit, tries: seq<int>, first: Option<int>, clock: int)
    requires Fits(w, version, d, tries, first, clock) && clock <= x.at
    requires ActionOf(w, version, d, x).Due?
    ensures w.endMs + SETTLE_DELAY <= x.at < w.endMs + LOOKBACK
    ensures d.row.None? ==> tries == [] && first.None?
    ensures tries != [] ==> first.Some? && ReadyAt(w, tries, first) <= x.at
  {
  }

  lemma VisitFits(w: Window, version: Option<string>, d: Day, x: Visit, tries: seq<int>, first: Option<int>, clock: int)
    requires Fits(w, version, d, tries, first, clock) && clock <= x.at <= x.done
    ensures FitsAfter(w, version, d, x, tries, first)
  {
    hide Spaced, Outcome, AfterRecheck, Precheck;
    match ActionOf(w, version, d, x)
    case Due => DueFits(w, version, d, x, tries, first, clock);
    case Recheck => RecheckFits(w, version, d, x, tries, first, clock);
    case _ => IdleFits(w, version, d, x, tries, first, clock);
  }

  lemma IdleFits(w: Window, version: Option<string>, d: Day, x: Visit, tries: seq<int>, first: Option<int>, clock: int)
    requires Fits(w, version, d, tries, first, clock) && clock <= x.at <= x.done
    requires !ActionOf(w, version, d, x).Due? && !ActionOf(w, version, d, x).Recheck?
    ensures FitsAfter(w, version, d, x, tries, first)
  {
    hide RetryDelay, Spaced, ReadyAt;
    SpacedFirst(w, tries, first, first);
  }

  ghost predicate FitsAfter(w: Window, version: Option<string>, d: Day, x: Visit, tries: seq<int>, first: Option<int>) {
    var d' := Visited(w, version, d, x);
    var tries' := tries + if Counts(w, version, d, x) then [x.at] else [];
    var first' := if first.None? && d'.row.Some? then d'.row.value.firstFailedAt else first;
    Fits(w, version, d', tries', first', x.done)
  }

  // What a failed try leaves in the row.
  lemma OutcomeRow(w: Window, fetched: Fetched, now: int, before: Option<Row>, version: Option<string>, row: Row)
    requires Outcome(w, fetched, now, before, Auto, version) == Put(row)
    ensures row.sourceVersion == version && row.resettleRequestedAt == RequestOf(before) && !row.cleared
    ensures row.firstFailedAt == if before.Some? && before.value.firstFailedAt.Some? then before.value.firstFailedAt else Some(now)
    ensures row.nextAttemptAt.None? <==> row.manualReason.Some? && row.manualReason.value.kind.Sticky?
    ensures row.attempts == AttemptsOf(before)
            || (row.attempts == AttemptsOf(before) + 1 && row.nextAttemptAt == Some(now + RetryDelay(w, now, row.firstFailedAt)))
    ensures row.attempts == AttemptsOf(before) && row.nextAttemptAt.Some? ==> row.nextAttemptAt.value == now + MANUAL_RECHECK
  {
  }

  lemma DueFits(w: Window, version: Option<string>, d: Day, x: Visit, tries: seq<int>, first: Option<int>, clock: int)
    requires Fits(w, version, d, tries, first, clock) && clock <= x.at <= x.done
    requires ActionOf(w, version, d, x).Due?
    ensures FitsAfter(w, version, d, x, tries, first)
  {
    DueIsReady(w, version, d, x, tries, first, clock);
    hide RetryDelay, Spaced, ReadyAt, Precheck, Outcome;
    var d' := Visited(w, version, d, x);
    if d'.row == d.row || d'.row.None? {
      SpacedFirst(w, tries, first, first);
    } else {
      var row := d'.row.value;
      OutcomeRow(w, x.fetched, x.done, d.row, version, row);
      if Counts(w, version, d, x) {
        TryFits(w, tries, first, row.firstFailedAt, x.at);
        ReadyAfterTry(w, tries, row.firstFailedAt, x.at, x.done);
      } else {
        SpacedFirst(w, tries, first, row.firstFailedAt);
        if tries != [] { ReadyBy(w, tries, first, x.at, x.done); }
      }
    }
  }

  lemma ReadyBy(w: Window, tries: seq<int>, first: Option<int>, at: int, done: int)
    requires tries != [] && first.Some? && ReadyAt(w, tries, first) <= at <= done
    ensures ReadyAt(w, tries, first) <= done + MANUAL_RECHECK
  {
  }

  lemma ReadyAfterTry(w: Window, tries: seq<int>, first: Option<int>, at: int, done: int)
    requires first.Some? && first.value <= done && at <= done
    ensures ReadyAt(w, tries + [at], first) <= done + RetryDelay(w, done, first)
  {
    DelayGrows(w, at, done, first);
  }

  lemma RecheckFits(w: Window, version: Option<string>, d: Day, x: Visit, tries: seq<int>, first: Option<int>, clock: int)
    requires Fits(w, version, d, tries, first, clock) && clock <= x.at <= x.done
    requires ActionOf(w, version, d, x).Recheck?
    ensures FitsAfter(w, version, d, x, tries, first)
  {
    hide RetryDelay, Spaced, ReadyAt;
    SpacedFirst(w, tries, first, first);
  }

  lemma SpacedFirst(w: Window, tries: seq<int>, first: Option<int>, first': Option<int>)
    requires Spaced(w, tries, first) && (first == first' || tries == [])
    ensures Spaced(w, tries, first')
    ensures tries + [] == tries
  {
  }

  lemma TryFits(w: Window, tries: seq<int>, first: Option<int>, first': Option<int>, at: int)
    requires Spaced(w, tries, first) && (first == first' || tries == [])
    requires w.endMs + SETTLE_DELAY <= at < w.endMs + LOOKBACK
    requires tries != [] ==> first.Some? && ReadyAt(w, tries, first) <= at
    ensures Spaced(w, tries + [at], first')
  {
  }

  lemma {:induction false} RunFits(w: Window, version: Option<string>, run: seq<Visit>)
    requires Automatic(run)
    ensures Fits(w, version, After(w, version, run), Tries(w, version, run), FirstFailure(w, version, run),
                 if run == [] then 0 else run[|run| - 1].done)
  {
    hide Fits, Visited, Counts;
    if run == [] {
      NewDayFits(w, version);
    } else {
      var past, x := run[..|run| - 1], run[|run| - 1];
      RunFits(w, version, past);
      var clock := if past == [] then 0 else past[|past| - 1].done;
      if past == [] { NewDayFitsAt(w, version, x.at); }
      VisitFits(w, version, After(w, version, past), x, Tries(w, version, past), FirstFailure(w, version, past),
                if past == [] then x.at else clock);
    }
  }

  lemma NewDayFits(w: Window, version: Option<string>)
    ensures Fits(w, version, NEW_DAY, [], None, 0)
  {
  }

  lemma NewDayFitsAt(w: Window, version: Option<string>, clock: int)
    ensures Fits(w, version, NEW_DAY, [], None, clock)
  {
  }

  // ----- counting

  function Before(tries: seq<int>, t: int): (n: nat)
    ensures n <= |tries|
  {
    if tries == [] then 0
    else Before(tries[..|tries| - 1], t) + if tries[|tries| - 1] < t then 1 else 0
  }

  // In an ascending sequence the elements before a time are a prefix.
  lemma {:induction false} BeforeIsPrefix(tries: seq<int>, t: int)
    requires forall i, j :: 0 <= i <= j < |tries| ==> tries[i] <= tries[j]
    ensures forall i :: 0 <= i < |tries| ==> (tries[i] < t <==> i < Before(tries, t))
  {
    if tries != [] {
      var past := tries[..|tries| - 1];
      BeforeIsPrefix(past, t);
      assert forall i :: 0 <= i < |past| ==> tries[i] == past[i];
    }
  }

  // Elements at least `gap` apart cover the distance.
  lemma {:induction false} GapsAddUp(tries: seq<int>, i: nat, j: nat, gap: nat)
    requires i <= j < |tries|
    requires forall k :: i <= k < j ==> tries[k] + gap <= tries[k + 1]
    ensures tries[i] + (j - i) * gap <= tries[j]
    decreases j - i
  {
    if i < j { GapsAddUp(tries, i, j - 1, gap); }
  }

  lemma {:induction false} Ascending(w: Window, tries: seq<int>, first: Option<int>)
    requires Spaced(w, tries, first)
    ensures forall i, j :: 0 <= i <= j < |tries| ==> tries[i] <= tries[j]
  {
    forall i, j | 0 <= i <= j < |tries| ensures tries[i] <= tries[j] {
      GapsAddUp(tries, i, j, 0);
    }
  }

  function Tier2(w: Window, first: int): int { Max(w.endMs + FAST_WINDOW, first) + 10 * MINUTE }
  function Tier3(w: Window, first: int): int { Max(w.endMs + FAST_WINDOW, first) + 40 * MINUTE }

  // The tiers: 35 tries in the first six hours, one at ten minutes, one at half an hour, then every two hours.
  predicate PerTier(w: Window, tries: seq<int>, first: int) {
    var a := Before(tries, w.endMs + FAST_WINDOW);
    var b := Before(tries, Tier2(w, first));
    var c := Before(tries, Tier3(w, first));
    a <= b <= c && a <= 35 && b - a <= 1 && c - b <= 1 && |tries| - c <= 81
  }

  lemma CountByTier(w: Window, tries: seq<int>, first: Option<int>)
    requires Spaced(w, tries, first) && first.Some?
    ensures PerTier(w, tries, first.value)
  {
    Ascending(w, tries, first);
    var a := Before(tries, w.endMs + FAST_WINDOW);
    var b := Before(tries, Tier2(w, first.value));
    var c := Before(tries, Tier3(w, first.value));
    BeforeIsPrefix(tries, w.endMs + FAST_WINDOW);
    BeforeIsPrefix(tries, Tier2(w, first.value));
    BeforeIsPrefix(tries, Tier3(w, first.value));
    PrefixOrder(tries, w.endMs + FAST_WINDOW, Tier2(w, first.value));
    PrefixOrder(tries, Tier2(w, first.value), Tier3(w, first.value));
    EarlyTiers(w, tries, first, a, b);
    LateTiers(w, tries, first, b, c);
  }

  lemma EarlyTiers(w: Window, tries: seq<int>, first: Option<int>, a: nat, b: nat)
    requires Spaced(w, tries, first) && first.Some? && a <= b <= |tries|
    requires forall i :: 0 <= i < |tries| ==> (tries[i] < w.endMs + FAST_WINDOW <==> i < a)
    requires forall i :: 0 <= i < |tries| ==> (tries[i] < Tier2(w, first.value) <==> i < b)
    ensures a <= 35 && b - a <= 1
  {
    if a > 0 { TierHolds(w, tries, first, 0, a, w.endMs + SETTLE_DELAY, w.endMs + FAST_WINDOW, 10 * MINUTE); }
    if b > a + 1 {
      assert first.value + FAST_RETRY <= tries[a + 1] < Tier2(w, first.value);
      TierHolds(w, tries, first, a, b, w.endMs + FAST_WINDOW, Tier2(w, first.value), 10 * MINUTE);
    }
  }

  lemma LateTiers(w: Window, tries: seq<int>, first: Option<int>, b: nat, c: nat)
    requires Spaced(w, tries, first) && first.Some? && b <= c <= |tries|
    requires forall i :: 0 <= i < |tries| ==> (tries[i] < Tier2(w, first.value) <==> i < b)
    requires forall i :: 0 <= i < |tries| ==> (tries[i] < Tier3(w, first.value) <==> i < c)
    ensures c - b <= 1 && |tries| - c <= 81
  {
    if c > b { TierHolds(w, tries, first, b, c, Tier2(w, first.value), Tier3(w, first.value), 30 * MINUTE); }
    if |tries| > c { TierHolds(w, tries, first, c, |tries|, Tier3(w, first.value), w.endMs + LOOKBACK, 2 * HOUR); }
  }

  // Tries in a stretch of time whose delays are at least `gap`.
  lemma TierHolds(w: Window, tries: seq<int>, first: Option<int>, i: nat, j: nat, lo: int, hi: int, gap: nat)
    requires Spaced(w, tries, first) && first.Some? && i < j <= |tries|
    requires forall k :: i <= k < j ==> lo <= tries[k] < hi && gap <= RetryDelay(w, tries[k], first)
    ensures (j - i - 1) * gap < hi - lo
  {
    GapsAddUp(tries, i, j - 1, gap);
  }

  lemma {:induction false} PrefixOrder(tries: seq<int>, t: int, u: int)
    requires t <= u
    ensures Before(tries, t) <= Before(tries, u)
  {
    if tries != [] { PrefixOrder(tries[..|tries| - 1], t, u); }
  }

  // ----- the bound

  // Over every automatic run a day is tried at most 118 times, tier by tier, so the 130 cut-off is never the reason to stop.
  lemma AtMost118(w: Window, version: Option<string>, run: seq<Visit>)
    requires Automatic(run)
    ensures var tries, first := Tries(w, version, run), FirstFailure(w, version, run);
            && (tries != [] ==> first.Some? && PerTier(w, tries, first.value))
            && |tries| <= 118 && AttemptsOf(After(w, version, run).row) <= 118
            && Before(tries, w.endMs + FAST_WINDOW) <= 35
            && (After(w, version, run).row.Some? ==> AttemptsOf(After(w, version, run).row) == |tries|)
  {
    RunFits(w, version, run);
    if Tries(w, version, run) != [] {
      CountByTier(w, Tries(w, version, run), FirstFailure(w, version, run));
    }
  }

  lemma NeverExhausted(w: Window, version: Option<string>, run: seq<Visit>, x: Visit)
    requires Automatic(run)
    ensures !ActionOf(w, version, After(w, version, run), x).Exhausted?
  {
    AtMost118(w, version, run);
  }

  // ----- a settled day

  lemma BookedStep(w: Window, version: Option<string>, d: Day, x: Visit)
    requires d.booked ==> d.row.None?
    ensures Visited(w, version, d, x).booked ==> Visited(w, version, d, x).row.None?
    ensures d.booked ==> Visited(w, version, d, x) == d
  {
    hide Outcome, AfterRecheck, Precheck;
    NoRowNoRecheck(w, version, d, x);
    if d.booked && Settleable(w, x.at) {
      SettledIsFinal(ContextOf(w, version, d, x), x.at, None, x.at);
    }
  }

  lemma NoRowNoRecheck(w: Window, version: Option<string>, d: Day, x: Visit)
    ensures d.row.None? ==> !ActionOf(w, version, d, x).Recheck?
    ensures ActionOf(w, version, d, x).Due? ==> Settleable(w, x.at)
  {}

  lemma {:induction false} BookedHasNoRow(w: Window, version: Option<string>, run: seq<Visit>)
    ensures After(w, version, run).booked ==> After(w, version, run).row.None?
  {
    hide Visited;
    if run != [] {
      BookedHasNoRow(w, version, run[..|run| - 1]);
      BookedStep(w, version, After(w, version, run[..|run| - 1]), run[|run| - 1]);
    }
  }

  // Whatever looks follow, in whatever order and at whatever times: a settled day has no row, and is never tried again.
  lemma {:induction false} SettledStays(w: Window, version: Option<string>, run: seq<Visit>, more: seq<Visit>)
    requires After(w, version, run).booked
    ensures After(w, version, run + more) == After(w, version, run) && After(w, version, run).row.None?
    ensures Tries(w, version, run + more) == Tries(w, version, run)
    ensures forall x :: !ActionOf(w, version, After(w, version, run + more), x).Due?
    decreases |more|
  {
    hide Visited, ActionOf;
    BookedHasNoRow(w, version, run);
    if more == [] {
      assert run + more == run;
    } else {
      var n := |more| - 1;
      SettledStays(w, version, run, more[..n]);
      assert (run + more)[..|run + more| - 1] == run + more[..n];
      BookedStep(w, version, After(w, version, run), more[n]);
    }
    forall x ensures !ActionOf(w, version, After(w, version, run + more), x).Due? {
      BookedIsNotDue(w, version, After(w, version, run + more), x);
    }
  }

  lemma BookedIsNotDue(w: Window, version: Option<string>, d: Day, x: Visit)
    requires d.booked && d.row.None?
    ensures !ActionOf(w, version, d, x).Due?
  {}

  // ----- the bound is reached

  // Offsets from the end of the day at which an ever failing day is tried.
  function TryOffset(n: nat): int {
    if n <= 35 then (15 + 10 * n) * MINUTE
    else if n == 36 then 375 * MINUTE
    else (405 + 120 * (n - 37)) * MINUTE
  }

  const UNREADABLE := Reason("UPSTREAM_DATA_UNAVAILABLE", Retry)

  function FailingVisit(w: Window, n: nat): Visit {
    var at := w.endMs + TryOffset(n);
    Visit(at, at, None, None, None, Problem(UNREADABLE), None, true)
  }

  function FailingRun(w: Window, n: nat): (run: seq<Visit>)
    ensures |run| == n
  {
    seq(n, i requires 0 <= i < n => FailingVisit(w, i))
  }

  function FailingRow(w: Window, n: nat): Day
    requires n > 0
  {
    NEW_DAY.(row := Some(Row(Some(UNREADABLE), None, None, n, Some(w.endMs + TryOffset(n)), Some(w.endMs + TryOffset(0)),
                             Some(w.endMs + TryOffset(n - 1)), None, false, false, None)))
  }

  lemma FirstFailingVisit(w: Window)
    ensures Visited(w, None, NEW_DAY, FailingVisit(w, 0)) == FailingRow(w, 1)
  {
  }

  lemma NextOffset(w: Window, n: nat)
    requires n <= 117
    ensures TryOffset(n) + RetryDelay(w, w.endMs + TryOffset(n), Some(w.endMs + TryOffset(0))) == TryOffset(n + 1)
    ensures TryOffset(n) < LOOKBACK && SETTLE_DELAY <= TryOffset(n)
  {
  }

  lemma NextFailingVisit(w: Window, n: nat)
    requires 0 < n <= 117
    ensures Visited(w, None, FailingRow(w, n), FailingVisit(w, n)) == FailingRow(w, n + 1)
  {
    NextOffset(w, n);
    hide TryOffset, RetryDelay;
    assert ActionOf(w, None, FailingRow(w, n), FailingVisit(w, n)).Due?;
  }

  lemma {:induction false} FailingDay(w: Window, n: nat)
    requires 0 < n <= 118
    ensures After(w, None, FailingRun(w, n)) == FailingRow(w, n)
  {
    hide Visited, FailingRow, FailingVisit;
    var run := FailingRun(w, n);
    assert run[..n - 1] == FailingRun(w, n - 1) && run[n - 1] == FailingVisit(w, n - 1);
    if n > 1 {
      FailingDay(w, n - 1);
      NextFailingVisit(w, n - 1);
    } else {
      assert FailingRun(w, 0) == [];
      FirstFailingVisit(w);
    }
  }

  // A day that can never be read is tried 118 times.
  lemma BoundIsReached(w: Window) returns (run: seq<Visit>)
    ensures Automatic(run) && AttemptsOf(After(w, None, run).row) == 118
  {
    run := FailingRun(w, 118);
    FailingDay(w, 118);
  }
}
