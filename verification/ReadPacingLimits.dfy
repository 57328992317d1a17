// The limits the pacing guarantees over every run: gaps between reads, statements per clock hour, age of answers.
module ReadPacingLimits {
  import opened Outcomes
  import opened AgentReader
  import opened ReadPacing
  import opened ReadPacingSafety

  // ----- gaps

  function Min(a: int, b: int): int { if a < b then a else b }

  predicate WaitedFor(before: Record, failures: nat, next: Record)
    requires before.end.Some? && (EndedBadly(before) ==> failures > 0)
  {
    var at := before.end.value.at;
    match before.end.value.outcome
    case Read(_) => next.start >= at + MIN_GAP
    case Failed(f) =>
      if Hourly(f) then next.start / HOUR > at / HOUR
      else next.start >= at + Min(BREAKER_BASE * Pow2(failures - 1), BREAKER_MAX)
  }

  lemma SpacedWaits(h: seq<Record>, i: nat)
    requires Spaced(h) && 0 < i < |h|
    ensures h[i - 1].end.Some? && (EndedBadly(h[i - 1]) ==> Failures(h[..i]) > 0) && WaitedFor(h[i - 1], Failures(h[..i]), h[i])
  {
    hide Pow2;
    assert SpacedAt(h, i) && h[..i][i - 1] == h[i - 1];
    if EndedBadly(h[i - 1]) && Hourly(h[i - 1].end.value.outcome.failure) {
      NextHour(h[i - 1].end.value.at, h[i].start);
    }
  }

  lemma NextHour(at: int, start: int)
    requires start >= at + HOUR - at % HOUR
    ensures start / HOUR > at / HOUR
  {
    assert at + HOUR - at % HOUR == (at / HOUR + 1) * HOUR;
  }

  // From the end of one read to the start of the next: four minutes after a success; after the k-th failure in a row ten
  // minutes doubled k - 1 times, at most an hour; after running into an hourly quota not within the same clock hour.
  lemma NextReadWaits(events: seq<Event>, i: nat)
    requires PossibleRun(events) && 0 < i < |Run(events).history|
    ensures var h := Run(events).history;
            h[i - 1].end.Some? && (EndedBadly(h[i - 1]) ==> Failures(h[..i]) > 0) && WaitedFor(h[i - 1], Failures(h[..i]), h[i])
  {
    RunKeeps(events);
    SpacedWaits(Run(events).history, i);
  }

  // Only the last read can still be running.
  lemma OneInFlight(events: seq<Event>, i: nat)
    requires PossibleRun(events) && i < |Run(events).history| && Run(events).history[i].end.None?
    ensures i == |Run(events).history| - 1 && Run(events).inflight
  {
    RunKeeps(events);
    var h := Run(events).history;
    forall j | 0 <= j < |h| - 1 ensures h[j].end.Some? {
      assert SpacedAt(h, j + 1);
    }
  }

  // ----- one clock hour

  predicate Touches(r: Record, hour: int) {
    r.start < (hour + 1) * HOUR && (r.end.Some? ==> r.end.value.at >= hour * HOUR)
  }

  function CountIn(times: seq<int>, hour: int): (n: nat)
    ensures n <= |times|
  {
    if times == [] then 0
    else CountIn(times[..|times| - 1], hour) + if hour * HOUR <= times[|times| - 1] < (hour + 1) * HOUR then 1 else 0
  }

  // Statements issued within a clock hour; a read that is still running counts with all three it may issue.
  function IssuedIn(h: seq<Record>, hour: int): nat {
    if h == [] then 0
    else
      var r := h[|h| - 1];
      IssuedIn(h[..|h| - 1], hour) + if r.end.Some? then CountIn(r.end.value.issued, hour) else if Touches(r, hour) then 3 else 0
  }

  // Reads at least partly within a clock hour.
  function TouchesIn(h: seq<Record>, hour: int): nat {
    if h == [] then 0 else TouchesIn(h[..|h| - 1], hour) + if Touches(h[|h| - 1], hour) then 1 else 0
  }

  // Within one clock hour the reads stand four minutes apart.
  lemma {:induction false} Drift(h: seq<Record>, a: nat, b: nat, hour: int)
    requires Spaced(h) && a < b < |h| && Touches(h[a], hour) && h[b].start < (hour + 1) * HOUR
    ensures h[a].end.Some? && h[b].start >= h[a].end.value.at + (b - a) * MIN_GAP
    decreases b
  {
    assert SpacedAt(h, b) && Accounted(h[b - 1]) && h[..b][b - 1] == h[b - 1];
    if a < b - 1 {
      Drift(h, a, b - 1, hour);
    }
    assert h[b - 1].end.value.at >= hour * HOUR;
    var gap := Gap(h[..b]);
    if EndedBadly(h[b - 1]) && Hourly(h[b - 1].end.value.outcome.failure) {
      NotTheSameHour(h[b - 1].end.value.at, gap, hour);
    }
  }

  lemma NotTheSameHour(at: int, pause: int, hour: int)
    requires hour * HOUR <= at && pause > 0 && (at + pause) % HOUR == 0
    ensures at + pause >= (hour + 1) * HOUR
  {
    var k := (at + pause) / HOUR;
    assert at + pause == k * HOUR && k > hour;
  }

  lemma {:induction false} TouchesFrom(h: seq<Record>, n: nat, hour: int, a: nat)
    requires n <= |h| && forall i :: 0 <= i < n && Touches(h[i], hour) ==> a <= i < a + 15
    ensures TouchesIn(h[..n], hour) <= if n <= a then 0 else if n <= a + 15 then n - a else 15
  {
    if n > 0 {
      TouchesFrom(h, n - 1, hour, a);
      assert h[..n][..n - 1] == h[..n - 1] && h[..n][n - 1] == h[n - 1];
    }
  }

  lemma {:induction false} NothingOutside(times: seq<int>, from: int, to: int, hour: int)
    requires forall k :: 0 <= k < |times| ==> from <= times[k] <= to
    requires to < hour * HOUR || from >= (hour + 1) * HOUR
    ensures CountIn(times, hour) == 0
  {
    if times != [] {
      NothingOutside(times[..|times| - 1], from, to, hour);
    }
  }

  lemma {:induction false} ThreePerRead(h: seq<Record>, n: nat, hour: int)
    requires n <= |h| && Spaced(h)
    ensures IssuedIn(h[..n], hour) <= 3 * TouchesIn(h[..n], hour)
  {
    if n > 0 {
      ThreePerRead(h, n - 1, hour);
      assert h[..n][..n - 1] == h[..n - 1] && h[..n][n - 1] == h[n - 1] && Accounted(h[n - 1]);
      var r := h[n - 1];
      if r.end.Some? && !Touches(r, hour) {
        NothingOutside(r.end.value.issued, r.start, r.end.value.at, hour);
      }
    }
  }

  lemma SpacedLimits(h: seq<Record>, hour: int)
    requires Spaced(h)
    ensures TouchesIn(h, hour) <= 15 && IssuedIn(h, hour) <= 45
  {
    hide Spaced, TouchesIn, IssuedIn;
    assert h[..|h|] == h;
    ThreePerRead(h, |h|, hour);
    if exists i :: 0 <= i < |h| && Touches(h[i], hour) {
      var a := FirstTouch(h, hour);
      forall i | 0 <= i < |h| && Touches(h[i], hour) ensures a <= i < a + 15 {
        if i > a { Drift(h, a, i, hour); }
      }
      TouchesFrom(h, |h|, hour, a);
    } else {
      TouchesFrom(h, |h|, hour, 0);
    }
  }

  // In any clock hour at most fifteen reads run, be it for a part of it, and at most forty-five statements are issued.
  lemma HourlyLimits(events: seq<Event>, hour: int)
    requires PossibleRun(events)
    ensures TouchesIn(Run(events).history, hour) <= 15
    ensures IssuedIn(Run(events).history, hour) <= 45
  {
    RunKeeps(events);
    SpacedLimits(Run(events).history, hour);
  }

  lemma {:induction false} FirstTouch(h: seq<Record>, hour: int) returns (a: nat)
    requires exists i :: 0 <= i < |h| && Touches(h[i], hour)
    ensures a < |h| && Touches(h[a], hour) && forall i :: 0 <= i < a ==> !Touches(h[i], hour)
  {
    a := 0;
    while !Touches(h[a], hour)
      invariant a < |h| && forall i :: 0 <= i < a ==> !Touches(h[i], hour)
      decreases |h| - a
    {
      a := a + 1;
    }
  }

  // ----- answers

  predicate LastFailed(h: seq<Record>) { h != [] && EndedBadly(h[|h| - 1]) }

  // Whether the pause after the last of these reads is over.
  predicate Due(h: seq<Record>, t: int) { h != [] && h[|h| - 1].end.Some? ==> t >= h[|h| - 1].end.value.at + Gap(h) }

  lemma StepAnswers(s: SourceState, e: Event)
    requires Inv(s) && Possible(s, e) && Inv(Step(s, e).0)
    ensures var (s', a) := Step(s, e);
            a.Served? && a.snapshot.Good? ==>
              && WasRead(s'.history, a.snapshot)
              && (s'.clock - a.snapshot.readAt < STALE_MAX || (e.Finish? && a.snapshot.readAt == e.at && !a.stale))
              && (a.stale <==> LastFailed(Finished(s')))
  {
    hide Spaced, NothingAfter, Failures, ReadStep, Pow2, BreakerPause, WasRead;
    match e
    case Get(t) => assert Finished(Step(s, e).0) == Finished(s) || Step(s, e).1.Waits?;
    case Finish(at, servedAt, w, issued) => assert Finished(Step(s, e).0) == Step(s, e).0.history;
  }

  // A good answer is what some read brought; it is less than thirty minutes old, or that read has just come back.
  lemma AnswersAreFresh(events: seq<Event>, e: Event)
    requires PossibleRun(events + [e])
    ensures var (s, a) := Step(Run(events), e);
            a.Served? && a.snapshot.Good? ==>
              && WasRead(s.history, a.snapshot)
              && (s.clock - a.snapshot.readAt < STALE_MAX || (e.Finish? && a.snapshot.readAt == e.at && !a.stale))
              && (a.stale <==> LastFailed(Finished(s)))
  {
    assert (events + [e])[..|events|] == events;
    RunKeeps(events);
    RunKeeps(events + [e]);
    StepAnswers(Run(events), e);
  }

  lemma StaysRefused(s: SourceState, e: Event, i: nat)
    requires Inv(s) && Possible(s, e) && i < |s.history| && AccountFailed(s.history[i])
    ensures var (s', a) := Step(s, e);
            && i < |s'.history| && AccountFailed(s'.history[i])
            && (a.Served? ==> a.snapshot.Bad? && a.snapshot.failure.AccountTooBroad?)
  {
    hide NothingAfter, Spaced, WasRead, Failures, Pow2;
    assert s.reader.account.Refused?;
    if e.Finish? {
      assert s.history[|s.history| - 1].end.None?;
      StatementsOfARead(s.reader, e.world);
    }
  }

  // Once the account was found too broad, no result is ever given again and no statement is issued.
  lemma NothingAfterAccountFailure(events: seq<Event>, i: nat, e: Event)
    requires PossibleRun(events + [e]) && i < |Run(events).history| && AccountFailed(Run(events).history[i])
    ensures var (s, a) := Step(Run(events), e);
            && (a.Served? ==> a.snapshot.Bad? && a.snapshot.failure.AccountTooBroad?)
            && forall k :: i < k < |s.history| && s.history[k].end.Some? ==> s.history[k].end.value.issued == []
  {
    assert (events + [e])[..|events|] == events;
    RunKeeps(events);
    RunKeeps(events + [e]);
    StaysRefused(Run(events), e, i);
    var s := Run(events + [e]);
    hide Step, Run, PossibleRun, Spaced, CacheInv, GoodInv, FlightInv;
    forall k | i < k < |s.history| && s.history[k].end.Some? ensures s.history[k].end.value.issued == [] {
      assert NothingAfterAt(s.history, i, k);
    }
  }

  // A request that cannot be answered from the cache starts a read exactly when none is running.
  lemma WhenAReadStarts(events: seq<Event>, t: int)
    requires PossibleRun(events) && Run(events).clock <= t
    ensures var s := Run(events); var (s', a) := DoGet(s, t); var done := Finished(s);
            && (s'.history != s.history <==> a.Waits? && !s.inflight)
            && (a.Waits? <==> Due(done, t))
  {
    RunKeeps(events);
  }
}
