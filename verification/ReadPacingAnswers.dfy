// What each request is answered with, read off the reads that came back; and what one read brings.
module ReadPacingAnswers {
  import opened Outcomes
  import opened AgentReader
  import opened ReadPacing
  import opened ReadPacingSafety

  // ----- one read

  predicate Selects(x: Statement) { x == SelectFull || x == SelectReduced }

  // The reply to the last select of a read: a second one is only issued when the first, with channel_info, met the missing
  // column.
  function LastReply(w: World, issued: seq<Statement>): Reply
    requires issued != []
  {
    if |issued| >= 2 && Selects(issued[|issued| - 2]) then w.second else w.first
  }

  // A read that got to the table brings what its last select was answered with: the rows, or the database's failure.
  lemma LastSelectCounts(s: ReaderState, w: World)
    requires ReadStep(s, w).issued != [] && Selects(ReadStep(s, w).issued[|ReadStep(s, w).issued| - 1])
    ensures var d := ReadStep(s, w);
            var reply := LastReply(w, d.issued);
            && (reply.Rows? ==> d.outcome == Read(reply.rows))
            && (reply.Broken? ==> d.outcome == Failed(DbFailure(reply.failure.code, reply.failure.hourly)))
            && (reply.MissingColumn? ==> d.outcome == Failed(DbFailure("DB_ERROR", false)))
  {
    var f := Fetch(s.(account := Passed), w);
    assert f.issued != [] && ([Inspect] + f.issued)[|f.issued|] == f.issued[|f.issued| - 1];
    assert |f.issued| == 2 ==> ([Inspect] + f.issued)[1] == f.issued[0];
  }

  // Any other read fails for the reason it stopped at, or is refused.
  lemma WithoutSelect(s: ReaderState, w: World)
    requires SelectFull !in ReadStep(s, w).issued && SelectReduced !in ReadStep(s, w).issued
    ensures ReadStep(s, w).outcome ==
              if s.account.Refused? then Failed(AccountTooBroad)
              else if w.opening.NotOpened? then Failed(DbFailure(w.opening.failure.code, w.opening.failure.hourly))
              else if w.inspection.InspectionBroken? then Failed(DbFailure(w.inspection.failure.code, w.inspection.failure.hourly))
              else if w.inspection.ChannelsMissing? then Failed(DbFailure("TABLE_MISSING", false))
              else Failed(AccountTooBroad)
  {
    var f := Fetch(s.(account := Passed), w);
    assert f.issued[0] == SelectFull || f.issued[0] == SelectReduced;
    assert f.issued[0] in [Inspect] + f.issued;
  }

  // Which selects a passed account issues: with channel_info while the column is there or once it is time to look again, and
  // without it behind one that met the missing column, or alone in between.
  lemma SelectsIssued(s: ReaderState, w: World)
    requires s.account.Passed? && w.opening.Opened?
    ensures var full := s.withChannelInfo || w.asked >= s.retryFullAt;
            ReadStep(s, w).issued == if !full then [SelectReduced] else if w.first.MissingColumn? then [SelectFull, SelectReduced] else [SelectFull]
  {}

  // The column is taken to be there exactly after the last full select did not meet it missing, unless that one failed
  // otherwise; meeting it missing puts the next attempt off by ten minutes.
  lemma ColumnRemembered(s: ReaderState, w: World)
    ensures var d := ReadStep(s, w);
            && (SelectFull !in d.issued ==> d.next.withChannelInfo == s.withChannelInfo && d.next.retryFullAt == s.retryFullAt)
            && (SelectFull in d.issued ==>
                  match w.first
                  case Rows(_) => d.next.withChannelInfo && d.next.retryFullAt == s.retryFullAt
                  case MissingColumn => !d.next.withChannelInfo && d.next.retryFullAt == w.fallenBack + 10 * 60 * 1000
                  case Broken(_) => d.next.withChannelInfo == s.withChannelInfo && d.next.retryFullAt == s.retryFullAt)
  {
    var f := Fetch(s.(account := Passed), w);
    assert forall x :: x in [Inspect] + f.issued <==> x == Inspect || x in f.issued;
  }

  // An account passes when it is inspected and found fine or cannot be inspected, and is refused when found too broad; a
  // missing table or a failure leaves it unchecked.
  lemma AccountChecked(s: ReaderState, w: World)
    requires s.account.Unchecked? && w.opening.Opened?
    ensures ReadStep(s, w).next.account == if w.inspection.Fine? || w.inspection.NothingToInspect? then Passed
                                           else if w.inspection.TooBroad? then Refused else Unchecked
    ensures Inspect in ReadStep(s, w).issued <==> !w.inspection.NothingToInspect?
  {
    SelectsOfAFetch(s.(account := Passed), w);
    hide Fetch;
    assert w.inspection.Fine? ==> ReadStep(s, w).issued[0] == Inspect;
  }

  // ----- answers

  // What the last successful one of these reads brought.
  function LastGood(done: seq<Record>): Option<Snapshot> {
    if done == [] then None
    else
      var r := done[|done| - 1];
      if r.end.Some? && r.end.value.outcome.Read? then Some(Good(r.end.value.at, r.end.value.outcome.rows)) else LastGood(done[..|done| - 1])
  }

  lemma {:induction false} RemembersGood(events: seq<Event>)
    requires PossibleRun(events)
    ensures Run(events).lastGood == LastGood(Finished(Run(events)))
  {
    if events != [] {
      var front, e := events[..|events| - 1], events[|events| - 1];
      RemembersGood(front);
      RunKeeps(front);
      var s, s' := Run(front), Run(events);
      match e
      case Get(t) => assert Finished(s') == Finished(s) by { FinishedAfterGet(s, t); }
      case Finish(at, servedAt, w, issued) => FinishedAfterFinish(s, at, servedAt, w, issued);
    }
  }

  lemma FinishedAfterGet(s: SourceState, t: int)
    requires FlightInv(s)
    ensures Finished(DoGet(s, t).0) == Finished(s)
  {}

  lemma FinishedAfterFinish(s: SourceState, at: int, servedAt: int, w: World, issued: seq<int>)
    requires s.inflight && s.history != []
    ensures var s', o := DoFinish(s, at, servedAt, w, issued).0, ReadStep(s.reader, w).outcome;
            var done := Finished(s');
            && |done| == |Finished(s)| + 1 && done[..|done| - 1] == Finished(s) && done[|done| - 1].end == Some(Ending(at, o, issued))
            && LastGood(done) == (if o.Read? then Some(Good(at, o.rows)) else LastGood(Finished(s)))
            && s'.lastGood == (if o.Read? then Some(Good(at, o.rows)) else s.lastGood)
  {
    hide ReadStep, Pow2;
  }

  predicate Young(g: Option<Snapshot>, t: int) { g.Some? && g.value.readAt <= t < g.value.readAt + 30 * 60 * 1000 }

  // What is given at a moment, after these reads.
  ghost predicate Given(done: seq<Record>, t: int, a: Answer)
    requires done != [] && done[|done| - 1].end.Some?
  {
    var last, good := done[|done| - 1].end.value, LastGood(done);
    match last.outcome
    case Read(rows) => a == Served(Good(last.at, rows), false)
    case Failed(f) =>
      if f != AccountTooBroad && Young(good, t) then a == Served(good.value, true)
      else a == Served(Bad(last.at, f), false)
  }

  // Over every run: whatever is answered at once, and whatever a read that came back answers, is the result of the last read;
  // and after a failure that is not about the account, the last good result instead as long as it is less than half an hour
  // old, marked as stale.
  lemma AnswersAre(events: seq<Event>, e: Event)
    requires PossibleRun(events + [e])
    ensures var (s, a) := Step(Run(events), e);
            && (a.Waits? || a.Served?) && (e.Finish? ==> a.Served?)
            && (a.Served? ==> Finished(s) != [] && Finished(s)[|Finished(s)| - 1].end.Some? && Given(Finished(s), s.clock, a))
  {
    assert (events + [e])[..|events|] == events;
    RunKeeps(events);
    RunKeeps(events + [e]);
    RemembersGood(events + [e]);
    var s, s' := Run(events), Step(Run(events), e).0;
    assert Run(events + [e]) == s';
    hide Run, PossibleRun, LastGood;
    match e
    case Get(t) => GetAnswers(s, t);
    case Finish(at, servedAt, w, issued) => FinishAnswers(s, at, servedAt, w, issued);
  }

  lemma GetAnswers(s: SourceState, t: int)
    requires Inv(s) && Inv(DoGet(s, t).0) && DoGet(s, t).0.lastGood == LastGood(Finished(DoGet(s, t).0)) && s.clock <= t
    ensures var (s', a) := DoGet(s, t);
            && (a.Waits? || a.Served?)
            && (a.Served? ==> Finished(s') != [] && Finished(s')[|Finished(s')| - 1].end.Some? && Given(Finished(s'), s'.clock, a))
  {
    hide LastGood, Spaced, NothingAfter, WasRead, Failures, Pow2, BreakerPause;
    FinishedAfterGet(s, t);
  }

  lemma FinishAnswers(s: SourceState, at: int, servedAt: int, w: World, issued: seq<int>)
    requires Inv(s) && Possible(s, Finish(at, servedAt, w, issued)) && Inv(DoFinish(s, at, servedAt, w, issued).0)
    requires DoFinish(s, at, servedAt, w, issued).0.lastGood == LastGood(Finished(DoFinish(s, at, servedAt, w, issued).0))
    ensures var (s', a) := DoFinish(s, at, servedAt, w, issued);
            a.Served? && Finished(s') != [] && Finished(s')[|Finished(s')| - 1].end.Some? && Given(Finished(s'), s'.clock, a)
  {
    hide LastGood, Spaced, NothingAfter, WasRead, Failures, Pow2, BreakerPause, ReadStep;
    FinishedAfterFinish(s, at, servedAt, w, issued);
  }

  // Whatever the clock does, also when it was set back: a good answer counts as fresh for four minutes and not before its own
  // time, and a pause that would last more than an hour is off. A read is waited for exactly when neither answers, and starts
  // when none is running.
  lemma StartsIff(s: SourceState, t: nat)
    ensures var (s', a) := DoGet(s, t);
            var young := s.current.Some? && s.failures == 0 && s.current.value.readAt <= t < s.current.value.readAt + 4 * 60 * 1000;
            var paused := s.current.Some? && s.failures > 0 && t < s.pausedUntil <= t + 60 * 60 * 1000;
            && (a.Waits? <==> !young && !paused)
            && s'.history == if a.Waits? && !s.inflight then s.history + [Record(t, None)] else s.history
  {}
}
