// Which looks at a day are tries, which days are held back, and what a request to settle again changes; and what a look
// leaves in the row.
module SettlementGates {
  import opened Outcomes
  import opened Settlement
  import opened SettlementRuns

  // Over for long enough, with the binding in effect on that day and not archived before it.
  predicate InTime(c: Context, now: int) {
    && now >= c.window.endMs + 15 * 60 * 1000
    && (c.accountingStart.Some? ==> c.accountingStart.value < c.window.endMs)
    && (c.archivedDayEnd.Some? ==> c.window.startMs < c.archivedDayEnd.value)
  }

  const WEEK := 7 * 24 * 60 * 60 * 1000

  predicate Requested(c: Context, row: Option<Row>) { c.resettle || (row.Some? && row.value.resettleRequestedAt.Some?) }

  predicate AsksAPerson(row: Option<Row>) { row.Some? && row.value.manualReason.Some? && row.value.manualReason.value.kind.Manual? }

  // The day ended before the configuration now in force, and it is not yesterday.
  predicate OlderThanEdit(c: Context) {
    !c.window.yesterday && c.scopeEditedAt.Some? && c.window.endMs <= c.scopeEditedAt.value
  }

  // The seven days are counted from the end of the day, or from the stored request; a request made right now has just begun.
  function CountedFrom(c: Context, row: Option<Row>, now: int): int {
    if row.Some? && row.value.resettleRequestedAt.Some? then row.value.resettleRequestedAt.value
    else if c.resettle then now
    else c.window.endMs
  }

  // ----- days older than the configuration

  // An automatic look never settles such a day with the new configuration, whether it was asked to settle again or not,
  // unless a person was asked about it.
  lemma OldDaysAreHeldBack(c: Context, row: Option<Row>, now: int)
    requires c.origin.Auto? && InTime(c, now) && OlderThanEdit(c)
    requires c.ledgerHasDay ==> Requested(c, row)
    ensures Precheck(c, row, now) == BlockedByEdit <==> !AsksAPerson(row)
    ensures Precheck(c, row, now).Due? || Precheck(c, row, now).Recheck? ==> AsksAPerson(row)
  {}

  // By hand, for yesterday, or when a person was asked, the edit makes no difference.
  lemma EditMakesNoDifference(c: Context, row: Option<Row>, now: int, edited: Option<int>)
    requires c.origin.ByHand? || AsksAPerson(row) || c.window.yesterday
    ensures Precheck(c.(scopeEditedAt := edited), row, now) == Precheck(c, row, now)
  {}

  // ----- requests

  // A requested day is never answered as settled already; without a request the ledger decides.
  lemma SettledIff(c: Context, row: Option<Row>, now: int)
    ensures Precheck(c, row, now).Settled? <==> c.origin.Auto? && InTime(c, now) && c.ledgerHasDay && !Requested(c, row)
  {}

  // It is given up seven days after the request, others seven days after their end; never by hand.
  lemma GivenUpIff(c: Context, row: Option<Row>, now: int)
    ensures Precheck(c, row, now).BeyondLookback? <==>
              && c.origin.Auto? && InTime(c, now) && (c.ledgerHasDay ==> Requested(c, row))
              && (OlderThanEdit(c) ==> AsksAPerson(row))
              && now >= CountedFrom(c, row, now) + WEEK
  {}

  // ----- what is a try

  predicate NewConfiguration(c: Context, r: Row) {
    c.sourceVersion.Some? && r.sourceVersion.Some? && c.sourceVersion.value != r.sourceVersion.value
  }

  predicate Reached(at: Option<int>, now: int) { now >= if at.Some? then at.value else 0 }

  // Whether what the row recorded lets the day be tried now.
  predicate RowLets(c: Context, r: Row, now: int) {
    match r.manualReason
    case None => r.attempts < 130 && (NewConfiguration(c, r) || Reached(r.nextAttemptAt, now))
    case Some(reason) =>
      && !reason.kind.Sticky?
      && (NewConfiguration(c, r) || r.cleared
          || (r.probeBlind && r.attempts < 130 && Reached(r.nextAttemptAt, now) && Reached(c.recheckNotBefore, now)))
  }

  lemma DueIff(c: Context, row: Option<Row>, now: int)
    ensures Precheck(c, row, now).Due? <==>
              && InTime(c, now)
              && (c.origin.Auto? ==>
                    && (c.ledgerHasDay ==> Requested(c, row))
                    && (OlderThanEdit(c) ==> AsksAPerson(row))
                    && now < CountedFrom(c, row, now) + WEEK
                    && (row.Some? ==> RowLets(c, row.value, now)))
  {}

  // The looks that stay local: a person was asked, nothing has changed since, and the recheck is due.
  lemma RecheckIff(c: Context, row: Option<Row>, now: int)
    ensures Precheck(c, row, now).Recheck? <==>
              && c.origin.Auto? && InTime(c, now) && (c.ledgerHasDay ==> Requested(c, row)) && now < CountedFrom(c, row, now) + WEEK
              && row.Some? && row.value.manualReason.Some? && !row.value.manualReason.value.kind.Sticky?
              && (row.value.manualReason.value.kind.Retry? ==> !OlderThanEdit(c))
              && !NewConfiguration(c, row.value) && !row.value.cleared && !row.value.probeBlind
              && Reached(row.value.nextAttemptAt, now) && Reached(c.recheckNotBefore, now)
  {}

  // An automatic look that gets as far as the row.
  predicate ComesToRow(c: Context, row: Option<Row>, now: int) {
    && c.origin.Auto? && InTime(c, now) && (c.ledgerHasDay ==> Requested(c, row)) && (OlderThanEdit(c) ==> AsksAPerson(row))
    && now < CountedFrom(c, row, now) + WEEK && row.Some?
  }

  predicate Unchanged(c: Context, r: Row) { !NewConfiguration(c, r) && !r.cleared }

  // And when each of the other answers is given.
  lemma OtherAnswers(c: Context, row: Option<Row>, now: int)
    ensures var a, over := Precheck(c, row, now), now >= c.window.endMs + 15 * 60 * 1000;
            var begun := c.accountingStart.None? || c.accountingStart.value < c.window.endMs;
            && (a.NotSettleable? <==> !over) && (a.NotEffective? <==> over && !begun)
            && (a.AfterArchive? <==> over && begun && c.archivedDayEnd.Some? && c.archivedDayEnd.value <= c.window.startMs)
            && (ComesToRow(c, row, now) ==>
                  var r := row.value;
                  var timed := Reached(r.nextAttemptAt, now) && Reached(c.recheckNotBefore, now);
                  match r.manualReason
                  case None =>
                    && (a.Exhausted? <==> r.attempts >= 130)
                    && (a.Backoff? <==> r.attempts < 130 && !NewConfiguration(c, r) && !Reached(r.nextAttemptAt, now))
                  case Some(reason) =>
                    && (a.StickyReason? <==> reason.kind.Sticky?)
                    && (a.WaitingForPerson? <==> !reason.kind.Sticky? && Unchanged(c, r) && !timed)
                    && (a.Exhausted? <==> !reason.kind.Sticky? && Unchanged(c, r) && timed && r.probeBlind && r.attempts >= 130))
            && (a.StickyReason? || a.WaitingForPerson? || a.Backoff? || a.Exhausted? ==> ComesToRow(c, row, now))
  {}

  // How long a failed try waits: ten minutes in the day's first six hours and in the first ten minutes after them, or after the
  // first failure if that came later; half an hour in the thirty minutes behind these; then two hours.
  lemma DelayIs(w: Window, now: int, firstFailedAt: Option<int>)
    ensures var early := w.endMs + 6 * 60 * 60 * 1000;
            var failed := if firstFailedAt.Some? then firstFailedAt.value else now;
            var from := if failed < early then early else failed;
            RetryDelay(w, now, firstFailedAt) == (if now < early || now < from + 10 * 60 * 1000 then 10 * 60 * 1000
                                                  else if now < from + 40 * 60 * 1000 then 30 * 60 * 1000 else 2 * 60 * 60 * 1000)
  {}

  // ----- what a try leaves

  // Of a day that is settled, or that the binding does not cover, no row is written; a failure always leaves one.
  lemma WrittenIff(w: Window, fetched: Fetched, now: int, row: Option<Row>, origin: Origin, version: Option<string>)
    ensures var out := Outcome(w, fetched, now, row, origin, version);
            && (out.Delete? <==> fetched.Profit? && now >= w.endMs + 15 * 60 * 1000)
            && (out.Put? <==> fetched.Problem? && now >= w.endMs + 15 * 60 * 1000)
  {}

  // The failure's row names its reason, the time, the configuration and when the day failed first, and keeps a request.
  lemma FailureIsRecorded(w: Window, reason: Reason, now: int, before: Option<Row>, origin: Origin, version: Option<string>, row: Row)
    requires Outcome(w, Problem(reason), now, before, origin, version) == Put(row)
    ensures if reason.kind.Retry? then row.retryReason == Some(reason) && row.manualReason == None
            else row.manualReason == Some(reason) && row.retryReason == None
    ensures row.lastAttemptAt == Some(now) && row.sourceVersion == version && !row.cleared
    ensures row.firstFailedAt == if before.Some? && before.value.firstFailedAt.Some? then before.value.firstFailedAt else Some(now)
    ensures row.resettleRequestedAt == if before.Some? then before.value.resettleRequestedAt else None
  {}

  // A person is asked since the day first had such a reason; a reason that heals by itself ends that.
  lemma AskedSince(w: Window, reason: Reason, now: int, before: Option<Row>, origin: Origin, version: Option<string>, row: Row)
    requires Outcome(w, Problem(reason), now, before, origin, version) == Put(row)
    ensures row.manualSince ==
              if reason.kind.Retry? then None
              else if before.Some? && before.value.manualReason.Some? && before.value.manualSince.Some? then before.value.manualSince
              else Some(now)
  {}

  // What the recheck cannot see is marked, and only that: it failed for a person's reason again although the recheck had found
  // nothing, or it was marked and fails for the same reason.
  lemma BlindIff(w: Window, reason: Reason, now: int, before: Option<Row>, origin: Origin, version: Option<string>, row: Row)
    requires Outcome(w, Problem(reason), now, before, origin, version) == Put(row)
    ensures row.probeBlind <==>
              && reason.kind.Manual? && before.Some?
              && (before.value.cleared || (before.value.probeBlind && before.value.manualReason == Some(reason)))
  {}

  // Only automatic tries that heal by themselves, or that the recheck cannot see, count and wait for the back-off; the others
  // are looked at in ten minutes, or not again.
  lemma CountedIff(w: Window, reason: Reason, now: int, before: Option<Row>, version: Option<string>, row: Row)
    requires Outcome(w, Problem(reason), now, before, Auto, version) == Put(row)
    ensures var counted := reason.kind.Retry? || row.probeBlind;
            && row.attempts == AttemptsOf(before) + (if counted then 1 else 0)
            && row.nextAttemptAt == if counted then Some(now + RetryDelay(w, now, row.firstFailedAt))
                                    else if reason.kind.Sticky? then None else Some(now + 10 * 60 * 1000)
  {}

  // A recheck that finds a reason for a person records it like a try that failed; otherwise it only marks the row as cleared,
  // to be tried at once, and fills in what was never recorded.
  lemma RecheckLeaves(w: Window, row: Row, blocker: Option<Reason>, now: int, version: Option<string>)
    requires row.manualReason.Some?
    ensures var out := AfterRecheck(w, row, blocker, now, version);
            if blocker.Some? && !blocker.value.kind.Retry? then out == Outcome(w, Problem(blocker.value), now, Some(row), Auto, version)
            else
              && out.Put? && out.row.cleared && out.row.nextAttemptAt == Some(now) && out.row.retryReason == None
              && out.row.manualReason == row.manualReason && out.row.attempts == row.attempts && out.row.lastAttemptAt == row.lastAttemptAt
              && out.row.probeBlind == row.probeBlind && out.row.resettleRequestedAt == row.resettleRequestedAt
              && out.row.manualSince == Some(if row.manualSince.Some? then row.manualSince.value else now)
              && out.row.firstFailedAt == Some(if row.firstFailedAt.Some? then row.firstFailedAt.value else now)
              && out.row.sourceVersion == if row.sourceVersion.Some? then row.sourceVersion else version
  {}

  // ----- over runs

  lemma BlockedLookDoesNothing(w: Window, version: Option<string>, d: Day, x: Visit)
    requires !w.yesterday && !d.booked && !AsksAPerson(d.row) && x.scopeEditedAt.Some? && w.endMs <= x.scopeEditedAt.value
    ensures Visited(w, version, d, x) == d && !Counts(w, version, d, x)
  {
    var c := ContextOf(w, version, d, x);
    if InTime(c, x.at) {
      OldDaysAreHeldBack(c, d.row, x.at);
    }
  }

  // A recheck that finds what was recorded before writes nothing and waits ten minutes in memory; one that finds nothing clears
  // the row, which the next look then tries.
  lemma RecheckedLook(w: Window, version: Option<string>, d: Day, x: Visit)
    requires ActionOf(w, version, d, x).Recheck? && x.written && x.at <= x.done
    ensures var row, d' := d.row.value, Visited(w, version, d, x);
            && (x.blocker == row.manualReason && row.manualSince.Some? && row.sourceVersion == version && AsksAPerson(d.row)
                ==> d' == d.(notBefore := Some(x.done + 10 * 60 * 1000)))
            && (x.blocker.None? ==> d'.row.Some? && d'.row.value.cleared && d'.row.value.attempts == row.attempts && d'.notBefore.None?)
  {}

  // Whatever looks follow while a day is older than the configuration: it is not tried, not settled, and its row stays as it
  // is, unless a person was asked about it before.
  lemma {:induction false} OldDayStays(w: Window, version: Option<string>, run: seq<Visit>, more: seq<Visit>)
    requires !w.yesterday && !After(w, version, run).booked && !AsksAPerson(After(w, version, run).row)
    requires forall i :: 0 <= i < |more| ==> more[i].scopeEditedAt.Some? && w.endMs <= more[i].scopeEditedAt.value
    ensures After(w, version, run + more) == After(w, version, run)
    ensures Tries(w, version, run + more) == Tries(w, version, run)
    decreases |more|
  {
    hide Visited, Counts, AsksAPerson;
    if more == [] {
      assert run + more == run;
    } else {
      var n := |more| - 1;
      OldDayStays(w, version, run, more[..n]);
      assert (run + more)[..|run + more| - 1] == run + more[..n];
      BlockedLookDoesNothing(w, version, After(w, version, run), more[n]);
    }
  }
}
