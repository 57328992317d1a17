// How the decision before a try and the record after it fit together: what a failure makes the poller wait for.
module SettlementDecisions {
  import opened Outcomes
  import opened Settlement

  // A day the automatic poller may look at: over, in effect, within a week, not settled and not held back.
  predicate Open(c: Context, now: int) {
    && c.origin.Auto? && !c.resettle && !c.ledgerHasDay && Settleable(c.window, now) && now - c.window.endMs < LOOKBACK
    && !(c.accountingStart.Some? && c.accountingStart.value >= c.window.endMs)
    && !(c.archivedDayEnd.Some? && c.window.startMs >= c.archivedDayEnd.value)
    && (c.window.yesterday || c.scopeEditedAt.None? || c.window.endMs > c.scopeEditedAt.value)
  }

  predicate Failed(w: Window, reason: Reason, now: int, before: Option<Row>, origin: Origin, version: Option<string>, row: Row) {
    Outcome(w, Problem(reason), now, before, origin, version) == Put(row) && RequestOf(before).None?
  }

  // With the same configuration a failed automatic try is not repeated before its delay is over; a failure that waits for a
  // person is looked at again after ten minutes, without reading; one that cannot go away is never tried again.
  lemma FailureWaits(c: Context, reason: Reason, now: int, before: Option<Row>, row: Row, later: int)
    requires Failed(c.window, reason, now, before, Auto, c.sourceVersion, row) && Open(c, later) && now <= later
    requires now >= 0
    ensures row.attempts > AttemptsOf(before) ==>
              row.attempts == AttemptsOf(before) + 1
              && (later < now + RetryDelay(c.window, now, row.firstFailedAt) ==> !Precheck(c, Some(row), later).Due?)
    ensures row.attempts == AttemptsOf(before) ==>
              && !Precheck(c, Some(row), later).Due?
              && (reason.kind.Sticky? ==> Precheck(c, Some(row), later).StickyReason?)
              && (reason.kind.Manual? ==> (Precheck(c, Some(row), later).Recheck? <==>
                    later >= now + MANUAL_RECHECK && (c.recheckNotBefore.None? || later >= c.recheckNotBefore.value)))
  {}

  // Once its delay is over, a failure that heals by itself is tried again — or given up at the cut-off.
  lemma DelayEnds(c: Context, reason: Reason, now: int, before: Option<Row>, row: Row, later: int)
    requires Failed(c.window, reason, now, before, Auto, c.sourceVersion, row) && Open(c, later) && reason.kind.Retry?
    requires later >= now + RetryDelay(c.window, now, row.firstFailedAt)
    ensures Precheck(c, Some(row), later) == if row.attempts >= MAX_AUTO_ATTEMPTS then Exhausted else Due
  {}

  // A new configuration is tried at once, whatever the day waits for, except a reason that cannot go away and the cut-off.
  lemma NewConfigurationWakes(c: Context, reason: Reason, now: int, before: Option<Row>, origin: Origin, was: string, row: Row, later: int)
    requires Failed(c.window, reason, now, before, origin, Some(was), row) && Open(c, later)
    requires c.sourceVersion.Some? && c.sourceVersion != Some(was)
    ensures Precheck(c, Some(row), later).Due? <==> !reason.kind.Sticky? && (reason.kind.Retry? ==> row.attempts < MAX_AUTO_ATTEMPTS)
  {}

  // A local recheck that finds nothing in the way leads to a try at the next look, and costs no attempt.
  lemma ClearedIsTried(c: Context, row: Row, now: int, next: Row, later: int)
    requires AfterRecheck(c.window, row, None, now, c.sourceVersion) == Put(next) && Open(c, later)
    requires row.manualReason.Some? && row.manualReason.value.kind.Manual? && row.resettleRequestedAt.None?
    ensures Precheck(c, Some(next), later).Due? && next.attempts == row.attempts && next.manualReason == row.manualReason
  {}

  // After such a try failed for the same kind of reason, the day is read on the back-off schedule instead of being rechecked.
  lemma BlindIsRead(c: Context, row: Row, reason: Reason, now: int, next: Row, later: int)
    requires row.cleared && reason.kind.Manual? && row.attempts < MAX_AUTO_ATTEMPTS - 1 && row.resettleRequestedAt.None?
    requires Failed(c.window, reason, now, Some(row), Auto, c.sourceVersion, next) && Open(c, later)
    requires now >= 0 && later >= now + RetryDelay(c.window, now, next.firstFailedAt) && (c.recheckNotBefore.None? || later >= c.recheckNotBefore.value)
    ensures Precheck(c, Some(next), later).Due?
  {}

  // A try by hand never counts, and leaves the automatic schedule as it was exactly when the failure heals by itself or is one
  // the recheck cannot see; otherwise the next look is ten minutes away, or there is none.
  lemma ByHandNeverCounts(w: Window, reason: Reason, now: int, before: Row, version: Option<string>, row: Row)
    requires Failed(w, reason, now, Some(before), ByHand, version, row) && before.nextAttemptAt.Some?
    ensures row.attempts == before.attempts && row.firstFailedAt.Some? && (before.firstFailedAt.Some? ==> row.firstFailedAt == before.firstFailedAt)
    ensures var unseen := reason.kind.Manual? && (before.cleared || (before.probeBlind && before.manualReason == Some(reason)));
            row.nextAttemptAt == if reason.kind.Retry? || unseen then before.nextAttemptAt
                                 else if reason.kind.Sticky? then None else Some(now + MANUAL_RECHECK)
  {}

  // A settled day leaves no row, and is not looked at again without a request.
  lemma SettledIsFinal(c: Context, now: int, before: Option<Row>, later: int)
    requires Settleable(c.window, now) && Settleable(c.window, later)
    requires c.origin.Auto? && !c.resettle && c.ledgerHasDay
    ensures Outcome(c.window, Profit, now, before, Auto, c.sourceVersion) == Delete
    ensures !Precheck(c, None, later).Due?
  {}
}
