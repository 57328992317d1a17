// Settling one day of one binding: when the poller may try, and what a try leaves behind
// (lib/reconciliation-settlement.js). Times are milliseconds.
module Settlement {
  import opened Outcomes

  const MINUTE := 60000
  const HOUR := 60 * MINUTE
  const DAY := 24 * HOUR
  const SETTLE_DELAY := 15 * MINUTE
  const LOOKBACK := 7 * DAY
  const FAST_WINDOW := 6 * HOUR
  const FAST_RETRY := 10 * MINUTE
  const RETRY_STEPS := [10 * MINUTE, 30 * MINUTE, 2 * HOUR]
  const MANUAL_RECHECK := 10 * MINUTE
  const MAX_AUTO_ATTEMPTS := 130

  function Max(a: int, b: int): int { if a < b then b else a }

  // A failure reason and what the contract says about it.
  datatype Kind = Retry | Manual | Sticky
  datatype Reason = Reason(code: string, kind: Kind)

  // A completed whole-day window.
  datatype Window = Window(startMs: int, endMs: int, yesterday: bool)

  // The state row of one day. `cleared` and `probeBlind` are the two marks kept in its detail column.
  datatype Row = Row(
    retryReason: Option<Reason>,
    manualReason: Option<Reason>,
    manualSince: Option<int>,
    attempts: nat,
    nextAttemptAt: Option<int>,
    firstFailedAt: Option<int>,
    lastAttemptAt: Option<int>,
    sourceVersion: Option<string>,
    cleared: bool,
    probeBlind: bool,
    resettleRequestedAt: Option<int>)

  datatype Origin = Auto | ByHand

  datatype Action =
    | Due | NotSettleable | NotEffective | AfterArchive | Settled | BlockedByEdit | BeyondLookback
    | Backoff | WaitingForPerson | Recheck | StickyReason | Exhausted

  // Both ends are day starts, so "the day of now - 15 minutes starts at or after the end" is this.
  predicate Settleable(w: Window, now: int) {
    now - SETTLE_DELAY >= w.endMs
  }

  // ----- settleRetryDelayMs

  function BackoffFrom(w: Window, now: int, firstFailedAt: Option<int>): int {
    Max(w.endMs + FAST_WINDOW, if firstFailedAt.Some? then firstFailedAt.value else now)
  }

  function RetryDelay(w: Window, now: int, firstFailedAt: Option<int>): (d: int)
    ensures FAST_RETRY <= d <= 2 * HOUR
  {
    var since := now - BackoffFrom(w, now, firstFailedAt);
    if now - w.endMs < FAST_WINDOW || since < 10 * MINUTE then 10 * MINUTE
    else if since < 40 * MINUTE then 30 * MINUTE
    else 2 * HOUR
  }

  // The loop over the steps, whose thresholds add up.
  method SettleRetryDelayMs(w: Window, now: int, firstFailedAt: Option<int>) returns (d: int)
    ensures d == RetryDelay(w, now, firstFailedAt)
  {
    if now - w.endMs < FAST_WINDOW { return FAST_RETRY; }
    var since := now - BackoffFrom(w, now, firstFailedAt);
    var threshold, k := 0, 0;
    while k < |RETRY_STEPS| - 1
      invariant 0 <= k <= 2
      invariant threshold == (if k == 0 then 0 else if k == 1 then 10 * MINUTE else 40 * MINUTE)
      invariant k > 0 ==> since >= threshold
    {
      threshold := threshold + RETRY_STEPS[k];
      if since < threshold { return RETRY_STEPS[k]; }
      k := k + 1;
    }
    return RETRY_STEPS[|RETRY_STEPS| - 1];
  }

  // ----- settlementPrecheck

  // What the decision looks at besides the row: the binding, the clock and the ledger.
  datatype Context = Context(
    window: Window,
    accountingStart: Option<int>,
    archivedDayEnd: Option<int>,
    ledgerHasDay: bool,
    sourceVersion: Option<string>,
    scopeEditedAt: Option<int>,
    recheckNotBefore: Option<int>,
    resettle: bool,
    origin: Origin)

  function Or0(x: Option<int>): int { if x.Some? then x.value else 0 }

  predicate Changed(c: Context, row: Row) {
    c.sourceVersion.Some? && row.sourceVersion.Some? && row.sourceVersion != c.sourceVersion
  }

  function Precheck(c: Context, row: Option<Row>, now: int): Action {
    var w := c.window;
    var requestedAt := if row.Some? then row.value.resettleRequestedAt else None;
    var requested := c.resettle || requestedAt.Some?;
    var manualBlocked := row.Some? && row.value.manualReason.Some? && row.value.manualReason.value.kind.Manual?;
    var since := if !requested then w.endMs else if requestedAt.Some? then requestedAt.value else now;
    if !Settleable(w, now) then NotSettleable
    else if c.accountingStart.Some? && c.accountingStart.value >= w.endMs then NotEffective
    else if c.archivedDayEnd.Some? && w.startMs >= c.archivedDayEnd.value then AfterArchive
    else if c.origin.ByHand? then Due
    else if c.ledgerHasDay && !requested then Settled
    else if !manualBlocked && !w.yesterday && c.scopeEditedAt.Some? && w.endMs <= c.scopeEditedAt.value then BlockedByEdit
    else if now - since >= LOOKBACK then BeyondLookback
    else if row.None? then Due
    else
      var r := row.value;
      if r.manualReason.Some? then
        if r.manualReason.value.kind.Sticky? then StickyReason
        else if Changed(c, r) || r.cleared then Due
        else if now < Max(Or0(r.nextAttemptAt), Or0(c.recheckNotBefore)) then WaitingForPerson
        else if r.probeBlind then (if r.attempts >= MAX_AUTO_ATTEMPTS then Exhausted else Due)
        else Recheck
      else if r.attempts >= MAX_AUTO_ATTEMPTS then Exhausted
      else if Changed(c, r) then Due
      else if now < Or0(r.nextAttemptAt) then Backoff
      else Due
  }

  // ----- settlementOutcome

  // What reading the day gave.
  datatype Fetched = Profit | NoEffect | Problem(reason: Reason)

  datatype Write = Nothing | Delete | Put(row: Row)

  function AttemptsOf(row: Option<Row>): nat { if row.Some? then row.value.attempts else 0 }

  function RequestOf(row: Option<Row>): Option<int> { if row.Some? then row.value.resettleRequestedAt else None }

  function Outcome(w: Window, fetched: Fetched, now: int, row: Option<Row>, origin: Origin, version: Option<string>): Write {
    if !Settleable(w, now) || fetched.NoEffect? then Nothing
    else if fetched.Profit? then Delete
    else
      var reason := fetched.reason;
      var attempts := AttemptsOf(row);
      var firstFailedAt := if row.Some? && row.value.firstFailedAt.Some? then row.value.firstFailedAt else Some(now);
      var next := if row.Some? then row.value.nextAttemptAt else None;
      var backoff := now + RetryDelay(w, now, firstFailedAt);
      var since := if row.Some? && row.value.manualReason.Some? && row.value.manualSince.Some? then row.value.manualSince else Some(now);
      var blind := reason.kind.Manual? && row.Some?
                   && (row.value.cleared || (row.value.probeBlind && row.value.manualReason == Some(reason)));
      var kept := if next.Some? then next else Some(now);
      if reason.kind.Retry? then
        Put(Row(Some(reason), None, None, if origin.ByHand? then attempts else attempts + 1,
                if origin.ByHand? then kept else Some(backoff),
                firstFailedAt, Some(now), version, false, false, RequestOf(row)))
      else if blind then
        Put(Row(None, Some(reason), since, if origin.ByHand? then attempts else attempts + 1,
                if origin.ByHand? then kept else Some(backoff),
                firstFailedAt, Some(now), version, false, true, RequestOf(row)))
      else
        Put(Row(None, Some(reason), since, attempts,
                if reason.kind.Sticky? then None else Some(now + MANUAL_RECHECK),
                firstFailedAt, Some(now), version, false, false, RequestOf(row)))
  }

  // ----- settlementRecheck

  function AfterRecheck(w: Window, row: Row, blocker: Option<Reason>, now: int, version: Option<string>): Write {
    if blocker.Some? && !blocker.value.kind.Retry? then Outcome(w, Problem(blocker.value), now, Some(row), Auto, version)
    else
      Put(row.(retryReason := None,
               sourceVersion := if row.sourceVersion.Some? then row.sourceVersion else version,
               manualSince := if row.manualSince.Some? then row.manualSince else Some(now),
               firstFailedAt := if row.firstFailedAt.Some? then row.firstFailedAt else Some(now),
               nextAttemptAt := Some(now), cleared := true))
  }

  // Nothing but the time of the next look would change.
  predicate RecheckUnchanged(row: Row, next: Row) {
    && next.manualReason.Some? && next.manualReason == row.manualReason && !next.manualReason.value.kind.Sticky?
    && next.sourceVersion == row.sourceVersion && next.attempts == row.attempts && next.manualSince == row.manualSince
    && next.cleared == row.cleared && next.probeBlind == row.probeBlind
  }
}
