# Balance and profit monitor: models and proofs

A Dafny model of the protocols, state machines and exact arithmetic of a self-hosted balance and profit monitor, and proofs
of what they guarantee. `dafny verify dfyconfig.toml` checks everything. Nothing here executes the JavaScript.

Conventions. A loop or an object that changes its fields is a method or a class, proved against a function of the values
before; the theorems are about that function. Every stretch of code between two awaits is one step, and theorems about runs
quantify over all sequences of steps. Times are whole milliseconds (exact numbers in `FixedCosts`), money is whole units or
exact numbers, keyed hashes are injective and their results tell apart from other digests. What the network, the database,
the clock and the user do are parameters of the steps.

- **Merging duplicate upstreams** — `ReconciliationTables`, `SegmentKeys`, `UpstreamMerge` (what a merge and its undo do),
  `MergedRules` and `MergedLinks` (half-way states of their loops), `MergeRoundTrip`, `MergedAliases`, `MergeHistory`,
  `MergeEdits`, `MergeTies`, `MergeEffect` (what each operation does, field by field), `MergeDatabase` (the tables updated in
  place).
- **Daily settlement** — `Settlement`, `SettlementGates`, `SettlementDecisions`, `SettlementRuns`; the ledger it writes to:
  `Ledger`, `LedgerValues`.
- **Write-behind history** — `HistoryWrites`, `HistorySafety`, `HistoryAccepted`, `HistoryStore`; consumption from
  snapshots: `UsageDrops`, `UsageDropsMeaning`.
- **Paging a log that grows** — `LogPaging`, `LogPagingCoverage`, `LogPagingInsertions`, `LogPagingTotals`,
  `LogPagingRows`.
- **Reading a production database** — `AgentReader`, `ReadPacing`, `ReadPacingSafety`, `ReadPacingLimits`,
  `ReadPacingAnswers`.
- **Civil time** — `Sequences`, `BusinessTime`, `BusinessTimeMeaning`, `BusinessTimeChanges`.
- **Alert incidents** — `Alerts`, `AlertIncidents`, `AlertDepartures`, `AlertNotices`, `AlertDuties`.
- **Locks on several stations** — `StationLocks`, `StationLocksSafety`, `StationStore`.
- **Apportionment, costs, re-keying** — `Apportion`, `ErrorScaling`, `ExpectedCost`, `ExpectedCostDay`, `ExpectedCostSums`,
  `ExpectedCostPrices`, `FixedCosts`, `FixedCostValues`, `BillingIdentities`, `BillingMigration`.

## Where the code differs from what is written about it, or from what one would expect

The models follow the code.

- `lib/reconciliation-ledger.js:126-132` says a re-settlement with the same content writes no new version. The transaction
  reads the latest version without its expected cost, reason and tokens (`server/reconciliation-repository.js:264-265`), so a
  re-settlement that has any of them always writes one (`Ledger.ReplayAddsIff`), and one that lost them writes none
  (`Ledger.LostExpectedIsMissed`).
- `lib/reconciliation-settlement.js:30-33` reckons with 36 tries in the first six hours; with the waiting period of
  15 minutes there are at most 35, and 118 in a week.
- `lib/reconciliation-settlement.js:148` says a failed try by hand does not postpone the automatic ones. It does when the new
  reason waits for a person: the next look is then ten minutes away (`SettlementDecisions.ByHandNeverCounts`).
- Undoing merges relies on newest first; merges of the same millisecond are ordered by random ids
  (`MergeTies.ChainUndoneIffNewestFirst`, and `MergeTies.TieGoesWrong` for a case that goes wrong).
- A reading of the log that meets a malformed row resumes at the next page, so rows behind it on the same page are never
  counted (`LogPagingTotals.PageCountedIff`).
- `lib/business-time.js:101-102` promises the earlier of two occurrences and the first valid instant after a jump without a
  condition. With five sampled offsets that holds where each offset near the wall time stays in force for a day and the
  offsets are at most a day apart (`BusinessTimeChanges.FirstIsFound`); one that lasts some hours only can be missed
  (`BusinessTimeChanges.BriefOffsetIsMissed`), and `BusinessTimeChanges.FirstIsFoundIff` says exactly when.
- `db/upstream-merge-repository.js:145` says an undo only takes out the aliases that the merge added. The merge itself drops
  aliases that stand for one address twice or for the station's own, and these do not come back
  (`MergedAliases.PlannedComesBack`).

## Model

| member | source | states |
|---|---|---|
| `MergeRoundTrip.MergeThenUndo` | db/upstream-merge-repository.js:46-221 | whenever a merge succeeds on tables that satisfy their unique keys, replaying its log forwards from the state it left (or any state with the same rules, key rows, links and station marks) succeeds and restores every rule, segment-key row and monitor link exactly, active keys, link revisions and confirm times included, and takes back the merged marks of the stations; with the documents as the merge left them, every station has its old aliases again if and only if the merged list kept those of the retained one |
| `MergeRoundTrip.AliasesBack` | db/upstream-merge-repository.js:146-150 | the retained station gets exactly its old aliases back if and only if the merged list kept them all, in order; aliases a user added since the merge survive the undo |
| `MergedAliases.PlannedComesBack` | lib/upstream-merge.js:35-53 | for the list the planner makes out of the retained station's aliases and the merged stations' addresses and aliases, undoing brings the old list back if and only if every alias in it was trimmed and not empty, none stood for the same address as another and none for the station's own |
| `MergedAliases.PlannedClean` | lib/upstream-merge.js:35-53 | the planned list names no address twice and never the station's own |
| `MergedAliases.PlannedIff` | lib/upstream-merge.js:35-53 | an address is planned if and only if it is not the station's own and some alias or address of the group, trimmed and not blank, stands for it |
| `MergedAliases.MergedCostAliases` | lib/upstream-merge.js:35-53 | the loops over the retained station's aliases and each merged station's address and aliases give that list |
| `MergedRules.MoveRulesReach` | db/upstream-merge-repository.js:61-91 | every half-way state of the rule loop is the table before the merge with some rules and their selected key rows moved, so no statement can fail on a unique key that the final state respects, and each log line is the same whenever its turn comes |
| `MergedRules.RestoreRulesReach` | db/upstream-merge-repository.js:194-211 | the undo loop walks back through the same half-way states, in forward log order, without ever meeting a duplicate key |
| `MergedLinks.MoveLinksReach` | db/upstream-merge-repository.js:93-113 | the link loop never meets a duplicate (own station, channel) even when several merged stations share one, and ends with every link merged and one log line per link |
| `MergeHistory.RunIsListed` | db/upstream-merge-repository.js:123-145 | after any run of merges with strictly increasing times the list of merges not undone is exactly the run, newest first, each with its own log lines in order |
| `MergeHistory.UndoAll` | db/k-unmerge.js:11-30 | undoing everything listed, one transaction each, fails nowhere and brings rules, segments, key rows, links and station marks back to the state before the first merge, and the aliases of every station too when each merge kept those of its retained station |
| `MergeTies.ChainUndoneIffNewestFirst` | db/k-unmerge.js:11-30 | two merges of which the second takes over what the first retained are undone to the start if and only if the list names the later one first; with equal merge times that depends on two random ids |
| `MergeTies.OldestFirstLosesTheRule` | db/k-unmerge.js:11-30 | listed oldest first, an undo that reports no error leaves the rule at the first merge's retained station |
| `MergeTies.TieGoesWrong` | db/k-unmerge.js:11-30 | an example: two chained merges with the same time and ids A and B, one rule with an open segment; the undo reports no error and leaves the rule at the station in the middle |
| `MergeEdits.UndoRespectsEdits` | db/upstream-merge-repository.js:181-221 | undoing a merge after arbitrary edits of rules, segments, key rows, links and documents leaves alone every rule that no longer points at the retained station together with every key row that was not another rule's at the time of the merge (that is every row of its segments, opened before or after, as long as no segment is deleted or changes its rule), and never overwrites an active key that was changed since |
| `MergeEdits.UndoRepoints` | db/upstream-merge-repository.js:194-211 | a rule still pointing at the retained station is sent back to the station its first log line names |
| `MergeEdits.WrittenIsRecorded` | db/upstream-merge-repository.js:61-91 | what a merge logs names, for every moved key row, a segment of the rule on the same line: the hypothesis under which edits are respected is met by every log a merge writes |
| `MergeEffect.MergeMoves` | db/upstream-merge-repository.js:46-121 | the tables after a merge, field by field: every rule of a merged station points at the retained one, its key of station and token follows unless it has a canonical key, every key row of its segments at the old station follows whatever its match source, every other rule and key row is untouched; a link exists at the retained station exactly where one existed there or at a merged one, an existing one kept as it was; every merged station names the retained one and the time, the retained one has the planned aliases, and the log grows by lines of this merge only |
| `MergeEffect.MergeGoesThroughIff` | db/upstream-merge-repository.js:46-121 | a merge succeeds if and only if all its stations exist and none is merged away, its rules and number of links are the planned ones, and the moved rules and key rows keep their unique keys; only a clash of keys is reported as a conflict, everything else as a stale plan |
| `MergeEffect.MovedTablesAreUnique` | db/upstream-merge-repository.js:61-91 | this description determines the rules and key rows after a merge |
| `MergeEffect.OldRuleLine` | db/upstream-merge-repository.js:194-211 | undoing a rule line of an older version: the rule goes back if it still points at the retained station, its key too unless the line says what the merge wrote and it was changed, and the rule's key rows are brought in line with it either way |
| `MergeEffect.OldStationLine` | db/upstream-merge-repository.js:145-149 | without a list of added aliases, or when the station has none now, undoing puts the old aliases back |
| `MergeEffect.StationLine` | db/upstream-merge-repository.js:145-149 | with the list, undoing takes out every occurrence of the listed aliases and no other |
| `MergeEffect.LinkMovedLine` | db/upstream-merge-repository.js:212-214 | a moved link goes back with its values unless its old place is taken, which fails the undo; a link that is gone stays gone |
| `MergeEffect.LinkDroppedLine` | db/upstream-merge-repository.js:215-218 | a dropped link comes back with its old values unless there is one again |
| `MergeEffect.MergedStationLine` | db/upstream-merge-repository.js:187-188 | a merged station loses its marks and nothing else changes |
| `MergeEffect.UndoRefusedIff` | db/upstream-merge-repository.js:170-183 | an undo is refused if and only if the retained station or one of the merged ones was deleted; apart from that it fails only on a duplicate key |
| `MergeEffect.UndoMarksLog` | db/upstream-merge-repository.js:220-220 | an undo marks exactly this merge's lines not yet undone with its time |
| `MergeDatabase.Database.ApplyMergeRows` | db/upstream-merge-repository.js:46-121 | the loops that update rules, key rows and links in place, inside one transaction, have exactly the effect the theorems are about, or fail with the same error |
| `MergeDatabase.Database.Merge` | db/upstream-merge-repository.js:46-121 | a failing merge leaves the database as it was; a successful one moves all selected rules and links |
| `MergeDatabase.Database.UndoMergeRows` | db/upstream-merge-repository.js:181-221 | the replay of the log, line by line and row by row, has exactly the effect the theorems are about |
| `MergeDatabase.Database.UndoMerges` | db/k-unmerge.js:11-30 | merges are undone in list order, one transaction each; the first failure is rolled back alone, stops the loop and is reported with what was applied before |
| `MergeDatabase.Database.RefreshSegmentKeys` | db/segment-keys.js:44-75 | the ordered statements on the key table, each checked against the primary and unique keys when it executes |
| `SegmentKeys.RefreshIdempotent` | db/segment-keys.js:22-75 | when the statements succeed, executing them again succeeds and changes nothing |
| `SegmentKeys.RefreshForgetsActiveKeys` | db/segment-keys.js:44-75 | the result does not depend on which active keys the rule's rows held before |
| `SegmentKeys.RefreshHolders` | db/segment-keys.js:44-75 | afterwards a row of the rule holds an active key if and only if its segment is open and the rule is in use; a row on the rule's own upstream and token then holds the rule's key |
| `SegmentKeys.RefreshKeepsHistory` | db/segment-keys.js:44-75 | rows of other rules do not change; once the rule has a row that is not initial, rows of closed segments change in nothing but losing the active key |
| `SegmentKeys.RefreshedRows` | db/segment-keys.js:44-75 | what the statements do to each row, by the row's fields: rows of other rules stay; initial rows of open segments, and of closed ones while the rule has no other rows, end on the rule's upstream, token and name; each open segment's row of a rule in use holds the rule's key or its own station and token's; and exactly the rule's segments without a row get an initial one |
| `ReconciliationTables.KeyTextNamesKey` | db/segment-keys.js:44-75 | active-key texts of different stations or tokens differ |
| `Settlement.SettleRetryDelayMs` | lib/reconciliation-settlement.js:35-46 | the loop over the back-off steps gives ten minutes in the first six hours and in the first tier after them, then half an hour, then two hours |
| `SettlementRuns.AtMost118` | lib/reconciliation-settlement.js:104-195 | over every automatic run, through any mix of retry, manual, cleared and probe-blind outcomes, rechecks and lost writes, with a clock that does not go back and one configuration, a day is tried at most 118 times: at most 35 times in the first six hours, then once, once and 81 times in the tiers counted from the first failure; the stored attempts never exceed that |
| `SettlementRuns.CountByTier` | lib/reconciliation-settlement.js:16-46 | tries that keep the back-off distances: at most 35, then one, one and 81 in the four tiers |
| `SettlementRuns.NeverExhausted` | lib/reconciliation-settlement.js:104-139 | so the cut-off of 130 attempts is never the reason to stop |
| `SettlementRuns.BoundIsReached` | lib/reconciliation-settlement.js:104-195 | 118 is attained: for any day a concrete run of failing visits tries it exactly that often |
| `SettlementRuns.SettledStays` | lib/reconciliation-settlement.js:104-195 | once a run has settled a day it has no row, and whatever looks follow, in any order and at any times, none is a try and nothing changes |
| `SettlementDecisions.FailureWaits` | lib/reconciliation-settlement.js:104-186 | after a failed automatic try no later look with the same configuration repeats it before the delay recorded for it is over; a failure that waits for a person is only rechecked locally, from ten minutes on and from the recheck time kept in memory; one that cannot go away is never tried again |
| `SettlementDecisions.DelayEnds` | lib/reconciliation-settlement.js:104-186 | once the delay is over a failure that heals by itself is tried again, unless 130 attempts were made |
| `SettlementDecisions.NewConfigurationWakes` | lib/reconciliation-settlement.js:104-186 | a changed configuration makes the day due at once, whatever it waits for, exactly when the reason can go away and the cut-off is not reached |
| `SettlementDecisions.ClearedIsTried` | lib/reconciliation-settlement.js:104-195 | a local recheck that finds nothing in the way makes the next look a try and costs no attempt |
| `SettlementDecisions.BlindIsRead` | lib/reconciliation-settlement.js:104-186 | when that try fails for a person's reason again the day goes back to being read on the back-off schedule |
| `SettlementDecisions.ByHandNeverCounts` | lib/reconciliation-settlement.js:149-186 | a try by hand never counts as an attempt, and keeps the automatic schedule exactly when the failure heals by itself or is one the recheck cannot see |
| `SettlementGates.OldDaysAreHeldBack` | lib/reconciliation-settlement.js:116-123 | an automatic look at a day that is over, in effect, not archived, not yesterday and older than the configuration is answered blocked exactly when no person was asked about it, whether it was requested again or not; only when one was can it be due or rechecked |
| `SettlementGates.EditMakesNoDifference` | lib/reconciliation-settlement.js:115-123 | by hand, for yesterday or when a person was asked, the time of the edit changes no answer |
| `SettlementGates.SettledIff` | lib/reconciliation-settlement.js:110-116 | answered settled exactly when automatic, in time, in the ledger and not requested again |
| `SettlementGates.GivenUpIff` | lib/reconciliation-settlement.js:124-125 | given up exactly seven days after the stored request, after now for a request being made, or else after the day's end |
| `SettlementGates.DueIff` | lib/reconciliation-settlement.js:104-140 | every condition under which a look is a try, by hand or automatic, with and without a row |
| `SettlementGates.RecheckIff` | lib/reconciliation-settlement.js:128-136 | and under which it is only a local recheck |
| `SettlementGates.OtherAnswers` | lib/reconciliation-settlement.js:104-140 | and when each other answer is given: too early, not in effect, archived, for good, waiting for a person, backing off, tried too often |
| `SettlementGates.DelayIs` | lib/reconciliation-settlement.js:16-46 | how long a failed try waits, by the end of the day, the first failure and the time |
| `SettlementGates.CountedIff` | lib/reconciliation-settlement.js:162-182 | which failed automatic tries count and wait for the back-off, and which are looked at again in ten minutes or never |
| `SettlementGates.FailureIsRecorded` | lib/reconciliation-settlement.js:149-182 | what a failed try leaves in the row: reason, times, configuration, request |
| `SettlementGates.BlindIff` | lib/reconciliation-settlement.js:168-179 | a row is marked as not visible to the recheck exactly when it failed for a person's reason after a recheck that found nothing, or failed again for the same reason while marked |
| `SettlementGates.RecheckLeaves` | lib/reconciliation-settlement.js:188-195 | a recheck that meets no reason for a person changes the row in nothing but marking it as cleared and due at once |
| `SettlementGates.OldDayStays` | lib/reconciliation-settlement.js:116-123 | over runs: as long as the day is older than the configuration and no person was asked, looks of any number and at any times are no tries and leave row and ledger as they are |
| `HistorySafety.PurgedStaysPurged` | db/history.js:376-447 | in every interleaving of append, flush, purge, timer and retention, with any queries failing with or without effect: once a purge has resolved, no point or daily row of that station is ever in the database again |
| `HistorySafety.DeletionsAreRetried` | db/history.js:376-447 | a purged station's rows are gone, or being deleted right now, or their deletion is queued or scheduled |
| `HistorySafety.NothingLost` | db/history.js:376-426 | every accepted point of a station not purged is waiting, in the batch being written, in the database, or past the retention limit; it is never queued twice, and the stored row under its key is that very point unless one was loaded at start |
| `HistorySafety.RunKeeps` | db/history.js:376-447 | the invariant behind these two is kept by every run of events |
| `HistoryAccepted.TakesInSnapshots` | db/history.js:411-426 | over every run of events: the points taken in are, in order, those of exactly the append events that carry a balance, come while their station is not purged, and 30 seconds or more after the station's last one taken in or loaded; each has the event's station, time, balance and usage |
| `HistoryAccepted.AcceptsIff` | db/history.js:411-418 | whether the next snapshot is taken in, read off the events before it |
| `HistoryAccepted.SnapshotIff` | db/history.js:411-426 | a point was taken in if and only if an append event with its values came when it had to be |
| `HistoryAccepted.SnapshotsAreKept` | db/history.js:376-426 | such an event's own balance and usage are waiting, being written, stored, or past retention, as long as its station is not purged |
| `HistoryAccepted.FlushStores` | db/history.js:376-395 | a flush whose queries succeed stores everything that waited and nothing else, and leaves exactly the recounted daily rows |
| `HistoryAccepted.HotAre` | db/history.js:420-424 | after a snapshot is taken in its station keeps exactly as many of its newest hot points as fit into 5000 and 30 days |
| `HistoryStore.History.Append` | db/history.js:411-426 | a snapshot is refused for purged stations and within 30 seconds of the last one, otherwise it is kept hot (trimmed by count and age) and queued |
| `HistoryStore.History.Purge` | db/history.js:428-447 | a purge forgets the station's hot and waiting points, owes its deletion, cancels the timer and queues a flush |
| `HistoryStore.History.Returns` | db/history.js:376-405 | what each query of a flush does when it comes back, including the filter that keeps purged stations out of a batch taken before |
| `UsageDropsMeaning.DropsFromWindow` | db/history.js:41-129 | reading only the window's rows and each station's last row before it gives every group of all stations' whole histories exactly once with its total: buffered for any order of the stations, and streamed when the window is sorted by station and time and the bucket function does not go back on it |
| `UsageDrops.WithBaselines` | db/history.js:54-75 | the result is the window in its order with each station's baseline directly in front of the station's first row, followed by the baselines of the stations without rows in the window, each once |
| `UsageDropsMeaning.StreamingAgreesIff` | db/history.js:90-122 | streaming hands over exactly the buffered groups, in the same order with the same totals, if and only if no group of rows in the window is torn apart by another |
| `UsageDropsMeaning.SortedIsGrouped` | db/history.js:85-122 | rows sorted by station and time with a bucket function that does not go back are never torn apart |
| `UsageDropsMeaning.StreamedIsGrouped` | app/api/analytics/route.js:52-70 | the rows as they are streamed, baselines included, are never torn apart |
| `UsageDrops.Accumulator.Add` | db/history.js:95-117 | one row through the accumulator, buffered or streaming, keeps the totals of all rows added so far |
| `UsageDrops.UsageDropsOf` | db/history.js:90-129 | the accumulator fed with all rows returns, buffered, each key's sum of drops and, streaming, one entry per stretch of rows with the same key |
| `UsageDrops.UsedBetween` | db/history.js:463-474 | the two loops add up exactly the drops whose later snapshot lies in the window, before rounding |
| `UsageDropsMeaning.BucketsAreUsed` | db/history.js:90-129 | one station's bucket totals add up to what usedBetween adds up before rounding |
| `UsageDropsMeaning.UsedIsAdditive` | db/history.js:460-474 | neighbouring windows neither overlap nor leave anything out |
| `UsageDropsMeaning.BalanceIsConserved` | db/history.js:463-474 | first balance plus everything put back is last balance plus what was used |
| `UsageDropsMeaning.TotalIsUsedInBucket` | db/history.js:85-129 | a group's total is the sum of the falls between neighbouring snapshots of that station whose later one lies in the bucket and the window, whatever rows stand between; there is a group exactly where the station has a row |
| `LogPagingCoverage.FinishedCountsAll` | lib/providers.js:1531-1607 | on a log into which rows are only inserted, a reading that finishes — across any number of breaks at failed requests, pages without progress or the page limit, each followed by a resume — has counted every row that was there at the start exactly once, and nothing the service did not list; after an earlier result the same holds for the rows newer than it on a log sorted newest first |
| `LogPagingInsertions.InsertedRowsHideNothing` | lib/providers.js:1531-1607 | the same for a log given by its insertions: rows inserted anywhere and at any time while requests see the log at later and later moments, and a sound log in the end; a reading that finishes has each starting row exactly once and none that was never in the log |
| `LogPagingInsertions.AnswersGrow` | lib/providers.js:1531-1607 | what requests see of a log into which rows are inserted grows as the theorems about readings ask for |
| `LogPagingTotals.ReportedTotal` | lib/providers.js:1531-1607 | each channel's reported total lies between the sums over the log at the start and over the log last read (on an unchanged log it is that sum), and the totals by token or by user add up to it |
| `LogPagingTotals.BreakdownAddsUp` | lib/providers.js:1571-1598 | the amounts by token (or user) of a channel differ from the channel's total by no more than they did before the reading |
| `LogPagingTotals.TotalsAreSums` | lib/providers.js:1571-1598 | the channel totals and the seen quota are sums over the counted rows |
| `LogPagingRows.AmountsByName` | lib/providers.js:1579-1596 | for every source, name and channel the amount in the breakdown is the base's plus the quotas of the well-formed consumption rows of that channel that are the source's own and carry the name: a user's rows (equal name without regard to case) by token name, a channel test's rows (equal token name, token id 0) by user name |
| `LogPagingRows.AmountsByChannel` | lib/providers.js:1579-1596 | the same for the channel totals and for the amount seen, which counts all consumption rows |
| `LogPagingRows.QuietLogIsRead` | lib/providers.js:1531-1607 | a log that stays as it is, fits the page limit and is served every time is read to its end |
| `LogPagingRows.StoppedIff` | lib/providers.js:1568-1570 | a reading is stopped exactly when the first page came and the caller does not want to go on |
| `LogPagingRows.ResumesWhereItBroke` | lib/providers.js:1546-1606 | one that breaks off resumes at the page whose request failed or behind the one it got stuck on |
| `LogPagingTotals.MaxIdIsLargest` | lib/providers.js:1583-1586 | the id to go on from is the largest among the counted consumption rows |
| `LogPagingTotals.PageCountedIff` | lib/providers.js:1573-1598 | a page is counted whole if and only if no new malformed row on it has another new row behind it |
| `LogPagingTotals.MalformedRowHidesTheNext` | lib/providers.js:1598-1598 | an example: the row behind a malformed one is never counted, since the resumed reading goes on with the next page |
| `LogPaging.QueryOwnLogSource` | lib/providers.js:1531-1607 | the loop over pages with its accumulators returns the totals of exactly the rows the page-by-page reading takes, or the point to resume from |
| `LogPaging.ReadPage` | lib/providers.js:1571-1598 | the loop over one page's rows adds each new row once and stops at a malformed one |
| `ReadPacingLimits.HourlyLimits` | agent/snapshot.js:56-105 | over every run with a clock that does not go back at most 15 reads touch any clock hour and at most 45 statements are issued in it, a read still running counted with all it may issue |
| `ReadPacingLimits.NextReadWaits` | agent/snapshot.js:56-105 | from the end of a read to the start of the next at least four minutes pass after a success, min(10·2^(k−1), 60) minutes after the k-th failure in a row, and after running into an hourly quota the next one is not in the same clock hour |
| `ReadPacingLimits.OneInFlight` | agent/snapshot.js:86-102 | at most one read is running, and it is the last one started |
| `ReadPacingLimits.WhenAReadStarts` | agent/snapshot.js:78-102 | a request starts a read if and only if the pause after the last read is over and none is running; otherwise it is answered from the cache or waits for the running one |
| `ReadPacingLimits.AnswersAreFresh` | agent/snapshot.js:71-102 | a good answer is what some read brought; it is less than 30 minutes old or that read has just come back, and it is marked stale exactly when the last read failed |
| `ReadPacingLimits.NothingAfterAccountFailure` | agent/snapshot.js:71-76 | once the account was found too broad no result is given again and no statement is issued |
| `ReadPacingAnswers.AnswersAre` | agent/snapshot.js:71-102 | over every run: what is answered is the result of the last read, except that after a failure not about the account the last good result is given, marked as stale, exactly while it is less than 30 minutes old |
| `ReadPacingAnswers.StartsIff` | agent/snapshot.js:78-86 | also after the clock was set back: a request waits for a read exactly when the cache holds no good answer of less than four minutes and not from the future, and no pause of at most an hour is on; it starts one when none is running |
| `ReadPacingSafety.RunKeeps` | agent/snapshot.js:63-105 | the invariant relating cache, breaker, account and the history of reads is kept by every event |
| `ReadPacing.BreakerPause` | agent/snapshot.js:56-59 | an ordinary pause is between ten minutes and an hour; an hourly one ends exactly at the next full hour |
| `ReadPacing.SnapshotSource.Get` | agent/snapshot.js:78-86 | the object's fields after a request, up to its first await |
| `ReadPacing.SnapshotSource.Finish` | agent/snapshot.js:86-102 | the object's fields after the reader came back |
| `AgentReader.StatementsOfARead` | agent/reader.js:219-293 | a read issues at most three statements, two once the account passed and none once it was refused; the account is inspected at most once, before anything else, and the table is only read by an account that passed |
| `AgentReader.RefusedForGood` | agent/reader.js:276-280 | after a refusal no sequence of reads changes anything |
| `AgentReader.FullSelectsAreSpaced` | agent/reader.js:219-241 | after a select with channel_info met the missing column, the next such select comes ten minutes later or more |
| `ReadPacingAnswers.LastSelectCounts` | agent/reader.js:219-241 | a read that got to the table brings what its last select was answered with: its rows, or its failure |
| `ReadPacingAnswers.SelectsIssued` | agent/reader.js:219-241 | which selects a passed account issues: with channel_info, without, or one behind the other |
| `ReadPacingAnswers.ColumnRemembered` | agent/reader.js:219-241 | what is remembered about the column after each kind of answer |
| `ReadPacingAnswers.AccountChecked` | agent/reader.js:248-262 | which outcome of the inspection passes, refuses or leaves the account unchecked |
| `AgentReader.Reader.ReadRows` | agent/reader.js:243-293 | the reader's fields, its outcome and the statements it issued |
| `AgentReader.Reader.FetchRows` | agent/reader.js:219-241 | the select with fallback, including the retry of the full select |
| `BusinessTimeMeaning.FoundIsFirst` | lib/business-time.js:104-130 | for an offset of at most a day in size that changes at most once within two days of the wall time, the instant found is the least whose local clock is at or past it; the clock shows another time there if and only if the wall time is skipped, and then it is the instant of the change |
| `BusinessTimeMeaning.PutBack` | lib/business-time.js:104-119 | a wall time that occurs twice is found at its first occurrence |
| `BusinessTimeMeaning.PutForward` | lib/business-time.js:104-129 | a clock put forward: the one occurrence, or the jump |
| `BusinessTimeChanges.FirstIsFoundIff` | lib/business-time.js:104-130 | for any offset function at all, the first instant at which the clock is at or past the wall time is what is found if and only if: where a candidate shows the wall time, the clock shows it at that first instant under one of the five sampled offsets; where none does, the first bracket starts before it and no probe of the bisection meets the clock back before the wall time |
| `BusinessTimeChanges.EarlierIsTaken` | lib/business-time.js:101-119 | a wall time the clock shows is found at its first occurrence however often the offset changes, as long as every offset near it stays in force for a day |
| `BusinessTimeChanges.SkippedIsTheJump` | lib/business-time.js:102-129 | and a skipped wall time is answered with the jump over it, when the offsets are also at most a day apart |
| `BusinessTimeChanges.FirstIsFound` | lib/business-time.js:101-130 | so in every zone whose offsets last a day or longer and are at most a day apart the first instant at or past the wall time is found, with any number of changes |
| `BusinessTimeChanges.BriefOffsetIsMissed` | lib/business-time.js:112-117 | an example of a zone in which an offset lasts less than a day: the first of two midnights is missed |
| `BusinessTimeMeaning.FirstIsMonotone` | lib/business-time.js:101-130 | later wall times are not reached earlier |
| `BusinessTimeMeaning.DaysAreOrdered` | lib/business-time.js:132-145 | a day starts strictly after the day before unless the clock jumps over a whole day |
| `BusinessTime.WallTime` | lib/business-time.js:104-130 | for any offset function at all: the lowest candidate that shows the wall time, or else where the bisection of the first bracket ends, or nothing when there is no bracket; the clock shows or passes the wall time there |
| `BusinessTime.Bisect` | lib/business-time.js:120-127 | the loop ends where the bisection by halves does: at an instant within the bracket at which the clock passes the wall time |
| `AlertIncidents.EveryIncidentIsFair` | lib/alerts.js:109-130 | over every run of evaluations, for every incident on record: retries go only to channels its first message was for and that received nothing of it since, none is made 24 hours or more after the first message, and there are at most 28 of them however many repetitions intervene |
| `AlertIncidents.TriedAgrees` | lib/alerts.js:265-274 | one more message, retry or repetition, keeps the record in step with everything sent |
| `AlertIncidents.RetriesFit` | lib/alerts.js:110-113 | 29 back-off delays do not fit into 24 hours |
| `AlertDepartures.RecordFate` | lib/alerts.js:217-235 | one evaluation keeps an incident with its first send time and a shrinking set of channels, unless it was away for 24 hours or the single reminder was reset; a record found afterwards all the same is a new incident |
| `AlertDepartures.ShortDeparturesKeepIt` | lib/alerts.js:217-235 | a situation found again within a day before every evaluation stays one incident, with one first message, over any number of evaluations |
| `AlertDepartures.LongDeparturesEndIt` | lib/alerts.js:217-235 | a situation away for a day is over at the next evaluation: what is recorded then is another incident |
| `Alerts.Monitor.EvaluateStation` | lib/alerts.js:173-299 | the loops over stored incidents and over what was sent leave exactly the records and times of the specification, and the messages handed out are exactly the planned ones, each once |
| `Alerts.Bookkeep` | lib/alerts.js:217-235 | the loop over stored incidents drops those that are over and plans each due retry once |
| `Alerts.Deliver` | lib/alerts.js:263-285 | the loop over what was sent updates exactly the records of the keys a message was sent for |
| `AlertNotices.CountsFailures` | lib/alerts.js:183-184 | the error count is the number of evaluations in a row that found the balance unreadable |
| `AlertNotices.FewFailuresAreSilent` | lib/alerts.js:183-189 | fewer failed reads in a row than the rules ask for send nothing, keep the level before them, and leave open whether that incident is there |
| `AlertNotices.NoticesAreApt` | lib/alerts.js:194-214 | what a new message can be about in every reachable state: rules that are on, no balance alerts but the single reminder without renewal, recovery only from a bad level, changes only to another level |
| `AlertDuties.DueIsSaid` | lib/alerts.js:186-215 | over every run, stated by levels, rules, renewal and times: a confirmed alarming level other than the last known one whose rule is on is announced, the same one again once the pause is over, the recovery, the balance running out and the single reminder each when due; and no message is planned when none of them is |
| `AlertDuties.MessageGoesOut` | lib/alerts.js:16-22 | such a message goes to exactly the enabled channels bound to its event, all of them when none is bound; with none there nothing is sent |
| `AlertDuties.RetryGoesOutIff` | lib/alerts.js:223-235 | an incident's first message is sent once more if and only if no new message about it goes out, it is not over, its situation is there, its time has come, less than a day has passed, and some channel still addressed has not got it; it goes to exactly these |
| `AlertDuties.SituationHolds` | lib/alerts.js:230-231 | when the situation of each kind of incident is there, by level, rules, renewal and number of failures |
| `AlertDuties.IncidentBegins` | lib/alerts.js:280-285 | the record of a first message: the channels that did not accept it, the first retry a minute later |
| `AlertDuties.RetryIsRecorded` | lib/alerts.js:265-274 | the record after a retry: those that accepted are through, the delay grows, and nobody waits once the next retry would come after a day |
| `AlertNotices.RepeatsAreSpaced` | lib/alerts.js:196-206 | over every run a repetition comes later after the last message about the balance than the pause in the rules, and never when the pause is zero |
| `AlertNotices.RemindedOnce` | lib/alerts.js:200-202 | an upstream that stays without renewal is reminded of at most once, over any run |
| `AlertNotices.RemindedWhenLow` | lib/alerts.js:200-202 | and exactly once as soon as its balance was low or used up with the rule on |
| `StationLocksSafety.OneHolder` | db/store.js:849-868 | for any number of callers and any sets of stations: at most one caller holds a station |
| `StationLocksSafety.ServedInOrder` | db/store.js:849-868 | a station is served in the order its tickets were taken |
| `StationLocksSafety.NoDeadlock` | db/store.js:849-868 | in every reachable state with an unfinished caller some caller can go on |
| `StationLocksSafety.RunsEnd` | db/store.js:849-868 | every step takes one off what is left to do, so a run has at most as many steps as stations were asked for plus two per caller |
| `StationLocksSafety.MapEmpties` | db/store.js:858-861 | an entry of the lock map exists if and only if someone unfinished has a ticket for the station; when all are done the map is empty |
| `StationLocks.LockOrder` | db/store.js:851-851 | ids are taken once each, in ascending order, empty ones left out |
| `StationStore.Store.GoOn` | db/store.js:849-868 | one stretch of code between two awaits, tickets, map and status included |
| `StationStore.Store.Release` | db/store.js:858-866 | the loop that releases in reverse order removes exactly the map entries that are still the caller's own |
| `Apportion.ApportionTo` | lib/own-error-bucket.js:131-139 | the parts are whole numbers that add up to the target exactly; each is its exact share rounded down or, for those with the largest fractions and earlier ones first among equals, one more |
| `Apportion.PartsAreUnique` | lib/own-error-bucket.js:131-139 | this determines the parts |
| `Apportion.NothingFromNothing` | lib/own-error-bucket.js:131-139 | a weight of zero gets nothing |
| `Apportion.LeftOver` | lib/own-error-bucket.js:135-138 | what is left after rounding down is at most the number of shares that are not whole |
| `ErrorScaling.ScaledSample` | lib/own-error-bucket.js:146-163 | channel counts and user counts each add up to the window's total, first attempts never exceed errors nor their scaled total, no empty bucket is kept and all are marked as estimates |
| `ErrorScaling.ScaleErrorBuckets` | lib/own-error-bucket.js:146-163 | a window read whole is returned as it is; otherwise every bucket keeps its key and gets its proportional count |
| `ErrorScaling.SampleSums` | lib/own-error-bucket.js:99-128 | a sample's channel counts and user counts both add up to the number of rows read |
| `ErrorScaling.SampleCounts` | lib/own-error-bucket.js:99-128 | each bucket of a sample counts exactly the rows with its key, and a user's bucket the first attempts among them |
| `BillingMigration.LookupFindsLatest` | db/pool.js:554-590 | after a migration a lookup returns the capability with the greatest verification time among legacy rows under the digest or its old hash and rows already wrapped, and nothing exactly when there is none |
| `BillingMigration.FindsTheFirst` | lib/billing-capability-storage.js:40-45 | which of equally late capabilities is found: the digest's before its old hash's, and a wrapped row before the legacy one that was to take its place |
| `BillingMigration.MigratedLookup` | db/pool.js:554-590 | over any history of writes by older programs, writes, deletes and migrations with growing times, a lookup after a migration gives exactly what was written last |
| `BillingMigration.MigrationSettles` | db/pool.js:554-590 | a migration leaves nothing to move, and repeating it changes nothing |
| `BillingMigration.OthersStay` | db/pool.js:563-566 | rows that cannot be moved stay as they are |
| `BillingMigration.DeleteIsFinal` | lib/billing-capability-storage.js:50-54 | after a delete nothing is found, also after later migrations, if and only if no legacy row of the connection was left; other connections are untouched |
| `BillingMigration.SetIsFound` | lib/billing-capability-storage.js:46-49 | what was set, or something newer, is found; other connections are untouched |
| `BillingIdentities.Repository.RehashBillingCapabilities` | db/pool.js:554-590 | the loop over legacy rows, in any order, gives the migrated table and the counts reported; a failing statement or a missing key leaves table and marker unchanged |
| `BillingMigration.StartUp` | lib/runtime.js:30-31 | starting on a table that any history of programs left, the migration as the loop carries it out makes every lookup give the latest capability stored, and the one written last where the history was orderly; a failing one leaves the table as it was |
| `Ledger.ReplayAddsIff` | lib/reconciliation-ledger.js:126-139 | settling the same result again adds a version if and only if it is a re-settlement that carries an expected cost, a reason or tokens: the transaction does not select these columns and takes equal content for different |
| `Ledger.DecisionIsDocumentedIff` | server/reconciliation-repository.js:264-265 | exactly when the decision of the transaction is the documented one (another version for other content only) |
| `Ledger.LostExpectedIsMissed` | server/reconciliation-repository.js:1040-1046 | a re-settlement that only lost its expected cost is not recorded |
| `Ledger.ReplaysPileUp` | server/reconciliation-repository.js:1040-1052 | an example: the same re-settlement three times makes three versions |
| `Ledger.TwinsIffRepeated` | lib/reconciliation-ledger.js:113-139 | over every history of writes and later fills, two neighbouring versions agree in window, money, rates and way of costing if and only if one of the writes was a re-settlement that repeated them and had an expected cost, a reason or tokens |
| `Ledger.NeighboursDiffer` | lib/reconciliation-ledger.js:126-139 | so neighbouring versions always differ when no re-settlement has any of the three values |
| `Ledger.DecidedByMoney` | lib/reconciliation-ledger.js:113-139 | what the decision depends on: window, money, rates, way of costing, and whether the entry has any of the three values |
| `Ledger.SameIsEquivalence` | lib/reconciliation-ledger.js:113-124 | sameness of content is an equivalence, under decimal rounding and with the exemption for fixed costs on both sides |
| `LedgerValues.SameIff` | lib/reconciliation-ledger.js:113-124 | sameness of two entries by their fields: amounts agree when both are missing or both round to the same unit of eight decimals (rates: six), the cost only unless both are fixed |
| `LedgerValues.UnitsRound` | lib/reconciliation-ledger.js:33-37 | an amount is kept as the nearest unit of the last decimal, halves away from zero |
| `LedgerValues.VersionHoldsEntry` | server/reconciliation-repository.js:1046-1052 | a version added holds the entry it was given, every number rounded to the column's last decimal |
| `LedgerValues.FillIff` | server/reconciliation-repository.js:1101-1114 | a later fill changes the latest version if and only if it is the revision given and its expected cost is missing because the logs lag; it then holds the amount, reason and tokens given and the rest as before |
| `Ledger.StoringKeepsContent` | lib/reconciliation-ledger.js:33-37 | rounding for the table's decimals changes neither content nor sameness |
| `Ledger.RevisionsCountUp` | lib/reconciliation-ledger.js:126-139 | over any sequence of writes and later fills the revisions of a day are exactly 1 to n, the first settled, the others re-settled |
| `Ledger.AppendOnly` | server/reconciliation-repository.js:1040-1052 | versions before the latest never change, and money never does |
| `Ledger.FirstVersionStays` | lib/reconciliation-ledger.js:126-139 | without re-settlement and with the same window the first version stays the only one |
| `Ledger.ReportsLatest` | lib/reconciliation-ledger.js:133-139 | the reported time and revision are those of the version then latest |
| `ExpectedCost.ExpectedCostOf` | lib/expected-cost.js:50-91 | the total is missing if and only if some bucket's model has no price or is priced in tiers; otherwise it is the sum over the buckets; there is one row per model and priced-as name with exactly what its buckets cost, the rows add up to the total, and the models listed as unpriced or tiered are exactly those met; each row has the requests and tokens of its buckets |
| `ExpectedCostDay.ExpectedCostForDay` | lib/expected-cost-day.js:45-110 | the first reason that applies, the tokens, the models without a usable price, each segment's amount, and one row per model over all segments with the requests, tokens and cost of its buckets; without a reason the day's number is the sum over the models' rows and over the segments, and each channel's share is given |
| `ExpectedCostDay.SegmentSums` | lib/expected-cost-day.js:75-101 | the loop over segments merges the models' rows, finds exactly the unpriced models within segments and gives each segment's amount |
| `ExpectedCostDay.PartsAddUp` | lib/expected-cost-day.js:100-110 | the segments' amounts add up to the day's when every model has a price |
| `ExpectedCostDay.RowsOfOneMore` | lib/expected-cost-day.js:94-99 | merging a segment's rows keeps one row per model with what its buckets come to, and adds the segment to the sum |
| `ExpectedCostSums.DayAddsUp` | lib/expected-cost-day.js:45-110 | a day's number is the sum of its channels' shares |
| `ExpectedCostSums.DayByChannel` | lib/expected-cost-day.js:105-110 | summing by channel and then segment or by segment is the same |
| `ExpectedCostSums.TotalInAnyOrder` | lib/expected-cost.js:50-91 | the order of the buckets does not matter |
| `ExpectedCostSums.DayInAnyOrder` | lib/expected-cost-day.js:45-110 | in whatever order the day's buckets are read: the same reason, tokens, total, amount by model and channel share |
| `ExpectedCostSums.BindingsShareTokens` | lib/expected-cost-day.js:45-55 | two bindings of the same channels whose segments share no hour and cover the day: each reports tokens exactly when the day is read whole, it is switched off or outside of the gap, and no hour is cut; when both do, their counts add up to the day's |
| `ExpectedCostSums.HoursAreNotCut` | lib/expected-cost-day.js:71-79 | where a number is given every hourly bucket of the day lies within a segment or outside of it altogether |
| `ExpectedCostSums.NumberNeedsWholeDay` | lib/expected-cost-day.js:50-85 | a number is only given for a day read to its end; tokens then come with it exactly when the start of the readings is known |
| `ExpectedCostPrices.ChargeAgainstList` | lib/expected-cost.js:75-87 | a bucket's charge against the prices per million shown beside it: their product with its tokens and the ratio, and three fifths of the listed price more for tokens written for an hour; so the list explains the charge if and only if nothing was written for an hour or writing or the ratio is zero |
| `ExpectedCostPrices.InputIs` | lib/expected-cost.js:53-58 | input, cache reads and cache writes add up to the prompt where the service counts them together, never below zero |
| `ExpectedCostPrices.EachAtItsRatio` | lib/expected-cost-day.js:86-110 | each bucket adds to the day what it costs at the ratio of the one segment it lies in, and nothing outside of all; a ratio of zero is one, a missing quota per dollar 500000 |
| `ExpectedCostPrices.FirstThatApplies` | lib/expected-cost-day.js:45-85 | the reason given is the first, in the documented order, whose condition holds; none is given exactly when none holds |
| `ExpectedCostPrices.TokensGivenIff` | lib/expected-cost-day.js:50-72 | tokens are given if and only if the day was read from start to end, not skipped while switched off, and no hour is cut |
| `FixedCosts.PartsAddUp` | lib/profit.js:101-116 | the parts of a split total add up to it to the cent, or to zero when no weight is positive |
| `FixedCosts.PartIsNear` | lib/profit.js:101-116 | each part is within one cent of its proportional share, and nothing for a weight of zero |
| `FixedCosts.SplitByCumulative` | lib/profit.js:101-116 | each part is the difference of two rounded cumulative shares |
| `FixedCosts.ExactAdds` | lib/profit.js:51-76 | unrounded amounts of neighbouring windows add up |
| `FixedCosts.LifeCostsAmount` | lib/profit.js:29-76 | over its whole life a dated purchase costs exactly what was paid, outside of it nothing |
| `FixedCostValues.CountedIff` | lib/profit.js:28-37 | a purchase counts, as often as it is listed, if and only if its amount is not negative and its days are positive |
| `FixedCostValues.CostsInProportion` | lib/profit.js:33-76 | what a purchase costs in a window is to its amount as the overlap of its life and the window is to the days paid for |
| `FixedCostValues.SplitByAnyWeights` | lib/profit.js:101-116 | for any weights: one that is not positive gets nothing, a positive one its share among the positive ones to the cent, and the parts add up to the total if some weight is positive |
| `FixedCosts.CountsAddUp` | lib/profit.js:65-76 | active, expired and upcoming purchases add up to all |
| `FixedCosts.AmortizeFixedCost` | lib/profit.js:51-76 | the loop over purchases gives the exact amount, its rounding and the counts |
| `FixedCosts.FixedCostNowOf` | lib/profit.js:83-93 | the daily cost of those counted active right now, the first end among them, and how many are active, expired and upcoming, which make up all |
| `FixedCosts.DailyIsTheRate` | lib/profit.js:83-93 | that daily cost is what a window costs per day as long as no purchase starts or ends |

## Left out

- Merge: the planner (`lib/upstream-merge.js`) apart from the aliases it plans, locking reads, the JSON encoding of log details, and everything in a station's document beyond mergedInto, mergedAt and aliases.
- Merge: the order in which the database returns selected rules and links is a parameter of the model; uniqueness is checked after every statement, not after every row of a statement that updates several.
- SegmentKeys: the variant of the statements for all rules at once (no rule id) is not modelled.
- Settlement: days are given by their start and end with the waiting period expressed on the end; windows of several days, re-settlement requests during a run, and settling by hand between automatic tries are not part of the runs.
- SettlementRuns.AtMost118: assumes one configuration version and no re-settlement request, as the bound itself does.
- HistoryWrites: the sums written by refreshDailyUsage are a parameter of the step; predictions, sparklines and daily spend are not modelled; rounding of balances to four decimals is left to the caller.
- LogPaging: requests for empty windows, waiting after 429 answers, rows whose id is not a number, and the totals given by the service are not modelled; names are folded to lower case for A to Z only.
- LogPagingCoverage.FinishedCountsAll: assumes no malformed row, since one breaks it (PageCountedIff says exactly when for a page).
- ReadPacing: the paused setting, ETags, compression and masking are not modelled.
- AgentReader.Reader.ReadRows: the deadline of a read (`agent/reader.js:276-288`) appears only as a statement that comes back broken; that an abandoned attempt may go on for a while, and closing the reader, are not modelled.
- ReadPacingLimits.HourlyLimits: statements that an attempt abandoned at the deadline still issues are not counted.
- BusinessTime: zone data and calendar labels; a zone is any function from instants to offsets. The cache of day starts is not modelled.
- Alerts: texts, and the results kept for display, are not modelled; evaluations of one upstream follow one another, and their result is stored.
- StationLocks: actions end and take no further locks; a caller's ids are given as numbers in sort order.
- UsageDrops: balances are whole numbers; the rounding of daily sums to four decimals and of usedBetween to the cent is left out. balanceDays is not modelled.
- Apportion: exact division instead of floating point.
- ErrorScaling: classification of errors, attempts and retryability are not modelled; the two tables of buckets are two sequences.
- BillingIdentities: texts in the identity column are terms of a free algebra, lower-cased; the marker's content is not modelled.
- BillingMigration.MigratedLookup: assumes that no legacy row of a connection waits when it is deleted (DeleteIsFinal says what happens otherwise).
- Ledger: detail, keys by token, and the conversion of times are not modelled; columns hold any number their scale can express.
- ExpectedCost: rows are not sorted for display; the amount before the group ratio is not modelled, and the prices per million only in ExpectedCostPrices.
- FixedCosts: notes and formatting; the day a purchase starts is given as an instant.
- Provider adapters, log-in, HTTP, the user interface, forecasts and headroom heuristics, notification senders and cryptography are not part of this model.
