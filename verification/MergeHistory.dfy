// Listing the merges that are not undone yet, and undoing them newest first (db/k-unmerge.js).
module MergeHistory {
  import opened Outcomes
  import opened ReconciliationTables
  import opened UpstreamMerge
  import opened MergeRoundTrip

  // ----- listMerges: ORDER BY merged_at_ms DESC, merge_id, id, then grouped by merge

  predicate TextBefore(a: string, b: string) {
    if b == "" then false
    else if a == "" then true
    else a[0] < b[0] || (a[0] == b[0] && TextBefore(a[1..], b[1..]))
  }

  // Does a merge at this time and with this id come before the other in the list?
  predicate ListedBefore(at: int, mergeId: string, at': int, mergeId': string) {
    at > at' || (at == at' && TextBefore(mergeId, mergeId'))
  }

  // Insertion keeps rows with equal sort keys in log order.
  function Insert(row: LogRow, rows: seq<LogRow>): (out: seq<LogRow>)
    ensures forall r :: r in out <==> r == row || r in rows
  {
    if rows == [] || !ListedBefore(rows[0].mergedAt, rows[0].mergeId, row.mergedAt, row.mergeId) then [row] + rows
    else [rows[0]] + Insert(row, rows[1..])
  }

  function Sorted(rows: seq<LogRow>): (out: seq<LogRow>)
    ensures forall r :: r in out <==> r in rows
  {
    if rows == [] then [] else Insert(rows[0], Sorted(rows[1..]))
  }

  function Pending(log: seq<LogRow>): (out: seq<LogRow>)
    ensures forall r :: r in out <==> r in log && r.undoneAt.None?
  {
    if log == [] then []
    else if log[0].undoneAt.None? then [log[0]] + Pending(log[1..])
    else Pending(log[1..])
  }

  // The merge a row belongs to gets one more line; a new merge is listed last.
  function AddRow(merges: seq<Merge>, row: LogRow): (out: seq<Merge>) {
    if merges == [] then [Merge(row.mergeId, row.mergedAt, row.retainedId, [row.detail])]
    else if merges[0].mergeId == row.mergeId then [merges[0].(details := merges[0].details + [row.detail])] + merges[1..]
    else [merges[0]] + AddRow(merges[1..], row)
  }

  function Grouped(merges: seq<Merge>, rows: seq<LogRow>): seq<Merge>
    decreases |rows|
  {
    if rows == [] then merges else Grouped(AddRow(merges, rows[0]), rows[1..])
  }

  function ListMerges(log: seq<LogRow>): seq<Merge> {
    Grouped([], Sorted(Pending(log)))
  }

  // ----- undoMerges: one transaction each, in list order; an error keeps what is already undone

  datatype Report = Report(tables: Tables, applied: seq<string>, error: Option<Error>)

  function UndoMerges(t: Tables, merges: seq<Merge>, now: int): Report
    decreases |merges|
  {
    if merges == [] then Report(t, [], None)
    else
      match Undo(t, merges[0], now)
      case Failure(e) => Report(t, [], Some(e))
      case Success(t') =>
        var rest := UndoMerges(t', merges[1..], now);
        rest.(applied := [merges[0].mergeId] + rest.applied)
  }

  // ----- a run of merges

  datatype Step = Step(group: Group, mergeId: string, at: int, order: seq<string>, rows: seq<LinkRow>)

  // ts[i] is merged into ts[i + 1]; a later merge is always listed before an earlier one.
  ghost predicate Run(ts: seq<Tables>, steps: seq<Step>) {
    && |ts| == |steps| + 1
    && Consistent(ts[0]) && CleanDocs(ts[0].docs)
    && (forall r :: r in ts[0].log ==> r.undoneAt.Some?)
    && (forall i :: 0 <= i < |steps| ==> Merges(ts[i], steps[i], ts[i + 1]))
    && (forall i, j :: 0 <= i < j < |steps| ==>
          steps[i].mergeId != steps[j].mergeId && ListedBefore(steps[j].at, steps[j].mergeId, steps[i].at, steps[i].mergeId))
  }

  ghost predicate Merges(t: Tables, step: Step, t': Tables) {
    && Selected(t, step.group, step.order, step.rows)
    && step.group.retainedId !in step.group.mergedIds
    && Apply(t, step.group, step.mergeId, step.at, step.order, step.rows) == Success(t')
  }

  // The merges of a run, newest first.
  ghost function NewestFirst(ts: seq<Tables>, steps: seq<Step>): (out: seq<Merge>)
    requires Run(ts, steps)
    ensures |out| == |steps|
  {
    if steps == [] then []
    else
      var n := |steps| - 1;
      assert Merges(ts[n], steps[n], ts[n + 1]);
      [Written(ts[n], ts[n + 1], steps[n].group, steps[n].mergeId, steps[n].at)] + NewestFirst(ts[..n + 1], steps[..n])
  }

  // ----- the list

  // A log block of one merge.
  ghost predicate Block(rows: seq<LogRow>, m: Merge) {
    && rows != [] && |rows| == |m.details|
    && forall i :: 0 <= i < |rows| ==> rows[i] == LogRow(m.mergeId, m.mergedAt, m.retainedId, m.details[i], None)
  }

  lemma {:induction false} PendingConcat(a: seq<LogRow>, b: seq<LogRow>)
    ensures Pending(a + b) == Pending(a) + Pending(b)
  {
    if a == [] {
      assert a + b == b;
    } else {
      assert (a + b)[1..] == a[1..] + b;
      PendingConcat(a[1..], b);
    }
  }

  lemma {:induction false} PendingBlock(rows: seq<LogRow>)
    requires forall i :: 0 <= i < |rows| ==> rows[i].undoneAt.None?
    ensures Pending(rows) == rows
  {
    if rows != [] { PendingBlock(rows[1..]); }
  }

  ghost predicate AllBefore(rows: seq<LogRow>, later: seq<LogRow>) {
    forall a, b :: a in rows && b in later ==> ListedBefore(a.mergedAt, a.mergeId, b.mergedAt, b.mergeId)
  }

  lemma {:induction false} InsertSkips(row: LogRow, block: seq<LogRow>, rest: seq<LogRow>)
    requires forall b :: b in block ==> ListedBefore(b.mergedAt, b.mergeId, row.mergedAt, row.mergeId)
    ensures Insert(row, block + rest) == block + Insert(row, rest)
  {
    if block == [] {
      assert block + rest == rest;
    } else {
      assert block[0] in block && (block + rest)[1..] == block[1..] + rest;
      InsertSkips(row, block[1..], rest);
    }
  }

  lemma {:induction false} SortedConcat(past: seq<LogRow>, block: seq<LogRow>)
    requires AllBefore(block, past) && Sorted(block) == block
    ensures Sorted(past + block) == block + Sorted(past)
  {
    if past == [] {
      assert past + block == block;
    } else {
      assert (past + block)[1..] == past[1..] + block;
      SortedConcat(past[1..], block);
      assert past[0] in past;
      InsertSkips(past[0], block, Sorted(past[1..]));
    }
  }

  lemma {:induction false} TextNotBeforeItself(a: string)
    ensures !TextBefore(a, a)
  {
    if a != "" { TextNotBeforeItself(a[1..]); }
  }

  lemma {:induction false} SortedBlock(rows: seq<LogRow>, at: int, mergeId: string)
    requires forall r :: r in rows ==> r.mergedAt == at && r.mergeId == mergeId
    ensures Sorted(rows) == rows
  {
    if rows != [] {
      SortedBlock(rows[1..], at, mergeId);
      TextNotBeforeItself(mergeId);
    }
  }

  // Rows of other merges leave a finished merge alone.
  lemma {:induction false} GroupedRest(m: Merge, merges: seq<Merge>, rows: seq<LogRow>)
    requires forall r :: r in rows ==> r.mergeId != m.mergeId
    ensures Grouped([m] + merges, rows) == [m] + Grouped(merges, rows)
    decreases |rows|
  {
    if rows != [] {
      assert rows[0] in rows;
      assert AddRow([m] + merges, rows[0]) == [m] + AddRow(merges, rows[0]) by { assert ([m] + merges)[1..] == merges; }
      GroupedRest(m, AddRow(merges, rows[0]), rows[1..]);
    }
  }

  lemma {:induction false} GroupedBlock(m: Merge, rows: seq<LogRow>, rest: seq<LogRow>)
    requires forall r :: r in rows ==> r.mergeId == m.mergeId
    ensures Grouped([m], rows + rest) == Grouped([m.(details := m.details + Lines(rows))], rest)
    decreases |rows|
  {
    if rows == [] {
      assert rows + rest == rest && m.details + Lines(rows) == m.details;
    } else {
      assert rows[0] in rows && (rows + rest)[1..] == rows[1..] + rest;
      var m' := m.(details := m.details + [rows[0].detail]);
      assert AddRow([m], rows[0]) == [m'];
      GroupedBlock(m', rows[1..], rest);
      assert m'.details + Lines(rows[1..]) == m.details + Lines(rows);
    }
  }

  function Lines(rows: seq<LogRow>): (out: seq<Detail>)
    ensures |out| == |rows|
  {
    seq(|rows|, i requires 0 <= i < |rows| => rows[i].detail)
  }

  // A newer merge is listed in front of the older ones.
  lemma ListedFirst(log: seq<LogRow>, block: seq<LogRow>, m: Merge)
    requires Block(block, m)
    requires forall r :: r in log && r.undoneAt.None? ==> r.mergeId != m.mergeId && ListedBefore(m.mergedAt, m.mergeId, r.mergedAt, r.mergeId)
    ensures ListMerges(log + block) == [m] + ListMerges(log)
  {
    SortedFirst(log, block, m);
    GroupedFirst(block, m, Sorted(Pending(log)));
  }

  lemma SortedFirst(log: seq<LogRow>, block: seq<LogRow>, m: Merge)
    requires Block(block, m)
    requires forall r :: r in log && r.undoneAt.None? ==> ListedBefore(m.mergedAt, m.mergeId, r.mergedAt, r.mergeId)
    ensures Sorted(Pending(log + block)) == block + Sorted(Pending(log))
  {
    PendingConcat(log, block);
    PendingBlock(block);
    SortedBlock(block, m.mergedAt, m.mergeId);
    SortedConcat(Pending(log), block);
  }

  lemma GroupedFirst(block: seq<LogRow>, m: Merge, rest: seq<LogRow>)
    requires Block(block, m)
    requires forall r :: r in rest ==> r.mergeId != m.mergeId
    ensures Grouped([], block + rest) == [m] + Grouped([], rest)
  {
    var first := m.(details := [m.details[0]]);
    assert AddRow([], block[0]) == [first];
    assert (block + rest)[1..] == block[1..] + rest;
    GroupedBlock(first, block[1..], rest);
    assert first.details + Lines(block[1..]) == m.details;
    assert [m] == [m] + [];
    GroupedRest(m, [], rest);
  }

  // What a merge adds to the log.
  lemma LogGrows(t: Tables, step: Step, t': Tables)
    requires Merges(t, step, t')
    ensures |t.log| <= |t'.log| && t'.log == t.log + t'.log[|t.log|..]
    ensures Block(t'.log[|t.log|..], Written(t, t', step.group, step.mergeId, step.at))
  {
  }

  lemma {:induction false} PendingOfRun(ts: seq<Tables>, steps: seq<Step>, r: LogRow)
    requires Run(ts, steps) && r in ts[|steps|].log && r.undoneAt.None?
    ensures exists i :: 0 <= i < |steps| && r.mergeId == steps[i].mergeId && r.mergedAt == steps[i].at
    decreases |steps|
  {
    if steps != [] {
      var n := |steps| - 1;
      assert Merges(ts[n], steps[n], ts[n + 1]);
      LogGrows(ts[n], steps[n], ts[n + 1]);
      if r in ts[n].log {
        RunPrefix(ts, steps);
        PendingOfRun(ts[..n + 1], steps[..n], r);
        var i :| 0 <= i < n && r.mergeId == steps[..n][i].mergeId && r.mergedAt == steps[..n][i].at;
        assert steps[i] == steps[..n][i];
      }
    }
  }

  lemma RunPrefix(ts: seq<Tables>, steps: seq<Step>)
    requires Run(ts, steps) && steps != []
    ensures Run(ts[..|steps|], steps[..|steps| - 1])
  {
    var n := |steps| - 1;
    forall i | 0 <= i < n ensures Merges(ts[..n + 1][i], steps[..n][i], ts[..n + 1][i + 1]) {
      assert Merges(ts[i], steps[i], ts[i + 1]);
    }
  }

  // Everything a run merged and nothing else is listed, newest first.
  lemma {:induction false} RunIsListed(ts: seq<Tables>, steps: seq<Step>)
    requires Run(ts, steps)
    ensures ListMerges(ts[|steps|].log) == NewestFirst(ts, steps)
    decreases |steps|
  {
    hide Selected, Apply, Consistent, CleanDocs, Pending, Sorted, AddRow;
    if steps == [] {
      PendingNone(ts[0].log);
      assert Sorted([]) == [] by { SortedBlock([], 0, ""); }
    } else {
      var n := |steps| - 1;
      var t, t' := ts[n], ts[n + 1];
      assert Merges(t, steps[n], t');
      LogGrows(t, steps[n], t');
      RunPrefix(ts, steps);
      forall r | r in t.log && r.undoneAt.None?
        ensures r.mergeId != steps[n].mergeId && ListedBefore(steps[n].at, steps[n].mergeId, r.mergedAt, r.mergeId)
      {
        PendingOfRun(ts[..n + 1], steps[..n], r);
        var i :| 0 <= i < n && r.mergeId == steps[..n][i].mergeId && r.mergedAt == steps[..n][i].at;
        assert steps[i] == steps[..n][i];
      }
      ListedFirst(t.log, t'.log[|t.log|..], Written(t, t', steps[n].group, steps[n].mergeId, steps[n].at));
      RunIsListed(ts[..n + 1], steps[..n]);
      assert ts[..n + 1][n] == t;
    }
  }

  lemma {:induction false} PendingNone(log: seq<LogRow>)
    requires forall r :: r in log ==> r.undoneAt.Some?
    ensures Pending(log) == []
  {
    if log != [] { PendingNone(log[1..]); }
  }

  // ----- undoing a run

  lemma {:induction false} RunStaysConsistent(ts: seq<Tables>, steps: seq<Step>)
    requires Run(ts, steps)
    ensures Consistent(ts[|steps|]) && CleanDocs(ts[|steps|].docs)
    decreases |steps|
  {
    if steps != [] {
      var n := |steps| - 1;
      RunPrefix(ts, steps);
      RunStaysConsistent(ts[..n + 1], steps[..n]);
      assert ts[..n + 1][n] == ts[n] && Merges(ts[n], steps[n], ts[n + 1]);
      MergeStaysConsistent(ts[n], steps[n], ts[n + 1]);
    }
  }

  lemma MergeStaysConsistent(t: Tables, step: Step, t': Tables)
    requires Merges(t, step, t') && Consistent(t) && CleanDocs(t.docs)
    ensures Consistent(t') && CleanDocs(t'.docs)
  {
    hide UniqueRuleKeys, UniqueKeyRows;
    AppliedParts(t, step.group, step.mergeId, step.at, step.order, step.rows, t');
  }

  // Each merge of the run kept the aliases its retained station had.
  ghost predicate RunKeepsAliases(ts: seq<Tables>, steps: seq<Step>) {
    |ts| == |steps| + 1 && forall i :: 0 <= i < |steps| ==> KeepsAliases(ts[i].docs, steps[i].group)
  }

  // Undoing everything that is listed, from the state the run ended in, brings back the state before its first merge,
  // aliases included when every merge kept them; no transaction fails, and they happen newest first.
  lemma UndoAll(ts: seq<Tables>, steps: seq<Step>, now: int)
    requires Run(ts, steps)
    ensures var last := ts[|steps|];
            var report := UndoMerges(last, ListMerges(last.log), now);
            && report.error.None? && Back(report.tables, ts[0])
            && (RunKeepsAliases(ts, steps) ==> SameAliases(report.tables.docs, ts[0].docs))
            && |report.applied| == |steps|
            && forall i :: 0 <= i < |steps| ==> report.applied[i] == steps[|steps| - 1 - i].mergeId
  {
    RunIsListed(ts, steps);
    UndoNewestFirst(ts, steps, ts[|steps|], now, RunKeepsAliases(ts, steps));
  }

  lemma {:induction false} UndoNewestFirst(ts: seq<Tables>, steps: seq<Step>, s: Tables, now: int, aliases: bool)
    requires Run(ts, steps) && Back(s, ts[|steps|])
    requires aliases ==> RunKeepsAliases(ts, steps) && SameAliases(s.docs, ts[|steps|].docs)
    ensures var report := UndoMerges(s, NewestFirst(ts, steps), now);
            && report.error.None? && Back(report.tables, ts[0])
            && (aliases ==> SameAliases(report.tables.docs, ts[0].docs))
            && |report.applied| == |steps|
            && forall i :: 0 <= i < |steps| ==> report.applied[i] == steps[|steps| - 1 - i].mergeId
    decreases |steps|
  {
    hide Consistent, CleanDocs, Undo, Back, SameAliases, KeepsAliases, Selected, Apply;
    if steps != [] {
      var n := |steps| - 1;
      RunPrefix(ts, steps);
      RunStaysConsistent(ts[..n + 1], steps[..n]);
      assert ts[..n + 1][n] == ts[n] && Merges(ts[n], steps[n], ts[n + 1]);
      var merge := UndoLatest(ts[n], steps[n], ts[n + 1], s, now);
      var s' := Undo(s, merge, now).value;
      assert NewestFirst(ts, steps) == [merge] + NewestFirst(ts[..n + 1], steps[..n]);
      UndoNewestFirst(ts[..n + 1], steps[..n], s', now, aliases);
    }
  }

  lemma UndoLatest(t: Tables, step: Step, t': Tables, s: Tables, now: int) returns (merge: Merge)
    requires Consistent(t) && CleanDocs(t.docs) && Merges(t, step, t') && Back(s, t')
    ensures |t.log| <= |t'.log| && merge == Written(t, t', step.group, step.mergeId, step.at)
    ensures Undo(s, merge, now).Success? && Back(Undo(s, merge, now).value, t)
    ensures SameAliases(s.docs, t'.docs) && KeepsAliases(t.docs, step.group)
            ==> SameAliases(Undo(s, merge, now).value.docs, t.docs)
  {
    MergeThenUndo(t, step.group, step.mergeId, step.at, step.order, step.rows, t', s, now);
    merge := Written(t, t', step.group, step.mergeId, step.at);
  }
}
