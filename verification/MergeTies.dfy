// Two chained merges come undone exactly when the list puts the later one first. With the same merge time the order
// is that of two random ids, so the undo can go wrong.
module MergeTies {
  import opened Outcomes
  import opened ReconciliationTables
  import opened UpstreamMerge
  import opened MergeRoundTrip
  import opened MergeHistory
  import opened MergeEdits
  import MergedRules
  import MergedLinks

  // A rule moved by both merges: first from one station to `a`, then from `a` to `b`.
  ghost predicate MovedTwice(t0: Tables, first: Step, second: Step, id: string) {
    && id in t0.rules && t0.rules[id].upstream in first.group.mergedIds
    && first.group.retainedId in second.group.mergedIds
  }

  // ----- the other order of the list

  lemma {:induction false} SortedKeeps(a: seq<LogRow>, b: seq<LogRow>, at: int, mergeId: string)
    requires forall x :: x in a ==> x.mergedAt == at && x.mergeId == mergeId
    requires forall y :: y in b ==> !ListedBefore(y.mergedAt, y.mergeId, at, mergeId)
    ensures Sorted(a + b) == a + Sorted(b)
  {
    hide ListedBefore;
    if a == [] {
      assert a + b == b;
    } else {
      var tail := a[1..];
      SortedKeeps(tail, b, at, mergeId);
      NotBeforeItself(at, mergeId);
      assert a[0] in a && (tail != [] ==> tail[0] in a) && (Sorted(b) != [] ==> Sorted(b)[0] in Sorted(b));
      assert (a + b)[1..] == tail + b && (a + b)[0] == a[0];
      assert Insert(a[0], tail + Sorted(b)) == [a[0]] + (tail + Sorted(b));
      assert [a[0]] + (tail + Sorted(b)) == a + Sorted(b);
    }
  }

  lemma NotBeforeItself(at: int, mergeId: string)
    ensures !ListedBefore(at, mergeId, at, mergeId)
  {
    TextNotBeforeItself(mergeId);
  }

  lemma {:induction false} TextTotal(a: string, b: string)
    ensures a != b ==> TextBefore(a, b) || TextBefore(b, a)
    ensures !(TextBefore(a, b) && TextBefore(b, a))
  {
    if a != "" && b != "" {
      TextTotal(a[1..], b[1..]);
      assert a == [a[0]] + a[1..] && b == [b[0]] + b[1..];
    }
  }

  lemma ListedOldestFirst(log: seq<LogRow>, b1: seq<LogRow>, m1: Merge, b2: seq<LogRow>, m2: Merge)
    requires forall r :: r in log ==> r.undoneAt.Some?
    requires Block(b1, m1) && Block(b2, m2) && m1.mergeId != m2.mergeId
    requires !ListedBefore(m2.mergedAt, m2.mergeId, m1.mergedAt, m1.mergeId)
    ensures ListMerges(log + b1 + b2) == [m1, m2]
  {
    hide Pending, Sorted, AddRow, ListedBefore;
    PendingTwo(log, b1, b2);
    SortedBlock(b2, m2.mergedAt, m2.mergeId);
    SortedKeeps(b1, b2, m1.mergedAt, m1.mergeId);
    assert Sorted(b1 + b2) == b1 + b2;
    GroupedFirst(b1, m1, b2);
    GroupedFirst(b2, m2, []);
    assert b2 + [] == b2;
  }

  lemma PendingTwo(log: seq<LogRow>, b1: seq<LogRow>, b2: seq<LogRow>)
    requires forall r :: r in log ==> r.undoneAt.Some?
    requires forall r :: r in b1 ==> r.undoneAt.None?
    requires forall r :: r in b2 ==> r.undoneAt.None?
    ensures Pending(log + b1 + b2) == b1 + b2
  {
    hide Pending;
    PendingNone(log);
    PendingBlock(b1);
    PendingBlock(b2);
    PendingConcat(log, b1);
    PendingConcat(log + b1, b2);
    assert [] + b1 == b1;
  }

  // ----- undoing the older merge first

  // The position of a rule's line in the log of the merge that moved it, and what it says.
  lemma LineOf(t: Tables, step: Step, t': Tables, id: string) returns (k: nat)
    requires Consistent(t) && Merges(t, step, t') && id in t.rules && t.rules[id].upstream in step.group.mergedIds
    ensures |t.log| <= |t'.log|
    ensures var details := Written(t, t', step.group, step.mergeId, step.at).details;
            && k < |details| && details[k].RuleMoved? && details[k].id == id && details[k].upstream == t.rules[id].upstream
            && forall j :: 0 <= j < k && details[j].RuleMoved? ==> details[j].id != id
    ensures id in t'.rules && t'.rules[id].upstream == step.group.retainedId
  {
    hide UniqueRuleKeys, UniqueKeyRows, MergedLinks.Merged, Apply;
    AppliedParts(t, step.group, step.mergeId, step.at, step.order, step.rows, t');
    assert id in step.order;
    var i :| 0 <= i < |step.order| && step.order[i] == id;
    k := |StationDetails(t.docs, step.group)| + i;
    assert id in MergedRules.Elements(step.order);
  }

  lemma OldestFirstLosesTheRule(t0: Tables, first: Step, t1: Tables, second: Step, t2: Tables, id: string, now: int)
    requires Consistent(t0) && Merges(t0, first, t1) && Merges(t1, second, t2) && MovedTwice(t0, first, second, id)
    ensures |t0.log| <= |t1.log| <= |t2.log|
    ensures var m1 := Written(t0, t1, first.group, first.mergeId, first.at);
            var m2 := Written(t1, t2, second.group, second.mergeId, second.at);
            var report := UndoMerges(t2, [m1, m2], now);
            report.error.None? ==> id in report.tables.rules && report.tables.rules[id].upstream == first.group.retainedId
                                   && first.group.retainedId != t0.rules[id].upstream
  {
    hide Consistent, UniqueRuleKeys, UniqueKeyRows, Apply, Recorded, UndoRows;
    MergeKeepsConsistent(t0, first, t1);
    var _ := LineOf(t0, first, t1, id);
    var k := LineOf(t1, second, t2, id);
    RecordedTwice(t0, first, t1, second, t2);
    var m1 := Written(t0, t1, first.group, first.mergeId, first.at);
    var m2 := Written(t1, t2, second.group, second.mergeId, second.at);
    var report := UndoMerges(t2, [m1, m2], now);
    if report.error.None? {
      var s1 := UndoesFirst(t2, m1, [m2], now);
      var s2 := UndoesFirst(s1, m2, [], now);
      assert report.tables == s2;
      UndoLeavesRepointedRules(t2, t2.segments, m1.details, first.group.retainedId, s1.(log := t2.log), id);
      UndoRepoints(s1, t2.segments, m2.details, second.group.retainedId, s2.(log := s1.log), k);
    }
  }

  // A report without error starts with the first merge undone.
  lemma UndoesFirst(t: Tables, m: Merge, rest: seq<Merge>, now: int) returns (t': Tables)
    requires UndoMerges(t, [m] + rest, now).error.None?
    ensures UndoRows(t, m.details, m.retainedId) == Some(t'.(log := t.log)) && t'.segments == t.segments
    ensures UndoMerges(t', rest, now).error.None?
    ensures UndoMerges(t, [m] + rest, now).tables == UndoMerges(t', rest, now).tables
  {
    assert ([m] + rest)[1..] == rest;
    t' := Undo(t, m, now).value;
    UndoKeepsLog(t, m.details, m.retainedId);
  }

  lemma {:induction false} UndoKeepsLog(t: Tables, details: seq<Detail>, retained: string)
    ensures var u := UndoRows(t, details, retained); u.Some? ==> u.value.log == t.log && u.value.segments == t.segments
    decreases |details|
  {
    if details != [] && UndoRow(t, details[0], retained).Some? {
      UndoKeepsLog(UndoRow(t, details[0], retained).value, details[1..], retained);
    }
  }

  lemma MergeKeepsConsistent(t: Tables, step: Step, t': Tables)
    requires Merges(t, step, t') && Consistent(t)
    ensures Consistent(t')
  {
    hide UniqueRuleKeys, UniqueKeyRows;
    AppliedParts(t, step.group, step.mergeId, step.at, step.order, step.rows, t');
  }

  lemma RecordedTwice(t0: Tables, first: Step, t1: Tables, second: Step, t2: Tables)
    requires Consistent(t0) && Merges(t0, first, t1) && Merges(t1, second, t2)
    ensures |t0.log| <= |t1.log| <= |t2.log| && t2.segments == t1.segments == t0.segments
    ensures AllRecorded(t2.segments, Written(t0, t1, first.group, first.mergeId, first.at).details)
    ensures AllRecorded(t2.segments, Written(t1, t2, second.group, second.mergeId, second.at).details)
  {
    MergeKeepsConsistent(t0, first, t1);
    WrittenIsRecorded(t0, first.group, first.mergeId, first.at, first.order, first.rows, t1);
    WrittenIsRecorded(t1, second.group, second.mergeId, second.at, second.order, second.rows, t2);
  }

  // Two chained merges are undone to the start if and only if the list names the later one first.
  lemma ChainUndoneIffNewestFirst(t0: Tables, first: Step, t1: Tables, second: Step, t2: Tables, id: string, now: int)
    requires Consistent(t0) && CleanDocs(t0.docs) && (forall r :: r in t0.log ==> r.undoneAt.Some?)
    requires Merges(t0, first, t1) && Merges(t1, second, t2) && MovedTwice(t0, first, second, id)
    requires first.mergeId != second.mergeId
    ensures var report := UndoMerges(t2, ListMerges(t2.log), now);
            report.error.None? && Back(report.tables, t0)
            <==> ListedBefore(second.at, second.mergeId, first.at, first.mergeId)
  {
    hide Consistent, Apply, Selected, UniqueRuleKeys, UniqueKeyRows, Undo;
    if ListedBefore(second.at, second.mergeId, first.at, first.mergeId) {
      var ts, steps := [t0, t1, t2], [first, second];
      assert Run(ts, steps);
      UndoAll(ts, steps, now);
    } else {
      TextTotal(first.mergeId, second.mergeId);
      OldestFirstLosesTheRule(t0, first, t1, second, t2, id, now);
      LogGrows(t0, first, t1);
      LogGrows(t1, second, t2);
      ListedOldestFirst(t0.log, t1.log[|t0.log|..], Written(t0, t1, first.group, first.mergeId, first.at),
                        t2.log[|t1.log|..], Written(t1, t2, second.group, second.mergeId, second.at));
      assert t2.log == t0.log + t1.log[|t0.log|..] + t2.log[|t1.log|..];
    }
  }

  // ----- an example: two merges in the same millisecond, with the ids the wrong way round

  const EXAMPLE_DOC := Doc(None, None, None)

  // One rule on station a with an open segment and its key row; stations a, b and c.
  function ExampleAt(station: string): Tables {
    Tables(map["r" := Rule(station, 7, "key", Some(KeyText(station, 7)), None)], [Segment("s", "r", None)],
           [KeyRow("s", station, 7, None, None, INITIAL, Some(KeyText(station, 7)))], map[],
           map["a" := EXAMPLE_DOC, "b" := EXAMPLE_DOC, "c" := EXAMPLE_DOC], [])
  }

  function ExampleStep(from: string, to: string, mergeId: string): Step {
    Step(Group(to, [from], ["r"], 0, ["http://" + from]), mergeId, 0, ["r"], [])
  }

  function ExampleLine(from: string, to: string): Detail {
    RuleMoved("r", from, Some(KeyText(from, 7)), Some(Some(KeyText(to, 7))), Some([ExampleKey(from, to)]))
  }

  function ExampleKey(from: string, to: string): MovedKey {
    MovedKey("s", 7, Some(KeyText(from, 7)), Some(KeyText(to, 7)))
  }

  lemma ExampleKeysMove(from: string, to: string)
    ensures var t := ExampleAt(from);
            && RuleDetail(t.segments, t.keys, "r", t.rules["r"], to) == ExampleLine(from, to)
            && MoveKeys(t.keys, [ExampleKey(from, to)], from, to) == Some(ExampleAt(to).keys)
  {
    var t := ExampleAt(from);
    assert t.keys[..0] == [];
    assert Selects(t.segments, t.keys[0], "r", from);
    assert Select(t.segments, [], "r", from) == [];
    assert Select(t.segments, t.keys, "r", from) == [0];
    assert MovedKeys(t.keys, [0], to) == [ExampleKey(from, to)];
    assert MoveKey(t.keys, ExampleKey(from, to), from, to) == ExampleAt(to).keys;
    assert [ExampleKey(from, to)][1..] == [];
  }

  lemma ExampleRuleMoves(from: string, to: string)
    ensures var t, t' := ExampleAt(from), ExampleAt(to);
            MoveRules(t.rules, t.segments, t.keys, ["r"], to) == Success(Moved(t'.rules, t'.keys, [ExampleLine(from, to)]))
  {
    hide MoveKeys, RuleDetail;
    var t, t' := ExampleAt(from), ExampleAt(to);
    ExampleKeysMove(from, to);
    assert t.rules["r" := MovedRule(t.rules["r"], to)] == t'.rules;
    assert MoveRule(t.rules, t.segments, t.keys, "r", to) == Success((t'.rules, t'.keys, ExampleLine(from, to)));
    assert ["r"][1..] == [] && [ExampleLine(from, to)] + [] == [ExampleLine(from, to)];
    assert MoveRules(t'.rules, t.segments, t'.keys, [], to) == Success(Moved(t'.rules, t'.keys, []));
  }

  // One step of the chain, whatever the documents and the log are.
  lemma ExampleMoves(t: Tables, from: string, to: string, mergeId: string) returns (t': Tables)
    requires from != to && t == ExampleAt(from).(docs := t.docs, log := t.log)
    requires Mergeable(t.docs, ExampleStep(from, to, mergeId).group)
    ensures Consistent(t) && Merges(t, ExampleStep(from, to, mergeId), t')
    ensures t' == ExampleAt(to).(docs := PatchedDocs(t.docs, ExampleStep(from, to, mergeId).group, 0), log := t'.log)
    ensures |t'.log| >= |t.log|
    ensures Written(t, t', ExampleStep(from, to, mergeId).group, mergeId, 0).details
            == StationDetails(t.docs, ExampleStep(from, to, mergeId).group) + [ExampleLine(from, to)]
  {
    hide MoveRules, StationDetails, PatchedDocs, LinesAfter;
    var step := ExampleStep(from, to, mergeId);
    ExampleRuleMoves(from, to);
    var details := StationDetails(t.docs, step.group) + [ExampleLine(from, to)];
    assert details + [] == details;
    assert MoveLinks(t.links, PresentLinks(t.links, to), [], to) == Success((t.links, []));
    t' := ExampleAt(to).(docs := PatchedDocs(t.docs, step.group, 0), log := t.log + LogRows(mergeId, 0, to, details));
    LinesWritten(t.log, mergeId, 0, to, details);
  }

  // One undo of the chain: the rule goes back only if it is still at the merge's retained station.
  lemma ExampleUndone(s: Tables, at: string, docs: map<string, Doc>, from: string, to: string) returns (s': Tables)
    requires s == ExampleAt(at).(docs := s.docs, log := s.log)
    requires to in docs && s.docs.Keys == docs.Keys
    ensures var g := ExampleStep(from, to, "").group;
            UndoRows(s, StationDetails(docs, g) + [ExampleLine(from, to)], to) == Some(s')
    ensures s' == ExampleAt(if at == to then from else at).(docs := s'.docs, log := s.log) && s'.docs.Keys == docs.Keys
  {
    hide StationDetails;
    var g := ExampleStep(from, to, "").group;
    StationLinesUndone(Tables(map[], [], [], map[], docs, []), g, s);
    var s1 := s.(docs := AfterStations(s.docs, docs, g));
    UndoConcat(s, StationDetails(docs, g), [ExampleLine(from, to)], to);
    s' := ExampleAt(if at == to then from else at).(docs := s1.docs, log := s.log);
    ExampleRuleBack(at, from, to);
    assert UndoRow(s1, ExampleLine(from, to), to) == Some(s');
    assert [ExampleLine(from, to)][1..] == [];
  }

  lemma ExampleRuleBack(at: string, from: string, to: string)
    ensures var s, s' := ExampleAt(at), ExampleAt(if at == to then from else at);
            UndoRule(s.rules, s.segments, s.keys, ExampleLine(from, to), to) == Some((s'.rules, s'.keys))
  {
    var s, s' := ExampleAt(at), ExampleAt(if at == to then from else at);
    if at == to {
      assert RestoreKey(s.keys, ExampleKey(from, to), to, from) == s'.keys;
      assert [ExampleKey(from, to)][1..] == [];
      assert RestoreKeys(s.keys, [ExampleKey(from, to)], to, from) == Some(s'.keys);
      assert s.rules["r" := RestoredRule(s.rules["r"], ExampleLine(from, to))] == s'.rules;
    }
  }

  lemma ExampleUndo(s: Tables, docs: map<string, Doc>, from: string, to: string, m: Merge, now: int) returns (s': Tables)
    requires s == ExampleAt("c").(docs := s.docs, log := s.log)
    requires from in docs && to in docs && s.docs.Keys == docs.Keys && m.retainedId == to
    requires m.details == StationDetails(docs, ExampleStep(from, to, "").group) + [ExampleLine(from, to)]
    ensures Undo(s, m, now) == Success(s') && s'.docs.Keys == docs.Keys
    ensures s' == ExampleAt(if to == "c" then from else "c").(docs := s'.docs, log := s'.log)
  {
    hide UndoRows;
    forall id | id in MergedIds(m.details) ensures id == from {
      assert StationMerged(id) in m.details;
    }
    s' := ExampleUndone(s, "c", docs, from, to);
    s' := s'.(log := MarkUndone(s.log, m.mergeId, now));
  }

  lemma ExampleList(t0: Tables, first: Step, t1: Tables, second: Step, t2: Tables)
    requires Merges(t0, first, t1) && Merges(t1, second, t2) && t0.log == []
    requires first.at == second.at && first.mergeId == "A" && second.mergeId == "B"
    ensures !ListedBefore(second.at, second.mergeId, first.at, first.mergeId)
    ensures |t0.log| <= |t1.log| <= |t2.log|
    ensures ListMerges(t2.log) == [Written(t0, t1, first.group, first.mergeId, first.at),
                                   Written(t1, t2, second.group, second.mergeId, second.at)]
  {
    hide Apply, Selected;
    LogGrows(t0, first, t1);
    LogGrows(t1, second, t2);
    ListedOldestFirst(t0.log, t1.log[|t0.log|..], Written(t0, t1, first.group, first.mergeId, first.at),
                      t2.log[|t1.log|..], Written(t1, t2, second.group, second.mergeId, second.at));
    assert t2.log == t0.log + t1.log[|t0.log|..] + t2.log[|t1.log|..];
  }

  lemma ExampleReport(t: Tables, docs0: map<string, Doc>, docs1: map<string, Doc>, m1: Merge, m2: Merge, now: int)
    requires t == ExampleAt("c").(docs := t.docs, log := t.log)
    requires t.docs.Keys == docs0.Keys == docs1.Keys == {"a", "b", "c"}
    requires m1.mergeId == "A" && m1.retainedId == "b" && m2.mergeId == "B" && m2.retainedId == "c"
    requires m1.details == StationDetails(docs0, ExampleStep("a", "b", "").group) + [ExampleLine("a", "b")]
    requires m2.details == StationDetails(docs1, ExampleStep("b", "c", "").group) + [ExampleLine("b", "c")]
    ensures var report := UndoMerges(t, [m1, m2], now);
            && report.error.None? && report.applied == ["A", "B"]
            && "r" in report.tables.rules && report.tables.rules["r"].upstream == "b"
  {
    hide Undo, StationDetails;
    var s1 := ExampleUndo(t, docs0, "a", "b", m1, now);
    var s2 := ExampleUndo(s1, docs1, "b", "c", m2, now);
    assert UndoMerges(s2, [], now) == Report(s2, [], None);
    assert [m2][1..] == [] && UndoMerges(s1, [m2], now) == Report(s2, ["B"], None);
    assert [m1, m2][1..] == [m2];
  }

  // Everything ChainUndoneIffNewestFirst asks for holds here, no undo fails, and the rule ends at b instead of a.
  lemma TieGoesWrong(now: int) returns (t1: Tables, t2: Tables)
    ensures var t0, first, second := ExampleAt("a"), ExampleStep("a", "b", "A"), ExampleStep("b", "c", "B");
            && Consistent(t0) && CleanDocs(t0.docs) && t0.log == []
            && Merges(t0, first, t1) && Merges(t1, second, t2)
            && MovedTwice(t0, first, second, "r") && first.at == second.at
            && !ListedBefore(second.at, second.mergeId, first.at, first.mergeId)
            && var report := UndoMerges(t2, ListMerges(t2.log), now);
               && report.error.None? && report.applied == ["A", "B"]
               && "r" in report.tables.rules && report.tables.rules["r"].upstream == "b"
  {
    hide Apply, Selected, Consistent, Undo, StationDetails, ListMerges;
    var t0, first, second := ExampleAt("a"), ExampleStep("a", "b", "A"), ExampleStep("b", "c", "B");
    t1 := ExampleMoves(t0, "a", "b", "A");
    t2 := ExampleMoves(t1, "b", "c", "B");
    ExampleList(t0, first, t1, second, t2);
    ExampleReport(t2, t0.docs, t1.docs, Written(t0, t1, first.group, "A", 0), Written(t1, t2, second.group, "B", 0), now);
  }
}
