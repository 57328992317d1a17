// What undoing a merge leaves alone when rules and key rows were edited after the merge.
module MergeEdits {
  import opened Outcomes
  import opened ReconciliationTables
  import opened UpstreamMerge
  import MergeRoundTrip
  import MergedRules
  import MergedLinks

  // Every rule line records its key rows, and they are rows of that rule's segments: what applyMergeRows writes.
  ghost predicate Recorded(segments: seq<Segment>, d: Detail) {
    d.RuleMoved? ==>
      && d.newActiveKey.Some? && d.segmentKeys.Some?
      && forall k :: 0 <= k < |d.segmentKeys.value| ==> SegmentOf(segments, d.segmentKeys.value[k].segmentId, d.id)
  }

  predicate SegmentOf(segments: seq<Segment>, segmentId: string, ruleId: string) {
    var s := FindSegment(segments, segmentId);
    s.Some? && s.value.ruleId == ruleId
  }

  ghost predicate AllRecorded(segments: seq<Segment>, details: seq<Detail>) {
    forall k :: 0 <= k < |details| ==> Recorded(segments, details[k])
  }

  // At the time of the merge the row's segment was this rule's or did not exist yet.
  predicate NotOfAnother(segments: seq<Segment>, row: KeyRow, id: string) {
    var s := FindSegment(segments, row.segmentId);
    s.None? || s.value.ruleId == id
  }

  // No segment was deleted or given to another rule; new ones may have been opened and any of them closed.
  ghost predicate SegmentsKept(before: seq<Segment>, after: seq<Segment>) {
    forall segmentId, ruleId :: SegmentOf(before, segmentId, ruleId) ==> SegmentOf(after, segmentId, ruleId)
  }

  // The merge wrote something else into this rule's active key than it holds now.
  ghost predicate RuleKeyChanged(t: Tables, details: seq<Detail>, id: string) {
    id in t.rules && forall k :: 0 <= k < |details| && details[k].RuleMoved? && details[k].id == id
                                 ==> details[k].newActiveKey != Some(t.rules[id].activeKey)
  }

  // The merge wrote something else into this key row's active key than it holds now.
  ghost predicate RowKeyChangedIn(row: KeyRow, moved: seq<MovedKey>) {
    forall k :: 0 <= k < |moved| && moved[k].segmentId == row.segmentId && moved[k].tokenId == row.tokenId
                ==> moved[k].after != row.activeKey
  }

  ghost predicate RowKeyChanged(row: KeyRow, details: seq<Detail>) {
    forall k :: 0 <= k < |details| && details[k].RuleMoved? && details[k].segmentKeys.Some?
                ==> RowKeyChangedIn(row, details[k].segmentKeys.value)
  }

  // ----- key rows

  lemma {:induction false} OtherRowsStay(keys: seq<KeyRow>, moved: seq<MovedKey>, from: string, to: string, i: nat)
    requires RestoreKeys(keys, moved, from, to).Some? && i < |keys|
    requires forall k :: 0 <= k < |moved| ==> moved[k].segmentId != keys[i].segmentId
    ensures RestoreKeys(keys, moved, from, to).value[i] == keys[i]
    decreases |moved|
  {
    if moved != [] {
      OtherRowsStay(RestoreKey(keys, moved[0], from, to), moved[1..], from, to, i);
    }
  }

  // A row keeps its segment, token, name, mask and source, and any active key the merge did not write.
  lemma {:induction false} RowKeepsItsKey(keys: seq<KeyRow>, moved: seq<MovedKey>, from: string, to: string, i: nat)
    requires RestoreKeys(keys, moved, from, to).Some? && i < |keys|
    ensures var row := RestoreKeys(keys, moved, from, to).value[i];
            && row == keys[i].(upstream := row.upstream, activeKey := row.activeKey)
            && (RowKeyChangedIn(keys[i], moved) ==> row.activeKey == keys[i].activeKey)
    decreases |moved|
  {
    if moved != [] {
      RowKeepsItsKey(RestoreKey(keys, moved[0], from, to), moved[1..], from, to, i);
    }
  }

  // ----- rules that no longer point at the retained station

  // `segments` is the table of segments at the time of the merge.
  lemma {:induction false} UndoLeavesRepointedRules(t: Tables, segments: seq<Segment>, details: seq<Detail>, retained: string,
                                                    t': Tables, id: string)
    requires UndoRows(t, details, retained) == Some(t') && AllRecorded(segments, details)
    requires id in t.rules && t.rules[id].upstream != retained
    ensures id in t'.rules && t'.rules[id] == t.rules[id]
    ensures t'.segments == t.segments && |t'.keys| == |t.keys|
    ensures forall i :: 0 <= i < |t.keys| && NotOfAnother(segments, t.keys[i], id) ==> t'.keys[i] == t.keys[i]
    decreases |details|
  {
    hide UniqueRuleKeys, UniqueKeyRows;
    if details != [] {
      var d := details[0];
      var t1 := UndoRow(t, d, retained).value;
      assert Recorded(segments, d);
      if d.RuleMoved? {
        forall i | 0 <= i < |t.keys| && NotOfAnother(segments, t.keys[i], id) ensures t1.keys[i] == t.keys[i] {
          if StillRetained(t.rules, d.id, retained) {
            OtherRowsStay(t.keys, d.segmentKeys.value, retained, d.upstream, i);
          }
        }
      }
      assert AllRecorded(segments, details[1..]);
      UndoLeavesRepointedRules(t1, segments, details[1..], retained, t', id);
    }
  }

  // ----- active keys that changed since

  lemma {:induction false} UndoKeepsChangedKeys(t: Tables, segments: seq<Segment>, details: seq<Detail>, retained: string,
                                                t': Tables)
    requires UndoRows(t, details, retained) == Some(t') && AllRecorded(segments, details)
    ensures t'.rules.Keys == t.rules.Keys && t'.segments == t.segments && |t'.keys| == |t.keys|
    ensures forall id :: RuleKeyChanged(t, details, id) ==> t'.rules[id].activeKey == t.rules[id].activeKey
    ensures forall i :: 0 <= i < |t.keys| && RowKeyChanged(t.keys[i], details) ==> t'.keys[i].activeKey == t.keys[i].activeKey
    decreases |details|
  {
    hide UniqueRuleKeys, UniqueKeyRows;
    if details != [] {
      var d, rest := details[0], details[1..];
      var t1 := UndoRow(t, d, retained).value;
      assert Recorded(segments, d) && AllRecorded(segments, rest);
      forall i | 0 <= i < |t.keys| && RowKeyChanged(t.keys[i], details)
        ensures i < |t1.keys| && t1.keys[i].activeKey == t.keys[i].activeKey && RowKeyChanged(t1.keys[i], rest)
      {
        RowStepKeeps(t, segments, d, rest, retained, t1, i);
      }
      forall id | RuleKeyChanged(t, details, id)
        ensures id in t1.rules && t1.rules[id].activeKey == t.rules[id].activeKey && RuleKeyChanged(t1, rest, id)
      {
        assert d.RuleMoved? && d.id == id ==> d.newActiveKey != Some(t.rules[id].activeKey);
        assert forall k :: 0 <= k < |rest| ==> rest[k] == details[k + 1];
      }
      UndoKeepsChangedKeys(t1, segments, rest, retained, t');
    }
  }

  lemma RowStepKeeps(t: Tables, segments: seq<Segment>, d: Detail, rest: seq<Detail>, retained: string, t1: Tables, i: nat)
    requires UndoRow(t, d, retained) == Some(t1) && Recorded(segments, d)
    requires i < |t.keys| && RowKeyChanged(t.keys[i], [d] + rest)
    ensures i < |t1.keys| && t1.keys[i].activeKey == t.keys[i].activeKey && RowKeyChanged(t1.keys[i], rest)
  {
    hide UniqueRuleKeys, UniqueKeyRows;
    var all := [d] + rest;
    assert all[0] == d && forall k :: 0 <= k < |rest| ==> rest[k] == all[k + 1];
    if d.RuleMoved? && StillRetained(t.rules, d.id, retained) {
      RowKeepsItsKey(t.keys, d.segmentKeys.value, retained, d.upstream, i);
    }
    forall k | 0 <= k < |rest| && rest[k].RuleMoved? && rest[k].segmentKeys.Some?
      ensures RowKeyChangedIn(t1.keys[i], rest[k].segmentKeys.value)
    {
      assert RowKeyChangedIn(t.keys[i], all[k + 1].segmentKeys.value);
    }
  }

  // ----- where a rule that still points at the retained station goes back to

  // The first line about the rule decides.
  lemma {:induction false} UndoRepoints(t: Tables, segments: seq<Segment>, details: seq<Detail>, retained: string, t': Tables,
                                        k: nat)
    requires UndoRows(t, details, retained) == Some(t') && AllRecorded(segments, details)
    requires k < |details| && details[k].RuleMoved? && details[k].upstream != retained
    requires forall j :: 0 <= j < k && details[j].RuleMoved? ==> details[j].id != details[k].id
    requires details[k].id in t.rules && t.rules[details[k].id].upstream == retained
    ensures details[k].id in t'.rules && t'.rules[details[k].id].upstream == details[k].upstream
    decreases |details|
  {
    hide UniqueRuleKeys, UniqueKeyRows;
    var t1 := UndoRow(t, details[0], retained).value;
    assert Recorded(segments, details[0]) && AllRecorded(segments, details[1..]);
    if k == 0 {
      UndoLeavesRepointedRules(t1, segments, details[1..], retained, t', details[0].id);
    } else {
      UndoRepoints(t1, segments, details[1..], retained, t', k - 1);
    }
  }

  // ----- the log a merge writes records its key rows

  lemma WrittenIsRecorded(t: Tables, g: Group, mergeId: string, now: int, order: seq<string>, rows: seq<LinkRow>, t': Tables)
    requires MergeRoundTrip.Consistent(t) && Selected(t, g, order, rows) && g.retainedId !in g.mergedIds
    requires Apply(t, g, mergeId, now, order, rows) == Success(t')
    ensures |t.log| <= |t'.log| && t'.segments == t.segments
    ensures AllRecorded(t.segments, MergeRoundTrip.Written(t, t', g, mergeId, now).details)
  {
    hide UniqueRuleKeys, UniqueKeyRows, MergedLinks.Merged, MergedRules.Reached, Apply;
    MergeRoundTrip.AppliedParts(t, g, mergeId, now, order, rows, t');
    forall id | id in t.rules ensures Recorded(t.segments, RuleDetail(t.segments, t.keys, id, t.rules[id], g.retainedId)) {
      RuleLineIsRecorded(t.segments, t.keys, id, t.rules[id], g.retainedId);
    }
  }

  lemma RuleLineIsRecorded(segments: seq<Segment>, keys: seq<KeyRow>, id: string, rule: Rule, retained: string)
    ensures Recorded(segments, RuleDetail(segments, keys, id, rule, retained))
  {
    var at := Select(segments, keys, id, rule.upstream);
    forall k | 0 <= k < |at| ensures SegmentOf(segments, MovedKeys(keys, at, retained)[k].segmentId, id) {
      assert at[k] in at;
    }
  }

  // A row of one of the rule's segments now was not another rule's at the time of the merge.
  lemma RowsOfTheRule(before: seq<Segment>, after: seq<Segment>, row: KeyRow, id: string)
    requires SegmentsKept(before, after) && OfRule(after, row, id)
    ensures NotOfAnother(before, row, id)
  {
    var s := FindSegment(before, row.segmentId);
    if s.Some? {
      assert SegmentOf(before, row.segmentId, s.value.ruleId);
    }
  }

  // A rule no longer at the retained station keeps everything, and so do the key rows that were not another rule's at the
  // time of the merge. As the program neither deletes a segment nor gives it to another rule, these are all rows of the
  // rule's segments, whenever they were opened.
  ghost predicate RepointedStays(edited: Tables, undone: Tables, segments: seq<Segment>, id: string) {
    && id in edited.rules && id in undone.rules && undone.rules[id] == edited.rules[id]
    && |undone.keys| == |edited.keys|
    && (forall i :: 0 <= i < |edited.keys| && NotOfAnother(segments, edited.keys[i], id) ==> undone.keys[i] == edited.keys[i])
    && (SegmentsKept(segments, edited.segments) ==> RowsStay(edited, undone, id))
  }

  ghost predicate RowsStay(edited: Tables, undone: Tables, id: string)
    requires |undone.keys| == |edited.keys|
  {
    forall i :: 0 <= i < |edited.keys| && OfRule(edited.segments, edited.keys[i], id) ==> undone.keys[i] == edited.keys[i]
  }

  // Undoing a merge after any edits at all, of segments too: whatever was edited since is respected.
  lemma UndoRespectsEdits(t: Tables, g: Group, mergeId: string, at: int, order: seq<string>, rows: seq<LinkRow>, t': Tables,
                          edited: Tables, now: int)
    requires MergeRoundTrip.Consistent(t) && Selected(t, g, order, rows) && g.retainedId !in g.mergedIds
    requires Apply(t, g, mergeId, at, order, rows) == Success(t')
    ensures |t.log| <= |t'.log|
    ensures var merge := MergeRoundTrip.Written(t, t', g, mergeId, at);
            var undone := Undo(edited, merge, now);
            undone.Success? ==>
              && undone.value.rules.Keys == edited.rules.Keys && |undone.value.keys| == |edited.keys|
              && undone.value.segments == edited.segments
              && (forall id :: id in edited.rules && edited.rules[id].upstream != g.retainedId
                               ==> RepointedStays(edited, undone.value, t'.segments, id))
              && (forall id :: RuleKeyChanged(edited, merge.details, id)
                               ==> undone.value.rules[id].activeKey == edited.rules[id].activeKey)
              && (forall i :: 0 <= i < |edited.keys| && RowKeyChanged(edited.keys[i], merge.details)
                              ==> undone.value.keys[i].activeKey == edited.keys[i].activeKey)
  {
    hide UniqueRuleKeys, UniqueKeyRows, RuleKeyChanged, RowKeyChanged, Recorded, Apply;
    WrittenIsRecorded(t, g, mergeId, at, order, rows, t');
    var merge := MergeRoundTrip.Written(t, t', g, mergeId, at);
    if Undo(edited, merge, now).Success? {
      var after := UndoRows(edited, merge.details, g.retainedId).value;
      UndoKeepsChangedKeys(edited, t'.segments, merge.details, g.retainedId, after);
      forall id | id in edited.rules && edited.rules[id].upstream != g.retainedId
        ensures RepointedStays(edited, after, t'.segments, id)
      {
        UndoLeavesRepointedRules(edited, t'.segments, merge.details, g.retainedId, after, id);
        forall i | 0 <= i < |edited.keys| && OfRule(edited.segments, edited.keys[i], id) && SegmentsKept(t'.segments, edited.segments)
          ensures after.keys[i] == edited.keys[i]
        {
          RowsOfTheRule(t'.segments, edited.segments, edited.keys[i], id);
        }
      }
    }
  }
}
