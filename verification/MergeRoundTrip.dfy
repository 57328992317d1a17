// Undoing a merge is its exact inverse, although the log is replayed in the order it was written.
module MergeRoundTrip {
  import opened Outcomes
  import opened ReconciliationTables
  import opened UpstreamMerge
  import MergedRules
  import MergedLinks

  ghost predicate Consistent(t: Tables) {
    UniqueRuleKeys(t.rules) && UniqueKeyRows(t.keys)
  }

  // The merge as its own log describes it.
  ghost function Written(t: Tables, t': Tables, g: Group, mergeId: string, now: int): Merge
    requires |t.log| <= |t'.log|
  {
    Merge(mergeId, now, g.retainedId, LinesAfter(t'.log, |t.log|))
  }

  ghost function LinesAfter(log: seq<LogRow>, n: nat): (out: seq<Detail>)
    requires n <= |log|
    ensures |out| == |log| - n
  {
    seq(|log| - n, i requires 0 <= i < |log| - n => log[n + i].detail)
  }

  lemma LinesWritten(log: seq<LogRow>, mergeId: string, now: int, retained: string, details: seq<Detail>)
    ensures LinesAfter(log + LogRows(mergeId, now, retained, details), |log|) == details
  {
  }

  // Same rules, key rows and links, and every station merged or not as before; SameAliases is about the rest.
  ghost predicate Back(s: Tables, t: Tables) {
    && s.rules == t.rules && s.segments == t.segments && s.keys == t.keys && s.links == t.links
    && SameMarks(s.docs, t.docs)
  }

  ghost predicate SameMarks(a: map<string, Doc>, b: map<string, Doc>) {
    && a.Keys == b.Keys
    && forall id :: id in a ==> a[id].mergedInto == b[id].mergedInto && a[id].mergedAt == b[id].mergedAt
  }

  ghost predicate SameAliases(a: map<string, Doc>, b: map<string, Doc>) {
    && a.Keys == b.Keys
    && forall id :: id in a ==> AliasesOf(a[id]) == AliasesOf(b[id])
  }

  // The merged list has all aliases the retained station had, in order.
  ghost predicate KeepsAliases(docs: map<string, Doc>, g: Group) {
    && g.retainedId in docs
    && var before := AliasesOf(docs[g.retainedId]);
       Only(g.aliasesAfter, before) == before
  }

  // A station that is not merged away has no merge time.
  ghost predicate CleanDocs(docs: map<string, Doc>) {
    forall id :: id in docs && docs[id].mergedInto.None? ==> docs[id].mergedAt.None?
  }

  // ----- replaying a concatenated log

  lemma {:induction false} UndoConcat(t: Tables, a: seq<Detail>, b: seq<Detail>, retained: string)
    ensures UndoRows(t, a + b, retained)
            == (match UndoRows(t, a, retained) case None => None case Some(t') => UndoRows(t', b, retained))
    decreases |a|
  {
    if a == [] {
      assert a + b == b;
    } else {
      assert (a + b)[1..] == a[1..] + b;
      match UndoRow(t, a[0], retained)
      case None =>
      case Some(t') => UndoConcat(t', a[1..], b, retained);
    }
  }

  // ----- the station lines

  function Unmerged(docs: map<string, Doc>, ids: seq<string>): map<string, Doc> {
    map id | id in docs :: if id in ids then docs[id].(mergedInto := None, mergedAt := None) else docs[id]
  }

  function MergedLines(ids: seq<string>): (out: seq<Detail>)
    ensures |out| == |ids|
  {
    seq(|ids|, i requires 0 <= i < |ids| => StationMerged(ids[i]))
  }

  lemma {:induction false} UndoMergedLines(t: Tables, ids: seq<string>, retained: string)
    ensures UndoRows(t, MergedLines(ids), retained) == Some(t.(docs := Unmerged(t.docs, ids)))
    decreases |ids|
  {
    if ids == [] {
      assert Unmerged(t.docs, ids) == t.docs;
    } else {
      assert MergedLines(ids)[1..] == MergedLines(ids[1..]);
      var t' := UndoRow(t, StationMerged(ids[0]), retained).value;
      UndoMergedLines(t', ids[1..], retained);
      assert Unmerged(t'.docs, ids[1..]) == Unmerged(t.docs, ids);
    }
  }

  lemma {:induction false} MergedIdsOf(head: Detail, ids: seq<string>, tail: seq<Detail>)
    requires !head.StationMerged? && forall d :: d in tail ==> !d.StationMerged?
    ensures forall id :: id in MergedIds([head] + MergedLines(ids) + tail) <==> id in ids
  {
    var all := [head] + MergedLines(ids) + tail;
    forall id ensures StationMerged(id) in all <==> id in ids {
      if id in ids {
        var i :| 0 <= i < |ids| && ids[i] == id;
        assert MergedLines(ids)[i] == StationMerged(id);
      }
    }
  }

  // ----- one merge, undone

  // The lines about rules and links.
  ghost function OtherLines(t: Tables, g: Group, order: seq<string>, rows: seq<LinkRow>): (out: seq<Detail>)
    requires forall id :: id in order ==> id in t.rules
    ensures forall d :: d in out ==> !d.StationMerged?
  {
    MergedRules.RuleDetails(t.rules, t.segments, t.keys, order, g.retainedId) + MergedLinks.LinkDetails(t.links, rows, g.retainedId, 0)
  }

  // The lines a successful merge writes, and the tables it leaves.
  lemma AppliedParts(t: Tables, g: Group, mergeId: string, now: int, order: seq<string>, rows: seq<LinkRow>, t': Tables)
    requires Consistent(t) && Selected(t, g, order, rows) && g.retainedId !in g.mergedIds
    requires Apply(t, g, mergeId, now, order, rows) == Success(t')
    ensures |t.log| <= |t'.log| && t'.segments == t.segments && t'.docs == PatchedDocs(t.docs, g, now)
    ensures MergedRules.Reached(t.rules, t.segments, t.keys, MergedRules.Elements(order), g.retainedId, t'.rules, t'.keys)
    ensures MergedLinks.Rows(t.links, rows, g.retainedId)
            && MergedLinks.Merged(t'.links, t.links, rows, g.retainedId, 0, |rows|)
    ensures Mergeable(t.docs, g)
    ensures Written(t, t', g, mergeId, now).details == StationDetails(t.docs, g) + OtherLines(t, g, order, rows)
  {
    hide UniqueKeyRows, UniqueRuleKeys, MergedLinks.Merged, MergedRules.Reached, LinesAfter, PatchedDocs, Consistent, MoveLinks, MoveRules, PresentLinks;
    var retained := g.retainedId;
    var moved := MoveRules(t.rules, t.segments, t.keys, order, retained).value;
    NothingDone(t, retained);
    MergedRules.MoveRulesReach(t.rules, t.segments, t.keys, {}, t.rules, t.keys, order, retained, moved);
    MergedRules.MoveRulesLog(t.rules, t.segments, t.keys, {}, t.rules, t.keys, order, retained, moved);
    assert {} + MergedRules.Elements(order) == MergedRules.Elements(order);
    NoRowsDone(t, g, order, rows);
    assert rows[0..] == rows;
    MergedLinks.MoveLinksReach(t.links, PresentLinks(t.links, retained), t.links, rows, retained, 0);
    var details := StationDetails(t.docs, g) + OtherLines(t, g, order, rows);
    assert details == StationDetails(t.docs, g) + moved.details + MergedLinks.LinkDetails(t.links, rows, retained, 0);
    LinesWritten(t.log, mergeId, now, retained, details);
  }

  lemma NothingDone(t: Tables, retained: string)
    requires Consistent(t)
    ensures MergedRules.Reached(t.rules, t.segments, t.keys, {}, retained, t.rules, t.keys)
  {
    assert MergedRules.RulesWith(t.rules, {}, retained) == t.rules;
    assert MergedRules.RowsOf(t.rules, t.segments, t.keys, {}) == {};
    assert MergedRules.KeysWith(t.keys, {}, retained) == t.keys;
  }

  lemma NoRowsDone(t: Tables, g: Group, order: seq<string>, rows: seq<LinkRow>)
    requires Selected(t, g, order, rows) && g.retainedId !in g.mergedIds
    ensures MergedLinks.Rows(t.links, rows, g.retainedId)
    ensures MergedLinks.Merged(t.links, t.links, rows, g.retainedId, 0, 0)
    ensures MergedLinks.Present(PresentLinks(t.links, g.retainedId), t.links, g.retainedId)
  {
    forall k | 0 <= k < |rows| ensures rows[k].id.station != g.retainedId {
      assert rows[k].id.station in g.mergedIds;
    }
    forall own, channel ensures (own, channel) in PresentLinks(t.links, g.retainedId) <==> LinkId(own, channel, g.retainedId) in t.links {
      if LinkId(own, channel, g.retainedId) in t.links {
        var id := LinkId(own, channel, g.retainedId);
        assert (id.own, id.channel) in PresentLinks(t.links, g.retainedId);
      }
    }
  }

  // Undo restores every rule, key row and link exactly, from any state that agrees with the one the merge left; and the
  // aliases of every station exactly when the merged list kept those of the retained one.
  lemma MergeThenUndo(t: Tables, g: Group, mergeId: string, now: int, order: seq<string>, rows: seq<LinkRow>, t': Tables,
                      s: Tables, undoneAt: int)
    requires Consistent(t) && CleanDocs(t.docs) && Selected(t, g, order, rows) && g.retainedId !in g.mergedIds
    requires Apply(t, g, mergeId, now, order, rows) == Success(t')
    requires Back(s, t')
    ensures |t.log| <= |t'.log|
    ensures var undone := Undo(s, Written(t, t', g, mergeId, now), undoneAt);
            && undone.Success? && Back(undone.value, t) && undone.value.log == MarkUndone(s.log, mergeId, undoneAt)
            && (SameAliases(s.docs, t'.docs) && KeepsAliases(t.docs, g) ==> SameAliases(undone.value.docs, t.docs))
            && (s.docs == t'.docs ==> (SameAliases(undone.value.docs, t.docs) <==> KeepsAliases(t.docs, g)))
  {
    hide UniqueKeyRows, UniqueRuleKeys, MergedLinks.Merged, MergedRules.Reached, SameMarks, SameAliases, KeepsAliases, OtherLines,
         UndoRows, Apply, PatchedDocs, AfterStations;
    AppliedParts(t, g, mergeId, now, order, rows, t');
    var stationLines, otherLines := StationDetails(t.docs, g), OtherLines(t, g, order, rows);
    StationsUndoable(t, g, now, s, otherLines);
    StationsBack(t, g, now, s);
    AliasesRestored(t, g, now, s);
    var s1 := UndoRows(s, stationLines, g.retainedId).value;
    OthersBack(t, g, order, rows, t', s1);
    UndoConcat(s, stationLines, otherLines, g.retainedId);
  }

  lemma OthersBack(t: Tables, g: Group, order: seq<string>, rows: seq<LinkRow>, t': Tables, s: Tables)
    requires Consistent(t) && g.retainedId !in g.mergedIds && Selected(t, g, order, rows)
    requires MergedRules.Reached(t.rules, t.segments, t.keys, MergedRules.Elements(order), g.retainedId, t'.rules, t'.keys)
    requires MergedLinks.Rows(t.links, rows, g.retainedId)
             && MergedLinks.Merged(t'.links, t.links, rows, g.retainedId, 0, |rows|)
    requires s.rules == t'.rules && s.keys == t'.keys && s.segments == t.segments && s.links == t'.links
    ensures UndoRows(s, OtherLines(t, g, order, rows), g.retainedId)
            == Some(s.(rules := t.rules, keys := t.keys, links := t.links))
  {
    hide UniqueKeyRows, UniqueRuleKeys, MergedLinks.Merged;
    var ruleLines := MergedRules.RuleDetails(t.rules, t.segments, t.keys, order, g.retainedId);
    var linkLines := MergedLinks.LinkDetails(t.links, rows, g.retainedId, 0);
    RulesBack(t, g, order, t', s);
    MergedLinks.RestoreLinksReach(s.(rules := t.rules, keys := t.keys), t.links, rows, g.retainedId, 0);
    UndoConcat(s, ruleLines, linkLines, g.retainedId);
  }

  lemma RulesBack(t: Tables, g: Group, order: seq<string>, t': Tables, s: Tables)
    requires Consistent(t) && g.retainedId !in g.mergedIds
    requires forall id :: id in order ==> id in t.rules && t.rules[id].upstream in g.mergedIds
    requires MergedRules.Distinct(order)
    requires MergedRules.Reached(t.rules, t.segments, t.keys, MergedRules.Elements(order), g.retainedId, t'.rules, t'.keys)
    requires s.rules == t'.rules && s.keys == t'.keys && s.segments == t.segments
    ensures UndoRows(s, MergedRules.RuleDetails(t.rules, t.segments, t.keys, order, g.retainedId), g.retainedId)
            == Some(s.(rules := t.rules, keys := t.keys))
  {
    hide UniqueKeyRows, UniqueRuleKeys;
    NothingDone(t, g.retainedId);
    MergedRules.RestoreRulesReach(s, t.rules, t.keys, MergedRules.Elements(order), order, g.retainedId);
  }

  lemma StationsUndoable(t: Tables, g: Group, now: int, s: Tables, tail: seq<Detail>)
    requires Mergeable(t.docs, g)
    requires SameMarks(s.docs, PatchedDocs(t.docs, g, now))
    requires forall d :: d in tail ==> !d.StationMerged?
    ensures forall mergeId :: Undoable(s.docs, Merge(mergeId, now, g.retainedId, StationDetails(t.docs, g) + tail))
  {
    var head := StationDetails(t.docs, g)[0];
    assert StationDetails(t.docs, g) == [head] + MergedLines(g.mergedIds);
    MergedIdsOf(head, g.mergedIds, tail);
  }

  // The station documents once their lines are replayed.
  function AfterStations(docs: map<string, Doc>, before: map<string, Doc>, g: Group): map<string, Doc>
    requires g.retainedId in docs && g.retainedId in before
  {
    var was, doc := AliasesOf(before[g.retainedId]), docs[g.retainedId];
    var aliases := AliasesAfterUndo(doc.aliases, was, Some(Without(g.aliasesAfter, was)));
    Unmerged(docs[g.retainedId := doc.(aliases := Some(aliases))], g.mergedIds)
  }

  lemma AliasesRestored(t: Tables, g: Group, now: int, s: Tables)
    requires Mergeable(t.docs, g) && g.retainedId !in g.mergedIds && g.retainedId in s.docs
    requires s.docs.Keys == t.docs.Keys
    ensures var docs := AfterStations(s.docs, t.docs, g);
            && (SameAliases(s.docs, PatchedDocs(t.docs, g, now)) && KeepsAliases(t.docs, g) ==> SameAliases(docs, t.docs))
            && (s.docs == PatchedDocs(t.docs, g, now) ==> (SameAliases(docs, t.docs) <==> KeepsAliases(t.docs, g)))
  {
    var before, patched := AliasesOf(t.docs[g.retainedId]), PatchedDocs(t.docs, g, now);
    AliasesBack(before, g.aliasesAfter, []);
    var docs := AfterStations(s.docs, t.docs, g);
    if SameAliases(s.docs, patched) {
      forall id | id in t.docs && id != g.retainedId ensures AliasesOf(docs[id]) == AliasesOf(t.docs[id]) {
        assert AliasesOf(s.docs[id]) == AliasesOf(patched[id]);
      }
      assert AliasesOf(s.docs[g.retainedId]) == AliasesOf(patched[g.retainedId]) == g.aliasesAfter;
    }
  }

  lemma StationsBack(t: Tables, g: Group, now: int, s: Tables)
    requires Mergeable(t.docs, g) && CleanDocs(t.docs)
    requires SameMarks(s.docs, PatchedDocs(t.docs, g, now)) && g.retainedId in s.docs
    ensures s.docs.Keys == t.docs.Keys
    ensures UndoRows(s, StationDetails(t.docs, g), g.retainedId) == Some(s.(docs := AfterStations(s.docs, t.docs, g)))
    ensures SameMarks(AfterStations(s.docs, t.docs, g), t.docs)
  {
    hide UndoRows, StationDetails, SameMarks;
    StationLinesUndone(t, g, s);
    MarksBack(t, g, now, s);
  }

  lemma MarksBack(t: Tables, g: Group, now: int, s: Tables)
    requires Mergeable(t.docs, g) && CleanDocs(t.docs) && g.retainedId in s.docs
    requires SameMarks(s.docs, PatchedDocs(t.docs, g, now))
    ensures s.docs.Keys == t.docs.Keys && SameMarks(AfterStations(s.docs, t.docs, g), t.docs)
  {
    hide AliasesAfterUndo;
  }

  lemma StationLinesUndone(t: Tables, g: Group, s: Tables)
    requires g.retainedId in t.docs && g.retainedId in s.docs
    ensures UndoRows(s, StationDetails(t.docs, g), g.retainedId) == Some(s.(docs := AfterStations(s.docs, t.docs, g)))
  {
    var head := StationDetails(t.docs, g)[0];
    assert StationDetails(t.docs, g) == [head] + MergedLines(g.mergedIds);
    var s1 := UndoRow(s, head, g.retainedId).value;
    assert UndoRows(s, [head], g.retainedId) == Some(s1) by {
      assert [head][1..] == [];
    }
    UndoConcat(s, [head], MergedLines(g.mergedIds), g.retainedId);
    UndoMergedLines(s1, g.mergedIds, g.retainedId);
  }

  // ----- aliases

  function Only(xs: seq<string>, keep: seq<string>): seq<string> {
    if xs == [] then []
    else if xs[0] in keep then [xs[0]] + Only(xs[1..], keep)
    else Only(xs[1..], keep)
  }

  lemma {:induction false} WithoutAdded(xs: seq<string>, before: seq<string>, added: seq<string>)
    requires forall x :: x in xs ==> (x in added <==> x !in before)
    ensures Without(xs, added) == Only(xs, before)
  {
    if xs != [] {
      WithoutAdded(xs[1..], before, added);
    }
  }

  // The retained station gets back the aliases it had exactly when the merged list kept them all, in order and without
  // repeats removed; aliases a user added since stay either way.
  lemma AliasesBack(before: seq<string>, after: seq<string>, since: seq<string>)
    requires forall x :: x in since ==> x !in Without(after, before)
    ensures AliasesAfterUndo(Some(after), before, Some(Without(after, before))) == before <==> Only(after, before) == before
    ensures AliasesAfterUndo(Some(after + since), before, Some(Without(after, before))) == Only(after, before) + since
  {
    WithoutAdded(after, before, Without(after, before));
    WithoutSplits(after, since, Without(after, before));
    KeepsAll(since, Without(after, before));
  }

  lemma {:induction false} WithoutSplits(a: seq<string>, b: seq<string>, drop: seq<string>)
    ensures Without(a + b, drop) == Without(a, drop) + Without(b, drop)
  {
    if a == [] {
      assert a + b == b;
    } else {
      assert (a + b)[1..] == a[1..] + b;
      WithoutSplits(a[1..], b, drop);
    }
  }

  lemma {:induction false} KeepsAll(xs: seq<string>, drop: seq<string>)
    requires forall x :: x in xs ==> x !in drop
    ensures Without(xs, drop) == xs
  {
    if xs != [] {
      KeepsAll(xs[1..], drop);
    }
  }
}
