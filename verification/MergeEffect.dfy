// What a merge does to the tables, and when it goes through, said without the functions that carry it out.
module MergeEffect {
  import opened Outcomes
  import opened ReconciliationTables
  import opened UpstreamMerge
  import MergeRoundTrip
  import MergedRules
  import MergedLinks
  import SegmentKeys

  // ----- rules and key rows

  predicate HasCanonical(rule: Rule) { rule.canonicalKey.Some? && rule.canonicalKey.value != "" }

  // The rule points at the retained station; a key made of station and token follows, unless the rule has a canonical key.
  predicate RuleFollows(rule: Rule, after: Rule, retained: string) {
    && after.upstream == retained
    && after.tokenId == rule.tokenId && after.tokenName == rule.tokenName && after.canonicalKey == rule.canonicalKey
    && if rule.activeKey == Some(KeyText(rule.upstream, rule.tokenId)) && !HasCanonical(rule)
       then after.activeKey == Some(KeyText(retained, rule.tokenId)) else after.activeKey == rule.activeKey
  }

  // The same for a key row, whatever found its key.
  predicate RowFollows(row: KeyRow, after: KeyRow, retained: string) {
    && after.segmentId == row.segmentId && after.upstream == retained && after.tokenId == row.tokenId
    && after.tokenName == row.tokenName && after.mask == row.mask && after.source == row.source
    && if row.activeKey == Some(KeyText(row.upstream, row.tokenId))
       then after.activeKey == Some(KeyText(retained, row.tokenId)) else after.activeKey == row.activeKey
  }

  // The row belongs to a segment of a rule at a merged station and points at the same station.
  ghost predicate Concerned(t: Tables, g: Group, row: KeyRow) {
    exists id :: id in t.rules && t.rules[id].upstream in g.mergedIds && OfRule(t.segments, row, id) && row.upstream == t.rules[id].upstream
  }

  ghost predicate RulesMoved(t: Tables, g: Group, rules: map<string, Rule>) {
    && rules.Keys == t.rules.Keys
    && forall id :: id in rules ==>
         if t.rules[id].upstream in g.mergedIds then RuleFollows(t.rules[id], rules[id], g.retainedId) else rules[id] == t.rules[id]
  }

  ghost predicate KeysMoved(t: Tables, g: Group, keys: seq<KeyRow>) {
    && |keys| == |t.keys|
    && forall i :: 0 <= i < |keys| ==>
         if Concerned(t, g, t.keys[i]) then RowFollows(t.keys[i], keys[i], g.retainedId) else keys[i] == t.keys[i]
  }

  // ----- links

  predicate SamePlace(a: LinkId, b: LinkId) { a.own == b.own && a.channel == b.channel }

  // The first row for this place, in the order the rows were selected.
  ghost predicate FirstFor(rows: seq<LinkRow>, id: LinkId, j: nat) {
    j < |rows| && SamePlace(rows[j].id, id) && forall i :: 0 <= i < j ==> !SamePlace(rows[i].id, id)
  }

  ghost predicate LinksMoved(t: Tables, g: Group, rows: seq<LinkRow>, links: map<LinkId, Link>) {
    && (forall id :: id in links <==>
          && id.station !in g.mergedIds
          && (id in t.links || (id.station == g.retainedId && exists was :: was in t.links && was.station in g.mergedIds && SamePlace(was, id))))
    && (forall id :: id in links && id in t.links ==> links[id] == t.links[id])
    && (forall id, j: nat :: id in links && id !in t.links && FirstFor(rows, id, j) ==> links[id] == rows[j].link)
  }

  // ----- station documents and the log

  predicate DocsMarked(t: Tables, g: Group, now: int, docs: map<string, Doc>) {
    && docs.Keys == t.docs.Keys
    && forall id :: id in docs ==>
         if id in g.mergedIds then
           docs[id].mergedInto == Some(g.retainedId) && docs[id].mergedAt == Some(now) && docs[id].aliases == t.docs[id].aliases
         else if id == g.retainedId then
           docs[id].aliases == Some(g.aliasesAfter) && docs[id].mergedInto == t.docs[id].mergedInto && docs[id].mergedAt == t.docs[id].mergedAt
         else docs[id] == t.docs[id]
  }

  predicate LogGrown(t: Tables, g: Group, mergeId: string, now: int, log: seq<LogRow>) {
    && |t.log| <= |log| && log[..|t.log|] == t.log
    && forall i :: |t.log| <= i < |log| ==>
         log[i].mergeId == mergeId && log[i].mergedAt == now && log[i].retainedId == g.retainedId && log[i].undoneAt == None
  }

  // ----- the effect of a merge

  lemma MergeMoves(t: Tables, g: Group, mergeId: string, now: int, order: seq<string>, rows: seq<LinkRow>, t': Tables)
    requires MergeRoundTrip.Consistent(t) && Selected(t, g, order, rows) && g.retainedId !in g.mergedIds
    requires Apply(t, g, mergeId, now, order, rows) == Success(t')
    ensures RulesMoved(t, g, t'.rules) && KeysMoved(t, g, t'.keys) && t'.segments == t.segments
    ensures LinksMoved(t, g, rows, t'.links)
    ensures DocsMarked(t, g, now, t'.docs)
    ensures LogGrown(t, g, mergeId, now, t'.log)
  {
    hide UniqueRuleKeys, UniqueKeyRows, RulesMoved, KeysMoved, LinksMoved, DocsMarked, MergedLinks.Merged, MergedLinks.Rows,
         MergedRules.Reached, Selected;
    MergeRoundTrip.AppliedParts(t, g, mergeId, now, order, rows, t');
    assert DocsMarked(t, g, now, t'.docs) by { DocsAreMarked(t, g, now); }
    WithIsMoved(t, g, order, rows);
    ReachedTables(t, order, g.retainedId, t');
    LinksAreMoved(t, g, order, rows, t'.links);
  }

  lemma ReachedTables(t: Tables, order: seq<string>, retained: string, t': Tables)
    requires MergedRules.Reached(t.rules, t.segments, t.keys, MergedRules.Elements(order), retained, t'.rules, t'.keys)
    ensures t'.rules == MergedRules.RulesWith(t.rules, MergedRules.Elements(order), retained)
    ensures t'.keys == MergedRules.KeysWith(t.keys, MergedRules.RowsOf(t.rules, t.segments, t.keys, MergedRules.Elements(order)), retained)
  {}

  lemma DocsAreMarked(t: Tables, g: Group, now: int)
    ensures DocsMarked(t, g, now, PatchedDocs(t.docs, g, now))
  {}

  lemma WithIsMoved(t: Tables, g: Group, order: seq<string>, rows: seq<LinkRow>)
    requires Selected(t, g, order, rows)
    ensures var all := MergedRules.Elements(order);
            && RulesMoved(t, g, MergedRules.RulesWith(t.rules, all, g.retainedId))
            && KeysMoved(t, g, MergedRules.KeysWith(t.keys, MergedRules.RowsOf(t.rules, t.segments, t.keys, all), g.retainedId))
  {
    var all := MergedRules.Elements(order);
    assert forall id :: id in all <==> id in t.rules && t.rules[id].upstream in g.mergedIds;
    forall id | id in t.rules && id in all
      ensures RuleFollows(t.rules[id], MergedRules.RulesWith(t.rules, all, g.retainedId)[id], g.retainedId)
    {
      TextIsNotEmpty(t.rules[id].upstream, t.rules[id].tokenId);
    }
    forall i | 0 <= i < |t.keys| ensures Concerned(t, g, t.keys[i]) <==> i in MergedRules.RowsOf(t.rules, t.segments, t.keys, all) {
      ConcernedMoves(t, g, order, rows, t.keys[i]);
    }
  }

  lemma TextIsNotEmpty(station: string, token: int)
    ensures KeyText(station, token) != ""
  {}

  lemma ConcernedMoves(t: Tables, g: Group, order: seq<string>, rows: seq<LinkRow>, row: KeyRow)
    requires Selected(t, g, order, rows)
    ensures Concerned(t, g, row) <==> MergedRules.MovesWith(t.rules, t.segments, row, MergedRules.Elements(order))
  {
    var s := FindSegment(t.segments, row.segmentId);
    if MergedRules.MovesWith(t.rules, t.segments, row, MergedRules.Elements(order)) {
      assert OfRule(t.segments, row, s.value.ruleId);
    }
  }

  lemma LinksAreMoved(t: Tables, g: Group, order: seq<string>, rows: seq<LinkRow>, links: map<LinkId, Link>)
    requires Selected(t, g, order, rows) && g.retainedId !in g.mergedIds
    requires MergedLinks.Rows(t.links, rows, g.retainedId) && MergedLinks.Merged(links, t.links, rows, g.retainedId, 0, |rows|)
    ensures LinksMoved(t, g, rows, links)
  {
    forall id ensures MergedLinks.Is(rows, 0, |rows|, id) <==> id in t.links && id.station in g.mergedIds {}
    forall id ensures MergedLinks.Arrives(t.links, rows, g.retainedId, 0, |rows|, id)
                      <==> id !in t.links && id.station == g.retainedId && exists was :: was in t.links && was.station in g.mergedIds && SamePlace(was, id) {
      ArrivesIff(t, g, order, rows, id);
    }
    forall id, j: nat | id in links && id !in t.links && FirstFor(rows, id, j) ensures links[id] == rows[j].link {
      FirstMoves(t, g, rows, id, j);
    }
  }

  lemma FirstMoves(t: Tables, g: Group, rows: seq<LinkRow>, id: LinkId, j: nat)
    requires FirstFor(rows, id, j) && id !in t.links && id.station == g.retainedId
    ensures MergedLinks.Moves(t.links, rows, g.retainedId, j) && MergedLinks.Target(rows, j, g.retainedId) == id
  {}

  lemma ArrivesIff(t: Tables, g: Group, order: seq<string>, rows: seq<LinkRow>, id: LinkId)
    requires Selected(t, g, order, rows)
    ensures MergedLinks.Arrives(t.links, rows, g.retainedId, 0, |rows|, id)
            <==> id !in t.links && id.station == g.retainedId && exists was :: was in t.links && was.station in g.mergedIds && SamePlace(was, id)
  {
    if MergedLinks.Arrives(t.links, rows, g.retainedId, 0, |rows|, id) {
      var j :| 0 <= j < |rows| && MergedLinks.Moves(t.links, rows, g.retainedId, j) && MergedLinks.Target(rows, j, g.retainedId) == id;
      assert rows[j].id in t.links && rows[j].id.station in g.mergedIds && SamePlace(rows[j].id, id);
    }
    if id !in t.links && id.station == g.retainedId && exists was :: was in t.links && was.station in g.mergedIds && SamePlace(was, id) {
      var was :| was in t.links && was.station in g.mergedIds && SamePlace(was, id);
      var k :| 0 <= k < |rows| && rows[k].id == was;
      var j := EarliestFor(rows, id, k);
      FirstMoves(t, g, rows, id, j);
    }
  }

  lemma {:induction false} EarliestFor(rows: seq<LinkRow>, id: LinkId, k: nat) returns (j: nat)
    requires k < |rows| && SamePlace(rows[k].id, id)
    ensures FirstFor(rows, id, j)
  {
    j := k;
    if i: nat :| i < k && SamePlace(rows[i].id, id) {
      j := EarliestFor(rows, id, i);
    }
  }

  // ----- when a merge goes through

  // Every station of the group is there and none is merged away.
  predicate AllThere(docs: map<string, Doc>, g: Group) {
    && g.retainedId in docs && docs[g.retainedId].mergedInto == None
    && forall id :: id in g.mergedIds ==> id in docs && docs[id].mergedInto == None
  }

  // Moving the rules and key rows leaves no two with the same key.
  ghost predicate NoClash(t: Tables, g: Group) {
    exists rules, keys :: RulesMoved(t, g, rules) && KeysMoved(t, g, keys) && UniqueRuleKeys(rules) && UniqueKeyRows(keys)
  }

  // What is described is one pair of tables.
  lemma MovedTablesAreUnique(t: Tables, g: Group, rules: map<string, Rule>, keys: seq<KeyRow>, rules': map<string, Rule>, keys': seq<KeyRow>)
    requires RulesMoved(t, g, rules) && KeysMoved(t, g, keys) && RulesMoved(t, g, rules') && KeysMoved(t, g, keys')
    ensures rules == rules' && keys == keys'
  {
    hide Concerned;
    forall id | id in rules ensures rules[id] == rules'[id] {
      if t.rules[id].upstream in g.mergedIds {
        assert RuleFollows(t.rules[id], rules[id], g.retainedId) && RuleFollows(t.rules[id], rules'[id], g.retainedId);
      }
    }
    forall i | 0 <= i < |keys| ensures keys[i] == keys'[i] {
      if Concerned(t, g, t.keys[i]) {
        assert RowFollows(t.keys[i], keys[i], g.retainedId) && RowFollows(t.keys[i], keys'[i], g.retainedId);
      }
    }
  }

  // Half-way through `at`, no statement meets a key that the final table respects.
  lemma {:induction false} MoveKeysSucceed(keys: seq<KeyRow>, all: set<nat>, done: set<nat>, at: seq<nat>, from: string, retained: string)
    requires UniqueKeyRows(keys) && UniqueKeyRows(MergedRules.KeysWith(keys, all, retained))
    requires forall i: nat :: i in all && i < |keys| ==> keys[i].upstream != retained
    requires done <= all && forall i :: i in at ==> i < |keys| && i in all && i !in done && keys[i].upstream == from
    requires forall j, k :: 0 <= j < k < |at| ==> at[j] < at[k]
    ensures MoveKeys(MergedRules.KeysWith(keys, done, retained), MovedKeys(keys, at, retained), from, retained).Some?
    decreases |at|
  {
    if at != [] {
      var moved := MovedKeys(keys, at, retained);
      assert at[0] in at;
      MergedRules.HalfwayKeysUnique(keys, all, done, retained);
      MergedRules.HalfwayKeysUnique(keys, all, done + {at[0]}, retained);
      MergedRules.MoveKeyStep(keys, done, at[0], from, retained);
      assert moved[1..] == MovedKeys(keys, at[1..], retained);
      assert moved[0] == MovedKeys(keys, [at[0]], retained)[0];
      MoveKeysSucceed(keys, all, done + {at[0]}, at[1..], from, retained);
    }
  }

  // The tables before the merge, and those with everything moved, are consistent.
  ghost predicate Movable(rules: map<string, Rule>, segments: seq<Segment>, keys: seq<KeyRow>, all: set<string>, retained: string) {
    && UniqueRuleKeys(rules) && UniqueKeyRows(keys)
    && UniqueRuleKeys(MergedRules.RulesWith(rules, all, retained))
    && UniqueKeyRows(MergedRules.KeysWith(keys, MergedRules.RowsOf(rules, segments, keys, all), retained))
    && forall id :: id in all && id in rules ==> rules[id].upstream != retained
  }

  lemma MoveRuleSucceeds(rules: map<string, Rule>, segments: seq<Segment>, keys: seq<KeyRow>, all: set<string>, done: set<string>,
                         id: string, retained: string)
    requires Movable(rules, segments, keys, all, retained)
    requires done <= all && id in rules && id in all && id !in done
    ensures var now := MergedRules.KeysWith(keys, MergedRules.RowsOf(rules, segments, keys, done), retained);
            && UniqueKeyRows(now)
            && MoveRule(MergedRules.RulesWith(rules, done, retained), segments, now, id, retained).Success?
  {
    var rule := rules[id];
    var at := Select(segments, keys, id, rule.upstream);
    var rowsAll, rowsDone := MergedRules.RowsOf(rules, segments, keys, all), MergedRules.RowsOf(rules, segments, keys, done);
    MergedRules.DetailIsStable(rules, segments, keys, done, id, retained);
    assert MergedRules.RulesWith(rules, done, retained)[id := MovedRule(rule, retained)] == MergedRules.RulesWith(rules, done + {id}, retained);
    MergedRules.HalfwayRulesUnique(rules, all, done + {id}, retained);
    hide UniqueRuleKeys, UniqueKeyRows;
    MergedRules.HalfwayKeysUnique(keys, rowsAll, rowsDone, retained);
    MoveKeysSucceed(keys, rowsAll, rowsDone, at, rule.upstream, retained);
  }

  lemma {:induction false} MoveRulesSucceed(rules: map<string, Rule>, segments: seq<Segment>, keys: seq<KeyRow>, all: set<string>, done: set<string>,
                                            order: seq<string>, retained: string)
    requires Movable(rules, segments, keys, all, retained)
    requires MergedRules.Distinct(order) && forall id :: id in order ==> id in rules && id in all && id !in done
    requires done <= all
    ensures MoveRules(MergedRules.RulesWith(rules, done, retained), segments,
                      MergedRules.KeysWith(keys, MergedRules.RowsOf(rules, segments, keys, done), retained), order, retained).Success?
    decreases |order|
  {
    hide UniqueRuleKeys, UniqueKeyRows, MoveRule;
    if order != [] {
      var id, tail := order[0], order[1..];
      MoveRuleSucceeds(rules, segments, keys, all, done, id, retained);
      var one := MoveRule(MergedRules.RulesWith(rules, done, retained), segments,
                          MergedRules.KeysWith(keys, MergedRules.RowsOf(rules, segments, keys, done), retained), id, retained).value;
      MergedRules.MoveRuleStep(rules, segments, keys, done, id, retained, one);
      assert MergedRules.Distinct(tail) && forall x :: x in tail ==> x in order && x != id;
      MoveRulesSucceed(rules, segments, keys, all, done + {id}, tail, retained);
    }
  }

  // The rule loop goes through exactly when the moved tables keep their unique keys.
  lemma RulesMoveIff(t: Tables, g: Group, order: seq<string>, rows: seq<LinkRow>)
    requires MergeRoundTrip.Consistent(t) && Selected(t, g, order, rows) && g.retainedId !in g.mergedIds
    ensures MoveRules(t.rules, t.segments, t.keys, order, g.retainedId).Success? <==> NoClash(t, g)
    ensures MoveRules(t.rules, t.segments, t.keys, order, g.retainedId).Failure?
            ==> MoveRules(t.rules, t.segments, t.keys, order, g.retainedId).error == Conflict
  {
    hide UniqueRuleKeys, UniqueKeyRows, RulesMoved, KeysMoved, MoveRules;
    var all := MergedRules.Elements(order);
    MergeRoundTrip.NothingDone(t, g.retainedId);
    OnlyConflicts(t.rules, t.segments, t.keys, order, g.retainedId);
    var rules := MergedRules.RulesWith(t.rules, all, g.retainedId);
    var keys := MergedRules.KeysWith(t.keys, MergedRules.RowsOf(t.rules, t.segments, t.keys, all), g.retainedId);
    WithIsMoved(t, g, order, rows);
    var out := MoveRules(t.rules, t.segments, t.keys, order, g.retainedId);
    if out.Success? {
      MergedRules.MoveRulesReach(t.rules, t.segments, t.keys, {}, t.rules, t.keys, order, g.retainedId, out.value);
      assert {} + all == all;
      assert UniqueRuleKeys(rules) && UniqueKeyRows(keys);
    }
    if NoClash(t, g) {
      var rules', keys' :| RulesMoved(t, g, rules') && KeysMoved(t, g, keys') && UniqueRuleKeys(rules') && UniqueKeyRows(keys');
      MovedTablesAreUnique(t, g, rules, keys, rules', keys');
      assert Movable(t.rules, t.segments, t.keys, all, g.retainedId);
      MoveRulesSucceed(t.rules, t.segments, t.keys, all, {}, order, g.retainedId);
      assert t.rules == MergedRules.RulesWith(t.rules, {}, g.retainedId);
      assert t.keys == MergedRules.KeysWith(t.keys, MergedRules.RowsOf(t.rules, t.segments, t.keys, {}), g.retainedId);
    }
  }

  lemma {:induction false} OnlyConflicts(rules: map<string, Rule>, segments: seq<Segment>, keys: seq<KeyRow>, order: seq<string>, retained: string)
    requires forall id :: id in order ==> id in rules
    ensures var out := MoveRules(rules, segments, keys, order, retained);
            out.Failure? ==> out.error == Conflict
    decreases |order|
  {
    if order != [] {
      var one := MoveRule(rules, segments, keys, order[0], retained);
      if one.Success? {
        OnlyConflicts(one.value.0, segments, one.value.1, order[1..], retained);
      }
    }
  }

  // A merge goes through if and only if its stations are there, the rules and links are those it was planned with, and no
  // two keys clash; otherwise the plan is stale, except for a clash.
  lemma MergeGoesThroughIff(t: Tables, g: Group, mergeId: string, now: int, order: seq<string>, rows: seq<LinkRow>)
    requires MergeRoundTrip.Consistent(t) && Selected(t, g, order, rows) && g.retainedId !in g.mergedIds
    ensures var out := Apply(t, g, mergeId, now, order, rows);
            var planned := AllThere(t.docs, g) && multiset(order) == multiset(g.ruleIds);
            && (out.Success? <==> planned && NoClash(t, g) && |rows| == g.linkCount)
            && (out == Failure(Conflict) <==> planned && !NoClash(t, g))
            && (out.Failure? ==> out.error == Conflict || out.error == Stale)
  {
    hide UniqueRuleKeys, UniqueKeyRows, MergedLinks.Merged, NoClash, MoveRules, MoveLinks;
    RulesMoveIff(t, g, order, rows);
    MergeRoundTrip.NoRowsDone(t, g, order, rows);
    assert rows[0..] == rows;
    MergedLinks.MoveLinksReach(t.links, PresentLinks(t.links, g.retainedId), t.links, rows, g.retainedId, 0);
  }

  // ----- undoing a merge that an older version logged

  // Such a line has no key rows. A rule still at the retained station goes back, its key unconditionally if the line does not
  // say what the merge wrote; and the rule's key rows are brought in line with it, moved back or not.
  lemma OldRuleLine(t: Tables, d: Detail, retained: string, t': Tables)
    requires d.RuleMoved? && d.segmentKeys.None? && UndoRow(t, d, retained) == Some(t')
    ensures t' == t.(rules := t'.rules, keys := t'.keys) && t'.rules.Keys == t.rules.Keys
    ensures forall id :: id in t.rules && (id != d.id || t.rules[id].upstream != retained) ==> t'.rules[id] == t.rules[id]
    ensures d.id in t.rules && t.rules[d.id].upstream == retained ==>
              && t'.rules[d.id] == t.rules[d.id].(upstream := d.upstream, activeKey := t'.rules[d.id].activeKey)
              && t'.rules[d.id].activeKey == if d.newActiveKey == None || d.newActiveKey == Some(t.rules[d.id].activeKey)
                                             then d.activeKey else t.rules[d.id].activeKey
    ensures if d.id in t.rules then SegmentKeys.RowsRefreshed(t.segments, d.id, t'.rules[d.id], t.keys, t'.keys) else t'.keys == t.keys
  {
    hide UniqueRuleKeys, UniqueKeyRows;
    if d.id in t.rules {
      SegmentKeys.RefreshedRows(t.segments, d.id, t'.rules[d.id], t.keys, t'.keys);
    }
  }

  // Without the list of added aliases, or when the station has none now, it gets the old ones back.
  lemma OldStationLine(t: Tables, id: string, before: seq<string>, added: Option<seq<string>>, retained: string)
    requires id in t.docs && (added.None? || t.docs[id].aliases.None?)
    ensures UndoRow(t, StationRetained(id, before, added), retained) == Some(t.(docs := t.docs[id := t.docs[id].(aliases := Some(before))]))
  {}

  // With the list, exactly the aliases in it are taken out, as often as they are there.
  lemma StationLine(t: Tables, id: string, before: seq<string>, added: seq<string>, retained: string, alias: string)
    requires id in t.docs && t.docs[id].aliases.Some?
    ensures var out := UndoRow(t, StationRetained(id, before, Some(added)), retained);
            && out.Some? && out.value == t.(docs := t.docs[id := t.docs[id].(aliases := out.value.docs[id].aliases)])
            && out.value.docs[id].aliases.Some?
            && multiset(out.value.docs[id].aliases.value)[alias] == if alias in added then 0 else multiset(t.docs[id].aliases.value)[alias]
  {
    WithoutCounts(t.docs[id].aliases.value, added, alias);
  }

  lemma {:induction false} WithoutCounts(xs: seq<string>, drop: seq<string>, x: string)
    ensures multiset(Without(xs, drop))[x] == if x in drop then 0 else multiset(xs)[x]
  {
    if xs != [] {
      WithoutCounts(xs[1..], drop, x);
      assert xs == [xs[0]] + xs[1..];
    }
  }

  // ----- undoing the other lines, and the merge as a whole

  // A merged station loses its mark and nothing else.
  lemma MergedStationLine(t: Tables, id: string, retained: string)
    ensures var out := UndoRow(t, StationMerged(id), retained);
            && out.Some? && out.value == t.(docs := out.value.docs) && out.value.docs.Keys == t.docs.Keys
            && forall x :: x in t.docs ==>
                 if x == id then out.value.docs[x].mergedInto == None && out.value.docs[x].mergedAt == None && out.value.docs[x].aliases == t.docs[x].aliases
                 else out.value.docs[x] == t.docs[x]
  {}

  // A link still at the retained station goes back, unless its old place is taken; one that is gone stays gone.
  lemma LinkMovedLine(t: Tables, own: string, channel: int, from: string, retained: string)
    ensures var now, was := LinkId(own, channel, retained), LinkId(own, channel, from);
            var out := UndoRow(t, LinkMoved(own, channel, from), retained);
            && (out.None? <==> now in t.links && was in t.links && from != retained)
            && (out.Some? ==>
                  && out.value == t.(links := out.value.links)
                  && (forall id :: id in out.value.links <==> (id in t.links && (id != now || from == retained)) || (id == was && now in t.links))
                  && forall id :: id in out.value.links ==> out.value.links[id] == if id == was && now in t.links then t.links[now] else t.links[id])
  {}

  // A dropped link comes back as it was, unless someone has made it again.
  lemma LinkDroppedLine(t: Tables, own: string, channel: int, station: string, link: Link, retained: string)
    ensures var id := LinkId(own, channel, station);
            var out := UndoRow(t, LinkDropped(own, channel, station, link), retained);
            && out.Some? && out.value == t.(links := out.value.links) && out.value.links.Keys == t.links.Keys + {id}
            && forall x :: x in out.value.links ==> out.value.links[x] == if x in t.links then t.links[x] else link
  {}

  // An undo is refused exactly when the retained station or a merged one was deleted since; one that goes through marks all
  // lines of this merge, and no others, as undone.
  lemma UndoRefusedIff(t: Tables, m: Merge, now: int)
    ensures Undo(t, m, now) == Failure(Blocked)
            <==> m.retainedId !in t.docs || exists i :: 0 <= i < |m.details| && m.details[i].StationMerged? && m.details[i].id !in t.docs
    ensures Undo(t, m, now).Failure? ==> Undo(t, m, now).error == Blocked || Undo(t, m, now).error == Duplicate
  {
    if id :| id in MergedIds(m.details) && id !in t.docs {
      assert StationMerged(id) in m.details;
    }
    forall i | 0 <= i < |m.details| && m.details[i].StationMerged? ensures m.details[i].id in MergedIds(m.details) {
      assert StationMerged(m.details[i].id) == m.details[i];
    }
  }

  lemma UndoMarksLog(t: Tables, m: Merge, now: int, t': Tables)
    requires Undo(t, m, now) == Success(t')
    ensures t'.segments == t.segments && |t'.log| == |t.log|
    ensures forall i :: 0 <= i < |t.log| ==>
              && t'.log[i] == t.log[i].(undoneAt := t'.log[i].undoneAt)
              && t'.log[i].undoneAt == if t.log[i].mergeId == m.mergeId && t.log[i].undoneAt == None then Some(now) else t.log[i].undoneAt
  {
    LogIsLeft(t, m.details, m.retainedId);
  }

  lemma {:induction false} LogIsLeft(t: Tables, details: seq<Detail>, retained: string)
    ensures var out := UndoRows(t, details, retained); out.Some? ==> out.value.log == t.log && out.value.segments == t.segments
    decreases |details|
  {
    if details != [] && UndoRow(t, details[0], retained).Some? {
      var next := UndoRow(t, details[0], retained).value;
      LineLeavesLog(t, details[0], retained);
      hide UndoRow;
      LogIsLeft(next, details[1..], retained);
    }
  }

  lemma LineLeavesLog(t: Tables, d: Detail, retained: string)
    ensures var out := UndoRow(t, d, retained); out.Some? ==> out.value.log == t.log && out.value.segments == t.segments
  {
    hide UndoRule, RenameLink;
  }
}
