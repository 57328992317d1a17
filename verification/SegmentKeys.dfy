// Keeping reconciliation_segment_keys in step with one rule: an ordered list of statements on the
// table (db/segment-keys.js). A statement that would break a unique key fails and stops the list.
module SegmentKeys {
  import opened Outcomes
  import opened ReconciliationTables

  // ----- what each statement does to one row

  // Closed segments, and every segment of a stopped rule, give up their active key.
  function Release(segments: seq<Segment>, ruleId: string, rule: Rule, row: KeyRow): KeyRow {
    if OfRule(segments, row, ruleId) && row.activeKey.Some? && (!InOpenSegment(segments, row) || rule.activeKey.None?)
    then row.(activeKey := None)
    else row
  }

  // Initial rows follow the rule; once the rule has other rows, only those of open segments do.
  function Follow(segments: seq<Segment>, ruleId: string, rule: Rule, agent: bool, row: KeyRow): KeyRow {
    if OfRule(segments, row, ruleId) && row.source == INITIAL && (InOpenSegment(segments, row) || !agent)
    then row.(upstream := rule.upstream, tokenId := rule.tokenId, tokenName := Some(rule.tokenName), activeKey := None)
    else row
  }

  function ClaimInitial(segments: seq<Segment>, ruleId: string, rule: Rule, row: KeyRow): KeyRow {
    if OfRule(segments, row, ruleId) && row.source == INITIAL && InOpenSegment(segments, row) && rule.activeKey.Some?
    then row.(activeKey := rule.activeKey)
    else row
  }

  function ClaimAgent(segments: seq<Segment>, ruleId: string, rule: Rule, row: KeyRow): KeyRow {
    if OfRule(segments, row, ruleId) && row.source != INITIAL && InOpenSegment(segments, row) && rule.activeKey.Some?
    then row.(activeKey := if row.upstream == rule.upstream && row.tokenId == rule.tokenId
                           then rule.activeKey else Some(KeyText(row.upstream, row.tokenId)))
    else row
  }

  // ----- the statements

  function Each(keys: seq<KeyRow>, f: KeyRow -> KeyRow): (out: seq<KeyRow>)
    ensures |out| == |keys|
    ensures forall i :: 0 <= i < |keys| ==> out[i] == f(keys[i])
  {
    seq(|keys|, i requires 0 <= i < |keys| => f(keys[i]))
  }

  predicate HasRow(keys: seq<KeyRow>, segmentId: string) {
    exists row :: row in keys && row.segmentId == segmentId
  }

  predicate HasAgent(segments: seq<Segment>, ruleId: string, keys: seq<KeyRow>) {
    exists row :: row in keys && OfRule(segments, row, ruleId) && row.source != INITIAL
  }

  // The rows to add: one for every segment of the rule in `scan` that has no row yet.
  function Missing(scan: seq<Segment>, ruleId: string, rule: Rule, keys: seq<KeyRow>): (rows: seq<KeyRow>) {
    if scan == [] then []
    else
      var rest := Missing(scan[1..], ruleId, rule, keys);
      if scan[0].ruleId == ruleId && !HasRow(keys, scan[0].id)
      then [KeyRow(scan[0].id, rule.upstream, rule.tokenId, Some(rule.tokenName), None, INITIAL, None)] + rest
      else rest
  }

  // The table after the first two statements.
  function Prepared(segments: seq<Segment>, ruleId: string, rule: Rule, keys: seq<KeyRow>): seq<KeyRow> {
    var released := Each(keys, row => Release(segments, ruleId, rule, row));
    released + Missing(segments, ruleId, rule, released)
  }

  function Followed(segments: seq<Segment>, ruleId: string, rule: Rule, keys: seq<KeyRow>): seq<KeyRow> {
    var agent := HasAgent(segments, ruleId, keys);
    Each(keys, row => Follow(segments, ruleId, rule, agent, row))
  }

  // All five statements; None when one of them meets a duplicate key.
  function Refresh(segments: seq<Segment>, ruleId: string, rule: Rule, keys: seq<KeyRow>): Option<seq<KeyRow>> {
    var prepared := Prepared(segments, ruleId, rule, keys);
    if !UniqueKeyRows(prepared) then None else
    var followed := Followed(segments, ruleId, rule, prepared);
    if !UniqueKeyRows(followed) then None else
    var claimed := Each(followed, row => ClaimInitial(segments, ruleId, rule, row));
    if !UniqueKeyRows(claimed) then None else
    var done := Each(claimed, row => ClaimAgent(segments, ruleId, rule, row));
    if !UniqueKeyRows(done) then None else Some(done)
  }

  // What the last three statements make of one row.
  function Settled(segments: seq<Segment>, ruleId: string, rule: Rule, agent: bool, row: KeyRow): KeyRow {
    ClaimAgent(segments, ruleId, rule, ClaimInitial(segments, ruleId, rule, Follow(segments, ruleId, rule, agent, row)))
  }

  // ----- helper facts

  lemma RefreshRows(segments: seq<Segment>, ruleId: string, rule: Rule, keys: seq<KeyRow>, done: seq<KeyRow>)
    requires Refresh(segments, ruleId, rule, keys) == Some(done)
    ensures var prepared := Prepared(segments, ruleId, rule, keys);
            var agent := HasAgent(segments, ruleId, prepared);
            && UniqueKeyRows(done)
            && |done| == |prepared| >= |keys|
            && (forall i :: 0 <= i < |keys| ==> prepared[i] == Release(segments, ruleId, rule, keys[i]))
            && (forall i :: 0 <= i < |done| ==> done[i] == Settled(segments, ruleId, rule, agent, prepared[i]))
  {
  }

  lemma {:induction false} MissingRows(scan: seq<Segment>, ruleId: string, rule: Rule, keys: seq<KeyRow>)
    ensures var rows := Missing(scan, ruleId, rule, keys);
            && (forall row :: row in rows ==> row.source == INITIAL && row.activeKey.None?)
            && (forall s :: s in scan && s.ruleId == ruleId ==> HasRow(keys + rows, s.id))
  {
    if scan != [] {
      MissingRows(scan[1..], ruleId, rule, keys);
      var rest := Missing(scan[1..], ruleId, rule, keys);
      var rows := Missing(scan, ruleId, rule, keys);
      forall s | s in scan && s.ruleId == ruleId ensures HasRow(keys + rows, s.id) {
        if s in scan[1..] {
          var row :| row in keys + rest && row.segmentId == s.id;
          assert row in keys + rows;
        } else if HasRow(keys, s.id) {
          var row :| row in keys && row.segmentId == s.id;
          assert row in keys + rows;
        } else {
          assert rows[0] in keys + rows;
        }
      }
    }
  }

  lemma {:induction false} NothingMissing(scan: seq<Segment>, ruleId: string, rule: Rule, keys: seq<KeyRow>)
    requires forall s :: s in scan && s.ruleId == ruleId ==> HasRow(keys, s.id)
    ensures Missing(scan, ruleId, rule, keys) == []
  {
    if scan != [] {
      assert forall s :: s in scan[1..] ==> s in scan;
      NothingMissing(scan[1..], ruleId, rule, keys);
    }
  }

  // Rows whose active keys are dropped or kept stay unique.
  lemma DroppingKeepsUnique(keys: seq<KeyRow>, fewer: seq<KeyRow>)
    requires UniqueKeyRows(keys) && |fewer| == |keys|
    requires forall i :: 0 <= i < |keys| ==> fewer[i] == keys[i] || fewer[i] == keys[i].(activeKey := None)
    ensures UniqueKeyRows(fewer)
  {
  }

  // ----- what refreshing guarantees

  // A row the statements have settled is settled for good; on the way it only drops its active key.
  lemma SettledIsStable(segments: seq<Segment>, ruleId: string, rule: Rule, agent: bool, row: KeyRow)
    requires OfRule(segments, row, ruleId) && (!InOpenSegment(segments, row) || rule.activeKey.None?) ==> row.activeKey.None?
    ensures var done := Settled(segments, ruleId, rule, agent, row);
            var followed := Follow(segments, ruleId, rule, agent, done);
            var claimed := ClaimInitial(segments, ruleId, rule, followed);
            && Release(segments, ruleId, rule, done) == done
            && (followed == done || followed == done.(activeKey := None))
            && (claimed == done || claimed == done.(activeKey := None))
            && ClaimAgent(segments, ruleId, rule, claimed) == done
  {
  }

  // Running the statements again changes nothing, and cannot fail.
  lemma RefreshIdempotent(segments: seq<Segment>, ruleId: string, rule: Rule, keys: seq<KeyRow>, done: seq<KeyRow>)
    requires Refresh(segments, ruleId, rule, keys) == Some(done)
    ensures Refresh(segments, ruleId, rule, done) == Some(done)
  {
    var prepared := Prepared(segments, ruleId, rule, keys);
    var agent := HasAgent(segments, ruleId, prepared);
    RefreshRows(segments, ruleId, rule, keys, done);
    PreparedIsClear(segments, ruleId, rule, keys);
    forall i | 0 <= i < |done| ensures StableRow(segments, ruleId, rule, agent, done[i]) {
      assert prepared[i] in prepared;
      SettledIsStable(segments, ruleId, rule, agent, prepared[i]);
    }
    PreparedAgain(segments, ruleId, rule, agent, prepared, done);
    AgentUnchanged(segments, ruleId, rule, agent, prepared, done);
    RefreshStable(segments, ruleId, rule, agent, done);
  }

  ghost predicate StableRow(segments: seq<Segment>, ruleId: string, rule: Rule, agent: bool, row: KeyRow) {
    var followed := Follow(segments, ruleId, rule, agent, row);
    var claimed := ClaimInitial(segments, ruleId, rule, followed);
    && Release(segments, ruleId, rule, row) == row
    && (followed == row || followed == row.(activeKey := None))
    && (claimed == row || claimed == row.(activeKey := None))
    && ClaimAgent(segments, ruleId, rule, claimed) == row
  }

  lemma PreparedAgain(segments: seq<Segment>, ruleId: string, rule: Rule, agent: bool, prepared: seq<KeyRow>, done: seq<KeyRow>)
    requires |prepared| == |done|
    requires forall i :: 0 <= i < |done| ==> done[i] == Settled(segments, ruleId, rule, agent, prepared[i])
    requires forall i :: 0 <= i < |done| ==> StableRow(segments, ruleId, rule, agent, done[i])
    requires forall s :: s in segments && s.ruleId == ruleId ==> HasRow(prepared, s.id)
    ensures Prepared(segments, ruleId, rule, done) == done
  {
    assert Each(done, row => Release(segments, ruleId, rule, row)) == done;
    forall s | s in segments && s.ruleId == ruleId ensures HasRow(done, s.id) {
      var row :| row in prepared && row.segmentId == s.id;
      var i :| 0 <= i < |prepared| && prepared[i] == row;
      assert done[i] in done && done[i].segmentId == s.id;
    }
    NothingMissing(segments, ruleId, rule, done);
  }

  lemma RefreshStable(segments: seq<Segment>, ruleId: string, rule: Rule, agent: bool, done: seq<KeyRow>)
    requires UniqueKeyRows(done)
    requires Prepared(segments, ruleId, rule, done) == done && HasAgent(segments, ruleId, done) == agent
    requires forall i :: 0 <= i < |done| ==> StableRow(segments, ruleId, rule, agent, done[i])
    ensures Refresh(segments, ruleId, rule, done) == Some(done)
  {
    var followed := Followed(segments, ruleId, rule, done);
    assert UniqueKeyRows(followed) by { DroppingKeepsUnique(done, followed); }
    var claimed := Each(followed, row => ClaimInitial(segments, ruleId, rule, row));
    assert UniqueKeyRows(claimed) by { DroppingKeepsUnique(done, claimed); }
    assert Each(claimed, row => ClaimAgent(segments, ruleId, rule, row)) == done;
  }

  // After the first two statements no closed segment and no stopped rule holds a key,
  // and every segment of the rule has a row.
  lemma PreparedIsClear(segments: seq<Segment>, ruleId: string, rule: Rule, keys: seq<KeyRow>)
    ensures var prepared := Prepared(segments, ruleId, rule, keys);
            && (forall row | row in prepared && OfRule(segments, row, ruleId) ::
                  !InOpenSegment(segments, row) || rule.activeKey.None? ==> row.activeKey.None?)
            && (forall s :: s in segments && s.ruleId == ruleId ==> HasRow(prepared, s.id))
  {
    var released := Each(keys, row => Release(segments, ruleId, rule, row));
    MissingRows(segments, ruleId, rule, released);
  }

  lemma AgentUnchanged(segments: seq<Segment>, ruleId: string, rule: Rule, agent: bool, keys: seq<KeyRow>, done: seq<KeyRow>)
    requires |keys| == |done|
    requires forall i :: 0 <= i < |keys| ==> done[i] == Settled(segments, ruleId, rule, agent, keys[i])
    ensures HasAgent(segments, ruleId, done) == HasAgent(segments, ruleId, keys)
  {
    if HasAgent(segments, ruleId, keys) {
      var i :| 0 <= i < |keys| && OfRule(segments, keys[i], ruleId) && keys[i].source != INITIAL;
      assert done[i] in done;
    }
    if HasAgent(segments, ruleId, done) {
      var i :| 0 <= i < |done| && OfRule(segments, done[i], ruleId) && done[i].source != INITIAL;
      assert keys[i] in keys;
    }
  }

  // Two tables that differ only in the active keys of this rule's rows refresh to the same table.
  ghost predicate SameButActiveKeys(segments: seq<Segment>, ruleId: string, a: seq<KeyRow>, b: seq<KeyRow>) {
    && |a| == |b|
    && forall i :: 0 <= i < |a| ==>
         if OfRule(segments, a[i], ruleId) then a[i].(activeKey := None) == b[i].(activeKey := None) else a[i] == b[i]
  }

  lemma RefreshForgetsActiveKeys(segments: seq<Segment>, ruleId: string, rule: Rule,
                                 a: seq<KeyRow>, b: seq<KeyRow>, doneA: seq<KeyRow>, doneB: seq<KeyRow>)
    requires SameButActiveKeys(segments, ruleId, a, b)
    requires Refresh(segments, ruleId, rule, a) == Some(doneA)
    requires Refresh(segments, ruleId, rule, b) == Some(doneB)
    ensures doneA == doneB
  {
    var preparedA, preparedB := Prepared(segments, ruleId, rule, a), Prepared(segments, ruleId, rule, b);
    PreparedForgets(segments, ruleId, rule, a, b);
    SameAgent(segments, ruleId, preparedA, preparedB);
    SameAgent(segments, ruleId, preparedB, preparedA);
    RefreshRows(segments, ruleId, rule, a, doneA);
    RefreshRows(segments, ruleId, rule, b, doneB);
    var agent := HasAgent(segments, ruleId, preparedA);
    forall i | 0 <= i < |doneA| ensures doneA[i] == doneB[i] {
      SettledForgets(segments, ruleId, rule, agent, preparedA[i], preparedB[i]);
    }
  }

  ghost predicate ClearRow(segments: seq<Segment>, ruleId: string, rule: Rule, row: KeyRow) {
    OfRule(segments, row, ruleId) && (!InOpenSegment(segments, row) || rule.activeKey.None?) ==> row.activeKey.None?
  }

  lemma PreparedForgets(segments: seq<Segment>, ruleId: string, rule: Rule, a: seq<KeyRow>, b: seq<KeyRow>)
    requires SameButActiveKeys(segments, ruleId, a, b)
    ensures var preparedA, preparedB := Prepared(segments, ruleId, rule, a), Prepared(segments, ruleId, rule, b);
            && SameButActiveKeys(segments, ruleId, preparedA, preparedB)
            && (forall i :: 0 <= i < |preparedA| ==> ClearRow(segments, ruleId, rule, preparedA[i]))
            && (forall i :: 0 <= i < |preparedB| ==> ClearRow(segments, ruleId, rule, preparedB[i]))
  {
    var releasedA := Each(a, row => Release(segments, ruleId, rule, row));
    var releasedB := Each(b, row => Release(segments, ruleId, rule, row));
    SameMissing(segments, ruleId, rule, releasedA, releasedB);
    PreparedIsClear(segments, ruleId, rule, a);
    PreparedIsClear(segments, ruleId, rule, b);
    var preparedA, preparedB := Prepared(segments, ruleId, rule, a), Prepared(segments, ruleId, rule, b);
    forall i | 0 <= i < |preparedA| ensures ClearRow(segments, ruleId, rule, preparedA[i]) {
      assert preparedA[i] in preparedA;
    }
    forall i | 0 <= i < |preparedB| ensures ClearRow(segments, ruleId, rule, preparedB[i]) {
      assert preparedB[i] in preparedB;
    }
  }

  lemma SettledForgets(segments: seq<Segment>, ruleId: string, rule: Rule, agent: bool, a: KeyRow, b: KeyRow)
    requires if OfRule(segments, a, ruleId) then a.(activeKey := None) == b.(activeKey := None) else a == b
    requires ClearRow(segments, ruleId, rule, a) && ClearRow(segments, ruleId, rule, b)
    ensures Settled(segments, ruleId, rule, agent, a) == Settled(segments, ruleId, rule, agent, b)
  {
  }

  lemma SameAgent(segments: seq<Segment>, ruleId: string, a: seq<KeyRow>, b: seq<KeyRow>)
    requires SameButActiveKeys(segments, ruleId, a, b)
    ensures HasAgent(segments, ruleId, a) ==> HasAgent(segments, ruleId, b)
    ensures SameButActiveKeys(segments, ruleId, b, a)
  {
    if HasAgent(segments, ruleId, a) {
      var i :| 0 <= i < |a| && OfRule(segments, a[i], ruleId) && a[i].source != INITIAL;
      assert b[i] in b;
    }
  }

  lemma {:induction false} SameMissing(scan: seq<Segment>, ruleId: string, rule: Rule, a: seq<KeyRow>, b: seq<KeyRow>)
    requires |a| == |b| && forall i :: 0 <= i < |a| ==> a[i].segmentId == b[i].segmentId
    ensures Missing(scan, ruleId, rule, a) == Missing(scan, ruleId, rule, b)
  {
    if scan != [] {
      SameMissing(scan[1..], ruleId, rule, a, b);
      var id := scan[0].id;
      if HasRow(a, id) {
        var i :| 0 <= i < |a| && a[i].segmentId == id;
        assert b[i] in b;
      }
      if HasRow(b, id) {
        var i :| 0 <= i < |b| && b[i].segmentId == id;
        assert a[i] in a;
      }
    }
  }

  // Who holds an active key afterwards: no closed segment, no row of a stopped rule; and in the open
  // segments of a rule in use every row does, so the rule's own key has at most one holder.
  lemma RefreshHolders(segments: seq<Segment>, ruleId: string, rule: Rule, keys: seq<KeyRow>, done: seq<KeyRow>, i: nat)
    requires Refresh(segments, ruleId, rule, keys) == Some(done)
    requires i < |done| && OfRule(segments, done[i], ruleId)
    ensures done[i].activeKey.Some? <==> InOpenSegment(segments, done[i]) && rule.activeKey.Some?
    ensures done[i].activeKey.Some? && done[i].upstream == rule.upstream && done[i].tokenId == rule.tokenId
            ==> done[i].activeKey == rule.activeKey
  {
    RefreshRows(segments, ruleId, rule, keys, done);
    PreparedIsClear(segments, ruleId, rule, keys);
    assert Prepared(segments, ruleId, rule, keys)[i] in Prepared(segments, ruleId, rule, keys);
  }

  // History is not rewritten: once a rule has a non-initial row, the rows of its closed segments keep
  // everything but their active key; and rows of other rules keep everything.
  lemma RefreshKeepsHistory(segments: seq<Segment>, ruleId: string, rule: Rule, keys: seq<KeyRow>, done: seq<KeyRow>, i: nat)
    requires Refresh(segments, ruleId, rule, keys) == Some(done)
    requires i < |keys|
    ensures |done| >= |keys|
    ensures !OfRule(segments, keys[i], ruleId) ==> done[i] == keys[i]
    ensures OfRule(segments, keys[i], ruleId) && HasAgent(segments, ruleId, keys) && !InOpenSegment(segments, keys[i])
            ==> done[i] == keys[i].(activeKey := None)
    ensures done[i].segmentId == keys[i].segmentId && done[i].source == keys[i].source && done[i].mask == keys[i].mask
  {
    RefreshedRows(segments, ruleId, rule, keys, done);
    hide Refresh, UniqueKeyRows, HasAgent, RowAdded, HasRow;
  }

  // ----- what becomes of every row, without the statements

  // A row of another rule keeps everything. An initial row follows the rule unless its segment is closed and the rule has a
  // row of another source; a row of another source keeps its upstream and token. Only rows of open segments hold a key: the
  // rule's, or their own "upstream:token" when it is another key than the rule's.
  predicate RowRefreshed(segments: seq<Segment>, ruleId: string, rule: Rule, others: bool, row: KeyRow, after: KeyRow) {
    if !OfRule(segments, row, ruleId) then after == row
    else
      var open := InOpenSegment(segments, row);
      && after.segmentId == row.segmentId && after.mask == row.mask && after.source == row.source
      && (if row.source == INITIAL && (open || !others)
          then after.upstream == rule.upstream && after.tokenId == rule.tokenId && after.tokenName == Some(rule.tokenName)
          else after.upstream == row.upstream && after.tokenId == row.tokenId && after.tokenName == row.tokenName)
      && after.activeKey == (if !open || rule.activeKey.None? then None
                             else if row.source == INITIAL || (row.upstream == rule.upstream && row.tokenId == rule.tokenId) then rule.activeKey
                             else Some(KeyText(row.upstream, row.tokenId)))
  }

  predicate HasSegment(segments: seq<Segment>, ruleId: string, id: string) {
    exists s :: s in segments && s.ruleId == ruleId && s.id == id
  }

  // A row added for a segment of the rule that had none.
  predicate RowAdded(segments: seq<Segment>, ruleId: string, rule: Rule, keys: seq<KeyRow>, row: KeyRow) {
    && HasSegment(segments, ruleId, row.segmentId) && !HasRow(keys, row.segmentId)
    && row.upstream == rule.upstream && row.tokenId == rule.tokenId && row.tokenName == Some(rule.tokenName)
    && row.mask == None && row.source == INITIAL
    && row.activeKey == if OfRule(segments, row, ruleId) && InOpenSegment(segments, row) then rule.activeKey else None
  }

  ghost predicate RowsRefreshed(segments: seq<Segment>, ruleId: string, rule: Rule, keys: seq<KeyRow>, done: seq<KeyRow>) {
    && |keys| <= |done|
    && (forall i :: 0 <= i < |keys| ==> RowRefreshed(segments, ruleId, rule, HasAgent(segments, ruleId, keys), keys[i], done[i]))
    && (forall i :: |keys| <= i < |done| ==> RowAdded(segments, ruleId, rule, keys, done[i]))
    && (forall s :: s in segments && s.ruleId == ruleId ==> HasRow(done, s.id))
    && UniqueKeyRows(done)
  }

  lemma RefreshedRows(segments: seq<Segment>, ruleId: string, rule: Rule, keys: seq<KeyRow>, done: seq<KeyRow>)
    requires Refresh(segments, ruleId, rule, keys) == Some(done)
    ensures RowsRefreshed(segments, ruleId, rule, keys, done)
  {
    hide UniqueKeyRows, Refresh, Prepared, RowRefreshed, RowAdded, Settled, Release, HasAgent, HasSegment, HasRow, NewRow;
    var prepared := Prepared(segments, ruleId, rule, keys);
    var others := HasAgent(segments, ruleId, keys);
    RefreshRows(segments, ruleId, rule, keys, done);
    AddedRows(segments, ruleId, rule, keys);
    AddedChangesNoSource(segments, ruleId, rule, keys);
    forall i | 0 <= i < |keys| ensures RowRefreshed(segments, ruleId, rule, others, keys[i], done[i]) {
      SettledRow(segments, ruleId, rule, others, keys[i]);
    }
    forall i | |keys| <= i < |done| ensures RowAdded(segments, ruleId, rule, keys, done[i]) {
      SettledNew(segments, ruleId, rule, others, keys, prepared[i]);
    }
    AllHaveRows(segments, ruleId, rule, keys, done);
  }

  lemma AllHaveRows(segments: seq<Segment>, ruleId: string, rule: Rule, keys: seq<KeyRow>, done: seq<KeyRow>)
    requires Refresh(segments, ruleId, rule, keys) == Some(done)
    ensures forall s :: s in segments && s.ruleId == ruleId ==> HasRow(done, s.id)
  {
    hide Refresh, Prepared;
    var prepared := Prepared(segments, ruleId, rule, keys);
    RefreshRows(segments, ruleId, rule, keys, done);
    PreparedIsClear(segments, ruleId, rule, keys);
    forall s | s in segments && s.ruleId == ruleId ensures HasRow(done, s.id) {
      var row :| row in prepared && row.segmentId == s.id;
      var i :| 0 <= i < |prepared| && prepared[i] == row;
      assert done[i] in done && done[i].segmentId == s.id;
    }
  }

  lemma SettledRow(segments: seq<Segment>, ruleId: string, rule: Rule, others: bool, row: KeyRow)
    ensures RowRefreshed(segments, ruleId, rule, others, row, Settled(segments, ruleId, rule, others, Release(segments, ruleId, rule, row)))
  {}

  // A row as the second statement adds it.
  predicate NewRow(segments: seq<Segment>, ruleId: string, rule: Rule, keys: seq<KeyRow>, row: KeyRow) {
    && row == KeyRow(row.segmentId, rule.upstream, rule.tokenId, Some(rule.tokenName), None, INITIAL, None)
    && HasSegment(segments, ruleId, row.segmentId) && !HasRow(keys, row.segmentId)
  }

  lemma SettledNew(segments: seq<Segment>, ruleId: string, rule: Rule, others: bool, keys: seq<KeyRow>, row: KeyRow)
    requires NewRow(segments, ruleId, rule, keys, row)
    ensures RowAdded(segments, ruleId, rule, keys, Settled(segments, ruleId, rule, others, row))
  {
    hide HasSegment, HasRow;
  }

  lemma AddedRows(segments: seq<Segment>, ruleId: string, rule: Rule, keys: seq<KeyRow>)
    ensures var prepared := Prepared(segments, ruleId, rule, keys);
            |keys| <= |prepared| && forall i :: |keys| <= i < |prepared| ==> NewRow(segments, ruleId, rule, keys, prepared[i])
  {
    var released := Each(keys, row => Release(segments, ruleId, rule, row));
    MissingAre(segments, ruleId, rule, released);
    SameIds(keys, released);
    hide HasSegment, HasRow;
    var rows := Missing(segments, ruleId, rule, released);
    forall i | |keys| <= i < |released + rows| ensures NewRow(segments, ruleId, rule, keys, (released + rows)[i]) {
      assert (released + rows)[i] in rows;
    }
  }

  lemma SameIds(a: seq<KeyRow>, b: seq<KeyRow>)
    requires |a| == |b| && forall i :: 0 <= i < |a| ==> a[i].segmentId == b[i].segmentId
    ensures forall id :: HasRow(a, id) <==> HasRow(b, id)
  {
    forall id ensures HasRow(a, id) <==> HasRow(b, id) {
      if HasRow(a, id) {
        var i :| 0 <= i < |a| && a[i].segmentId == id;
        assert b[i] in b;
      }
      if HasRow(b, id) {
        var i :| 0 <= i < |b| && b[i].segmentId == id;
        assert a[i] in a;
      }
    }
  }

  lemma AddedChangesNoSource(segments: seq<Segment>, ruleId: string, rule: Rule, keys: seq<KeyRow>)
    ensures HasAgent(segments, ruleId, Prepared(segments, ruleId, rule, keys)) == HasAgent(segments, ruleId, keys)
  {
    var prepared := Prepared(segments, ruleId, rule, keys);
    AddedRows(segments, ruleId, rule, keys);
    hide HasSegment, HasRow, UniqueKeyRows;
    if HasAgent(segments, ruleId, keys) {
      var i :| 0 <= i < |keys| && OfRule(segments, keys[i], ruleId) && keys[i].source != INITIAL;
      assert prepared[i] in prepared;
    }
    if HasAgent(segments, ruleId, prepared) {
      var i :| 0 <= i < |prepared| && OfRule(segments, prepared[i], ruleId) && prepared[i].source != INITIAL;
      assert i < |keys| ==> keys[i] in keys;
      assert i >= |keys| ==> NewRow(segments, ruleId, rule, keys, prepared[i]);
    }
  }

  lemma {:induction false} MissingAre(scan: seq<Segment>, ruleId: string, rule: Rule, keys: seq<KeyRow>)
    ensures forall row :: row in Missing(scan, ruleId, rule, keys) ==> NewRow(scan, ruleId, rule, keys, row)
  {
    hide HasRow;
    if scan != [] {
      MissingAre(scan[1..], ruleId, rule, keys);
      assert scan[0] in scan && forall s :: s in scan[1..] ==> s in scan;
    }
  }
}
