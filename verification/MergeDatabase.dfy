// The merge repository as it runs: tables updated in place, row by row, inside transactions that are rolled back on error.
// Every method is proved against the specification functions of UpstreamMerge, SegmentKeys and MergeHistory.
module MergeDatabase {
  import opened Outcomes
  import opened ReconciliationTables
  import opened UpstreamMerge
  import SegmentKeys
  import MergeHistory

  // What the part of a loop already done contributes to the result of the rest.
  function AfterRules(done: seq<Detail>, rest: Result<Moved, Error>): (r: Result<Moved, Error>)
    ensures done == [] ==> r == rest
    ensures rest.Success? && rest.value.details == [] ==> r == Success(rest.value.(details := done))
  {
    match rest
    case Failure(e) => Failure(e)
    case Success(m) =>
      assert done == [] ==> done + m.details == m.details;
      assert m.details == [] ==> done + m.details == done;
      Success(m.(details := done + m.details))
  }

  function AfterLinks(done: seq<Detail>, rest: Result<(map<LinkId, Link>, seq<Detail>), Error>)
    : (r: Result<(map<LinkId, Link>, seq<Detail>), Error>)
    ensures done == [] ==> r == rest
    ensures rest.Success? && rest.value.1 == [] ==> r == Success((rest.value.0, done))
  {
    match rest
    case Failure(e) => Failure(e)
    case Success(m) =>
      assert done == [] ==> done + m.1 == m.1;
      assert m.1 == [] ==> done + m.1 == done;
      Success((m.0, done + m.1))
  }

  class Database {
    var rules: map<string, Rule>
    var segments: seq<Segment>
    var keys: seq<KeyRow>
    var links: map<LinkId, Link>
    var docs: map<string, Doc>
    var log: seq<LogRow>

    function State(): Tables
      reads this
    {
      Tables(rules, segments, keys, links, docs, log)
    }

    constructor (t: Tables)
      ensures State() == t
    {
      rules, segments, keys, links, docs, log := t.rules, t.segments, t.keys, t.links, t.docs, t.log;
    }

    // ROLLBACK.
    method Restore(t: Tables)
      modifies this
      ensures State() == t
    {
      rules, segments, keys, links, docs, log := t.rules, t.segments, t.keys, t.links, t.docs, t.log;
    }

    // The five statements for one rule, each checked against the unique keys when it runs.
    method RefreshSegmentKeys(ruleId: string) returns (ok: bool)
      modifies this`keys
      ensures ruleId !in rules ==> ok && keys == old(keys)
      ensures ruleId in rules ==>
        (ok <==> SegmentKeys.Refresh(segments, ruleId, rules[ruleId], old(keys)).Some?)
        && (ok ==> Some(keys) == SegmentKeys.Refresh(segments, ruleId, rules[ruleId], old(keys)))
    {
      if ruleId !in rules { return true; }
      var rule, ss := rules[ruleId], segments;
      keys := SegmentKeys.Each(keys, row => SegmentKeys.Release(ss, ruleId, rule, row));
      keys := keys + SegmentKeys.Missing(ss, ruleId, rule, keys);
      if !UniqueKeyRows(keys) { return false; }
      keys := SegmentKeys.Followed(ss, ruleId, rule, keys);
      if !UniqueKeyRows(keys) { return false; }
      keys := SegmentKeys.Each(keys, row => SegmentKeys.ClaimInitial(ss, ruleId, rule, row));
      if !UniqueKeyRows(keys) { return false; }
      keys := SegmentKeys.Each(keys, row => SegmentKeys.ClaimAgent(ss, ruleId, rule, row));
      return UniqueKeyRows(keys);
    }

    // ----- merging

    // The inner loop over the key rows of one rule.
    method MoveKeyRows(moved: seq<MovedKey>, from: string, to: string) returns (ok: bool)
      modifies this`keys
      ensures ok <==> MoveKeys(old(keys), moved, from, to).Some?
      ensures ok ==> Some(keys) == MoveKeys(old(keys), moved, from, to)
    {
      var k := 0;
      while k < |moved|
        invariant 0 <= k <= |moved|
        invariant MoveKeys(old(keys), moved, from, to) == MoveKeys(keys, moved[k..], from, to)
      {
        keys := MoveKey(keys, moved[k], from, to);
        assert moved[k..][1..] == moved[k + 1..];
        if !UniqueKeyRows(keys) { return false; }
        k := k + 1;
      }
      return true;
    }

    method MoveRuleRows(order: seq<string>, retained: string) returns (r: Result<seq<Detail>, Error>)
      requires forall id :: id in order ==> id in rules
      modifies this`rules, this`keys
      ensures match MoveRules(old(rules), segments, old(keys), order, retained)
              case Failure(e) => r == Failure(e)
              case Success(m) => r == Success(m.details) && rules == m.rules && keys == m.keys
    {
      var done, k := [], 0;
      assert order[0..] == order;
      while k < |order|
        invariant 0 <= k <= |order| && forall id :: id in order ==> id in rules
        invariant MoveRules(old(rules), segments, old(keys), order, retained)
                  == AfterRules(done, MoveRules(rules, segments, keys, order[k..], retained))
      {
        var id, rule := order[k], rules[order[k]];
        ghost var rules0, keys0 := rules, keys;
        assert order[k..][0] == id && order[k..][1..] == order[k + 1..];
        var detail := RuleDetail(segments, keys, id, rule, retained);
        rules := rules[id := MovedRule(rule, retained)];
        if !UniqueRuleKeys(rules) {
          assert MoveRule(rules0, segments, keys0, id, retained) == Failure(Conflict);
          return Failure(Conflict);
        }
        var ok := MoveKeyRows(detail.segmentKeys.value, rule.upstream, retained);
        if !ok {
          assert MoveRule(rules0, segments, keys0, id, retained) == Failure(Conflict);
          return Failure(Conflict);
        }
        assert MoveRule(rules0, segments, keys0, id, retained) == Success((rules, keys, detail));
        TurnTaken(done, rules0, segments, keys0, order[k..], retained);
        done, k := done + [detail], k + 1;
      }
      return Success(done);
    }

    method MoveLinkRows(rows: seq<LinkRow>, retained: string) returns (r: Result<seq<Detail>, Error>)
      modifies this`links
      ensures match MoveLinks(old(links), PresentLinks(old(links), retained), rows, retained)
              case Failure(e) => r == Failure(e)
              case Success(m) => r == Success(m.1) && links == m.0
    {
      var present, done, k := PresentLinks(links, retained), [], 0;
      assert rows[0..] == rows;
      while k < |rows|
        invariant 0 <= k <= |rows|
        invariant MoveLinks(old(links), PresentLinks(old(links), retained), rows, retained)
                  == AfterLinks(done, MoveLinks(links, present, rows[k..], retained))
      {
        var id, link := rows[k].id, rows[k].link;
        assert rows[k..][0] == rows[k] && rows[k..][1..] == rows[k + 1..];
        ghost var rest := rows[k + 1..];
        if (id.own, id.channel) in present {
          links := links - {id};
          var line := LinkDropped(id.own, id.channel, id.station, link);
          OneMoreLink(done, line, MoveLinks(links, present, rest, retained));
          done := done + [line];
        } else {
          var renamed := RenameLink(links, id, Retargeted(id, retained));
          if renamed.None? { return Failure(Duplicate); }
          links, present := renamed.value, present + {(id.own, id.channel)};
          var line := LinkMoved(id.own, id.channel, id.station);
          OneMoreLink(done, line, MoveLinks(links, present, rest, retained));
          done := done + [line];
        }
        k := k + 1;
      }
      return Success(done);
    }

    // The transaction of one merge: documents first, then rules, key rows and links, the log last.
    method Merge(g: Group, mergeId: string, now: int, order: seq<string>, rows: seq<LinkRow>) returns (r: Result<(nat, nat), Error>)
      requires forall id :: id in order ==> id in rules
      modifies this
      ensures match Apply(old(State()), g, mergeId, now, order, rows)
              case Failure(e) => r == Failure(e) && State() == old(State())
              case Success(t) => r.Success? && State() == t && r.value.0 == |order| && r.value.1 == |rows|
    {
      var before := State();
      var outcome := ApplyMergeRows(g, mergeId, now, order, rows);
      if outcome.Failure? {
        Restore(before);
        return Failure(outcome.error);
      }
      return Success((|order|, |rows|));
    }

    method ApplyMergeRows(g: Group, mergeId: string, now: int, order: seq<string>, rows: seq<LinkRow>) returns (r: Result<(), Error>)
      requires forall id :: id in order ==> id in rules
      modifies this
      ensures match Apply(old(State()), g, mergeId, now, order, rows)
              case Failure(e) => r == Failure(e)
              case Success(t) => r.Success? && State() == t
    {
      if !Mergeable(docs, g) { return Failure(Stale); }
      var lines := StationDetails(docs, g);
      docs := PatchedDocs(docs, g, now);
      if multiset(order) != multiset(g.ruleIds) { return Failure(Stale); }
      var moved := MoveRuleRows(order, g.retainedId);
      if moved.Failure? { return Failure(moved.error); }
      if |rows| != g.linkCount { return Failure(Stale); }
      var linked := MoveLinkRows(rows, g.retainedId);
      if linked.Failure? { return Failure(linked.error); }
      log := log + LogRows(mergeId, now, g.retainedId, lines + moved.value + linked.value);
      return Success(());
    }

    // ----- undoing

    method RestoreKeyRows(moved: seq<MovedKey>, from: string, to: string) returns (ok: bool)
      modifies this`keys
      ensures ok <==> RestoreKeys(old(keys), moved, from, to).Some?
      ensures ok ==> Some(keys) == RestoreKeys(old(keys), moved, from, to)
    {
      var k := 0;
      while k < |moved|
        invariant 0 <= k <= |moved|
        invariant RestoreKeys(old(keys), moved, from, to) == RestoreKeys(keys, moved[k..], from, to)
      {
        keys := RestoreKey(keys, moved[k], from, to);
        assert moved[k..][1..] == moved[k + 1..];
        if !UniqueKeyRows(keys) { return false; }
        k := k + 1;
      }
      return true;
    }

    method UndoRuleLine(d: Detail, retained: string) returns (ok: bool)
      requires d.RuleMoved?
      modifies this`rules, this`keys
      ensures match UndoRule(old(rules), segments, old(keys), d, retained)
              case None => !ok
              case Some(u) => ok && rules == u.0 && keys == u.1
    {
      var reverted := StillRetained(rules, d.id, retained);
      if reverted {
        rules := rules[d.id := RestoredRule(rules[d.id], d)];
      }
      if !UniqueRuleKeys(rules) { return false; }
      if d.segmentKeys.Some? {
        if reverted {
          ok := RestoreKeyRows(d.segmentKeys.value, retained, d.upstream);
        } else {
          ok := true;
        }
      } else {
        ok := RefreshSegmentKeys(d.id);
      }
    }

    // One line of the log.
    method UndoLine(d: Detail, retained: string) returns (ok: bool)
      modifies this
      ensures match UndoRow(old(State()), d, retained)
              case None => !ok
              case Some(t) => ok && State() == t
    {
      ok := true;
      match d
      case StationMerged(id) =>
        if id in docs { docs := docs[id := docs[id].(mergedInto := None, mergedAt := None)]; }
      case StationRetained(id, before, added) =>
        if id in docs { docs := docs[id := docs[id].(aliases := Some(AliasesAfterUndo(docs[id].aliases, before, added)))]; }
      case RuleMoved(_, _, _, _, _) =>
        ok := UndoRuleLine(d, retained);
      case LinkMoved(own, channel, from) =>
        var renamed := RenameLink(links, LinkId(own, channel, retained), LinkId(own, channel, from));
        if renamed.None? { return false; }
        links := renamed.value;
      case LinkDropped(own, channel, station, link) =>
        var id := LinkId(own, channel, station);
        if id !in links { links := links[id := link]; }
    }

    method UndoMergeRows(m: UpstreamMerge.Merge, now: int) returns (r: Result<(), Error>)
      modifies this
      ensures match Undo(old(State()), m, now)
              case Failure(e) => r == Failure(e)
              case Success(t) => r.Success? && State() == t
    {
      if !Undoable(docs, m) { return Failure(Blocked); }
      var k := 0;
      while k < |m.details|
        invariant 0 <= k <= |m.details|
        invariant UndoRows(old(State()), m.details, m.retainedId) == UndoRows(State(), m.details[k..], m.retainedId)
      {
        assert m.details[k..][0] == m.details[k] && m.details[k..][1..] == m.details[k + 1..];
        var ok := UndoLine(m.details[k], m.retainedId);
        if !ok { return Failure(Duplicate); }
        k := k + 1;
      }
      assert UndoRows(old(State()), m.details, m.retainedId) == Some(State());
      log := MarkUndone(log, m.mergeId, now);
      return Success(());
    }

    // undoMerges with apply: a failing merge is rolled back alone and stops the loop.
    method UndoMerges(now: int) returns (applied: seq<string>, error: Option<Error>)
      modifies this
      ensures MergeHistory.Report(State(), applied, error)
              == MergeHistory.UndoMerges(old(State()), MergeHistory.ListMerges(old(log)), now)
    {
      var merges := MergeHistory.ListMerges(log);
      applied, error := [], None;
      var k := 0;
      while k < |merges|
        invariant 0 <= k <= |merges|
        invariant MergeHistory.UndoMerges(old(State()), merges, now)
                  == var rest := MergeHistory.UndoMerges(State(), merges[k..], now); rest.(applied := applied + rest.applied)
      {
        var before := State();
        assert merges[k..][0] == merges[k] && merges[k..][1..] == merges[k + 1..];
        ghost var rest := MergeHistory.UndoMerges(before, merges[k..], now);
        var outcome := UndoMergeRows(merges[k], now);
        if outcome.Failure? {
          Restore(before);
          assert rest == MergeHistory.Report(before, [], Some(outcome.error));
          return applied, Some(outcome.error);
        }
        ghost var more := MergeHistory.UndoMerges(State(), merges[k + 1..], now);
        assert applied + rest.applied == applied + [merges[k].mergeId] + more.applied;
        applied, k := applied + [merges[k].mergeId], k + 1;
      }
    }
  }

  lemma TurnTaken(done: seq<Detail>, rules: map<string, Rule>, segments: seq<Segment>, keys: seq<KeyRow>, order: seq<string>, retained: string)
    requires order != [] && (forall id :: id in order ==> id in rules)
    requires MoveRule(rules, segments, keys, order[0], retained).Success?
    ensures var one := MoveRule(rules, segments, keys, order[0], retained).value;
            && (forall id :: id in order ==> id in one.0)
            && AfterRules(done, MoveRules(rules, segments, keys, order, retained))
               == AfterRules(done + [one.2], MoveRules(one.0, segments, one.1, order[1..], retained))
  {
    var one := MoveRule(rules, segments, keys, order[0], retained).value;
    match MoveRules(one.0, segments, one.1, order[1..], retained)
    case Failure(_) =>
    case Success(m) => assert done + ([one.2] + m.details) == done + [one.2] + m.details;
  }

  lemma OneMoreLink(done: seq<Detail>, line: Detail, rest: Result<(map<LinkId, Link>, seq<Detail>), Error>)
    ensures AfterLinks(done, AfterLinks([line], rest)) == AfterLinks(done + [line], rest)
  {
    match rest
    case Failure(_) =>
    case Success(m) => assert done + ([line] + m.1) == done + [line] + m.1;
  }
}
