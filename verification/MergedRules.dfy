// Moving rules and their key rows, and moving them back: every half-way state of both loops is the
// table before the merge with some rules and rows already moved.
module MergedRules {
  import opened Outcomes
  import opened ReconciliationTables
  import opened UpstreamMerge

  // ----- half-way states

  ghost function RulesWith(rules: map<string, Rule>, done: set<string>, retained: string): map<string, Rule> {
    map id | id in rules :: if id in done then MovedRule(rules[id], retained) else rules[id]
  }

  ghost function KeysWith(keys: seq<KeyRow>, done: set<nat>, retained: string): (out: seq<KeyRow>)
    ensures |out| == |keys|
  {
    seq(|keys|, i requires 0 <= i < |keys| => if i in done then MovedRow(keys[i], retained) else keys[i])
  }

  // A key row moves along with the rule of its segment when it points at the same upstream.
  ghost predicate MovesWith(rules: map<string, Rule>, segments: seq<Segment>, row: KeyRow, done: set<string>) {
    var s := FindSegment(segments, row.segmentId);
    && s.Some? && s.value.ruleId in done && s.value.ruleId in rules
    && row.upstream == rules[s.value.ruleId].upstream
  }

  ghost function RowsOf(rules: map<string, Rule>, segments: seq<Segment>, keys: seq<KeyRow>, done: set<string>): set<nat> {
    set i: nat | i < |keys| && MovesWith(rules, segments, keys[i], done)
  }

  ghost function Elements<T>(xs: seq<T>): set<T> { set x | x in xs }

  // ----- no half-way state breaks a unique key

  lemma HalfwayRulesUnique(rules: map<string, Rule>, all: set<string>, some: set<string>, retained: string)
    requires UniqueRuleKeys(rules) && UniqueRuleKeys(RulesWith(rules, all, retained))
    requires some <= all && forall id :: id in all && id in rules ==> rules[id].upstream != retained
    ensures UniqueRuleKeys(RulesWith(rules, some, retained))
  {
    var half, full := RulesWith(rules, some, retained), RulesWith(rules, all, retained);
    forall a, b | a in half && b in half && a != b && half[a].activeKey.Some?
      ensures half[a].activeKey != half[b].activeKey
    {
      assert full[a].activeKey.Some? ==> full[a].activeKey != full[b].activeKey;
      if a in some && b !in some {
        MovedKeyIsNew(rules, all, a, b, retained);
      } else if b in some && a !in some {
        MovedKeyIsNew(rules, all, b, a, retained);
      }
    }
  }

  // The key a moved rule ends up with is not the key any other rule had before.
  lemma MovedKeyIsNew(rules: map<string, Rule>, all: set<string>, a: string, b: string, retained: string)
    requires UniqueRuleKeys(rules) && UniqueRuleKeys(RulesWith(rules, all, retained))
    requires a in all && a in rules && b in rules && a != b
    requires b in all ==> rules[b].upstream != retained
    ensures NextKey(rules[a], retained).Some? ==> NextKey(rules[a], retained) != rules[b].activeKey
  {
    var full := RulesWith(rules, all, retained);
    if NextKey(rules[a], retained).Some? && NextKey(rules[a], retained) == rules[b].activeKey {
      assert full[a].activeKey == rules[b].activeKey && full[a].activeKey != full[b].activeKey;
      assert rules[a].activeKey != rules[b].activeKey;
      KeyTextNamesKey(retained, rules[a].tokenId, rules[b].upstream, rules[b].tokenId);
    }
  }

  lemma HalfwayKeysUnique(keys: seq<KeyRow>, all: set<nat>, some: set<nat>, retained: string)
    requires UniqueKeyRows(keys) && UniqueKeyRows(KeysWith(keys, all, retained))
    requires some <= all && forall i: nat :: i in all && i < |keys| ==> keys[i].upstream != retained
    ensures UniqueKeyRows(KeysWith(keys, some, retained))
  {
    var half := KeysWith(keys, some, retained);
    forall i, j | 0 <= i < j < |half| ensures !SamePrimaryKey(half[i], half[j]) && !SameActiveKey(half[i], half[j]) {
      PairStaysApart(keys, all, some, retained, i, j);
    }
  }

  lemma PairStaysApart(keys: seq<KeyRow>, all: set<nat>, some: set<nat>, retained: string, i: nat, j: nat)
    requires i < j < |keys|
    requires UniqueKeyRows(keys) && UniqueKeyRows(KeysWith(keys, all, retained))
    requires some <= all && forall i: nat :: i in all && i < |keys| ==> keys[i].upstream != retained
    ensures var half := KeysWith(keys, some, retained);
            !SamePrimaryKey(half[i], half[j]) && !SameActiveKey(half[i], half[j])
  {
    var full := KeysWith(keys, all, retained);
    assert !SamePrimaryKey(keys[i], keys[j]) && !SameActiveKey(keys[i], keys[j]);
    assert !SamePrimaryKey(full[i], full[j]) && !SameActiveKey(full[i], full[j]);
    if i in some && j !in some {
      MovedRowIsNew(keys[i], keys[j], retained, j in all);
    } else if j in some && i !in some {
      MovedRowIsNew(keys[j], keys[i], retained, i in all);
    }
  }

  // A moved row collides with an unmoved one only if it collides with what becomes of it.
  lemma MovedRowIsNew(a: KeyRow, b: KeyRow, retained: string, moves: bool)
    requires !SamePrimaryKey(a, b) && !SameActiveKey(a, b)
    requires var b' := if moves then MovedRow(b, retained) else b;
             !SamePrimaryKey(MovedRow(a, retained), b') && !SameActiveKey(MovedRow(a, retained), b')
    requires moves ==> b.upstream != retained
    ensures !SamePrimaryKey(MovedRow(a, retained), b) && !SameActiveKey(MovedRow(a, retained), b)
    ensures !SamePrimaryKey(b, MovedRow(a, retained)) && !SameActiveKey(b, MovedRow(a, retained))
  {
    if moves && SameActiveKey(MovedRow(a, retained), b) {
      assert a.activeKey != b.activeKey;
      KeyTextNamesKey(retained, a.tokenId, b.upstream, b.tokenId);
    }
  }

  // ----- moving key rows

  lemma MoveKeyStep(keys: seq<KeyRow>, done: set<nat>, i: nat, from: string, retained: string)
    requires UniqueKeyRows(KeysWith(keys, done, retained))
    requires i < |keys| && i !in done && keys[i].upstream == from
    ensures MoveKey(KeysWith(keys, done, retained), MovedKeys(keys, [i], retained)[0], from, retained)
            == KeysWith(keys, done + {i}, retained)
  {
    var now := KeysWith(keys, done, retained);
    forall j | 0 <= j < |keys| && j != i ensures !SamePrimaryKey(now[j], now[i]) {
      assert !SamePrimaryKey(now[if i < j then i else j], now[if i < j then j else i]);
    }
  }

  lemma {:induction false} MoveKeysReach(keys: seq<KeyRow>, done: set<nat>, at: seq<nat>, from: string, retained: string, out: seq<KeyRow>)
    requires UniqueKeyRows(KeysWith(keys, done, retained))
    requires forall i :: i in at ==> i < |keys| && i !in done && keys[i].upstream == from
    requires forall j, k :: 0 <= j < k < |at| ==> at[j] < at[k]
    requires MoveKeys(KeysWith(keys, done, retained), MovedKeys(keys, at, retained), from, retained) == Some(out)
    ensures out == KeysWith(keys, done + Elements(at), retained) && UniqueKeyRows(out)
    decreases |at|
  {
    if at == [] {
      assert done + Elements(at) == done;
    } else {
      var moved := MovedKeys(keys, at, retained);
      assert at[0] in at;
      MoveKeyStep(keys, done, at[0], from, retained);
      assert moved[1..] == MovedKeys(keys, at[1..], retained);
      assert moved[0] == MovedKeys(keys, [at[0]], retained)[0];
      MoveKeysReach(keys, done + {at[0]}, at[1..], from, retained, out);
      assert done + Elements(at) == done + {at[0]} + Elements(at[1..]);
    }
  }

  lemma RestoreKeyStep(keys: seq<KeyRow>, done: set<nat>, i: nat, from: string, retained: string)
    requires UniqueKeyRows(KeysWith(keys, done, retained))
    requires i < |keys| && i in done && keys[i].upstream == from
    ensures RestoreKey(KeysWith(keys, done, retained), MovedKeys(keys, [i], retained)[0], retained, from)
            == KeysWith(keys, done - {i}, retained)
  {
    var now := KeysWith(keys, done, retained);
    forall j | 0 <= j < |keys| && j != i ensures !SamePrimaryKey(now[j], now[i]) {
      assert !SamePrimaryKey(now[if i < j then i else j], now[if i < j then j else i]);
    }
  }

  lemma {:induction false} RestoreKeysReach(keys: seq<KeyRow>, all: set<nat>, done: set<nat>, at: seq<nat>, from: string, retained: string)
    requires UniqueKeyRows(keys) && UniqueKeyRows(KeysWith(keys, all, retained))
    requires done <= all && forall i: nat :: i in all && i < |keys| ==> keys[i].upstream != retained
    requires forall i :: i in at ==> i < |keys| && i in done && keys[i].upstream == from
    requires forall j, k :: 0 <= j < k < |at| ==> at[j] < at[k]
    ensures RestoreKeys(KeysWith(keys, done, retained), MovedKeys(keys, at, retained), retained, from)
            == Some(KeysWith(keys, done - Elements(at), retained))
    decreases |at|
  {
    if at == [] {
      assert done - Elements(at) == done;
    } else {
      var moved := MovedKeys(keys, at, retained);
      assert at[0] in at;
      HalfwayKeysUnique(keys, all, done, retained);
      HalfwayKeysUnique(keys, all, done - {at[0]}, retained);
      RestoreKeyStep(keys, done, at[0], from, retained);
      assert moved[1..] == MovedKeys(keys, at[1..], retained);
      assert moved[0] == MovedKeys(keys, [at[0]], retained)[0];
      RestoreKeysReach(keys, all, done - {at[0]}, at[1..], from, retained);
      assert done - Elements(at) == done - {at[0]} - Elements(at[1..]);
    }
  }

  // ----- moving rules

  // Rows of other rules do not change what is selected.
  lemma {:induction false} SelectSame(segments: seq<Segment>, a: seq<KeyRow>, b: seq<KeyRow>, ruleId: string, upstream: string)
    requires |a| == |b|
    requires forall i :: 0 <= i < |a| ==> Selects(segments, a[i], ruleId, upstream) == Selects(segments, b[i], ruleId, upstream)
    ensures Select(segments, a, ruleId, upstream) == Select(segments, b, ruleId, upstream)
  {
    if a != [] {
      SelectSame(segments, a[..|a| - 1], b[..|b| - 1], ruleId, upstream);
    }
  }

  // The log line of a rule is the same whenever its turn comes.
  lemma DetailIsStable(rules: map<string, Rule>, segments: seq<Segment>, keys: seq<KeyRow>, done: set<string>, id: string, retained: string)
    requires id in rules && id !in done
    ensures var now := KeysWith(keys, RowsOf(rules, segments, keys, done), retained);
            && RuleDetail(segments, now, id, rules[id], retained) == RuleDetail(segments, keys, id, rules[id], retained)
            && RuleDetail(segments, keys, id, rules[id], retained).segmentKeys.value
               == MovedKeys(keys, Select(segments, keys, id, rules[id].upstream), retained)
  {
    var now := KeysWith(keys, RowsOf(rules, segments, keys, done), retained);
    var upstream := rules[id].upstream;
    SelectSame(segments, now, keys, id, upstream);
    var at := Select(segments, keys, id, upstream);
    assert forall i :: i in at ==> now[i] == keys[i];
    forall k | 0 <= k < |at| ensures MovedKeys(now, at, retained)[k] == MovedKeys(keys, at, retained)[k] {
      assert at[k] in at;
    }
    assert MovedKeys(now, at, retained) == MovedKeys(keys, at, retained);
  }

  lemma RowsOfOneMore(rules: map<string, Rule>, segments: seq<Segment>, keys: seq<KeyRow>, done: set<string>, id: string)
    requires id in rules
    ensures RowsOf(rules, segments, keys, done + {id})
            == RowsOf(rules, segments, keys, done) + Elements(Select(segments, keys, id, rules[id].upstream))
  {
  }

  lemma RowsOfOneLess(rules: map<string, Rule>, segments: seq<Segment>, keys: seq<KeyRow>, done: set<string>, id: string)
    requires id in rules
    ensures RowsOf(rules, segments, keys, done - {id})
            == RowsOf(rules, segments, keys, done) - Elements(Select(segments, keys, id, rules[id].upstream))
  {
  }

  ghost predicate Distinct<T>(xs: seq<T>) {
    forall i, j :: 0 <= i < j < |xs| ==> xs[i] != xs[j]
  }

  lemma MoveRuleStep(rules: map<string, Rule>, segments: seq<Segment>, keys: seq<KeyRow>,
                     done: set<string>, id: string, retained: string, one: (map<string, Rule>, seq<KeyRow>, Detail))
    requires id in rules && id !in done
    requires UniqueKeyRows(KeysWith(keys, RowsOf(rules, segments, keys, done), retained))
    requires MoveRule(RulesWith(rules, done, retained), segments, KeysWith(keys, RowsOf(rules, segments, keys, done), retained), id, retained) == Success(one)
    ensures Reached(rules, segments, keys, done + {id}, retained, one.0, one.1)
    ensures one.2 == RuleDetail(segments, keys, id, rules[id], retained)
  {
    var rule := rules[id];
    var at := Select(segments, keys, id, rule.upstream);
    var now := KeysWith(keys, RowsOf(rules, segments, keys, done), retained);
    assert RulesWith(rules, done, retained)[id] == rule;
    DetailIsStable(rules, segments, keys, done, id, retained);
    assert RulesWith(rules, done, retained)[id := MovedRule(rule, retained)] == RulesWith(rules, done + {id}, retained);
    MoveKeysReach(keys, RowsOf(rules, segments, keys, done), at, rule.upstream, retained, one.1);
    RowsOfOneMore(rules, segments, keys, done, id);
  }

  // `rules'` and `keys'` are the tables with `done` moved, and they are consistent.
  ghost predicate Reached(rules: map<string, Rule>, segments: seq<Segment>, keys: seq<KeyRow>, done: set<string>, retained: string,
                          rules': map<string, Rule>, keys': seq<KeyRow>)
  {
    && rules' == RulesWith(rules, done, retained) && UniqueRuleKeys(rules')
    && keys' == KeysWith(keys, RowsOf(rules, segments, keys, done), retained) && UniqueKeyRows(keys')
  }

  lemma {:induction false} MoveRulesReach(rules: map<string, Rule>, segments: seq<Segment>, keys: seq<KeyRow>, done: set<string>,
                                          rules': map<string, Rule>, keys': seq<KeyRow>, order: seq<string>, retained: string, m: Moved)
    requires Distinct(order) && forall id :: id in order ==> id in rules && id !in done
    requires Reached(rules, segments, keys, done, retained, rules', keys')
    requires MoveRules(rules', segments, keys', order, retained) == Success(m)
    ensures Reached(rules, segments, keys, done + Elements(order), retained, m.rules, m.keys)
    decreases |order|
  {
    hide UniqueKeyRows, UniqueRuleKeys;
    if order == [] {
      assert done + Elements(order) == done;
    } else {
      var id, tail := order[0], order[1..];
      var one := MoveRule(rules', segments, keys', id, retained).value;
      var rest := MoveRules(one.0, segments, one.1, tail, retained).value;
      MoveRuleStep(rules, segments, keys, done, id, retained, one);
      assert Distinct(tail) && forall x :: x in tail ==> x in order && x != id;
      MoveRulesReach(rules, segments, keys, done + {id}, one.0, one.1, tail, retained, rest);
      assert done + Elements(order) == done + {id} + Elements(tail);
    }
  }

  ghost function RuleDetails(rules: map<string, Rule>, segments: seq<Segment>, keys: seq<KeyRow>, order: seq<string>, retained: string): (out: seq<Detail>)
    requires forall id :: id in order ==> id in rules
    ensures |out| == |order|
  {
    seq(|order|, k requires 0 <= k < |order| =>
      assert order[k] in order; RuleDetail(segments, keys, order[k], rules[order[k]], retained))
  }

  lemma {:induction false} MoveRulesLog(rules: map<string, Rule>, segments: seq<Segment>, keys: seq<KeyRow>, done: set<string>,
                                        rules': map<string, Rule>, keys': seq<KeyRow>, order: seq<string>, retained: string, m: Moved)
    requires Distinct(order) && forall id :: id in order ==> id in rules && id !in done
    requires Reached(rules, segments, keys, done, retained, rules', keys')
    requires MoveRules(rules', segments, keys', order, retained) == Success(m)
    ensures m.details == RuleDetails(rules, segments, keys, order, retained)
    decreases |order|
  {
    hide UniqueKeyRows, UniqueRuleKeys, RowsOf, KeysWith, Select;
    if order != [] {
      var id, tail := order[0], order[1..];
      var one := MoveRule(rules', segments, keys', id, retained).value;
      var rest := MoveRules(one.0, segments, one.1, tail, retained).value;
      MoveRuleStep(rules, segments, keys, done, id, retained, one);
      assert Distinct(tail) && forall x :: x in tail ==> x in order && x != id;
      MoveRulesLog(rules, segments, keys, done + {id}, one.0, one.1, tail, retained, rest);
      assert [one.2] + RuleDetails(rules, segments, keys, tail, retained) == RuleDetails(rules, segments, keys, order, retained);
    }
  }

  // ----- moving rules back

  lemma RestoreRuleStep(rules: map<string, Rule>, segments: seq<Segment>, keys: seq<KeyRow>,
                        all: set<string>, done: set<string>, id: string, retained: string)
    requires Reached(rules, segments, keys, {}, retained, rules, keys)
    requires Reached(rules, segments, keys, all, retained, RulesWith(rules, all, retained), KeysWith(keys, RowsOf(rules, segments, keys, all), retained))
    requires done <= all && forall x :: x in all && x in rules ==> rules[x].upstream != retained
    requires id in rules && id in done
    ensures UndoRule(RulesWith(rules, done, retained), segments, KeysWith(keys, RowsOf(rules, segments, keys, done), retained),
                     RuleDetail(segments, keys, id, rules[id], retained), retained)
            == Some((RulesWith(rules, done - {id}, retained), KeysWith(keys, RowsOf(rules, segments, keys, done - {id}), retained)))
  {
    var rule := rules[id];
    var at := Select(segments, keys, id, rule.upstream);
    var rules' := RulesWith(rules, done, retained);
    assert rules'[id] == MovedRule(rule, retained);
    assert rules'[id := RestoredRule(rules'[id], RuleDetail(segments, keys, id, rule, retained))] == RulesWith(rules, done - {id}, retained);
    HalfwayRulesUnique(rules, all, done - {id}, retained);
    RestoreKeysReach(keys, RowsOf(rules, segments, keys, all), RowsOf(rules, segments, keys, done), at, rule.upstream, retained);
    RowsOfOneLess(rules, segments, keys, done, id);
  }

  // Replaying the rule lines forwards, from the state in which exactly those rules are moved.
  lemma {:induction false} RestoreRulesReach(t: Tables, rules: map<string, Rule>, keys: seq<KeyRow>,
                                             all: set<string>, order: seq<string>, retained: string)
    requires Distinct(order) && Elements(order) <= all && forall id :: id in order ==> id in rules
    requires Reached(rules, t.segments, keys, {}, retained, rules, keys)
    requires Reached(rules, t.segments, keys, all, retained, RulesWith(rules, all, retained), KeysWith(keys, RowsOf(rules, t.segments, keys, all), retained))
    requires forall x :: x in all && x in rules ==> rules[x].upstream != retained
    requires t.rules == RulesWith(rules, Elements(order), retained)
    requires t.keys == KeysWith(keys, RowsOf(rules, t.segments, keys, Elements(order)), retained)
    ensures UndoRows(t, RuleDetails(rules, t.segments, keys, order, retained), retained) == Some(t.(rules := rules, keys := keys))
    decreases |order|
  {
    hide UniqueKeyRows, UniqueRuleKeys, Select, UndoRule;
    var details := RuleDetails(rules, t.segments, keys, order, retained);
    if order == [] {
      assert Elements(order) == {};
      assert t.rules == rules && t.keys == keys;
    } else {
      var id, tail := order[0], order[1..];
      assert Distinct(tail) && forall x :: x in tail ==> x in order && x != id;
      RestoreRuleStep(rules, t.segments, keys, all, Elements(order), id, retained);
      assert Elements(order) - {id} == Elements(tail);
      var t' := UndoRow(t, details[0], retained).value;
      assert details[1..] == RuleDetails(rules, t.segments, keys, tail, retained);
      RestoreRulesReach(t', rules, keys, all, tail, retained);
    }
  }
}
