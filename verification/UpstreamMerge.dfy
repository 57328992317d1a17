// Merging duplicate upstreams: what one merge writes, the log it leaves, and what replaying that log undoes
// (db/upstream-merge-repository.js). The order in which the database returns selected rows is a parameter,
// so everything proved here holds for every order.
module UpstreamMerge {
  import opened Outcomes
  import opened ReconciliationTables
  import SegmentKeys

  datatype MovedKey = MovedKey(segmentId: string, tokenId: int, before: Option<string>, after: Option<string>)

  // One line of the merge log. Logs written by older versions lack the optional parts.
  datatype Detail =
    | StationRetained(id: string, aliasesBefore: seq<string>, aliasesAdded: Option<seq<string>>)
    | StationMerged(id: string)
    | RuleMoved(id: string, upstream: string, activeKey: Option<string>,
                newActiveKey: Option<Option<string>>, segmentKeys: Option<seq<MovedKey>>)
    | LinkMoved(own: string, channel: int, from: string)
    | LinkDropped(own: string, channel: int, station: string, link: Link)

  datatype LogRow = LogRow(mergeId: string, mergedAt: int, retainedId: string, detail: Detail, undoneAt: Option<int>)

  // The fields of a station document that a merge touches.
  datatype Doc = Doc(aliases: Option<seq<string>>, mergedInto: Option<string>, mergedAt: Option<int>)

  datatype Tables = Tables(
    rules: map<string, Rule>,
    segments: seq<Segment>,
    keys: seq<KeyRow>,
    links: map<LinkId, Link>,
    docs: map<string, Doc>,
    log: seq<LogRow>)

  datatype Group = Group(retainedId: string, mergedIds: seq<string>, ruleIds: seq<string>, linkCount: nat, aliasesAfter: seq<string>)

  datatype LinkRow = LinkRow(id: LinkId, link: Link)

  // Duplicate stands for a duplicate-key error nobody translates.
  datatype Error = Stale | Conflict | Blocked | Duplicate

  // ----- rules and segment keys: merging

  function NextKey(rule: Rule, retained: string): Option<string> {
    if && rule.activeKey.Some? && rule.activeKey.value != ""
       && (rule.canonicalKey.None? || rule.canonicalKey.value == "")
       && rule.activeKey.value == KeyText(rule.upstream, rule.tokenId)
    then Some(KeyText(retained, rule.tokenId))
    else rule.activeKey
  }

  function MovedRule(rule: Rule, retained: string): Rule {
    rule.(upstream := retained, activeKey := NextKey(rule, retained))
  }

  function NextRowKey(row: KeyRow, retained: string): Option<string> {
    if row.activeKey == Some(KeyText(row.upstream, row.tokenId)) then Some(KeyText(retained, row.tokenId)) else row.activeKey
  }

  function MovedRow(row: KeyRow, retained: string): KeyRow {
    row.(upstream := retained, activeKey := NextRowKey(row, retained))
  }

  predicate Selects(segments: seq<Segment>, row: KeyRow, ruleId: string, upstream: string) {
    OfRule(segments, row, ruleId) && row.upstream == upstream
  }

  // Positions of the key rows of a rule that point at an upstream, ascending.
  function Select(segments: seq<Segment>, keys: seq<KeyRow>, ruleId: string, upstream: string): (at: seq<nat>)
    ensures forall i :: i in at <==> 0 <= i < |keys| && Selects(segments, keys[i], ruleId, upstream)
    ensures forall j, k :: 0 <= j < k < |at| ==> at[j] < at[k]
  {
    if keys == [] then []
    else
      var n := |keys| - 1;
      var rest := Select(segments, keys[..n], ruleId, upstream);
      assert forall k :: 0 <= k < |rest| ==> rest[k] in rest;
      if Selects(segments, keys[n], ruleId, upstream) then rest + [n] else rest
  }

  function MovedKeys(keys: seq<KeyRow>, at: seq<nat>, retained: string): (moved: seq<MovedKey>)
    requires forall i :: i in at ==> i < |keys|
    ensures |moved| == |at|
  {
    seq(|at|, k requires 0 <= k < |at| =>
      assert at[k] in at;
      var row := keys[at[k]];
      MovedKey(row.segmentId, row.tokenId, row.activeKey, NextRowKey(row, retained)))
  }

  // UPDATE ... SET upstream, active key WHERE segment, token, upstream.
  function MoveKey(keys: seq<KeyRow>, moved: MovedKey, from: string, to: string): (out: seq<KeyRow>)
    ensures |out| == |keys|
  {
    seq(|keys|, i requires 0 <= i < |keys| =>
      if keys[i].segmentId == moved.segmentId && keys[i].tokenId == moved.tokenId && keys[i].upstream == from
      then keys[i].(upstream := to, activeKey := moved.after) else keys[i])
  }

  function MoveKeys(keys: seq<KeyRow>, moved: seq<MovedKey>, from: string, to: string): (out: Option<seq<KeyRow>>)
    ensures out.Some? ==> |out.value| == |keys|
    decreases |moved|
  {
    if moved == [] then Some(keys)
    else
      var next := MoveKey(keys, moved[0], from, to);
      if UniqueKeyRows(next) then MoveKeys(next, moved[1..], from, to) else None
  }

  datatype Moved = Moved(rules: map<string, Rule>, keys: seq<KeyRow>, details: seq<Detail>)

  // What the log says about one rule.
  function RuleDetail(segments: seq<Segment>, keys: seq<KeyRow>, id: string, rule: Rule, retained: string): Detail {
    RuleMoved(id, rule.upstream, rule.activeKey, Some(NextKey(rule, retained)),
              Some(MovedKeys(keys, Select(segments, keys, id, rule.upstream), retained)))
  }

  // One turn of the rule loop: the rule, then its key rows.
  function MoveRule(rules: map<string, Rule>, segments: seq<Segment>, keys: seq<KeyRow>, id: string, retained: string)
    : Result<(map<string, Rule>, seq<KeyRow>, Detail), Error>
    requires id in rules
  {
    var rules' := rules[id := MovedRule(rules[id], retained)];
    if !UniqueRuleKeys(rules') then Failure(Conflict)
    else
      var detail := RuleDetail(segments, keys, id, rules[id], retained);
      match MoveKeys(keys, detail.segmentKeys.value, rules[id].upstream, retained)
      case None => Failure(Conflict)
      case Some(keys') => Success((rules', keys', detail))
  }

  // The rule loop of applyMergeRows.
  function MoveRules(rules: map<string, Rule>, segments: seq<Segment>, keys: seq<KeyRow>, order: seq<string>, retained: string)
    : Result<Moved, Error>
    requires forall id :: id in order ==> id in rules
    decreases |order|
  {
    if order == [] then Success(Moved(rules, keys, []))
    else
      match MoveRule(rules, segments, keys, order[0], retained)
      case Failure(e) => Failure(e)
      case Success(one) =>
        match MoveRules(one.0, segments, one.1, order[1..], retained)
        case Failure(e) => Failure(e)
        case Success(m) => Success(m.(details := [one.2] + m.details))
  }

  // ----- links: merging

  function Retargeted(id: LinkId, station: string): LinkId { id.(station := station) }

  // The link loop of applyMergeRows; `present` holds the (own station, channel) pairs linked to the retained station.
  function MoveLinks(links: map<LinkId, Link>, present: set<(string, int)>, rows: seq<LinkRow>, retained: string)
    : Result<(map<LinkId, Link>, seq<Detail>), Error>
    decreases |rows|
  {
    if rows == [] then Success((links, []))
    else
      var id, link := rows[0].id, rows[0].link;
      if (id.own, id.channel) in present then
        match MoveLinks(links - {id}, present, rows[1..], retained)
        case Failure(e) => Failure(e)
        case Success(m) => Success((m.0, [LinkDropped(id.own, id.channel, id.station, link)] + m.1))
      else
        match RenameLink(links, id, Retargeted(id, retained))
        case None => Failure(Duplicate)
        case Some(links') =>
          match MoveLinks(links', present + {(id.own, id.channel)}, rows[1..], retained)
          case Failure(e) => Failure(e)
          case Success(m) => Success((m.0, [LinkMoved(id.own, id.channel, id.station)] + m.1))
  }

  // UPDATE of the station column of one link: nothing to do when the row is gone, an error when the target exists.
  function RenameLink(links: map<LinkId, Link>, from: LinkId, to: LinkId): Option<map<LinkId, Link>> {
    if from !in links then Some(links)
    else if to in links && to != from then None
    else Some((links - {from})[to := links[from]])
  }

  // ----- one merge

  function Without(xs: seq<string>, drop: seq<string>): (out: seq<string>)
    ensures forall x :: x in out <==> x in xs && x !in drop
  {
    if xs == [] then []
    else if xs[0] in drop then Without(xs[1..], drop)
    else [xs[0]] + Without(xs[1..], drop)
  }

  function AliasesOf(doc: Doc): seq<string> {
    if doc.aliases.Some? then doc.aliases.value else []
  }

  // The rows the two SELECT ... FOR UPDATE statements return, in whatever order.
  ghost predicate Selected(t: Tables, g: Group, order: seq<string>, rows: seq<LinkRow>) {
    && (forall id :: id in order <==> id in t.rules && t.rules[id].upstream in g.mergedIds)
    && (forall i, j :: 0 <= i < j < |order| ==> order[i] != order[j])
    && (forall id :: (exists k :: 0 <= k < |rows| && rows[k].id == id) <==> id in t.links && id.station in g.mergedIds)
    && (forall k :: 0 <= k < |rows| ==> rows[k].id in t.links && t.links[rows[k].id] == rows[k].link)
    && (forall i, j :: 0 <= i < j < |rows| ==> rows[i].id != rows[j].id)
  }

  function PresentLinks(links: map<LinkId, Link>, retained: string): set<(string, int)> {
    set id | id in links && id.station == retained :: (id.own, id.channel)
  }

  // The station documents: only those of stations that exist, are distinct and are not merged away can be merged.
  predicate Mergeable(docs: map<string, Doc>, g: Group) {
    && g.retainedId in docs && docs[g.retainedId].mergedInto.None?
    && forall id :: id in g.mergedIds ==> id in docs && docs[id].mergedInto.None?
  }

  function PatchedDocs(docs: map<string, Doc>, g: Group, now: int): map<string, Doc> {
    map id | id in docs ::
      if id in g.mergedIds then docs[id].(mergedInto := Some(g.retainedId), mergedAt := Some(now))
      else if id == g.retainedId then docs[id].(aliases := Some(g.aliasesAfter))
      else docs[id]
  }

  function StationDetails(docs: map<string, Doc>, g: Group): seq<Detail>
    requires g.retainedId in docs
  {
    var before := AliasesOf(docs[g.retainedId]);
    [StationRetained(g.retainedId, before, Some(Without(g.aliasesAfter, before)))]
    + seq(|g.mergedIds|, i requires 0 <= i < |g.mergedIds| => StationMerged(g.mergedIds[i]))
  }

  function LogRows(mergeId: string, now: int, retained: string, details: seq<Detail>): (rows: seq<LogRow>)
    ensures |rows| == |details|
  {
    seq(|details|, i requires 0 <= i < |details| => LogRow(mergeId, now, retained, details[i], None))
  }

  // The whole transaction: documents, rules, segment keys, links and log, or an error (and then nothing is kept).
  function Apply(t: Tables, g: Group, mergeId: string, now: int, order: seq<string>, rows: seq<LinkRow>): Result<Tables, Error>
    requires forall id :: id in order ==> id in t.rules
  {
    if !Mergeable(t.docs, g) || multiset(order) != multiset(g.ruleIds) then Failure(Stale)
    else
      match MoveRules(t.rules, t.segments, t.keys, order, g.retainedId)
      case Failure(e) => Failure(e)
      case Success(moved) =>
        if |rows| != g.linkCount then Failure(Stale)
        else
          match MoveLinks(t.links, PresentLinks(t.links, g.retainedId), rows, g.retainedId)
          case Failure(e) => Failure(e)
          case Success(linked) =>
            var details := StationDetails(t.docs, g) + moved.details + linked.1;
            Success(t.(rules := moved.rules, keys := moved.keys, links := linked.0, docs := PatchedDocs(t.docs, g, now),
                       log := t.log + LogRows(mergeId, now, g.retainedId, details)))
  }

  // ----- undoing

  function AliasesAfterUndo(current: Option<seq<string>>, before: seq<string>, added: Option<seq<string>>): seq<string> {
    if added.None? || current.None? then before else Without(current.value, added.value)
  }

  // UPDATE of one key row back to the merged station; its active key only while it is still what the merge wrote.
  function RestoreKey(keys: seq<KeyRow>, moved: MovedKey, from: string, to: string): (out: seq<KeyRow>)
    ensures |out| == |keys|
  {
    seq(|keys|, i requires 0 <= i < |keys| =>
      if keys[i].segmentId == moved.segmentId && keys[i].tokenId == moved.tokenId && keys[i].upstream == from
      then keys[i].(upstream := to, activeKey := if keys[i].activeKey == moved.after then moved.before else keys[i].activeKey)
      else keys[i])
  }

  function RestoreKeys(keys: seq<KeyRow>, moved: seq<MovedKey>, from: string, to: string): (out: Option<seq<KeyRow>>)
    ensures out.Some? ==> |out.value| == |keys|
    decreases |moved|
  {
    if moved == [] then Some(keys)
    else
      var next := RestoreKey(keys, moved[0], from, to);
      if UniqueKeyRows(next) then RestoreKeys(next, moved[1..], from, to) else None
  }

  predicate StillRetained(rules: map<string, Rule>, id: string, retained: string) {
    id in rules && rules[id].upstream == retained
  }

  function RestoredRule(rule: Rule, d: Detail): Rule
    requires d.RuleMoved?
  {
    var intact := d.newActiveKey.None? || rule.activeKey == d.newActiveKey.value;
    rule.(upstream := d.upstream, activeKey := if intact then d.activeKey else rule.activeKey)
  }

  function UndoRule(rules: map<string, Rule>, segments: seq<Segment>, keys: seq<KeyRow>, d: Detail, retained: string)
    : Option<(map<string, Rule>, seq<KeyRow>)>
    requires d.RuleMoved?
  {
    var reverted := StillRetained(rules, d.id, retained);
    var rules' := if reverted then rules[d.id := RestoredRule(rules[d.id], d)] else rules;
    if !UniqueRuleKeys(rules') then None
    else
      var keys' :=
        if d.segmentKeys.Some? then
          if reverted then RestoreKeys(keys, d.segmentKeys.value, retained, d.upstream) else Some(keys)
        else if d.id in rules' then SegmentKeys.Refresh(segments, d.id, rules'[d.id], keys)
        else Some(keys);
      match keys'
      case None => None
      case Some(ks) => Some((rules', ks))
  }

  // One line of the log, undone.
  function UndoRow(t: Tables, d: Detail, retained: string): Option<Tables> {
    match d
    case StationMerged(id) =>
      Some(if id in t.docs then t.(docs := t.docs[id := t.docs[id].(mergedInto := None, mergedAt := None)]) else t)
    case StationRetained(id, before, added) =>
      Some(if id in t.docs
           then t.(docs := t.docs[id := t.docs[id].(aliases := Some(AliasesAfterUndo(t.docs[id].aliases, before, added)))])
           else t)
    case RuleMoved(_, _, _, _, _) =>
      (match UndoRule(t.rules, t.segments, t.keys, d, retained)
       case None => None
       case Some(u) => Some(t.(rules := u.0, keys := u.1)))
    case LinkMoved(own, channel, from) =>
      (match RenameLink(t.links, LinkId(own, channel, retained), LinkId(own, channel, from))
       case None => None
       case Some(links) => Some(t.(links := links)))
    case LinkDropped(own, channel, station, link) =>
      var id := LinkId(own, channel, station);
      Some(if id in t.links then t else t.(links := t.links[id := link]))
  }

  // The log is replayed forwards.
  function UndoRows(t: Tables, details: seq<Detail>, retained: string): Option<Tables>
    decreases |details|
  {
    if details == [] then Some(t)
    else
      match UndoRow(t, details[0], retained)
      case None => None
      case Some(t') => UndoRows(t', details[1..], retained)
  }

  datatype Merge = Merge(mergeId: string, mergedAt: int, retainedId: string, details: seq<Detail>)

  function MergedIds(details: seq<Detail>): (ids: seq<string>)
    ensures forall id :: id in ids <==> StationMerged(id) in details
  {
    if details == [] then []
    else if details[0].StationMerged? then [details[0].id] + MergedIds(details[1..])
    else MergedIds(details[1..])
  }

  predicate Undoable(docs: map<string, Doc>, m: Merge) {
    m.retainedId in docs && forall id :: id in MergedIds(m.details) ==> id in docs
  }

  function MarkUndone(log: seq<LogRow>, mergeId: string, now: int): (out: seq<LogRow>)
    ensures |out| == |log|
  {
    seq(|log|, i requires 0 <= i < |log| =>
      if log[i].mergeId == mergeId && log[i].undoneAt.None? then log[i].(undoneAt := Some(now)) else log[i])
  }

  // undoMergeRows.
  function Undo(t: Tables, m: Merge, now: int): Result<Tables, Error> {
    if !Undoable(t.docs, m) then Failure(Blocked)
    else
      match UndoRows(t, m.details, m.retainedId)
      case None => Failure(Duplicate)
      case Some(t') => Success(t'.(log := MarkUndone(t'.log, m.mergeId, now)))
  }
}
