// Reading one source of an own station's consumption log page by page, while rows are being inserted, with
// de-duplication and resumption (queryOwnLogSource in lib/providers.js).
module LogPaging {
  import opened Outcomes

  const PAGE_SIZE := 100
  const CONSUME := 2

  // A log row; channel and quota are absent when the service sent something that is not a number.
  datatype Row = Row(id: int, kind: int, channel: Option<int>, quota: Option<int>, username: string, tokenName: string, tokenId: Option<int>)

  // Whose consumption: a user's, or channel tests under a name.
  datatype Source = OfUser(name: string) | OfToken(name: string)

  predicate Malformed(r: Row) {
    r.kind == CONSUME && (r.channel.None? || r.quota.None? || r.quota.value < 0)
  }

  function LowerChar(c: char): char { if 'A' <= c <= 'Z' then ((c as int) + 32) as char else c }

  function Lower(s: string): string { seq(|s|, i requires 0 <= i < |s| => LowerChar(s[i])) }

  // Rows the service returned that belong to the source.
  predicate Belongs(src: Source, r: Row) {
    match src
    case OfUser(name) => Lower(r.username) == Lower(name)
    case OfToken(name) => r.tokenName == name && r.tokenId == Some(0)
  }

  // The name a row is broken down by: the token of a user's row, the user of a token's row.
  function Label(src: Source, r: Row): string { if src.OfUser? then r.tokenName else r.username }

  // ----- the totals

  datatype Part = Part(byChannel: map<int, int>, byLabel: map<string, map<int, int>>, seen: int, maxId: Option<int>)

  const EMPTY := Part(map[], map[], 0, None)

  function Get(m: map<int, int>, k: int): int { if k in m then m[k] else 0 }

  function AddTo(m: map<int, int>, k: int, amount: int): map<int, int> { m[k := Get(m, k) + amount] }

  function Inner(m: map<string, map<int, int>>, name: string): map<int, int> { if name in m then m[name] else map[] }

  // One row, added up.
  function Add(src: Source, part: Part, r: Row): Part {
    if r.kind != CONSUME || Malformed(r) then part
    else
      var channel, quota := r.channel.value, r.quota.value;
      var counted := part.(seen := part.seen + quota,
                           maxId := if part.maxId.None? || r.id > part.maxId.value then Some(r.id) else part.maxId);
      if !Belongs(src, r) then counted
      else counted.(byChannel := AddTo(part.byChannel, channel, quota),
                    byLabel := part.byLabel[Label(src, r) := AddTo(Inner(part.byLabel, Label(src, r)), channel, quota)])
  }

  function Tally(src: Source, base: Part, rows: seq<Row>): Part {
    if rows == [] then base else Add(src, Tally(src, base, rows[..|rows| - 1]), rows[|rows| - 1])
  }

  function Ids(rows: seq<Row>): set<int> { set r | r in rows :: r.id }

  lemma NothingYet(src: Source, base: Part)
    ensures Tally(src, base, []) == base && Ids([]) == {}
  {}

  // One row more.
  lemma OneMore(src: Source, base: Part, rows: seq<Row>, r: Row)
    ensures Tally(src, base, rows + [r]) == Add(src, Tally(src, base, rows), r)
    ensures Ids(rows + [r]) == Ids(rows) + {r.id}
  {
    assert (rows + [r])[..|rows|] == rows;
    assert forall x :: x in rows + [r] <==> x in rows || x == r;
  }

  // ----- one page

  // Rows taken so far (each id once), and what the page showed.
  datatype Taken = Taken(rows: seq<Row>, added: nat, reachedOld: bool, ok: bool)

  function TakeRow(t: Taken, afterId: Option<int>, r: Row): Taken {
    if afterId.Some? && r.id <= afterId.value then t.(reachedOld := true)
    else if r.id in Ids(t.rows) then t
    else Taken(t.rows + [r], t.added + 1, t.reachedOld, !Malformed(r))
  }

  // Reading stops at a malformed row.
  function TakeRows(t: Taken, afterId: Option<int>, items: seq<Row>): Taken
    decreases |items|
  {
    if !t.ok || items == [] then t else TakeRows(TakeRow(t, afterId, items[0]), afterId, items[1..])
  }

  // ----- the paging loop

  datatype Response = Unavailable | Listed(log: seq<Row>)

  function Items(log: seq<Row>, page: nat): seq<Row>
    requires page > 0
  {
    var from, to := (page - 1) * PAGE_SIZE, page * PAGE_SIZE;
    if |log| <= from then [] else if |log| <= to then log[from..] else log[from..to]
  }

  // How a read ends: finished, stopped by the caller after the first page, or aborted with the point to go on from.
  datatype Outcome = Finished(rows: seq<Row>) | Stopped | Aborted(rows: seq<Row>, nextPage: nat)

  // `first` is the page this read began with; `stop` is the caller's wish to stop after page one.
  function Read(rows: seq<Row>, afterId: Option<int>, first: nat, page: nat, maxPages: nat, stop: bool, responses: seq<Response>): Outcome
    requires 0 < page && |responses| >= maxPages
    decreases maxPages + 1 - page
  {
    if page > maxPages then Aborted(rows, maxPages + 1)
    else
      match responses[page - 1]
      case Unavailable => Aborted(rows, page)
      case Listed(log) =>
        if page == 1 && stop then Stopped
        else
          var items := Items(log, page);
          var t := TakeRows(Taken(rows, 0, false, true), afterId, items);
          if !t.ok then Aborted(t.rows, page + 1)
          else if !t.reachedOld && |items| >= PAGE_SIZE && t.added == 0 && page > first then Aborted(t.rows, page + 1)
          else if t.reachedOld || |items| < PAGE_SIZE then Finished(t.rows)
          else Read(t.rows, afterId, first, page + 1, maxPages, stop, responses)
  }

  // What the caller gets back to resume with.
  datatype Progress = Progress(part: Part, nextPage: nat, ids: set<int>, afterId: Option<int>)
  datatype Result = Done(part: Part) | NotContinued | Failed(resume: Progress)

  lemma SkippedRow(src: Source, part: Part, r: Row)
    ensures r.kind != CONSUME || Malformed(r) ==> Add(src, part, r) == part
  {}

  // One page through the code's own accumulators, row by row; `taken` is what the page came to.
  method ReadPage(src: Source, ghost base: Part, ghost rows: seq<Row>, before: Part, seen: set<int>, afterId: Option<int>, items: seq<Row>)
    returns (part: Part, ids: set<int>, reachedOld: bool, added: nat, ok: bool, ghost taken: Taken)
    requires before == Tally(src, base, rows) && seen == Ids(rows)
    ensures taken == TakeRows(Taken(rows, 0, false, true), afterId, items)
    ensures part == Tally(src, base, taken.rows) && ids == Ids(taken.rows)
    ensures reachedOld == taken.reachedOld && added == taken.added && ok == taken.ok
  {
    hide Tally, Ids, Add;
    part, ids, reachedOld, added, ok := before, seen, false, 0, true;
    ghost var now := Taken(rows, 0, false, true);
    taken := TakeRows(now, afterId, items);
    var k := 0;
    while k < |items|
      invariant 0 <= k <= |items| && ok
      invariant added == now.added && reachedOld == now.reachedOld && now.ok
      invariant part == Tally(src, base, now.rows) && ids == Ids(now.rows)
      invariant taken == TakeRows(now, afterId, items[k..])
    {
      var row := items[k];
      assert items[k..][0] == row && items[k..][1..] == items[k + 1..];
      OneMore(src, base, now.rows, row);
      now := TakeRow(now, afterId, row);
      k := k + 1;
      if afterId.Some? && row.id <= afterId.value { reachedOld := true; continue; }
      if row.id in ids { continue; }
      ids := ids + {row.id};
      added := added + 1;
      SkippedRow(src, part, row);
      if row.kind != CONSUME { continue; }
      if row.channel.None? || row.quota.None? || row.quota.value < 0 { ok := false; return; }
      part := Add(src, part, row);
    }
    assert items[k..] == [];
  }

  // The whole reading; responses[p - 1] is what the request for page p met.
  method QueryOwnLogSource(src: Source, previous: Option<Part>, resume: Option<Progress>, maxPages: nat, stop: bool,
                           responses: seq<Response>, ghost base: Part, ghost past: seq<Row>)
    returns (r: Result)
    requires |responses| >= maxPages
    requires resume.None? ==> past == [] && base == (if previous.Some? then previous.value else EMPTY)
    requires resume.Some? ==> resume.value.nextPage > 0 && resume.value.part == Tally(src, base, past) && resume.value.ids == Ids(past)
    ensures var afterId := if resume.Some? then resume.value.afterId else if previous.Some? then previous.value.maxId else None;
            var first := if resume.Some? then resume.value.nextPage else 1;
            match Read(past, afterId, first, first, maxPages, stop && resume.None?, responses)
            case Finished(rows) => r == Done(Tally(src, base, rows))
            case Stopped => r == NotContinued
            case Aborted(rows, next) => r == Failed(Progress(Tally(src, base, rows), next, Ids(rows), afterId))
  {
    hide Tally, Ids, TakeRows, Items;
    NothingYet(src, base);
    var part := if resume.Some? then resume.value.part else if previous.Some? then previous.value else EMPTY;
    var ids := if resume.Some? then resume.value.ids else {};
    var afterId := if resume.Some? then resume.value.afterId else if previous.Some? then previous.value.maxId else None;
    var first := if resume.Some? then resume.value.nextPage else 1;
    ghost var rows := past;
    ghost var whole := Read(past, afterId, first, first, maxPages, stop && resume.None?, responses);
    var page := first;
    while page <= maxPages
      invariant first <= page && part == Tally(src, base, rows) && ids == Ids(rows)
      invariant whole == Read(rows, afterId, first, page, maxPages, stop && resume.None?, responses)
      decreases maxPages + 1 - page
    {
      if responses[page - 1].Unavailable? { return Failed(Progress(part, page, ids, afterId)); }
      if page == 1 && resume.None? && stop { return NotContinued; }
      var items := Items(responses[page - 1].log, page);
      var reachedOld, added, ok;
      ghost var taken;
      part, ids, reachedOld, added, ok, taken := ReadPage(src, base, rows, part, ids, afterId, items);
      rows := taken.rows;
      if !ok { return Failed(Progress(part, page + 1, ids, afterId)); }
      if !reachedOld && |items| >= PAGE_SIZE && added == 0 && page > first { return Failed(Progress(part, page + 1, ids, afterId)); }
      if reachedOld || |items| < PAGE_SIZE { return Done(part); }
      page := page + 1;
    }
    return Failed(Progress(part, maxPages + 1, ids, afterId));
  }
}
