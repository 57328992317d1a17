// The totals of a reading row by row, from the fields of the rows alone; and when a reading gets to its end.
module LogPagingRows {
  import opened Outcomes
  import opened LogPaging
  import opened LogPagingCoverage

  // ----- whose row it is, and under which name it is booked

  predicate SameLetter(a: char, b: char) {
    || a == b
    || ('A' <= a <= 'Z' && b as int == a as int + 32)
    || ('A' <= b <= 'Z' && a as int == b as int + 32)
  }

  // Equal without regard to case.
  predicate SameName(a: string, b: string) { |a| == |b| && forall i :: 0 <= i < |a| ==> SameLetter(a[i], b[i]) }

  // A consumption row with a channel and an amount.
  predicate Consumption(r: Row) { r.kind == 2 && r.channel.Some? && r.quota.Some? && r.quota.value >= 0 }

  // A user's rows carry the user's name; a channel test's rows the test's name and no token of their own.
  predicate Own(src: Source, r: Row) {
    match src
    case OfUser(name) => SameName(r.username, name)
    case OfToken(name) => r.tokenName == name && r.tokenId == Some(0)
  }

  // A user's consumption is broken down by token, that of a channel test by user.
  predicate BookedUnder(src: Source, r: Row, name: string) {
    match src
    case OfUser(_) => r.tokenName == name
    case OfToken(_) => r.username == name
  }

  predicate Counts(src: Source, r: Row, name: string, channel: int) {
    Consumption(r) && Own(src, r) && BookedUnder(src, r, name) && r.channel.value == channel
  }

  function AmountUnder(src: Source, rows: seq<Row>, name: string, channel: int): int {
    if rows == [] then 0
    else
      var r := rows[|rows| - 1];
      AmountUnder(src, rows[..|rows| - 1], name, channel) + if Counts(src, r, name, channel) then r.quota.value else 0
  }

  function AmountOn(src: Source, rows: seq<Row>, channel: int): int {
    if rows == [] then 0
    else
      var r := rows[|rows| - 1];
      AmountOn(src, rows[..|rows| - 1], channel) + if Consumption(r) && Own(src, r) && r.channel.value == channel then r.quota.value else 0
  }

  // Everything the service listed, whoever it belongs to.
  function AmountSeen(rows: seq<Row>): int {
    if rows == [] then 0
    else AmountSeen(rows[..|rows| - 1]) + if Consumption(rows[|rows| - 1]) then rows[|rows| - 1].quota.value else 0
  }

  lemma LowerIsSameName(a: string, b: string)
    ensures Lower(a) == Lower(b) <==> SameName(a, b)
  {
    if Lower(a) == Lower(b) {
      assert |a| == |Lower(a)| == |Lower(b)| == |b|;
      forall i | 0 <= i < |a| ensures SameLetter(a[i], b[i]) {
        assert Lower(a)[i] == Lower(b)[i];
      }
    }
    if SameName(a, b) {
      forall i | 0 <= i < |a| ensures Lower(a)[i] == Lower(b)[i] {
        assert SameLetter(a[i], b[i]);
      }
    }
  }

  lemma OwnRows(src: Source, r: Row)
    ensures Belongs(src, r) <==> Own(src, r)
    ensures r.kind == CONSUME && !Malformed(r) <==> Consumption(r)
    ensures BookedUnder(src, r, Label(src, r)) && forall name :: BookedUnder(src, r, name) ==> name == Label(src, r)
  {
    if src.OfUser? { LowerIsSameName(r.username, src.name); }
  }

  // ----- each amount is the sum over its rows

  // The amount booked under a name on a channel is what the base had there plus the amounts of exactly the rows of that
  // channel and name that belong to the source.
  lemma {:induction false} AmountsByName(src: Source, base: Part, rows: seq<Row>, name: string, channel: int)
    ensures Get(Inner(Tally(src, base, rows).byLabel, name), channel)
         == Get(Inner(base.byLabel, name), channel) + AmountUnder(src, rows, name, channel)
    ensures name in Tally(src, base, rows).byLabel
            <==> name in base.byLabel || exists r :: r in rows && Consumption(r) && Own(src, r) && BookedUnder(src, r, name)
  {
    if rows != [] {
      var front, r := rows[..|rows| - 1], rows[|rows| - 1];
      AmountsByName(src, base, front, name, channel);
      OwnRows(src, r);
      hide Own, Belongs, Malformed, Consumption, BookedUnder, Tally;
      assert Tally(src, base, rows) == Add(src, Tally(src, base, front), r) by {
        OneMore(src, base, front, r);
        assert front + [r] == rows;
      }
      assert forall x :: x in rows <==> x in front || x == r;
    }
  }

  // And so are the channel totals and the amount seen, compared with what the service reports.
  lemma {:induction false} AmountsByChannel(src: Source, base: Part, rows: seq<Row>, channel: int)
    ensures Get(Tally(src, base, rows).byChannel, channel) == Get(base.byChannel, channel) + AmountOn(src, rows, channel)
    ensures Tally(src, base, rows).seen == base.seen + AmountSeen(rows)
  {
    if rows != [] {
      AmountsByChannel(src, base, rows[..|rows| - 1], channel);
      OwnRows(src, rows[|rows| - 1]);
    }
  }

  // ----- when a reading gets to its end

  lemma {:induction false} AllNew(t: Taken, afterId: Option<int>, items: seq<Row>)
    requires t.ok && UniqueIds(items) && (forall r :: r in items ==> !Malformed(r) && Wanted(afterId, r) && r.id !in Ids(t.rows))
    ensures var u := TakeRows(t, afterId, items);
            u.ok && u.added == t.added + |items| && u.reachedOld == t.reachedOld && u.rows == t.rows + items
    decreases |items|
  {
    if items == [] {
      assert t.rows + items == t.rows;
    } else {
      assert items[0] in items;
      var t' := TakeRow(t, afterId, items[0]);
      OneMore(OfUser(""), EMPTY, t.rows, items[0]);
      forall r | r in items[1..] ensures r.id !in Ids(t'.rows) {
        var j :| 0 <= j < |items[1..]| && items[1..][j] == r;
        assert items[j + 1] == r;
      }
      AllNew(t', afterId, items[1..]);
      assert t.rows + items == t'.rows + items[1..];
    }
  }

  // A full page of wanted rows, all of them new, on top of the pages before it.
  lemma FullPage(afterId: Option<int>, log: seq<Row>, page: nat)
    requires Sound(afterId, log) && page > 0 && page * PAGE_SIZE <= |log|
    requires forall r :: r in log[..page * PAGE_SIZE] ==> Wanted(afterId, r)
    ensures var n := (page - 1) * PAGE_SIZE;
            TakeRows(Taken(log[..n], 0, false, true), afterId, Items(log, page)) == Taken(log[..page * PAGE_SIZE], PAGE_SIZE, false, true)
  {
    var n := (page - 1) * PAGE_SIZE;
    var rows, items, all := log[..n], log[n..page * PAGE_SIZE], log[..page * PAGE_SIZE];
    assert Items(log, page) == items && rows + items == all;
    hide Items, TakeRows;
    forall r | r in items ensures !Malformed(r) && Wanted(afterId, r) && r.id !in Ids(rows) {
      var i :| 0 <= i < |items| && items[i] == r;
      assert log[n + i] == r && all[n + i] == r;
    }
    AllNew(Taken(rows, 0, false, true), afterId, items);
  }

  // Every row of a page that shows no old row is wanted.
  lemma NoOldRow(afterId: Option<int>, log: seq<Row>, page: nat)
    requires Sound(afterId, log) && page > 0 && page * PAGE_SIZE <= |log|
    requires forall r :: r in log[..(page - 1) * PAGE_SIZE] ==> Wanted(afterId, r)
    ensures var t := TakeRows(Taken(log[..(page - 1) * PAGE_SIZE], 0, false, true), afterId, Items(log, page));
            t.ok && (!t.reachedOld ==> forall r :: r in log[..page * PAGE_SIZE] ==> Wanted(afterId, r))
  {
    var n := (page - 1) * PAGE_SIZE;
    var rows, items, all := log[..n], Items(log, page), log[..page * PAGE_SIZE];
    PageHolds(log, page);
    assert UniqueIds(rows);
    PageOnTop(afterId, log, page, rows);
    hide Items, TakeRows, Sound;
    forall r | r in all ensures r in rows || r in items {
      var i :| 0 <= i < |all| && all[i] == r;
      assert i < n ==> rows[i] == r;
      assert i >= n ==> log[i] in items;
    }
  }

  // Reading on, on a log that stays as it is.
  lemma {:induction false} ReadsOn(afterId: Option<int>, log: seq<Row>, page: nat, maxPages: nat, responses: seq<Response>)
    requires Sound(afterId, log) && 0 < page <= maxPages <= |responses| && |log| < maxPages * PAGE_SIZE && (page - 1) * PAGE_SIZE <= |log|
    requires forall i :: 0 <= i < |responses| ==> responses[i] == Listed(log)
    requires forall r :: r in log[..(page - 1) * PAGE_SIZE] ==> Wanted(afterId, r)
    ensures Read(log[..(page - 1) * PAGE_SIZE], afterId, 1, page, maxPages, false, responses).Finished?
    decreases maxPages - page
  {
    if page * PAGE_SIZE <= |log| {
      NoOldRow(afterId, log, page);
      var t := TakeRows(Taken(log[..(page - 1) * PAGE_SIZE], 0, false, true), afterId, Items(log, page));
      if !t.reachedOld {
        FullPage(afterId, log, page);
        hide Sound, TakeRows;
        ReadsOn(afterId, log, page + 1, maxPages, responses);
      }
    } else {
      var rows := log[..(page - 1) * PAGE_SIZE];
      assert UniqueIds(rows);
      PageOnTop(afterId, log, page, rows);
      hide Sound, TakeRows;
      assert |Items(log, page)| < PAGE_SIZE;
    }
  }

  // A log that stays as it is, fits into the pages allowed and is served every time is read to its end at the first try.
  lemma QuietLogIsRead(afterId: Option<int>, log: seq<Row>, maxPages: nat, responses: seq<Response>)
    requires Sound(afterId, log) && maxPages <= |responses| && |log| < maxPages * PAGE_SIZE
    requires forall i :: 0 <= i < |responses| ==> responses[i] == Listed(log)
    ensures Read([], afterId, 1, 1, maxPages, false, responses).Finished?
  {
    assert log[..0] == [];
    ReadsOn(afterId, log, 1, maxPages, responses);
  }

  // A reading stops exactly when the first page came and the caller does not want to go on.
  lemma {:induction false} StoppedIff(rows: seq<Row>, afterId: Option<int>, first: nat, page: nat, maxPages: nat, stop: bool, responses: seq<Response>)
    requires 0 < page && |responses| >= maxPages
    ensures Read(rows, afterId, first, page, maxPages, stop, responses).Stopped?
            <==> stop && page == 1 && maxPages >= 1 && responses[0].Listed?
    decreases maxPages + 1 - page
  {
    if page <= maxPages && responses[page - 1].Listed? && !(page == 1 && stop) {
      var t := TakeRows(Taken(rows, 0, false, true), afterId, Items(responses[page - 1].log, page));
      hide TakeRows, Items;
      StoppedIff(t.rows, afterId, first, page + 1, maxPages, stop, responses);
    }
  }

  // One that breaks off resumes at the page whose request failed, or behind the page it got stuck on; never further back.
  predicate ResumesAt(page: nat, next: nat, maxPages: nat, responses: seq<Response>)
    requires page > 0 && |responses| >= maxPages
  {
    if page > maxPages then next == maxPages + 1
    else
      && page <= next <= maxPages + 1
      && ((next <= maxPages && responses[next - 1].Unavailable?) || (next > page && responses[next - 2].Listed?))
  }

  lemma {:induction false} ResumesWhereItBroke(rows: seq<Row>, afterId: Option<int>, first: nat, page: nat, maxPages: nat, stop: bool, responses: seq<Response>)
    requires 0 < page && |responses| >= maxPages
    ensures var r := Read(rows, afterId, first, page, maxPages, stop, responses);
            r.Aborted? ==> ResumesAt(page, r.nextPage, maxPages, responses)
    decreases maxPages + 1 - page
  {
    hide TakeRows, Items;
    if page <= maxPages && responses[page - 1].Listed? && !(page == 1 && stop) {
      var items := Items(responses[page - 1].log, page);
      var t := TakeRows(Taken(rows, 0, false, true), afterId, items);
      if t.ok && !t.reachedOld && |items| >= PAGE_SIZE && (t.added > 0 || page <= first) {
        ResumesWhereItBroke(t.rows, afterId, first, page + 1, maxPages, stop, responses);
      }
    }
  }
}
