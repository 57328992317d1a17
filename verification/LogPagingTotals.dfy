// What the totals of a reading mean, and what they amount to over the rows of the log.
module LogPagingTotals {
  import opened Outcomes
  import opened LogPaging
  import opened LogPagingCoverage

  // ----- totals as sums over the counted rows

  function Share(src: Source, r: Row, channel: int): int {
    if r.kind == CONSUME && !Malformed(r) && Belongs(src, r) && r.channel == Some(channel) then r.quota.value else 0
  }

  function Spent(src: Source, rows: seq<Row>, channel: int): int {
    if rows == [] then 0 else Spent(src, rows[..|rows| - 1], channel) + Share(src, rows[|rows| - 1], channel)
  }

  function Quota(r: Row): int { if r.kind == CONSUME && !Malformed(r) then r.quota.value else 0 }

  function QuotaOf(rows: seq<Row>): int {
    if rows == [] then 0 else QuotaOf(rows[..|rows| - 1]) + Quota(rows[|rows| - 1])
  }

  lemma {:induction false} TotalsAreSums(src: Source, base: Part, rows: seq<Row>, channel: int)
    ensures Get(Tally(src, base, rows).byChannel, channel) == Get(base.byChannel, channel) + Spent(src, rows, channel)
    ensures Tally(src, base, rows).seen == base.seen + QuotaOf(rows)
  {
    if rows != [] {
      TotalsAreSums(src, base, rows[..|rows| - 1], channel);
    }
  }

  // The largest id counted, where the next reading goes on.
  lemma {:induction false} MaxIdIsLargest(src: Source, rows: seq<Row>)
    ensures var top := Tally(src, EMPTY, rows).maxId;
            && (forall r :: r in rows && r.kind == CONSUME && !Malformed(r) ==> top.Some? && r.id <= top.value)
            && (top.Some? ==> exists r :: r in rows && r.id == top.value && r.kind == CONSUME)
  {
    if rows != [] {
      var front, r := rows[..|rows| - 1], rows[|rows| - 1];
      MaxIdIsLargest(src, front);
      assert forall x :: x in rows <==> x in front || x == r;
    }
  }

  // ----- the breakdown by token or user

  ghost function SumOver(m: map<string, map<int, int>>, names: set<string>, channel: int): int {
    if names == {} then 0
    else var n :| n in names; Get(Inner(m, n), channel) + SumOver(m, names - {n}, channel)
  }

  lemma {:induction false} SumWithout(m: map<string, map<int, int>>, names: set<string>, n: string, channel: int)
    requires n in names
    ensures SumOver(m, names, channel) == Get(Inner(m, n), channel) + SumOver(m, names - {n}, channel)
    decreases |names|
  {
    var k :| k in names && SumOver(m, names, channel) == Get(Inner(m, k), channel) + SumOver(m, names - {k}, channel);
    if k != n {
      SumWithout(m, names - {k}, n, channel);
      SumWithout(m, names - {n}, k, channel);
      assert names - {k} - {n} == names - {n} - {k};
    }
  }

  lemma {:induction false} SumSame(m: map<string, map<int, int>>, m': map<string, map<int, int>>, names: set<string>, channel: int)
    requires forall n :: n in names ==> Get(Inner(m, n), channel) == Get(Inner(m', n), channel)
    ensures SumOver(m, names, channel) == SumOver(m', names, channel)
    decreases |names|
  {
    if names != {} {
      var n :| n in names && SumOver(m, names, channel) == Get(Inner(m, n), channel) + SumOver(m, names - {n}, channel);
      SumWithout(m', names, n, channel);
      SumSame(m, m', names - {n}, channel);
    }
  }

  // A change at one name shows in the sum over all names.
  lemma SumAfterUpdate(m: map<string, map<int, int>>, name: string, inner: map<int, int>, channel: int)
    ensures SumOver(m[name := inner], m.Keys + {name}, channel) == SumOver(m, m.Keys, channel) - Get(Inner(m, name), channel) + Get(inner, channel)
  {
    var m', names := m[name := inner], m.Keys + {name};
    SumWithout(m', names, name, channel);
    SumSame(m, m', names - {name}, channel);
    if name in m {
      assert names == m.Keys;
      SumWithout(m, m.Keys, name, channel);
    } else {
      assert names - {name} == m.Keys;
    }
  }

  ghost function Breakdown(part: Part, channel: int): int { SumOver(part.byLabel, part.byLabel.Keys, channel) }

  // The amounts by token (or by user) of a channel add up to the channel's total.
  lemma {:induction false} BreakdownAddsUp(src: Source, base: Part, rows: seq<Row>, channel: int)
    ensures Breakdown(Tally(src, base, rows), channel) - Get(Tally(src, base, rows).byChannel, channel)
         == Breakdown(base, channel) - Get(base.byChannel, channel)
  {
    if rows != [] {
      var front, r := rows[..|rows| - 1], rows[|rows| - 1];
      BreakdownAddsUp(src, base, front, channel);
      AddKeepsBreakdown(src, Tally(src, base, front), r, channel);
    }
  }

  lemma AddKeepsBreakdown(src: Source, part: Part, r: Row, channel: int)
    ensures Breakdown(Add(src, part, r), channel) - Get(Add(src, part, r).byChannel, channel) == Breakdown(part, channel) - Get(part.byChannel, channel)
  {
    if r.kind == CONSUME && !Malformed(r) && Belongs(src, r) {
      var name := Label(src, r);
      var inner := AddTo(Inner(part.byLabel, name), r.channel.value, r.quota.value);
      SumAfterUpdate(part.byLabel, name, inner, channel);
      assert part.byLabel[name := inner].Keys == part.byLabel.Keys + {name};
    }
  }

  // ----- totals over different orders and different sets of rows

  function Without(rows: seq<Row>, i: nat): seq<Row>
    requires i < |rows|
  {
    rows[..i] + rows[i + 1..]
  }

  lemma {:induction false} SpentWithout(src: Source, rows: seq<Row>, i: nat, channel: int)
    requires i < |rows|
    ensures Spent(src, rows, channel) == Share(src, rows[i], channel) + Spent(src, Without(rows, i), channel)
    decreases |rows|
  {
    var n := |rows| - 1;
    if i < n {
      SpentWithout(src, rows[..n], i, channel);
      assert Without(rows, i)[..n - 1] == Without(rows[..n], i);
    } else {
      assert Without(rows, i) == rows[..n];
    }
  }

  // Rows counted once, all of them among `more`: no more is spent on them.
  lemma {:induction false} FewerSpend(src: Source, rows: seq<Row>, more: seq<Row>, channel: int)
    requires UniqueIds(rows) && forall r :: r in rows ==> r in more
    ensures Spent(src, rows, channel) <= Spent(src, more, channel)
    decreases |more|
  {
    if rows == [] {
      SpendingIsNotNegative(src, more, channel);
    } else {
      var n := |rows| - 1;
      assert rows[n] in rows;
      var j :| 0 <= j < |more| && more[j] == rows[n];
      SpentWithout(src, more, j, channel);
      forall r | r in rows[..n] ensures r in Without(more, j) {
        assert r in rows;
        var k :| 0 <= k < |more| && more[k] == r;
        assert k != j;
        assert Without(more, j)[if k < j then k else k - 1] == r;
      }
      FewerSpend(src, rows[..n], Without(more, j), channel);
    }
  }

  lemma {:induction false} SpendingIsNotNegative(src: Source, rows: seq<Row>, channel: int)
    ensures Spent(src, rows, channel) >= 0
  {
    if rows != [] {
      SpendingIsNotNegative(src, rows[..|rows| - 1], channel);
    }
  }

  // The total a finished reading reports lies between what the log held when it began and what it held when it ended;
  // on a log that did not change it is exactly the sum over the log.
  lemma ReportedTotal(src: Source, start: seq<Row>, maxPages: nat, tries: seq<seq<Response>>, channel: int) returns (log: seq<Row>)
    requires forall k :: 0 <= k < |tries| ==> |tries[k]| >= maxPages
    requires GrowingOver(None, start, tries) && UniqueIds(start)
    requires Reading([], None, 1, maxPages, tries).Finished?
    ensures exists k :: 0 <= k < |tries| && Listed(log) in tries[k]
    ensures var part := Tally(src, EMPTY, Reading([], None, 1, maxPages, tries).rows);
            && Spent(src, start, channel) <= Get(part.byChannel, channel) <= Spent(src, log, channel)
            && Breakdown(part, channel) == Get(part.byChannel, channel)
  {
    log := FinishedCountsAll(None, start, maxPages, tries);
    var rows := Reading([], None, 1, maxPages, tries).rows;
    TotalsAreSums(src, EMPTY, rows, channel);
    BreakdownAddsUp(src, EMPTY, rows, channel);
    FewerSpend(src, start, rows, channel);
    FewerSpend(src, rows, log, channel);
  }

  // ----- a row that cannot be read

  // Where a page is cut short: behind its first malformed row that was not seen before.
  function CutAt(seen: set<int>, items: seq<Row>): (n: nat)
    ensures n <= |items|
    ensures forall i :: 0 <= i < n - 1 ==> !Malformed(items[i]) || items[i].id in seen
    ensures n < |items| ==> n > 0 && Malformed(items[n - 1]) && items[n - 1].id !in seen
  {
    if items == [] then 0
    else if Malformed(items[0]) && items[0].id !in seen then 1
    else
      var rest := CutAt(seen, items[1..]);
      assert forall i :: 0 <= i < rest ==> items[1..][i] == items[i + 1];
      1 + rest
  }

  lemma IdsOfFront(items: seq<Row>, n: nat)
    requires 0 < n <= |items|
    ensures Ids(items[..n]) == {items[0].id} + Ids(items[1..][..n - 1])
  {
    assert items[..n] == [items[0]] + items[1..][..n - 1];
    assert forall r :: r in items[..n] <==> r == items[0] || r in items[1..][..n - 1];
  }

  lemma TakeOne(t: Taken, items: seq<Row>)
    requires t.ok && items != []
    ensures var t' := TakeRow(t, None, items[0]);
            && TakeRows(t, None, items) == TakeRows(t', None, items[1..])
            && Ids(t'.rows) == Ids(t.rows) + {items[0].id}
            && (!t'.ok <==> Malformed(items[0]) && items[0].id !in Ids(t.rows))
            && (!t'.ok ==> TakeRows(t, None, items) == t')
  {
    OneMore(OfUser(""), EMPTY, t.rows, items[0]);
  }

  lemma {:induction false} TakenUpToCut(t: Taken, items: seq<Row>)
    requires t.ok && UniqueIds(items)
    ensures Ids(TakeRows(t, None, items).rows) == Ids(t.rows) + Ids(items[..CutAt(Ids(t.rows), items)])
    decreases |items|
  {
    if items == [] {
    } else {
      hide Ids, Malformed, TakeRow, TakeRows;
      var rest, t' := items[1..], TakeRow(t, None, items[0]);
      TakeOne(t, items);
      IdsOfFront(items, CutAt(Ids(t.rows), items));
      if t'.ok {
        assert forall j :: 0 <= j < |rest| ==> rest[j] == items[j + 1];
        SameCut(Ids(t.rows), items[0].id, rest);
        TakenUpToCut(t', rest);
      } else {
        NoIds();
      }
    }
  }

  lemma NoIds()
    ensures Ids([]) == {}
  {}

  lemma {:induction false} SameCut(seen: set<int>, id: int, items: seq<Row>)
    requires forall j :: 0 <= j < |items| ==> items[j].id != id
    ensures CutAt(seen + {id}, items) == CutAt(seen, items)
  {
    if items != [] {
      SameCut(seen, id, items[1..]);
    }
  }

  // A page is counted whole exactly when no new malformed row on it has another new row somewhere behind it.
  lemma PageCountedIff(t: Taken, items: seq<Row>)
    requires t.ok && UniqueIds(items)
    ensures Ids(items) <= Ids(TakeRows(t, None, items).rows)
        <==> (forall i, j :: 0 <= i < j < |items| && Malformed(items[i]) && items[i].id !in Ids(t.rows) ==> items[j].id in Ids(t.rows))
  {
    var seen, n := Ids(t.rows), CutAt(Ids(t.rows), items);
    TakenUpToCut(t, items);
    hide TakeRows, CutAt;
    if forall i, j :: 0 <= i < j < |items| && Malformed(items[i]) && items[i].id !in seen ==> items[j].id in seen {
      forall r | r in items ensures r.id in seen + Ids(items[..n]) {
        var j :| 0 <= j < |items| && items[j] == r;
        if j < n {
          assert items[..n][j] == r;
        }
      }
    } else {
      var i, j :| 0 <= i < j < |items| && Malformed(items[i]) && items[i].id !in seen && items[j].id !in seen;
      assert n <= i + 1;
      assert forall k :: 0 <= k < n ==> items[k].id != items[j].id;
      assert items[j].id in Ids(items);
    }
  }

  // An example: the row behind a malformed one is never counted, since the reading goes on with the next page.
  lemma MalformedRowHidesTheNext()
    ensures var bad, good := Row(2, CONSUME, None, Some(5), "u", "k", None), Row(1, CONSUME, Some(3), Some(5), "u", "k", None);
            var log := [bad, good];
            Reading([], None, 1, 2, [[Listed(log), Unavailable], [Listed(log), Listed(log)]]) == Finished([bad])
  {
    var bad, good := Row(2, CONSUME, None, Some(5), "u", "k", None), Row(1, CONSUME, Some(3), Some(5), "u", "k", None);
    var log := [bad, good];
    var one, two := [Listed(log), Unavailable], [Listed(log), Listed(log)];
    var t := Taken([], 0, false, true);
    assert log[0] == bad;
    assert TakeRow(t, None, bad) == Taken([bad], 1, false, false);
    assert TakeRows(t, None, Items(log, 1)) == Taken([bad], 1, false, false);
    assert Read([], None, 1, 1, 2, false, one) == Aborted([bad], 2);
    assert Items(log, 2) == [];
    assert Read([bad], None, 2, 2, 2, false, two) == Finished([bad]);
    assert [one, two][1..] == [two];
  }
}
