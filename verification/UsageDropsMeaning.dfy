// Reading only the window plus one row per station, and handing groups over as they end, gives the totals of the whole
// history; and these are what usedBetween adds up.
module UsageDropsMeaning {
  import opened Outcomes
  import opened UsageDrops

  // ----- stations do not influence each other

  lemma {:induction false} LastOfStation(rows: seq<Row>, station: string)
    ensures LastBalance(rows, station) == LastBalance(OfStation(rows, station), station)
  {
    if rows != [] {
      var front, r := rows[..|rows| - 1], rows[|rows| - 1];
      LastOfStation(front, station);
      LastOneMore(OfStation(front, station), r);
    }
  }

  lemma {:induction false} TotalOfStation(g: Grouping, rows: seq<Row>, k: Key)
    ensures SameAtStation(g, rows, k)
  {
    if rows != [] {
      TotalOfStation(g, rows[..|rows| - 1], k);
      assert rows == rows[..|rows| - 1] + [rows[|rows| - 1]];
      hide SameAtStation;
      StationOneMore(g, rows[..|rows| - 1], rows[|rows| - 1], k);
    }
  }

  // A key's total and presence depend on its own station's rows only.
  predicate SameAtStation(g: Grouping, rows: seq<Row>, k: Key) {
    && Total(g, rows, k) == Total(g, OfStation(rows, k.station), k)
    && (k in Keys(g, rows) <==> k in Keys(g, OfStation(rows, k.station)))
  }

  lemma StationOneMore(g: Grouping, front: seq<Row>, r: Row, k: Key)
    requires SameAtStation(g, front, k)
    ensures SameAtStation(g, front + [r], k)
  {
    hide Total, Keys, OfStation, LastBalance;
    var own := OfStation(front, k.station);
    LastOfStation(front, k.station);
    OneMoreOf(front, r, k.station);
    BucketsOneMore(g, front, r);
    BucketsOneMore(g, own, r);
    assert own + [] == own;
  }

  // ----- one row before the window is enough

  // Rows of one station, in order: those before the window, those in it, those after it.
  predicate Parts(g: Grouping, before: seq<Row>, window: seq<Row>, after: seq<Row>) {
    && (forall r :: r in before ==> r.t < g.start)
    && (forall r :: r in window ==> g.Covers(r.t))
    && (forall r :: r in after ==> r.t >= g.start && r.t >= g.end)
  }

  lemma {:induction false} NothingOutside(g: Grouping, rows: seq<Row>, more: seq<Row>, k: Key)
    requires forall r :: r in more ==> !g.Covers(r.t)
    ensures Total(g, rows + more, k) == Total(g, rows, k) && Keys(g, rows + more) == Keys(g, rows)
  {
    if more == [] {
      assert rows + more == rows;
    } else {
      var front, r := more[..|more| - 1], more[|more| - 1];
      NothingOutside(g, rows, front, k);
      assert rows + more == (rows + front) + [r];
      BucketsOneMore(g, rows + front, r);
    }
  }

  lemma {:induction false} OnlyLastMatters(g: Grouping, a: seq<Row>, b: seq<Row>, window: seq<Row>, k: Key)
    requires Total(g, a, k) == Total(g, b, k) && Keys(g, a) == Keys(g, b)
    requires forall x :: LastBalance(a, x) == LastBalance(b, x)
    ensures Total(g, a + window, k) == Total(g, b + window, k) && Keys(g, a + window) == Keys(g, b + window)
    ensures forall x :: LastBalance(a + window, x) == LastBalance(b + window, x)
  {
    hide Total, Keys, LastBalance;
    if window == [] {
      assert a + window == a && b + window == b;
    } else {
      var front, r := window[..|window| - 1], window[|window| - 1];
      OnlyLastMatters(g, a, b, front, k);
      assert a + window == (a + front) + [r] && b + window == (b + front) + [r];
      BucketsOneMore(g, a + front, r);
      BucketsOneMore(g, b + front, r);
      LastOneMore(a + front, r);
      LastOneMore(b + front, r);
    }
  }

  function LastRow(rows: seq<Row>): seq<Row> { if rows == [] then [] else [rows[|rows| - 1]] }

  lemma {:induction false} LastRowRemembers(rows: seq<Row>, station: string)
    requires forall r :: r in rows ==> r.station == station
    ensures forall x :: LastBalance(rows, x) == LastBalance(LastRow(rows), x)
  {
    if rows != [] {
      var front, r := rows[..|rows| - 1], rows[|rows| - 1];
      LastRowRemembers(front, station);
      assert front + [r] == rows && [] + [r] == [r];
      LastOneMore(front, r);
      LastOneMore([], r);
      forall x ensures LastBalance(rows, x) == LastBalance([r], x) {
        if x != station { NotThere(front, x); }
      }
    }
  }

  lemma {:induction false} NotThere(rows: seq<Row>, station: string)
    requires forall r :: r in rows ==> r.station != station
    ensures LastBalance(rows, station) == None
  {
    if rows != [] {
      NotThere(rows[..|rows| - 1], station);
    }
  }

  lemma OneStationsWindow(g: Grouping, station: string, before: seq<Row>, window: seq<Row>, after: seq<Row>, k: Key)
    requires Parts(g, before, window, after) && forall r :: r in before ==> r.station == station
    ensures Total(g, before + window + after, k) == Total(g, LastRow(before) + window, k)
    ensures Keys(g, before + window + after) == Keys(g, LastRow(before) + window)
  {
    NothingOutside(g, before + window, after, k);
    NothingOutside(g, [], before, k);
    NothingOutside(g, [], LastRow(before), k);
    assert [] + before == before && [] + LastRow(before) == LastRow(before);
    LastRowRemembers(before, station);
    OnlyLastMatters(g, before, LastRow(before), window, k);
  }

  // A history in which every station's rows are in order, cut at the window.
  ghost predicate Cut(g: Grouping, rows: seq<Row>, baseline: map<string, Row>, window: seq<Row>) {
    forall x :: CutAt(g, OfStation(rows, x), Base(baseline, x), OfStation(window, x))
  }

  ghost predicate CutAt(g: Grouping, rows: seq<Row>, base: seq<Row>, window: seq<Row>) {
    exists before, after :: rows == before + window + after && base == LastRow(before) && Parts(g, before, window, after)
  }

  lemma SameTotals(g: Grouping, rows: seq<Row>, baseline: map<string, Row>, window: seq<Row>, out: seq<Row>, k: Key)
    requires Cut(g, rows, baseline, window) && forall x :: OfStation(out, x) == Base(baseline, x) + OfStation(window, x)
    ensures Total(g, out, k) == Total(g, rows, k) && (k in Keys(g, out) <==> k in Keys(g, rows))
  {
    var x := k.station;
    TotalOfStation(g, rows, k);
    TotalOfStation(g, out, k);
    var all, base, shown := OfStation(rows, x), Base(baseline, x), OfStation(window, x);
    assert CutAt(g, all, base, shown);
    var before: seq<Row>, after: seq<Row> :| all == before + shown + after && base == LastRow(before) && Parts(g, before, shown, after);
    forall r | r in before ensures r.station == x {
      assert r in all;
      AllOfStation(rows, x);
    }
    OneStationsWindow(g, x, before, shown, after, k);
  }

  lemma {:induction false} AllOfStation(rows: seq<Row>, station: string)
    ensures forall r :: r in OfStation(rows, station) ==> r.station == station
  {
    if rows != [] {
      AllOfStation(rows[..|rows| - 1], station);
    }
  }

  lemma ListedKeys(g: Grouping, rows: seq<Row>)
    ensures forall k :: (exists e :: e in Listed(g, rows) && e.key == k) <==> k in Keys(g, rows)
    ensures forall e :: e in Listed(g, rows) ==> e.usd == Total(g, rows, e.key)
  {
    var entries, keys := Listed(g, rows), Keys(g, rows);
    forall k | k in keys ensures exists e :: e in entries && e.key == k {
      var i :| 0 <= i < |keys| && keys[i] == k;
      assert entries[i] in entries && entries[i].key == k;
    }
  }

  // ----- streaming

  predicate AllCovered(g: Grouping, a: Row, b: Row, c: Row) { g.Covers(a.t) && g.Covers(b.t) && g.Covers(c.t) }

  // Between two rows of one group no row of another group stands in the window.
  predicate Grouped(g: Grouping, rows: seq<Row>) {
    forall i, j, m :: 0 <= i < j < m < |rows| && AllCovered(g, rows[i], rows[j], rows[m]) && g.KeyOf(rows[i]) == g.KeyOf(rows[m])
      ==> g.KeyOf(rows[j]) == g.KeyOf(rows[i])
  }

  // The last streamed group is the group of the last row in the window.
  lemma {:induction false} StreamsLast(g: Grouping, rows: seq<Row>) returns (last: nat)
    requires Streamed(g, rows) != []
    ensures last < |rows| && g.Covers(rows[last].t) && Streamed(g, rows)[|Streamed(g, rows)| - 1].key == g.KeyOf(rows[last])
    ensures forall j :: last < j < |rows| ==> !g.Covers(rows[j].t)
  {
    var n := |rows| - 1;
    if g.Covers(rows[n].t) { last := n; } else { last := StreamsLast(g, rows[..n]); }
  }

  lemma {:induction false} KeyComesFrom(g: Grouping, rows: seq<Row>, k: Key) returns (i: nat)
    requires k in Keys(g, rows)
    ensures i < |rows| && g.Covers(rows[i].t) && g.KeyOf(rows[i]) == k
  {
    var n := |rows| - 1;
    if g.Covers(rows[n].t) && g.KeyOf(rows[n]) == k { i := n; } else { i := KeyComesFrom(g, rows[..n], k); }
  }

  lemma {:induction false} KeyOfEveryRow(g: Grouping, rows: seq<Row>, i: nat)
    requires i < |rows| && g.Covers(rows[i].t)
    ensures g.KeyOf(rows[i]) in Keys(g, rows)
  {
    var n := |rows| - 1;
    if i < n { KeyOfEveryRow(g, rows[..n], i); }
  }

  // Streaming hands over exactly the buffered groups, in the same order, whenever equal groups are not torn apart.
  lemma {:induction false} StreamingIsBuffering(g: Grouping, rows: seq<Row>)
    requires Grouped(g, rows)
    ensures Streamed(g, rows) == Listed(g, rows)
  {
    if rows != [] {
      var n := |rows| - 1;
      var front, r := rows[..n], rows[n];
      assert front + [r] == rows && forall i :: 0 <= i < n ==> front[i] == rows[i];
      StreamingIsBuffering(g, front);
      BucketsOneMore(g, front, r);
      StreamOneMore(g, front, r);
      if g.Covers(r.t) { NextGroup(g, front, r); }
    }
  }

  // A group met before the last row goes on, since groups are not torn apart.
  lemma GroupGoesOn(g: Grouping, front: seq<Row>, r: Row)
    requires Grouped(g, front + [r]) && g.Covers(r.t) && g.KeyOf(r) in Keys(g, front) && Streamed(g, front) != []
    ensures Streamed(g, front)[|Streamed(g, front)| - 1].key == g.KeyOf(r)
  {
    var rows := front + [r];
    var i := KeyComesFrom(g, front, g.KeyOf(r));
    var last := StreamsLast(g, front);
    hide Streamed, Keys, Total;
    assert rows[i] == front[i] && rows[last] == front[last] && rows[|front|] == r;
    assert i <= last;
  }

  lemma NextGroup(g: Grouping, front: seq<Row>, r: Row)
    requires Grouped(g, front + [r]) && g.Covers(r.t) && Streamed(g, front) == Listed(g, front)
    ensures Streamed(g, front + [r]) == Listed(g, front + [r])
  {
    BucketsOneMore(g, front, r);
    StreamOneMore(g, front, r);
    Unseen(g, front, g.KeyOf(r));
    hide Streamed, Keys, Total, Grouped;
    var rows, keys := front + [r], Keys(g, front);
    if g.KeyOf(r) in keys {
      GroupGoesOn(g, front, r);
      assert keys[|keys| - 1] == g.KeyOf(r);
      assert Streamed(g, rows) == Listed(g, rows);
    } else {
      assert keys != [] ==> keys[|keys| - 1] != g.KeyOf(r);
      assert Streamed(g, rows) == Listed(g, rows);
    }
  }

  predicate KeysOnce(entries: seq<Entry>) {
    forall i, j :: 0 <= i < j < |entries| ==> entries[i].key != entries[j].key
  }

  // A group that comes again has not ended, or it would be handed over twice.
  lemma OnceOnly(out: seq<Entry>, next: seq<Entry>, k: Key, drop: int, p: nat)
    requires p < |out| && out[p].key == k && KeysOnce(next)
    requires next == var n := |out| - 1; if out[n].key == k then out[n := Entry(k, out[n].usd + drop)] else out + [Entry(k, drop)]
    ensures out[|out| - 1].key == k
  {
    assert next[p].key == k && next[|next| - 1].key == k;
  }

  lemma NotTorn(g: Grouping, front: seq<Row>, r: Row)
    requires Grouped(g, front) && KeysOnce(Streamed(g, front + [r])) && g.Covers(r.t) && g.KeyOf(r) in Keys(g, front)
    ensures var out := Streamed(g, front); out != [] && out[|out| - 1].key == g.KeyOf(r)
  {
    hide Streamed, Keys, Total, Grouped, KeysOnce, LastBalance, Drop, Listed;
    StreamingIsBuffering(g, front);
    StreamOneMore(g, front, r);
    var out, drop := Streamed(g, front), Drop(LastBalance(front, r.station), r.remaining);
    var p := WhereListed(g, front, g.KeyOf(r));
    OnceOnly(out, Streamed(g, front + [r]), g.KeyOf(r), drop, p);
  }

  lemma WhereListed(g: Grouping, rows: seq<Row>, k: Key) returns (p: nat)
    requires k in Keys(g, rows)
    ensures p < |Listed(g, rows)| && Listed(g, rows)[p].key == k
  {
    hide Keys, Total;
    p :| 0 <= p < |Keys(g, rows)| && Keys(g, rows)[p] == k;
  }

  lemma OnceBefore(g: Grouping, front: seq<Row>, r: Row)
    requires KeysOnce(Streamed(g, front + [r]))
    ensures KeysOnce(Streamed(g, front))
  {
    StreamOneMore(g, front, r);
    hide Streamed;
    var out, next := Streamed(g, front), Streamed(g, front + [r]);
    assert forall i :: 0 <= i < |out| ==> next[i].key == out[i].key;
  }

  // And only then.
  lemma {:induction false} TornGroupsStreamTwice(g: Grouping, rows: seq<Row>)
    requires KeysOnce(Streamed(g, rows))
    ensures Grouped(g, rows)
  {
    if rows != [] {
      var n := |rows| - 1;
      var front, r := rows[..n], rows[n];
      assert front + [r] == rows && forall i :: 0 <= i < n ==> front[i] == rows[i];
      hide Streamed, Keys, Total, KeysOnce;
      OnceBefore(g, front, r);
      TornGroupsStreamTwice(g, front);
      forall i, j, m | 0 <= i < j < m < |rows| && AllCovered(g, rows[i], rows[j], rows[m]) && g.KeyOf(rows[i]) == g.KeyOf(rows[m])
        ensures g.KeyOf(rows[j]) == g.KeyOf(rows[i]) {
        if m < n {
          assert g.KeyOf(front[j]) == g.KeyOf(front[i]);
        } else {
          SameGroupBetween(g, front, r, i, j);
        }
      }
    }
  }

  lemma SameGroupBetween(g: Grouping, front: seq<Row>, r: Row, i: nat, j: nat)
    requires Grouped(g, front) && KeysOnce(Streamed(g, front + [r])) && i < j < |front|
    requires AllCovered(g, front[i], front[j], r) && g.KeyOf(front[i]) == g.KeyOf(r)
    ensures g.KeyOf(front[j]) == g.KeyOf(r)
  {
    hide Streamed, Keys, Total, KeysOnce;
    KeyOfEveryRow(g, front, i);
    NotTorn(g, front, r);
    var last := StreamsLast(g, front);
    assert j <= last;
  }

  lemma StreamingAgreesIff(g: Grouping, rows: seq<Row>)
    ensures Streamed(g, rows) == Listed(g, rows) <==> Grouped(g, rows)
  {
    if Grouped(g, rows) {
      StreamingIsBuffering(g, rows);
    } else if Streamed(g, rows) == Listed(g, rows) {
      TornGroupsStreamTwice(g, rows);
    }
  }

  // Rows sorted by station and time, and buckets that do not go back, keep groups together.
  lemma SortedIsGrouped(g: Grouping, rows: seq<Row>)
    requires ByStationAndTime(g, rows) && Forward(g.bucketOf, rows)
    ensures Grouped(g, rows)
  {}

  // ORDER BY station, time: a station's rows in the window stand together, and in order.
  predicate ByStationAndTime(g: Grouping, rows: seq<Row>) {
    && (forall i, j, m :: 0 <= i < j < m < |rows| && AllCovered(g, rows[i], rows[j], rows[m]) && rows[i].station == rows[m].station
          ==> rows[j].station == rows[i].station)
    && (forall i, j :: 0 <= i < j < |rows| && rows[i].station == rows[j].station ==> rows[i].t <= rows[j].t)
  }

  // The bucket function does not go back between any two of the rows.
  predicate Forward(bucketOf: int -> int, rows: seq<Row>) {
    forall i, j :: 0 <= i < |rows| && 0 <= j < |rows| && rows[i].t <= rows[j].t ==> bucketOf(rows[i].t) <= bucketOf(rows[j].t)
  }

  // ----- streaming the window with its baselines

  function CoveredOf(g: Grouping, rows: seq<Row>): (out: seq<Row>)
    ensures |out| <= |rows|
  {
    if rows == [] then []
    else CoveredOf(g, rows[..|rows| - 1]) + if g.Covers(rows[|rows| - 1].t) then [rows[|rows| - 1]] else []
  }

  lemma {:induction false} CoveredConcat(g: Grouping, a: seq<Row>, b: seq<Row>)
    ensures CoveredOf(g, a + b) == CoveredOf(g, a) + CoveredOf(g, b)
  {
    if b == [] {
      assert a + b == a;
    } else {
      CoveredConcat(g, a, b[..|b| - 1]);
      assert (a + b)[..|a + b| - 1] == a + b[..|b| - 1];
    }
  }

  // Where a row of the window stands among those rows.
  lemma CoveredAt(g: Grouping, rows: seq<Row>, i: nat)
    requires i < |rows| && g.Covers(rows[i].t)
    ensures |CoveredOf(g, rows[..i])| < |CoveredOf(g, rows)| && CoveredOf(g, rows)[|CoveredOf(g, rows[..i])|] == rows[i]
    ensures forall j :: i < j <= |rows| ==> |CoveredOf(g, rows[..i])| < |CoveredOf(g, rows[..j])|
  {
    var one := rows[..i + 1];
    assert one[..i] == rows[..i];
    forall j | i < j <= |rows| ensures |CoveredOf(g, rows[..i])| < |CoveredOf(g, rows[..j])| {
      CoveredConcat(g, one, rows[i + 1..j]);
      assert one + rows[i + 1..j] == rows[..j];
    }
    CoveredConcat(g, one, rows[i + 1..]);
    assert one + rows[i + 1..] == rows;
  }

  // Rows outside of the window tear nothing apart.
  lemma GroupedByCovered(g: Grouping, rows: seq<Row>)
    requires Grouped(g, CoveredOf(g, rows))
    ensures Grouped(g, rows)
  {
    forall i, j, m | 0 <= i < j < m < |rows| && AllCovered(g, rows[i], rows[j], rows[m]) && g.KeyOf(rows[i]) == g.KeyOf(rows[m])
      ensures g.KeyOf(rows[j]) == g.KeyOf(rows[i])
    {
      CoveredAt(g, rows, i);
      CoveredAt(g, rows, j);
      CoveredAt(g, rows, m);
      hide CoveredOf;
      var all := CoveredOf(g, rows);
      var a, b, c := |CoveredOf(g, rows[..i])|, |CoveredOf(g, rows[..j])|, |CoveredOf(g, rows[..m])|;
      assert 0 <= a < b < c < |all| && all[a] == rows[i] && all[b] == rows[j] && all[c] == rows[m];
    }
  }

  // The window lies inside of the grouping and the baselines before it.
  predicate Inside(g: Grouping, baseline: map<string, Row>, window: seq<Row>) {
    (forall r :: r in window ==> g.Covers(r.t)) && forall x :: x in baseline ==> !g.Covers(baseline[x].t)
  }

  lemma {:induction false} CoveredInterleaved(g: Grouping, baseline: map<string, Row>, window: seq<Row>)
    requires Inside(g, baseline, window)
    ensures CoveredOf(g, Interleaved(baseline, window)) == window
  {
    hide CoveredOf, OfStation, Base;
    if window == [] {
      CoveredNone(g, []);
    } else {
      var front, r := window[..|window| - 1], window[|window| - 1];
      assert window == front + [r] && r in window;
      CoveredInterleaved(g, baseline, front);
      BaseOutside(g, baseline, r.station);
      CoveredStep(g, Interleaved(baseline, front), if OfStation(front, r.station) == [] then Base(baseline, r.station) else [], r);
    }
  }

  lemma BaseOutside(g: Grouping, baseline: map<string, Row>, x: string)
    requires forall y :: y in baseline ==> !g.Covers(baseline[y].t)
    ensures forall b :: b in Base(baseline, x) ==> !g.Covers(b.t)
  {}

  lemma CoveredStep(g: Grouping, shown: seq<Row>, base: seq<Row>, r: Row)
    requires g.Covers(r.t) && forall b :: b in base ==> !g.Covers(b.t)
    ensures CoveredOf(g, shown + base + [r]) == CoveredOf(g, shown) + [r]
  {
    hide CoveredOf;
    CoveredConcat(g, shown, base);
    CoveredConcat(g, shown + base, [r]);
    CoveredNone(g, base);
    CoveredOne(g, r);
    assert CoveredOf(g, shown) + [] == CoveredOf(g, shown);
  }

  lemma CoveredOne(g: Grouping, r: Row)
    ensures CoveredOf(g, [r]) == if g.Covers(r.t) then [r] else []
  {
    assert [r][..0] == [];
  }

  lemma {:induction false} CoveredNone(g: Grouping, rows: seq<Row>)
    requires forall r :: r in rows ==> !g.Covers(r.t)
    ensures CoveredOf(g, rows) == []
  {
    if rows != [] { CoveredNone(g, rows[..|rows| - 1]); }
  }

  lemma {:induction false} InItsStation(rows: seq<Row>, r: Row)
    requires r in rows
    ensures r in OfStation(rows, r.station)
  {
    if r != rows[|rows| - 1] {
      assert rows == rows[..|rows| - 1] + [rows[|rows| - 1]];
      InItsStation(rows[..|rows| - 1], r);
    }
  }

  lemma InsideByCut(g: Grouping, rows: seq<Row>, baseline: map<string, Row>, window: seq<Row>)
    requires Baselines(baseline) && Cut(g, rows, baseline, window)
    ensures Inside(g, baseline, window)
  {
    hide OfStation;
    forall r | r in window ensures g.Covers(r.t) {
      InItsStation(window, r);
      assert CutAt(g, OfStation(rows, r.station), Base(baseline, r.station), OfStation(window, r.station));
    }
    forall x | x in baseline ensures !g.Covers(baseline[x].t) {
      assert CutAt(g, OfStation(rows, x), Base(baseline, x), OfStation(window, x));
      assert baseline[x] in Base(baseline, x);
    }
  }

  // The rows as they are streamed are never torn apart.
  lemma StreamedIsGrouped(g: Grouping, baseline: map<string, Row>, window: seq<Row>, rest: seq<Row>)
    requires Baselines(baseline) && Inside(g, baseline, window) && LeftOver(baseline, window, rest)
    requires ByStationAndTime(g, window) && Forward(g.bucketOf, window)
    ensures Grouped(g, Interleaved(baseline, window) + rest)
  {
    CoveredInterleaved(g, baseline, window);
    forall r | r in rest ensures !g.Covers(r.t) {
      InItsStation(rest, r);
    }
    CoveredNone(g, rest);
    CoveredConcat(g, Interleaved(baseline, window), rest);
    SortedIsGrouped(g, window);
    GroupedByCovered(g, Interleaved(baseline, window) + rest);
  }

  // What is read from the window and the baselines gives every group of the whole history once, with its total: collected in
  // a buffer whatever the order of the window's stations, or handed over group by group when the window is sorted and the
  // bucket function does not go back.
  method DropsFromWindow(g: Grouping, ghost rows: seq<Row>, baseline: map<string, Row>, window: seq<Row>, streaming: bool)
    returns (entries: seq<Entry>)
    requires Baselines(baseline) && Cut(g, rows, baseline, window)
    requires streaming ==> ByStationAndTime(g, window) && Forward(g.bucketOf, window)
    ensures forall k :: (exists e :: e in entries && e.key == k) <==> k in Keys(g, rows)
    ensures forall e :: e in entries ==> e.usd == Total(g, rows, e.key)
    ensures forall i, j :: 0 <= i < j < |entries| ==> entries[i].key != entries[j].key
  {
    var out;
    ghost var rest;
    out, rest := WithBaselines(baseline, window);
    forall k ensures Total(g, out, k) == Total(g, rows, k) && (k in Keys(g, out) <==> k in Keys(g, rows)) {
      SameTotals(g, rows, baseline, window, out, k);
    }
    if streaming {
      InsideByCut(g, rows, baseline, window);
      StreamedIsGrouped(g, baseline, window, rest);
      StreamingIsBuffering(g, out);
    }
    entries := UsageDropsOf(g, out, streaming);
    ListedKeys(g, out);
  }

  // ----- usedBetween

  function Sum(entries: seq<Entry>): int {
    if entries == [] then 0 else Sum(entries[..|entries| - 1]) + entries[|entries| - 1].usd
  }

  // One station's drops over all buckets add up to its consumption in the window.
  lemma {:induction false} SumIsUsed(g: Grouping, rows: seq<Row>, station: string)
    requires forall r :: r in rows ==> r.station == station
    ensures Sum(Streamed(g, rows)) == UsedRaw(rows, g.start, g.end)
  {
    if rows == [] {
    } else {
      var n := |rows| - 1;
      var front, r := rows[..n], rows[n];
      assert front + [r] == rows;
      hide Streamed, Sum;
      SumIsUsed(g, front, station);
      StreamOneMore(g, front, r);
      UsedOneMore(front, r, station, g.start, g.end);
      if g.Covers(r.t) { SumOneMore(Streamed(g, front), g.KeyOf(r), Drop(LastBalance(front, r.station), r.remaining)); }
    }
  }

  lemma UsedOneMore(front: seq<Row>, r: Row, station: string, since: int, until: int)
    requires r.station == station && forall x :: x in front ==> x.station == station
    ensures UsedRaw(front + [r], since, until)
         == UsedRaw(front, since, until) + if since <= r.t < until then Drop(LastBalance(front, station), r.remaining) else 0
  {
    assert (front + [r])[..|front|] == front;
    if front != [] { assert front[|front| - 1] in front; }
  }

  lemma SumOneMore(out: seq<Entry>, k: Key, drop: int)
    ensures var n := |out| - 1;
            Sum(if out != [] && out[n].key == k then out[n := Entry(out[n].key, out[n].usd + drop)] else out + [Entry(k, drop)]) == Sum(out) + drop
  {
    var n := |out| - 1;
    assert (out + [Entry(k, drop)])[..|out|] == out;
    if out != [] { assert out[n := Entry(out[n].key, out[n].usd + drop)][..n] == out[..n]; }
  }

  // What the buckets of a station's window hold is what usedBetween adds up before rounding.
  lemma BucketsAreUsed(g: Grouping, rows: seq<Row>, station: string)
    requires InOrder(rows) && forall r :: r in rows ==> r.station == station
    requires Forward(g.bucketOf, rows)
    ensures Sum(Listed(g, rows)) == UsedRaw(rows, g.start, g.end)
  {
    assert forall i :: 0 <= i < |rows| ==> rows[i] in rows;
    SortedIsGrouped(g, rows);
    StreamingIsBuffering(g, rows);
    SumIsUsed(g, rows, station);
  }

  // Neighbouring windows neither overlap nor leave anything out.
  lemma {:induction false} UsedIsAdditive(rows: seq<Row>, a: int, b: int, c: int)
    requires a <= b <= c
    ensures UsedRaw(rows, a, c) == UsedRaw(rows, a, b) + UsedRaw(rows, b, c)
  {
    if |rows| >= 2 {
      UsedIsAdditive(rows[..|rows| - 1], a, b, c);
    }
  }

  // ----- what counts as consumption

  // Two neighbouring snapshots: a drop counts when the later one lies in the window, a rise never does.
  lemma UsedOfTwo(a: Row, b: Row, since: int, until: int)
    ensures UsedRaw([a, b], since, until) == if since <= b.t < until && a.remaining > b.remaining then a.remaining - b.remaining else 0
  {
    assert [a, b][..1] == [a];
  }

  // The balance put back between snapshots of the window.
  function ToppedUp(rows: seq<Row>, since: int, until: int): int {
    if |rows| < 2 then 0
    else
      var n := |rows| - 1;
      ToppedUp(rows[..n], since, until)
      + if since <= rows[n].t < until && rows[n].remaining > rows[n - 1].remaining then rows[n].remaining - rows[n - 1].remaining else 0
  }

  // Nothing is lost: over a window that holds all snapshots but the first, the balance then plus what was put back is the
  // balance now plus what was used; without top-ups the consumption is what the balance fell by.
  lemma {:induction false} BalanceIsConserved(rows: seq<Row>, since: int, until: int)
    requires rows != [] && forall i :: 0 < i < |rows| ==> since <= rows[i].t < until
    ensures rows[0].remaining + ToppedUp(rows, since, until) == rows[|rows| - 1].remaining + UsedRaw(rows, since, until)
    ensures UsedRaw(rows, since, until) >= 0 && ToppedUp(rows, since, until) >= 0
  {
    if |rows| >= 2 {
      BalanceIsConserved(rows[..|rows| - 1], since, until);
    }
  }

  // One station's drops with the later snapshot in the window and in this bucket.
  function UsedInBucket(rows: seq<Row>, g: Grouping, bucket: int): int {
    if |rows| < 2 then 0
    else
      var n := |rows| - 1;
      UsedInBucket(rows[..n], g, bucket)
      + if g.start <= rows[n].t < g.end && g.bucketOf(rows[n].t) == bucket && rows[n - 1].remaining > rows[n].remaining
        then rows[n - 1].remaining - rows[n].remaining else 0
  }

  lemma {:induction false} LastOfOne(rows: seq<Row>, station: string)
    requires forall r :: r in rows ==> r.station == station
    ensures LastBalance(rows, station) == if rows == [] then None else Some(rows[|rows| - 1].remaining)
  {
    if rows != [] { assert rows[|rows| - 1] in rows; }
  }

  lemma {:induction false} BucketOfStation(g: Grouping, rows: seq<Row>, station: string, bucket: int)
    requires forall r :: r in rows ==> r.station == station
    ensures Total(g, rows, Key(station, bucket)) == UsedInBucket(rows, g, bucket)
  {
    if rows != [] {
      var n := |rows| - 1;
      var front, r := rows[..n], rows[n];
      assert front + [r] == rows && r in rows;
      BucketOfStation(g, front, station, bucket);
      LastOfOne(front, station);
      BucketsOneMore(g, front, r);
      if n > 0 { assert front[n - 1] == rows[n - 1]; }
      hide Total, Keys, LastBalance;
    }
  }

  predicate RowIn(g: Grouping, r: Row, bucket: int) { g.start <= r.t < g.end && g.bucketOf(r.t) == bucket }

  lemma {:induction false} GroupOfStation(g: Grouping, rows: seq<Row>, station: string, bucket: int)
    requires forall r :: r in rows ==> r.station == station
    ensures Key(station, bucket) in Keys(g, rows) <==> exists r :: r in rows && RowIn(g, r, bucket)
  {
    if rows != [] {
      var n := |rows| - 1;
      var front, r := rows[..n], rows[n];
      assert front + [r] == rows && r in rows;
      GroupOfStation(g, front, station, bucket);
      BucketsOneMore(g, front, r);
      assert forall x :: x in rows <==> x in front || x == r;
      hide Total, Keys, LastBalance;
    }
  }

  // The total of any key, whatever stands between a station's rows: that station's drops in that bucket of the window; and
  // there is a group for it exactly when the station has a row there.
  lemma TotalIsUsedInBucket(g: Grouping, rows: seq<Row>, station: string, bucket: int)
    ensures Total(g, rows, Key(station, bucket)) == UsedInBucket(OfStation(rows, station), g, bucket)
    ensures Key(station, bucket) in Keys(g, rows) <==> exists r :: r in OfStation(rows, station) && RowIn(g, r, bucket)
  {
    TotalOfStation(g, rows, Key(station, bucket));
    AllOfStation(rows, station);
    BucketOfStation(g, OfStation(rows, station), station, bucket);
    GroupOfStation(g, OfStation(rows, station), station, bucket);
  }
}
