// Consumption as the sum of balance drops between neighbouring snapshots, grouped by station and bucket (db/history.js).
// Balances are whole numbers of the smallest unit.
module UsageDrops {
  import opened Outcomes

  datatype Row = Row(station: string, t: int, remaining: int)
  datatype Key = Key(station: string, bucket: int)
  datatype Entry = Entry(key: Key, usd: int)

  // A window [start, end) and the bucket of an instant.
  datatype Grouping = Grouping(start: int, end: int, bucketOf: int -> int) {
    predicate Covers(t: int) { start <= t < end }

    function KeyOf(r: Row): Key { Key(r.station, bucketOf(r.t)) }
  }

  // ----- what is to be computed

  // The station's balance at its last row.
  function LastBalance(rows: seq<Row>, station: string): Option<int> {
    if rows == [] then None
    else if rows[|rows| - 1].station == station then Some(rows[|rows| - 1].remaining)
    else LastBalance(rows[..|rows| - 1], station)
  }

  function Drop(before: Option<int>, remaining: int): int {
    if before.Some? && before.value > remaining then before.value - remaining else 0
  }

  // The drops that fall to a key.
  function Total(g: Grouping, rows: seq<Row>, k: Key): int {
    if rows == [] then 0
    else
      var front, r := rows[..|rows| - 1], rows[|rows| - 1];
      Total(g, front, k) + if g.Covers(r.t) && g.KeyOf(r) == k then Drop(LastBalance(front, r.station), r.remaining) else 0
  }

  // The keys with a row in the window, in order of first appearance.
  function Keys(g: Grouping, rows: seq<Row>): (keys: seq<Key>)
    ensures forall i, j :: 0 <= i < j < |keys| ==> keys[i] != keys[j]
  {
    if rows == [] then []
    else
      var keys, r := Keys(g, rows[..|rows| - 1]), rows[|rows| - 1];
      if g.Covers(r.t) && g.KeyOf(r) !in keys then keys + [g.KeyOf(r)] else keys
  }

  function Listed(g: Grouping, rows: seq<Row>): seq<Entry> {
    var keys := Keys(g, rows);
    seq(|keys|, i requires 0 <= i < |keys| => Entry(keys[i], Total(g, rows, keys[i])))
  }

  // What streaming hands over: one entry for every run of rows with the same key.
  function Streamed(g: Grouping, rows: seq<Row>): seq<Entry> {
    if rows == [] then []
    else
      var front, r := rows[..|rows| - 1], rows[|rows| - 1];
      var out := Streamed(g, front);
      if !g.Covers(r.t) then out
      else
        var drop := Drop(LastBalance(front, r.station), r.remaining);
        var n := |out| - 1;
        if out != [] && out[n].key == g.KeyOf(r) then out[n := Entry(out[n].key, out[n].usd + drop)]
        else out + [Entry(g.KeyOf(r), drop)]
  }

  // ----- the accumulator

  class Accumulator {
    const g: Grouping
    const streaming: bool
    var previous: map<string, int>
    // Buffered: the totals so far, and their keys in the order of insertion.
    var buckets: map<Key, int>
    var order: seq<Key>
    // The group of the last row in the window; streaming keeps its sum here and hands it over when the group changes.
    var entry: Option<Key>
    var usd: int
    var emitted: seq<Entry>
    ghost var rows: seq<Row>

    ghost predicate Remembers()
      reads this
    {
      && (forall x :: x in previous <==> LastBalance(rows, x).Some?)
      && (forall x :: x in previous ==> previous[x] == LastBalance(rows, x).value)
    }

    ghost predicate Buffers()
      reads this
    {
      && order == Keys(g, rows) && (forall k :: k in buckets <==> k in order)
      && (forall k :: k in order ==> buckets[k] == Total(g, rows, k))
      && (entry.Some? ==> entry.value in order)
    }

    ghost predicate Streams()
      reads this
    {
      && Streamed(g, rows) == emitted + (if entry.Some? then [Entry(entry.value, usd)] else [])
      && (entry.None? ==> emitted == [])
    }

    ghost predicate Valid()
      reads this
    {
      Remembers() && if streaming then Streams() else Buffers()
    }

    constructor (g: Grouping, streaming: bool)
      ensures Valid() && rows == [] && this.g == g && this.streaming == streaming
    {
      this.g, this.streaming := g, streaming;
      previous, buckets, order, entry, usd, emitted, rows := map[], map[], [], None, 0, [], [];
    }

    method Add(row: Row)
      requires Valid()
      modifies this
      ensures Valid() && rows == old(rows) + [row]
    {
      hide Streamed, Keys, Total, LastBalance;
      LastOneMore(rows, row);
      var before := if row.station in previous then Some(previous[row.station]) else None;
      ghost var past := rows;
      if streaming { Stream(row, Drop(before, row.remaining)); } else { Buffer(row, Drop(before, row.remaining)); }
      previous := previous[row.station := row.remaining];
    }

    // Adding to the bucket of the row, which is made when it is met first.
    method Buffer(row: Row, drop: int)
      requires Buffers() && drop == Drop(LastBalance(rows, row.station), row.remaining)
      modifies `buckets, `order, `entry, `rows
      ensures Buffers() && rows == old(rows) + [row]
    {
      hide Streamed, Keys, Total;
      BucketsOneMore(g, rows, row);
      Unseen(g, rows, g.KeyOf(row));
      rows := rows + [row];
      if !g.Covers(row.t) { return; }
      var key := g.KeyOf(row);
      if entry != Some(key) {
        if key !in buckets { buckets, order := buckets[key := 0], order + [key]; }
        entry := Some(key);
      }
      buckets := buckets[key := buckets[key] + drop];
    }

    // Adding to the current group, which is handed over when another one begins.
    method Stream(row: Row, drop: int)
      requires Streams() && drop == Drop(LastBalance(rows, row.station), row.remaining)
      modifies `emitted, `entry, `usd, `rows
      ensures Streams() && rows == old(rows) + [row]
    {
      StreamOneMore(g, rows, row);
      hide Streamed, Keys, Total;
      rows := rows + [row];
      if !g.Covers(row.t) { return; }
      var key := g.KeyOf(row);
      if entry != Some(key) {
        if entry.Some? { emitted := emitted + [Entry(entry.value, usd)]; }
        entry, usd := Some(key), 0;
      }
      usd := usd + drop;
    }

    // What streaming has handed over in the end, or what the buffer holds.
    method Finish() returns (entries: seq<Entry>)
      requires Valid()
      modifies this
      ensures entries == if streaming then Streamed(g, old(rows)) else Listed(g, old(rows))
    {
      if streaming {
        if entry.Some? { emitted := emitted + [Entry(entry.value, usd)]; }
        entry := None;
        return emitted;
      }
      var keys, totals := order, buckets;
      entries := seq(|keys|, i requires 0 <= i < |keys| => Entry(keys[i], if keys[i] in totals then totals[keys[i]] else 0));
    }
  }

  lemma LastOneMore(rows: seq<Row>, r: Row)
    ensures forall x :: LastBalance(rows + [r], x) == if x == r.station then Some(r.remaining) else LastBalance(rows, x)
  {
    assert (rows + [r])[..|rows|] == rows;
  }

  lemma BucketsOneMore(g: Grouping, rows: seq<Row>, r: Row)
    ensures Keys(g, rows + [r]) == if g.Covers(r.t) && g.KeyOf(r) !in Keys(g, rows) then Keys(g, rows) + [g.KeyOf(r)] else Keys(g, rows)
    ensures forall k :: Total(g, rows + [r], k)
                        == Total(g, rows, k) + if g.Covers(r.t) && g.KeyOf(r) == k then Drop(LastBalance(rows, r.station), r.remaining) else 0
  {
    assert (rows + [r])[..|rows|] == rows;
  }

  lemma StreamOneMore(g: Grouping, rows: seq<Row>, r: Row)
    ensures var out, drop := Streamed(g, rows), Drop(LastBalance(rows, r.station), r.remaining);
            var n := |out| - 1;
            Streamed(g, rows + [r]) ==
              if !g.Covers(r.t) then out
              else if out != [] && out[n].key == g.KeyOf(r) then out[n := Entry(out[n].key, out[n].usd + drop)]
              else out + [Entry(g.KeyOf(r), drop)]
  {
    assert (rows + [r])[..|rows|] == rows;
  }

  lemma {:induction false} Unseen(g: Grouping, rows: seq<Row>, k: Key)
    ensures k !in Keys(g, rows) ==> Total(g, rows, k) == 0
  {
    if rows != [] {
      Unseen(g, rows[..|rows| - 1], k);
      assert Keys(g, rows[..|rows| - 1]) <= Keys(g, rows);
    }
  }

  method UsageDropsOf(g: Grouping, rows: seq<Row>, streaming: bool) returns (entries: seq<Entry>)
    ensures entries == if streaming then Streamed(g, rows) else Listed(g, rows)
  {
    var drops := new Accumulator(g, streaming);
    for i := 0 to |rows|
      invariant drops.Valid() && drops.rows == rows[..i] && drops.g == g && drops.streaming == streaming && fresh(drops)
    {
      drops.Add(rows[i]);
      assert rows[..i + 1] == rows[..i] + [rows[i]];
    }
    assert rows[..|rows|] == rows;
    entries := drops.Finish();
  }

  // ----- reading only the window and each station's last row before it

  function OfStation(rows: seq<Row>, station: string): seq<Row> {
    if rows == [] then []
    else
      var front, r := OfStation(rows[..|rows| - 1], station), rows[|rows| - 1];
      if r.station == station then front + [r] else front
  }

  function Base(before: map<string, Row>, station: string): seq<Row> {
    if station in before then [before[station]] else []
  }

  predicate Baselines(before: map<string, Row>) { forall x :: x in before ==> before[x].station == x }

  lemma OneMoreOf(rows: seq<Row>, r: Row, station: string)
    ensures OfStation(rows + [r], station) == OfStation(rows, station) + if r.station == station then [r] else []
  {
    assert (rows + [r])[..|rows|] == rows;
  }

  // The window with each station's baseline directly in front of the station's first row.
  function Interleaved(baseline: map<string, Row>, window: seq<Row>): seq<Row> {
    if window == [] then []
    else
      var front, r := window[..|window| - 1], window[|window| - 1];
      Interleaved(baseline, front) + (if OfStation(front, r.station) == [] then Base(baseline, r.station) else []) + [r]
  }

  // The baselines of stations without rows in the window, each once and in any order.
  ghost predicate LeftOver(baseline: map<string, Row>, window: seq<Row>, rest: seq<Row>) {
    forall x :: OfStation(rest, x) == if OfStation(window, x) == [] then Base(baseline, x) else []
  }

  lemma InterleavedOneMore(baseline: map<string, Row>, window: seq<Row>, r: Row)
    ensures Interleaved(baseline, window + [r])
         == Interleaved(baseline, window) + (if OfStation(window, r.station) == [] then Base(baseline, r.station) else []) + [r]
  {
    assert (window + [r])[..|window|] == window;
  }

  lemma {:induction false} ConcatOf(a: seq<Row>, b: seq<Row>, station: string)
    ensures OfStation(a + b, station) == OfStation(a, station) + OfStation(b, station)
  {
    if b == [] {
      assert a + b == a;
    } else {
      var front, r := b[..|b| - 1], b[|b| - 1];
      ConcatOf(a, front, station);
      assert a + b == (a + front) + [r];
      OneMoreOf(a + front, r, station);
    }
  }

  lemma BaseOf(baseline: map<string, Row>, x: string, y: string)
    requires Baselines(baseline)
    ensures OfStation(Base(baseline, x), y) == if x == y then Base(baseline, x) else []
  {
    if x in baseline {
      OneMoreOf([], baseline[x], y);
      assert [] + [baseline[x]] == Base(baseline, x);
    }
  }

  lemma {:induction false} InterleavedOf(baseline: map<string, Row>, window: seq<Row>, x: string)
    requires Baselines(baseline)
    ensures OfStation(Interleaved(baseline, window), x)
         == (if OfStation(window, x) == [] then [] else Base(baseline, x)) + OfStation(window, x)
  {
    if window != [] {
      var front, r := window[..|window| - 1], window[|window| - 1];
      assert window == front + [r];
      InterleavedOf(baseline, front, x);
      ShownOneMore(baseline, front, r, x);
      OneMoreOf(front, r, x);
      hide OfStation, Base, Interleaved;
      var base, mine := Base(baseline, x), OfStation(front, x);
      if r.station == x {
        assert mine == [] ==> [] + mine + base + [r] == base + (mine + [r]);
        assert base + mine + [] + [r] == base + (mine + [r]);
      }
    }
  }

  lemma ShownOneMore(baseline: map<string, Row>, window: seq<Row>, r: Row, x: string)
    requires Baselines(baseline)
    ensures var shown := OfStation(Interleaved(baseline, window), x);
            OfStation(Interleaved(baseline, window + [r]), x)
            == if x != r.station then shown
               else shown + (if OfStation(window, x) == [] then Base(baseline, x) else []) + [r]
  {
    hide OfStation, Base, Interleaved;
    var base := if OfStation(window, r.station) == [] then Base(baseline, r.station) else [];
    InterleavedOneMore(baseline, window, r);
    BaseOf(baseline, r.station, x);
    NothingOf(x);
    ConcatOf(Interleaved(baseline, window), base, x);
    OneMoreOf(Interleaved(baseline, window) + base, r, x);
  }

  lemma NothingOf(x: string)
    ensures OfStation([], x) == []
  {}

  // Rows of the window as the query returns them, each station's baseline put in front of its first one; baselines of
  // stations without rows in the window come last.
  method WithBaselines(baseline: map<string, Row>, window: seq<Row>) returns (out: seq<Row>, ghost rest: seq<Row>)
    requires Baselines(baseline)
    ensures out == Interleaved(baseline, window) + rest && LeftOver(baseline, window, rest)
    ensures forall x :: OfStation(out, x) == Base(baseline, x) + OfStation(window, x)
  {
    hide OfStation, Interleaved;
    var before := baseline;
    var station: Option<string> := None;
    out := [];
    NothingSeen(baseline);
    for i := 0 to |window|
      invariant out == Interleaved(baseline, window[..i]) && Unmet(baseline, before, window[..i])
      invariant station.Some? ==> station.value !in before
    {
      var row := window[i];
      assert window[..i + 1] == window[..i] + [row];
      InterleavedOneMore(baseline, window[..i], row);
      UnmetOneMore(baseline, before, window[..i], row);
      assert row.station !in before ==> before - {row.station} == before;
      if station != Some(row.station) {
        station := Some(row.station);
        if row.station in before {
          out := out + [before[row.station]];
          before := before - {row.station};
        }
      }
      out := out + [row];
    }
    assert window[..|window|] == window;
    out, rest := AppendRest(baseline, before, window, out);
    forall x ensures OfStation(out, x) == Base(baseline, x) + OfStation(window, x) {
      InterleavedOf(baseline, window, x);
      ConcatOf(Interleaved(baseline, window), rest, x);
    }
  }

  // The baselines left when `seen` of the window has been read.
  ghost predicate Unmet(baseline: map<string, Row>, before: map<string, Row>, seen: seq<Row>) {
    && (forall x :: x in before <==> x in baseline && OfStation(seen, x) == [])
    && (forall x :: x in before ==> before[x] == baseline[x])
  }

  lemma UnmetOneMore(baseline: map<string, Row>, before: map<string, Row>, seen: seq<Row>, row: Row)
    requires Unmet(baseline, before, seen)
    ensures Unmet(baseline, before - {row.station}, seen + [row])
  {
    forall x ensures x in before - {row.station} <==> x in baseline && OfStation(seen + [row], x) == [] {
      OneMoreOf(seen, row, x);
    }
  }

  lemma NothingSeen(baseline: map<string, Row>)
    ensures Interleaved(baseline, []) == [] && Unmet(baseline, baseline, [])
  {}

  // What has been appended when the baselines `before` are still to come.
  ghost predicate Appended(unmet: map<string, Row>, before: map<string, Row>, rest: seq<Row>) {
    && (forall x :: x in before ==> x in unmet && before[x] == unmet[x])
    && (forall x :: OfStation(rest, x) == if x in unmet && x !in before then [unmet[x]] else [])
  }

  lemma AppendedOneMore(unmet: map<string, Row>, before: map<string, Row>, rest: seq<Row>, x: string)
    requires Appended(unmet, before, rest) && Baselines(unmet) && x in before
    ensures Appended(unmet, before - {x}, rest + [before[x]])
  {
    forall y ensures OfStation(rest + [before[x]], y) == if y in unmet && y !in before - {x} then [unmet[y]] else [] {
      OneMoreOf(rest, before[x], y);
    }
  }

  method AppendRest(baseline: map<string, Row>, unmet: map<string, Row>, window: seq<Row>, merged: seq<Row>)
    returns (out: seq<Row>, ghost rest: seq<Row>)
    requires Baselines(baseline) && Unmet(baseline, unmet, window)
    ensures out == merged + rest && LeftOver(baseline, window, rest)
  {
    var before := unmet;
    out, rest := merged, [];
    assert Appended(unmet, before, rest);
    assert Baselines(unmet);
    while before != map[]
      invariant out == merged + rest && Appended(unmet, before, rest)
      decreases |before|
    {
      hide Appended, Unmet;
      var x :| x in before;
      AppendedOneMore(unmet, before, rest, x);
      rest := rest + [before[x]];
      out := out + [before[x]];
      before := before - {x};
    }
  }

  // ----- one station's consumption between two instants

  function UsedRaw(rows: seq<Row>, since: int, until: int): int {
    if |rows| < 2 then 0
    else
      var n := |rows| - 1;
      UsedRaw(rows[..n], since, until) + if since <= rows[n].t < until then Drop(Some(rows[n - 1].remaining), rows[n].remaining) else 0
  }

  predicate InOrder(rows: seq<Row>) { forall i, j :: 0 <= i < j < |rows| ==> rows[i].t < rows[j].t }

  // Before rounding to the cent.
  method UsedBetween(rows: seq<Row>, since: int, until: int) returns (used: int)
    requires InOrder(rows)
    ensures used == UsedRaw(rows, since, until)
  {
    if |rows| < 2 { return 0; }
    var start := 0;
    for i := 0 to |rows|
      invariant 0 <= start < |rows|
      invariant start == 0 || rows[start].t < since
      invariant forall j :: start < j < i ==> rows[j].t >= since
    {
      if rows[i].t < since { start := i; }
    }
    used := 0;
    var i := start + 1;
    UsedNothing(rows, start + 1, since, until);
    while i < |rows| && rows[i].t < until
      invariant start < i <= |rows| && used == UsedRaw(rows[..i], since, until)
      decreases |rows| - i
    {
      assert rows[..i + 1][..i] == rows[..i];
      var drop := rows[i - 1].remaining - rows[i].remaining;
      if drop > 0 { used := used + drop; }
      i := i + 1;
    }
    UsedNoMore(rows, i, |rows|, since, until);
    assert rows[..|rows|] == rows;
  }

  lemma {:induction false} UsedNothing(rows: seq<Row>, n: nat, since: int, until: int)
    requires InOrder(rows) && 0 < n <= |rows| && (n == 1 || rows[n - 1].t < since)
    ensures UsedRaw(rows[..n], since, until) == 0
  {
    if n > 1 {
      assert rows[..n][..n - 1] == rows[..n - 1];
      UsedNothing(rows, n - 1, since, until);
    }
  }

  lemma {:induction false} UsedNoMore(rows: seq<Row>, i: nat, n: nat, since: int, until: int)
    requires InOrder(rows) && 0 < i <= n <= |rows| && (i < |rows| ==> rows[i].t >= until)
    ensures UsedRaw(rows[..n], since, until) == UsedRaw(rows[..i], since, until)
    decreases n
  {
    if i < n {
      assert rows[..n][..n - 1] == rows[..n - 1];
      UsedNoMore(rows, i, n - 1, since, until);
    }
  }
}
