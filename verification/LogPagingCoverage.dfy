// What a reading of a growing log has counted once it finishes, however often it broke off and was resumed.
module LogPagingCoverage {
  import opened Outcomes
  import opened LogPaging

  // ----- a log that only grows

  ghost predicate UniqueIds(log: seq<Row>) {
    forall i, j :: 0 <= i < j < |log| ==> log[i].id != log[j].id
  }

  ghost predicate StaysAt(a: seq<Row>, i: nat, b: seq<Row>)
    requires i < |a|
  {
    exists j :: i <= j < |b| && b[j] == a[i]
  }

  // Nothing disappears and nothing moves towards the front.
  ghost predicate Grows(a: seq<Row>, b: seq<Row>) {
    forall i :: 0 <= i < |a| ==> StaysAt(a, i, b)
  }

  // Inserting a row anywhere is such a step, and steps compose.
  lemma InsertingGrows(log: seq<Row>, k: nat, r: Row)
    requires k <= |log|
    ensures Grows(log, log[..k] + [r] + log[k..])
  {
    var b := log[..k] + [r] + log[k..];
    forall i | 0 <= i < |log| ensures StaysAt(log, i, b) {
      assert b[if i < k then i else i + 1] == log[i];
    }
  }

  lemma GrowsOn(a: seq<Row>, b: seq<Row>, c: seq<Row>)
    requires Grows(a, b) && Grows(b, c)
    ensures Grows(a, c)
  {
    forall i | 0 <= i < |a| ensures StaysAt(a, i, c) {
      assert StaysAt(a, i, b);
      var j :| i <= j < |b| && b[j] == a[i];
      assert StaysAt(b, j, c);
    }
  }

  // In the grown log an old row stands no nearer to the front than it did.
  lemma WasNoLater(a: seq<Row>, b: seq<Row>, r: Row, q: nat)
    requires Grows(a, b) && UniqueIds(b) && r in a && q < |b| && b[q] == r
    ensures exists p :: 0 <= p <= q && p < |a| && a[p] == r
  {
    var p :| 0 <= p < |a| && a[p] == r;
    assert StaysAt(a, p, b);
    var j :| p <= j < |b| && b[j] == a[p];
    assert j == q;
  }

  // ----- readings

  // Rows a reading after `afterId` is there to count.
  predicate Wanted(afterId: Option<int>, r: Row) { afterId.None? || r.id > afterId.value }

  ghost predicate NewestFirst(log: seq<Row>) {
    forall i, j :: 0 <= i < j < |log| ==> log[i].id > log[j].id
  }

  // A log as the service may serve it.
  ghost predicate Sound(afterId: Option<int>, log: seq<Row>) {
    && UniqueIds(log)
    && (forall r :: r in log ==> !Malformed(r))
    && (afterId.Some? ==> NewestFirst(log))
  }

  // An answer, given what the log was when the reading began.
  ghost predicate Fair(afterId: Option<int>, start: seq<Row>, r: Response) {
    r.Listed? ==> Sound(afterId, r.log) && Grows(start, r.log)
  }

  ghost predicate Then(r: Response, s: Response) {
    r.Listed? && s.Listed? ==> Grows(r.log, s.log)
  }

  // The answers of one read, each log grown out of the one before.
  ghost predicate Growing(afterId: Option<int>, start: seq<Row>, responses: seq<Response>) {
    && (forall i :: 0 <= i < |responses| ==> Fair(afterId, start, responses[i]))
    && (forall i, j :: 0 <= i < j < |responses| ==> Then(responses[i], responses[j]))
  }

  ghost predicate AllThen(r: Response, responses: seq<Response>) {
    forall i :: 0 <= i < |responses| ==> Then(r, responses[i])
  }

  // What has been read of the first n positions: every row that was there at the start, and nothing foreign.
  ghost predicate Covers(afterId: Option<int>, start: seq<Row>, log: seq<Row>, n: nat, rows: seq<Row>) {
    && UniqueIds(rows)
    && (forall r :: r in rows ==> r in log && Wanted(afterId, r))
    && (forall q :: 0 <= q < n && q < |log| && log[q] in start && Wanted(afterId, log[q]) ==> log[q] in rows)
  }

  lemma CoversOn(afterId: Option<int>, start: seq<Row>, log: seq<Row>, n: nat, rows: seq<Row>, later: seq<Row>)
    requires Covers(afterId, start, log, n, rows) && Grows(start, log) && Grows(log, later) && UniqueIds(later)
    ensures Covers(afterId, start, later, n, rows)
  {
    forall r | r in rows ensures r in later {
      var i :| 0 <= i < |log| && log[i] == r;
      assert StaysAt(log, i, later);
    }
    forall q | 0 <= q < n && q < |later| && later[q] in start && Wanted(afterId, later[q]) ensures later[q] in rows {
      var i :| 0 <= i < |start| && start[i] == later[q];
      assert StaysAt(start, i, log);
      WasNoLater(log, later, later[q], q);
    }
  }

  // ----- one page

  lemma {:induction false} PageTakes(t: Taken, afterId: Option<int>, items: seq<Row>)
    requires t.ok && UniqueIds(t.rows) && UniqueIds(items) && (forall r :: r in items ==> !Malformed(r))
    requires forall r, s :: r in t.rows && s in items && r.id == s.id ==> r == s
    ensures var u := TakeRows(t, afterId, items);
            && u.ok && UniqueIds(u.rows)
            && (forall r :: r in u.rows <==> r in t.rows || (r in items && Wanted(afterId, r)))
            && (u.reachedOld <==> t.reachedOld || exists r :: r in items && !Wanted(afterId, r))
    decreases |items|
  {
    if items != [] {
      var t' := TakeRow(t, afterId, items[0]);
      assert forall r :: r in items <==> r == items[0] || r in items[1..];
      PageTakes(t', afterId, items[1..]);
    }
  }

  // Which rows a page holds.
  lemma PageHolds(log: seq<Row>, page: nat)
    requires page > 0
    ensures var items := Items(log, page); var from := (page - 1) * PAGE_SIZE;
            && (forall q :: from <= q < page * PAGE_SIZE && q < |log| ==> log[q] in items)
            && (forall i :: 0 <= i < |items| ==> from + i < |log| && from + i < page * PAGE_SIZE && items[i] == log[from + i])
            && (|items| < PAGE_SIZE ==> |log| < page * PAGE_SIZE)
  {
    var items, from := Items(log, page), (page - 1) * PAGE_SIZE;
    forall q | from <= q < page * PAGE_SIZE && q < |log| ensures log[q] in items {
      assert items[q - from] == log[q];
    }
  }

  // A page taken on top of what was read of the log before.
  lemma PageOnTop(afterId: Option<int>, log: seq<Row>, page: nat, rows: seq<Row>)
    requires page > 0 && Sound(afterId, log) && UniqueIds(rows) && forall r :: r in rows ==> r in log && Wanted(afterId, r)
    ensures var items := Items(log, page); var t := TakeRows(Taken(rows, 0, false, true), afterId, items);
            && t.ok && UniqueIds(t.rows)
            && (forall r :: r in t.rows <==> r in rows || (r in items && Wanted(afterId, r)))
            && (forall r :: r in t.rows ==> r in log && Wanted(afterId, r))
            && (t.reachedOld <==> exists r :: r in items && !Wanted(afterId, r))
  {
    hide Items, TakeRows, TakeRow;
    var items := Items(log, page);
    PageHolds(log, page);
    forall r, s | r in rows && s in items && r.id == s.id ensures r == s {
      var i, j :| 0 <= i < |log| && log[i] == r && 0 <= j < |log| && log[j] == s;
      assert !(i < j) && !(j < i);
    }
    PageTakes(Taken(rows, 0, false, true), afterId, items);
  }

  lemma AnotherPage(afterId: Option<int>, start: seq<Row>, log: seq<Row>, page: nat, rows: seq<Row>)
    requires page > 0 && Covers(afterId, start, log, (page - 1) * PAGE_SIZE, rows) && Sound(afterId, log)
    ensures var items := Items(log, page); var t := TakeRows(Taken(rows, 0, false, true), afterId, items);
            && t.ok && Covers(afterId, start, log, page * PAGE_SIZE, t.rows)
            && (t.reachedOld || |items| < PAGE_SIZE ==> Covers(afterId, start, log, |log|, t.rows))
  {
    hide Items, TakeRows, TakeRow, UniqueIds;
    var items, from := Items(log, page), (page - 1) * PAGE_SIZE;
    var t := TakeRows(Taken(rows, 0, false, true), afterId, items);
    PageHolds(log, page);
    PageOnTop(afterId, log, page, rows);
    if t.reachedOld {
      var r :| r in items && !Wanted(afterId, r);
      var i :| 0 <= i < |items| && items[i] == r;
      assert NewestFirst(log) && log[from + i] == r;
      forall q | page * PAGE_SIZE <= q < |log| ensures !Wanted(afterId, log[q]) {
        assert log[from + i].id > log[q].id;
      }
    }
  }

  // ----- one read, and any number of resumed ones

  // `last` is the log most recently seen.
  lemma {:induction false} ReadCovers(afterId: Option<int>, start: seq<Row>, last: seq<Row>, rows: seq<Row>, first: nat, page: nat,
                                      maxPages: nat, responses: seq<Response>) returns (log: seq<Row>)
    requires 0 < first <= page && |responses| >= maxPages && Growing(afterId, start, responses)
    requires Grows(start, last) && Covers(afterId, start, last, (page - 1) * PAGE_SIZE, rows)
    requires forall i :: page - 1 <= i < |responses| ==> Then(Listed(last), responses[i])
    ensures Grows(start, log) && (log == last || Listed(log) in responses)
    ensures match Read(rows, afterId, first, page, maxPages, false, responses)
            case Finished(all) => Listed(log) in responses && Covers(afterId, start, log, |log|, all)
            case Aborted(some, next) => next > 0 && Covers(afterId, start, log, (next - 1) * PAGE_SIZE, some)
            case Stopped => false
    decreases maxPages + 1 - page
  {
    log := last;
    if page <= maxPages && responses[page - 1].Listed? {
      log := responses[page - 1].log;
      assert Then(Listed(last), responses[page - 1]) && Fair(afterId, start, responses[page - 1]);
      CoversOn(afterId, start, last, (page - 1) * PAGE_SIZE, rows, log);
      AnotherPage(afterId, start, log, page, rows);
      var t := TakeRows(Taken(rows, 0, false, true), afterId, Items(log, page));
      if t.reachedOld || |Items(log, page)| < PAGE_SIZE {
      } else if t.added == 0 && page > first {
      } else {
        log := ReadCovers(afterId, start, log, t.rows, first, page + 1, maxPages, responses);
      }
    } else if page > maxPages {
      CoversLess(afterId, start, last, (page - 1) * PAGE_SIZE, maxPages * PAGE_SIZE, rows);
    }
  }

  lemma CoversLess(afterId: Option<int>, start: seq<Row>, log: seq<Row>, n: nat, m: nat, rows: seq<Row>)
    requires Covers(afterId, start, log, n, rows) && m <= n
    ensures Covers(afterId, start, log, m, rows)
  {}

  // Reads that each go on from where the one before broke off.
  function Reading(rows: seq<Row>, afterId: Option<int>, first: nat, maxPages: nat, tries: seq<seq<Response>>): Outcome
    requires first > 0 && forall k :: 0 <= k < |tries| ==> |tries[k]| >= maxPages
    decreases |tries|
  {
    if tries == [] then Aborted(rows, first)
    else
      match Read(rows, afterId, first, first, maxPages, false, tries[0])
      case Finished(all) => Finished(all)
      case Stopped => Stopped
      case Aborted(some, next) => if next == 0 then Stopped else Reading(some, afterId, next, maxPages, tries[1..])
  }

  // The whole history of answers, over all reads.
  ghost predicate GrowingOver(afterId: Option<int>, start: seq<Row>, tries: seq<seq<Response>>) {
    && (forall k :: 0 <= k < |tries| ==> Growing(afterId, start, tries[k]))
    && (forall k, m, i :: 0 <= k < m < |tries| && 0 <= i < |tries[k]| ==> AllThen(tries[k][i], tries[m]))
  }

  lemma {:induction false} ReadingCovers(afterId: Option<int>, start: seq<Row>, last: seq<Row>, rows: seq<Row>, first: nat, maxPages: nat,
                                         tries: seq<seq<Response>>) returns (log: seq<Row>)
    requires first > 0 && forall k :: 0 <= k < |tries| ==> |tries[k]| >= maxPages
    requires GrowingOver(afterId, start, tries)
    requires Grows(start, last) && Covers(afterId, start, last, (first - 1) * PAGE_SIZE, rows)
    requires forall m :: 0 <= m < |tries| ==> AllThen(Listed(last), tries[m])
    ensures var r := Reading(rows, afterId, first, maxPages, tries);
            && !r.Stopped?
            && (r.Finished? ==> (exists k :: 0 <= k < |tries| && Listed(log) in tries[k]) && Grows(start, log) && Covers(afterId, start, log, |log|, r.rows))
    decreases |tries|
  {
    log := last;
    if tries != [] {
      assert Growing(afterId, start, tries[0]) && AllThen(Listed(last), tries[0]);
      log := ReadCovers(afterId, start, last, rows, first, first, maxPages, tries[0]);
      var r := Read(rows, afterId, first, first, maxPages, false, tries[0]);
      if r.Aborted? {
        var rest := tries[1..];
        forall m | 0 <= m < |rest| ensures AllThen(Listed(log), rest[m]) {
          assert rest[m] == tries[m + 1] && AllThen(Listed(last), tries[m + 1]);
        }
        log := ReadingCovers(afterId, start, log, r.rows, r.nextPage, maxPages, rest);
      }
    }
  }

  // However often it broke off at a failed request or a page without progress: a reading that finishes has counted every
  // row that was there at the start (and is wanted) exactly once, and counts nothing the service did not list.
  lemma FinishedCountsAll(afterId: Option<int>, start: seq<Row>, maxPages: nat, tries: seq<seq<Response>>) returns (log: seq<Row>)
    requires forall k :: 0 <= k < |tries| ==> |tries[k]| >= maxPages
    requires GrowingOver(afterId, start, tries)
    ensures var r := Reading([], afterId, 1, maxPages, tries);
            r.Finished? ==>
              && UniqueIds(r.rows)
              && (forall x :: x in start && Wanted(afterId, x) ==> x in r.rows)
              && (exists k :: 0 <= k < |tries| && Listed(log) in tries[k])
              && (forall x :: x in r.rows ==> x in log && Wanted(afterId, x))
  {
    forall m | 0 <= m < |tries| ensures AllThen(Listed(start), tries[m]) {
      assert Growing(afterId, start, tries[m]);
      forall i | 0 <= i < |tries[m]| ensures Then(Listed(start), tries[m][i]) {
        assert Fair(afterId, start, tries[m][i]);
      }
    }
    forall i | 0 <= i < |start| ensures StaysAt(start, i, start) {
      assert start[i] == start[i];
    }
    log := ReadingCovers(afterId, start, start, [], 1, maxPages, tries);
    var r := Reading([], afterId, 1, maxPages, tries);
    if r.Finished? {
      forall x | x in start && Wanted(afterId, x) ensures x in r.rows {
        var i :| 0 <= i < |start| && start[i] == x;
        assert StaysAt(start, i, log);
        var j :| i <= j < |log| && log[j] == x;
      }
    }
  }
}
