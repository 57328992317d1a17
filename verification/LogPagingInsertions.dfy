// Reading a log into which rows are inserted while it is read: what each request sees is the log at some moment, and later
// requests see later moments.
module LogPagingInsertions {
  import opened Outcomes
  import opened LogPaging
  import opened LogPagingCoverage

  datatype Insertion = Insertion(at: nat, row: Row)

  // A position behind the end stands for the end.
  function Inserted(log: seq<Row>, i: Insertion): seq<Row> {
    var k := if i.at < |log| then i.at else |log|;
    log[..k] + [i.row] + log[k..]
  }

  // The log at the moment when these insertions have happened.
  function LogAfter(start: seq<Row>, insertions: seq<Insertion>): seq<Row> {
    if insertions == [] then start
    else Inserted(LogAfter(start, insertions[..|insertions| - 1]), insertions[|insertions| - 1])
  }

  // Each request fails or is answered from the log at its moment, given as the number of insertions that have happened.
  function Answers(start: seq<Row>, insertions: seq<Insertion>, moments: seq<Option<nat>>): (out: seq<Response>)
    requires Possible(insertions, moments)
    ensures |out| == |moments|
  {
    seq(|moments|, i requires 0 <= i < |moments| =>
      if moments[i].None? then Unavailable else Listed(LogAfter(start, insertions[..moments[i].value])))
  }

  predicate Possible(insertions: seq<Insertion>, moments: seq<Option<nat>>) {
    forall i :: 0 <= i < |moments| && moments[i].Some? ==> moments[i].value <= |insertions|
  }

  predicate NotAfter(a: Option<nat>, b: Option<nat>) { a.Some? && b.Some? ==> a.value <= b.value }

  // Time does not go back, neither within a read nor from one to the next.
  predicate InTime(tries: seq<seq<Option<nat>>>) {
    && (forall k, i, j :: 0 <= k < |tries| && 0 <= i < j < |tries[k]| ==> NotAfter(tries[k][i], tries[k][j]))
    && (forall k, m, i, j :: 0 <= k < m < |tries| && 0 <= i < |tries[k]| && 0 <= j < |tries[m]| ==> NotAfter(tries[k][i], tries[m][j]))
  }

  function AllAnswers(start: seq<Row>, insertions: seq<Insertion>, tries: seq<seq<Option<nat>>>): (out: seq<seq<Response>>)
    requires forall k :: 0 <= k < |tries| ==> Possible(insertions, tries[k])
    ensures |out| == |tries| && forall k :: 0 <= k < |out| ==> out[k] == Answers(start, insertions, tries[k])
  {
    seq(|tries|, k requires 0 <= k < |tries| => Answers(start, insertions, tries[k]))
  }

  // ----- the log of a later moment has grown out of the earlier one, and is no less sound before

  lemma {:induction false} LaterGrows(start: seq<Row>, insertions: seq<Insertion>, m: nat, n: nat)
    requires m <= n <= |insertions|
    ensures Grows(LogAfter(start, insertions[..m]), LogAfter(start, insertions[..n]))
    decreases n
  {
    var a := LogAfter(start, insertions[..m]);
    if m == n {
      forall i | 0 <= i < |a| ensures StaysAt(a, i, a) {
        assert a[i] == a[i];
      }
    } else {
      LaterGrows(start, insertions, m, n - 1);
      var b, last := LogAfter(start, insertions[..n - 1]), insertions[n - 1];
      assert insertions[..n][..n - 1] == insertions[..n - 1];
      InsertingGrows(b, if last.at < |b| then last.at else |b|, last.row);
      GrowsOn(a, b, Inserted(b, last));
    }
  }

  lemma SoundWithout(afterId: Option<int>, log: seq<Row>, i: Insertion)
    requires Sound(afterId, Inserted(log, i))
    ensures Sound(afterId, log)
  {
    var k := if i.at < |log| then i.at else |log|;
    var more := Inserted(log, i);
    assert forall p :: 0 <= p < |log| ==> log[p] == more[if p < k then p else p + 1];
  }

  lemma {:induction false} SoundBefore(afterId: Option<int>, start: seq<Row>, insertions: seq<Insertion>, m: nat)
    requires Sound(afterId, LogAfter(start, insertions)) && m <= |insertions|
    ensures Sound(afterId, LogAfter(start, insertions[..m]))
    decreases |insertions|
  {
    if m == |insertions| {
      assert insertions[..m] == insertions;
    } else {
      var front := insertions[..|insertions| - 1];
      SoundWithout(afterId, LogAfter(start, front), insertions[|insertions| - 1]);
      SoundBefore(afterId, start, front, m);
      assert front[..m] == insertions[..m];
    }
  }

  // ----- so the answers grow as FinishedCountsAll asks for

  lemma AnswersGrow(afterId: Option<int>, start: seq<Row>, insertions: seq<Insertion>, tries: seq<seq<Option<nat>>>)
    requires Sound(afterId, LogAfter(start, insertions)) && InTime(tries)
    requires forall k :: 0 <= k < |tries| ==> Possible(insertions, tries[k])
    ensures GrowingOver(afterId, start, AllAnswers(start, insertions, tries))
  {
    var all := AllAnswers(start, insertions, tries);
    forall k | 0 <= k < |all| ensures Growing(afterId, start, all[k]) {
      forall i | 0 <= i < |all[k]| ensures Fair(afterId, start, all[k][i]) {
        AnswerIsFair(afterId, start, insertions, tries[k], i);
      }
      forall i, j | 0 <= i < j < |all[k]| ensures Then(all[k][i], all[k][j]) {
        AnswersInTurn(start, insertions, tries[k], i, tries[k], j);
      }
    }
    forall k, m, i | 0 <= k < m < |all| && 0 <= i < |all[k]| ensures AllThen(all[k][i], all[m]) {
      forall j | 0 <= j < |all[m]| ensures Then(all[k][i], all[m][j]) {
        AnswersInTurn(start, insertions, tries[k], i, tries[m], j);
      }
    }
  }

  lemma AnswerIsFair(afterId: Option<int>, start: seq<Row>, insertions: seq<Insertion>, moments: seq<Option<nat>>, i: nat)
    requires Sound(afterId, LogAfter(start, insertions)) && Possible(insertions, moments) && i < |moments|
    ensures Fair(afterId, start, Answers(start, insertions, moments)[i])
  {
    if moments[i].Some? {
      var n := moments[i].value;
      LaterGrows(start, insertions, 0, n);
      assert insertions[..0] == [];
      SoundBefore(afterId, start, insertions, n);
    }
  }

  lemma AnswersInTurn(start: seq<Row>, insertions: seq<Insertion>, a: seq<Option<nat>>, i: nat, b: seq<Option<nat>>, j: nat)
    requires Possible(insertions, a) && Possible(insertions, b) && i < |a| && j < |b| && NotAfter(a[i], b[j])
    ensures Then(Answers(start, insertions, a)[i], Answers(start, insertions, b)[j])
  {
    if a[i].Some? && b[j].Some? {
      LaterGrows(start, insertions, a[i].value, b[j].value);
    }
  }

  // Rows may be inserted anywhere and at any time while the log is read, and reads may break off and be resumed: a reading
  // that finishes has counted each row that was there at the start exactly once, and no row that was never in the log.
  lemma InsertedRowsHideNothing(afterId: Option<int>, start: seq<Row>, insertions: seq<Insertion>, maxPages: nat,
                                tries: seq<seq<Option<nat>>>)
    requires Sound(afterId, LogAfter(start, insertions)) && InTime(tries)
    requires forall k :: 0 <= k < |tries| ==> Possible(insertions, tries[k]) && |tries[k]| >= maxPages
    ensures var r := Reading([], afterId, 1, maxPages, AllAnswers(start, insertions, tries));
            r.Finished? ==>
              && UniqueIds(r.rows)
              && (forall x :: x in start && Wanted(afterId, x) ==> x in r.rows)
              && (forall x :: x in r.rows ==> x in LogAfter(start, insertions) && Wanted(afterId, x))
  {
    var all := AllAnswers(start, insertions, tries);
    AnswersGrow(afterId, start, insertions, tries);
    var log := FinishedCountsAll(afterId, start, maxPages, all);
    var r := Reading([], afterId, 1, maxPages, all);
    if r.Finished? {
      var k :| 0 <= k < |all| && Listed(log) in all[k];
      var i :| 0 <= i < |all[k]| && all[k][i] == Listed(log);
      var n := tries[k][i].value;
      LaterGrows(start, insertions, n, |insertions|);
      assert insertions[..|insertions|] == insertions;
      forall x | x in r.rows ensures x in LogAfter(start, insertions) {
        var p :| 0 <= p < |log| && log[p] == x;
        assert StaysAt(log, p, LogAfter(start, insertions));
      }
    }
  }
}
