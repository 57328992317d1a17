// What every run of the agent keeps: how far reads stand apart, how many statements an hour sees, how old answers are.
module ReadPacingSafety {
  import opened Outcomes
  import opened AgentReader
  import opened ReadPacing

  // ----- spacing of reads

  predicate Ended(r: Record) { r.end.Some? && r.start <= r.end.value.at }

  predicate EndedBadly(r: Record) { r.end.Some? && r.end.value.outcome.Failed? }

  // How many reads in a row have failed, the last one included.
  function Failures(h: seq<Record>): (n: nat)
    ensures n > 0 <==> h != [] && EndedBadly(h[|h| - 1])
  {
    if h == [] || !EndedBadly(h[|h| - 1]) then 0 else 1 + Failures(h[..|h| - 1])
  }

  // How long nothing is read after the last of these reads.
  function Gap(h: seq<Record>): (gap: int)
    requires h != [] && h[|h| - 1].end.Some?
    ensures gap > 0
  {
    match h[|h| - 1].end.value.outcome
    case Read(_) => MIN_GAP
    case Failed(f) => BreakerPause(Failures(h), h[|h| - 1].end.value.at, Hourly(f))
  }

  predicate SpacedAt(h: seq<Record>, i: nat)
    requires 0 < i < |h|
  {
    Ended(h[i - 1]) && h[i].start >= h[i - 1].end.value.at + Gap(h[..i])
  }

  predicate Accounted(r: Record) {
    r.end.Some? ==>
      && r.start <= r.end.value.at && |r.end.value.issued| <= 3
      && forall k :: 0 <= k < |r.end.value.issued| ==> r.start <= r.end.value.issued[k] <= r.end.value.at
  }

  predicate Spaced(h: seq<Record>) {
    && (forall i :: 0 < i < |h| ==> SpacedAt(h, i))
    && (forall i :: 0 <= i < |h| ==> Accounted(h[i]))
  }

  // ----- the account

  predicate AccountFailed(r: Record) { r.end.Some? && r.end.value.outcome == Failed(AccountTooBroad) }

  predicate NothingAfterAt(h: seq<Record>, i: nat, k: nat)
    requires i < k < |h|
  {
    AccountFailed(h[i]) && h[k].end.Some? ==> AccountFailed(h[k]) && h[k].end.value.issued == []
  }

  predicate NothingAfter(h: seq<Record>) {
    forall i, k :: 0 <= i < k < |h| ==> NothingAfterAt(h, i, k)
  }

  // ----- where cached results come from

  predicate CameFrom(h: seq<Record>, g: Snapshot, i: nat)
    requires i < |h|
  {
    g.Good? && h[i].end.Some? && h[i].end.value.at == g.readAt && h[i].end.value.outcome == Read(g.rows)
  }

  predicate WasRead(h: seq<Record>, g: Snapshot) { exists i :: 0 <= i < |h| && CameFrom(h, g, i) }

  function Finished(s: SourceState): seq<Record> { if s.inflight && s.history != [] then s.history[..|s.history| - 1] else s.history }

  // The cache agrees with the last read that came back.
  predicate CacheInv(s: SourceState) {
    var done := Finished(s);
    if done == [] then s.current.None? && s.lastGood.None? && s.failures == 0
    else
      var last := done[|done| - 1];
      && Ended(last) && last.end.value.at <= s.clock && s.current.Some? && s.failures == Failures(done)
      && match last.end.value.outcome
         case Read(rows) => s.current == Some(Good(last.end.value.at, rows)) && s.lastGood == s.current
         case Failed(f) =>
           && s.current == Some(Bad(last.end.value.at, f))
           && s.pausedUntil == last.end.value.at + BreakerPause(s.failures, last.end.value.at, Hourly(f))
  }

  predicate FlightInv(s: SourceState) {
    && (s.inflight <==> s.history != [] && s.history[|s.history| - 1].end.None?)
    && (s.history != [] ==> s.history[|s.history| - 1].start <= s.clock)
    && s.clock >= 0
  }

  predicate GoodInv(s: SourceState) {
    s.lastGood.Some? ==> s.lastGood.value.readAt <= s.clock && WasRead(s.history, s.lastGood.value)
  }

  predicate AccountInv(s: SourceState) {
    && NothingAfter(s.history)
    && (s.reader.account.Refused? ==> s.current.Some? && s.current.value.Bad? && s.current.value.failure.AccountTooBroad?)
    && (forall i :: 0 <= i < |s.history| && AccountFailed(s.history[i]) ==> s.reader.account.Refused?)
  }

  predicate Inv(s: SourceState) {
    FlightInv(s) && Spaced(s.history) && CacheInv(s) && GoodInv(s) && AccountInv(s)
  }

  // ----- one event

  lemma SpacedOneMore(h: seq<Record>, t: int)
    requires Spaced(h) && (h != [] ==> Ended(h[|h| - 1]) && t >= h[|h| - 1].end.value.at + Gap(h))
    ensures Spaced(h + [Record(t, None)])
  {
    var g := h + [Record(t, None)];
    forall i | 0 < i < |g| ensures SpacedAt(g, i) {
      assert g[..i] == h[..i];
      if i < |h| { assert SpacedAt(h, i); } else { assert h[..i] == h; }
    }
  }

  lemma GetKeeps(s: SourceState, t: int)
    requires Inv(s) && s.clock <= t
    ensures Inv(DoGet(s, t).0)
  {
    var s' := DoGet(s, t).0;
    if |s'.history| > |s.history| {
      var h := s.history;
      assert Finished(s) == h && s'.history[..|h|] == h && Finished(s') == h;
      assert h != [] ==> t >= h[|h| - 1].end.value.at + Gap(h);
      SpacedOneMore(h, t);
      if s.lastGood.Some? {
        var i :| 0 <= i < |h| && CameFrom(h, s.lastGood.value, i);
        assert CameFrom(s'.history, s.lastGood.value, i);
      }
      forall i, k | 0 <= i < k < |s'.history| ensures NothingAfterAt(s'.history, i, k) {
        if k < |h| { assert NothingAfterAt(h, i, k); }
      }
    } else {
      assert Finished(s') == Finished(s);
    }
  }

  lemma SpacedEnded(h: seq<Record>, r: Record)
    requires Spaced(h) && h != [] && r.start == h[|h| - 1].start && Accounted(r)
    ensures Spaced(h[|h| - 1 := r])
  {
    var n := |h| - 1;
    var g := h[n := r];
    forall i | 0 < i < |g| ensures SpacedAt(g, i) {
      assert SpacedAt(h, i) && g[..i] == h[..i];
    }
  }

  lemma FinishKeeps(s: SourceState, at: int, servedAt: int, w: World, issued: seq<int>)
    requires Inv(s) && Possible(s, Finish(at, servedAt, w, issued))
    ensures Inv(DoFinish(s, at, servedAt, w, issued).0)
  {
    var s', h, d := DoFinish(s, at, servedAt, w, issued).0, s.history, ReadStep(s.reader, w);
    var n := |h| - 1;
    var r := h[n].(end := Some(Ending(at, d.outcome, issued)));
    assert s'.history == h[n := r] && s'.history[..n] == h[..n];
    StatementsOfARead(s.reader, w);
    SpacedEnded(h, r);
    assert Finished(s) == h[..n] && Finished(s') == s'.history;
    if d.outcome.Read? {
      assert CameFrom(s'.history, s'.lastGood.value, n);
    } else if s.lastGood.Some? {
      var i :| 0 <= i < |h| && CameFrom(h, s.lastGood.value, i);
      assert CameFrom(s'.history, s.lastGood.value, i);
    }
    forall i, k | 0 <= i < k < |s'.history| ensures NothingAfterAt(s'.history, i, k) {
      assert NothingAfterAt(h, i, k);
    }
    forall i | 0 <= i < |s'.history| && AccountFailed(s'.history[i]) ensures s'.reader.account.Refused? {
      if i < n { assert AccountFailed(h[i]); }
    }
  }

  lemma {:induction false} RunKeeps(events: seq<Event>)
    requires PossibleRun(events)
    ensures Inv(Run(events))
  {
    if events != [] {
      var front, e := events[..|events| - 1], events[|events| - 1];
      RunKeeps(front);
      match e
      case Get(t) => GetKeeps(Run(front), t);
      case Finish(at, servedAt, w, issued) => FinishKeeps(Run(front), at, servedAt, w, issued);
    }
  }
}
