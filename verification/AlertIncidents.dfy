// The life of an incident over every run of evaluations: who is sent what, how often, and when it ends.
module AlertIncidents {
  import opened Outcomes
  import opened Alerts

  // ----- runs

  function StateAfter(rounds: seq<Round>): AlertState {
    if rounds == [] then AlertState(Unknown, 0, 0, 0, 0, map[])
    else Evaluate(StateAfter(rounds[..|rounds| - 1]), rounds[|rounds| - 1])
  }

  function Clock(rounds: seq<Round>): int { if rounds == [] then 0 else rounds[|rounds| - 1].doneAt }

  // The clock does not go back, and sending takes time.
  predicate PossibleRun(rounds: seq<Round>) {
    rounds == []
    || (PossibleRun(rounds[..|rounds| - 1]) && Clock(rounds[..|rounds| - 1]) <= rounds[|rounds| - 1].now <= rounds[|rounds| - 1].doneAt)
  }

  // The messages sent for the incident recorded under a key, from its first one.
  function NextLife(k: Key, life: seq<Sent>, s: AlertState, r: Round): seq<Sent> {
    if r.level == Unknown then life
    else
      var o := OutcomeAt(k, s, r);
      if o.record.None? then []
      else (if Kept(k, s, r).Some? then life else []) + if o.sent.Some? then [o.sent.value] else []
  }

  function Life(k: Key, rounds: seq<Round>): seq<Sent> {
    if rounds == [] then []
    else NextLife(k, Life(k, rounds[..|rounds| - 1]), StateAfter(rounds[..|rounds| - 1]), rounds[|rounds| - 1])
  }

  // ----- back-off

  // The time n retries take at least.
  function Waited(n: nat): int { if n == 0 then 0 else Waited(n - 1) + RetryDelay(n) }

  lemma {:induction false} HourlyAtLast(n: nat)
    requires n >= 6
    ensures Waited(n) == (63 + 60 * (n - 6)) * MINUTE
  {
    assert Pow2(6) == 64 by { assert Pow2(3) == 8; }
    if n == 6 {
      assert Pow2(5) == 32 && Pow2(4) == 16 && Pow2(3) == 8 && Pow2(2) == 4;
      assert Waited(3) == 7 * MINUTE;
      assert Waited(5) == 31 * MINUTE;
    } else {
      HourlyAtLast(n - 1);
    }
  }

  lemma RetriesFit(n: nat)
    requires Waited(n) < RETRY_WINDOW
    ensures n <= 28
  {
    if n > 28 { HourlyAtLast(n); }
  }

  lemma {:induction false} LongerDelay(n: nat, m: nat)
    requires 0 < n <= m
    ensures RetryDelay(n) <= RetryDelay(m)
    decreases m - n
  {
    if n < m {
      LongerDelay(n, m - 1);
    }
  }

  // ----- what holds of a record and its messages

  function Retries(life: seq<Sent>): nat {
    if life == [] then 0 else Retries(life[..|life| - 1]) + if life[|life| - 1].retry then 1 else 0
  }

  // Every retry goes to channels the first message was for that got nothing of the incident yet, within a day.
  predicate RetryFair(life: seq<Sent>, j: nat)
    requires j < |life|
  {
    life[j].retry ==>
      && j > 0 && life[j].to <= life[0].to && life[0].at <= life[j].at < life[0].at + RETRY_WINDOW
      && forall m :: 0 <= m < j ==> life[m].got !! life[j].to
  }

  predicate LifeFair(life: seq<Sent>) {
    && life != [] && !life[0].retry
    && (forall j :: 0 <= j < |life| ==> life[j].got <= life[j].to && RetryFair(life, j))
    && Retries(life) <= 28
  }

  // The record knows what was sent.
  predicate Agrees(i: Incident, life: seq<Sent>, clock: int) {
    && LifeFair(life)
    && i.firstAttemptAt == life[0].at && i.remaining <= life[0].to
    && (forall j :: 0 <= j < |life| ==> i.remaining !! life[j].got)
    && i.attempts >= Retries(life) + 1
    && clock >= i.firstAttemptAt + Waited(Retries(life))
    && i.retryAt >= i.firstAttemptAt + Waited(Retries(life) + 1)
  }

  predicate KeyInv(k: Key, s: AlertState, life: seq<Sent>, clock: int) {
    k in s.incidents ==> Agrees(s.incidents[k], life, clock)
  }

  lemma StartAgrees(n: Notice, to: set<string>, got: set<string>, r: Round)
    requires got <= to && r.now <= r.doneAt
    ensures Agrees(Started(n, to, got, r), [Sent(r.now, to, got, false)], r.doneAt)
  {
    var life := [Sent(r.now, to, got, false)];
    assert Retries(life) == 0 by { assert life[..0] == []; }
    assert Waited(1) == RetryDelay(1);
  }

  // A record brought up to date.
  lemma SeenAgrees(k: Key, s: AlertState, r: Round, life: seq<Sent>, clock: int)
    requires k in s.incidents && Agrees(s.incidents[k], life, clock) && clock <= r.now
    ensures Agrees(Seen(s.incidents[k], k, s, r), life, r.now)
  {
    hide LifeFair, Retries, Waited, Holds, Targets;
  }

  lemma RetriesOneMore(life: seq<Sent>, x: Sent)
    ensures Retries(life + [x]) == Retries(life) + if x.retry then 1 else 0
  {
    assert (life + [x])[..|life|] == life;
  }

  lemma LifeOneMore(life: seq<Sent>, x: Sent)
    requires LifeFair(life) && x.got <= x.to && Retries(life + [x]) <= 28
    requires x.retry ==> x.to <= life[0].to && life[0].at <= x.at < life[0].at + RETRY_WINDOW && forall m :: 0 <= m < |life| ==> life[m].got !! x.to
    ensures LifeFair(life + [x])
  {
    hide Retries;
    var next := life + [x];
    forall j | 0 <= j < |next| ensures next[j].got <= next[j].to && RetryFair(next, j) {
      if j < |life| {
        assert RetryFair(life, j);
        assert forall m :: 0 <= m < j ==> next[m] == life[m];
      }
    }
  }

  // One more message: a retry of the first one, or a new one about the same incident.
  lemma TriedAgrees(i: Incident, life: seq<Sent>, r: Round, to: set<string>, got: set<string>, retry: bool)
    requires Agrees(i, life, r.now) && got <= to && r.now <= r.doneAt
    requires retry ==> to == i.remaining != {} && r.now >= i.retryAt && r.now - i.firstAttemptAt < RETRY_WINDOW
    ensures Agrees(Tried(i, to, got, r.doneAt), life + [Sent(r.now, to, got, retry)], r.doneAt)
  {
    var x, n := Sent(r.now, to, got, retry), Retries(life);
    var next := life + [x];
    RetriesOneMore(life, x);
    RetryIsEarly(i, life, r);
    LifeOneMore(life, x);
    LongerDelay(n + 1, i.attempts + 1);
    if retry { LongerDelay(n + 2, i.attempts + 1); }
    assert Waited(n + 1) == Waited(n) + RetryDelay(n + 1) && Waited(n + 2) == Waited(n + 1) + RetryDelay(n + 2);
    hide LifeFair, Retries, Waited, RetryDelay;
    var i' := Tried(i, to, got, r.doneAt);
    assert i'.remaining <= i.remaining && i'.remaining !! got by {
      if i.remaining * to == {} {
        assert forall c :: c in i.remaining && c in got ==> c in i.remaining * to;
      }
    }
    forall j | 0 <= j < |next| ensures i'.remaining !! next[j].got {
      if j < |life| { assert next[j] == life[j]; }
    }
  }

  lemma RetryIsEarly(i: Incident, life: seq<Sent>, r: Round)
    requires Agrees(i, life, r.now)
    ensures r.now >= i.retryAt && r.now - i.firstAttemptAt < RETRY_WINDOW ==> Retries(life) + 1 <= 28
    ensures r.now >= i.retryAt ==> r.now >= i.firstAttemptAt
  {
    if r.now >= i.retryAt {
      if r.now - i.firstAttemptAt < RETRY_WINDOW { RetriesFit(Retries(life) + 1); }
      WaitedPositive(Retries(life) + 1);
    }
  }

  lemma {:induction false} WaitedPositive(n: nat)
    ensures Waited(n) >= 0
  {
    if n > 0 { WaitedPositive(n - 1); }
  }

  // ----- one evaluation, and every run

  lemma KeyStep(k: Key, s: AlertState, r: Round, life: seq<Sent>, clock: int)
    requires KeyInv(k, s, life, clock) && clock <= r.now <= r.doneAt
    ensures KeyInv(k, Evaluate(s, r), NextLife(k, life, s, r), r.doneAt)
  {
    AllKeys(k);
    hide Agrees, Seen, RetryDue, Targets, NoticeOf, Accepting, Started, Tried;
    var kept, planned := Kept(k, s, r), Planned(k, s, r);
    if kept.Some? {
      SeenAgrees(k, s, r, life, clock);
      LaterAgrees(kept.value, life, r.now, r.doneAt);
    }
    if planned.Some? {
      var to, got := planned.value.to, Got(planned.value, r);
      if kept.Some? {
        RetryIsDue(kept.value, k, s, r);
        TriedAgrees(kept.value, life, r, to, got, planned.value.notice.None?);
      } else if planned.value.notice.Some? {
        StartAgrees(planned.value.notice.value, to, got, r);
        assert [] + [Sent(r.now, to, got, false)] == [Sent(r.now, to, got, false)];
      }
    } else {
      assert life + [] == life;
    }
    if r.level == Unknown {
      if k in s.incidents { LaterAgrees(s.incidents[k], life, clock, r.doneAt); }
    }
  }

  lemma RetryIsDue(i: Incident, k: Key, s: AlertState, r: Round)
    ensures RetryDue(i, k, s, r) ==> i.remaining != {} && r.now >= i.retryAt && r.now - i.firstAttemptAt < RETRY_WINDOW
  {}

  lemma LaterAgrees(i: Incident, life: seq<Sent>, clock: int, later: int)
    requires Agrees(i, life, clock) && clock <= later
    ensures Agrees(i, life, later)
  {
    hide LifeFair, Retries, Waited;
  }

  // Over every run, for every incident on record: retries go only to channels the first message was meant for and that got
  // nothing yet, none is made a day or more after it, and there are at most 28 of them.
  lemma {:induction false} EveryIncidentIsFair(rounds: seq<Round>, k: Key)
    requires PossibleRun(rounds)
    ensures KeyInv(k, StateAfter(rounds), Life(k, rounds), Clock(rounds))
  {
    if rounds != [] {
      var front, r := rounds[..|rounds| - 1], rounds[|rounds| - 1];
      EveryIncidentIsFair(front, k);
      hide KeyInv, Evaluate, NextLife;
      KeyStep(k, StateAfter(front), r, Life(k, front), Clock(front));
    }
  }
}
