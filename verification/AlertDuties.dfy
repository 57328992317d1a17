// Which messages have to be sent, when, and to whom: read off the levels, the rules, the renewal and the times of the
// evaluations.
module AlertDuties {
  import opened Outcomes
  import opened Alerts
  import opened AlertIncidents
  import opened AlertNotices

  // ----- what is known before an evaluation

  predicate EnoughFailures(rounds: seq<Round>, r: Round) {
    UnreadableInARow(rounds) + 1 >= (if r.rules.errorThreshold < 1 then 1 else r.rules.errorThreshold)
  }

  // The last level found, not counting evaluations without any balance and failed reads that were too few.
  function KnownLevel(rounds: seq<Round>): Level {
    if rounds == [] then Unknown
    else
      var front, r := rounds[..|rounds| - 1], rounds[|rounds| - 1];
      if r.level == Unknown || (r.level == Unreadable && !EnoughFailures(front, r)) then KnownLevel(front) else r.level
  }

  lemma {:induction false} RemembersLevel(rounds: seq<Round>)
    ensures StateAfter(rounds).state == KnownLevel(rounds)
  {
    if rounds != [] {
      var front := rounds[..|rounds| - 1];
      RemembersLevel(front);
      CountsFailures(front);
    }
  }

  // When the reminder about an upstream without renewal went out, 0 if it did not since the renewal was last switched.
  function LastReminder(rounds: seq<Round>): int {
    if rounds == [] then 0
    else
      var n := |rounds| - 1;
      var r := rounds[n];
      if r.level == Unknown then LastReminder(rounds[..n])
      else if r.noRenewal != r.noRenewalAfter then 0
      else if NoticeAt(rounds, n).Some? && NoticeAt(rounds, n).value.kind == NoRenewal then r.now
      else LastReminder(rounds[..n])
  }

  function LastRunningOut(rounds: seq<Round>): int {
    if rounds == [] then 0
    else
      var n := |rounds| - 1;
      if NoticeAt(rounds, n).Some? && NoticeAt(rounds, n).value.kind == RunningOut then rounds[n].now else LastRunningOut(rounds[..n])
  }

  lemma {:induction false} RemembersTimes(rounds: seq<Round>)
    ensures StateAfter(rounds).noRenewalNotifiedAt == LastReminder(rounds)
    ensures StateAfter(rounds).etaNotifiedAt == LastRunningOut(rounds)
  {
    if rounds != [] {
      var n := |rounds| - 1;
      RemembersTimes(rounds[..n]);
      assert rounds[..n + 1] == rounds;
    }
  }

  // ----- what has to be said

  predicate Alarming(level: Level) { level == Warn || level == Danger || level == Unreadable }

  function EventFor(level: Level): Event
    requires Alarming(level)
  {
    match level
    case Warn => Low
    case Danger => Exhaust
    case Unreadable => Failing
  }

  // The rule for this level is on; an upstream without renewal is not told about its balance this way.
  predicate Announced(r: Round) {
    match r.level
    case Warn => Low in r.rules.on && !r.noRenewal
    case Danger => Exhaust in r.rules.on && !r.noRenewal
    case Unreadable => Failing in r.rules.on
    case Fine => Recover in r.rules.on
    case Unknown => false
  }

  predicate Confirmed(rounds: seq<Round>, r: Round) { r.level == Unreadable ==> EnoughFailures(rounds, r) }

  predicate Elapsed(r: Round, since: int) { r.rules.renotifyAfter > 0 && r.now > since + r.rules.renotifyAfter }

  predicate ReminderDue(rounds: seq<Round>, r: Round) {
    r.noRenewal && Low in r.rules.on && (r.level == Warn || r.level == Danger) && LastReminder(rounds) == 0
  }

  predicate ChangeDue(rounds: seq<Round>, r: Round) {
    Alarming(r.level) && Confirmed(rounds, r) && KnownLevel(rounds) != r.level && Announced(r)
  }

  predicate RepeatDue(rounds: seq<Round>, r: Round) {
    && Alarming(r.level) && Confirmed(rounds, r) && KnownLevel(rounds) == r.level && Announced(r)
    && Elapsed(r, LastNotified(rounds))
  }

  // After a low balance only a renewed upstream is told, after failed reads every one.
  predicate RecoveryDue(rounds: seq<Round>, r: Round) {
    && r.level == Fine && Announced(r)
    && (KnownLevel(rounds) == Unreadable || (!r.noRenewal && (KnownLevel(rounds) == Warn || KnownLevel(rounds) == Danger)))
  }

  predicate RunningOutDue(rounds: seq<Round>, r: Round) {
    && !r.noRenewal && Soon in r.rules.on && (r.level == Fine || r.level == Warn) && r.runsOutSoon
    && (LastRunningOut(rounds) == 0 || Elapsed(r, LastRunningOut(rounds)))
    && !ChangeDue(rounds, r) && !RepeatDue(rounds, r) && !RecoveryDue(rounds, r)
  }

  // After any run of evaluations, the next one says exactly what is due: a confirmed new alarming level whose rule is on, the
  // same one again once the pause is over, the recovery, the balance running out, or the one reminder without renewal — and
  // nothing when nothing is due.
  lemma DueIsSaid(rounds: seq<Round>, r: Round)
    requires r.level != Unknown
    ensures var notice := NoticeOf(StateAfter(rounds), r);
            && (ChangeDue(rounds, r) ==> notice == Some(Notice(Change, r.level, EventFor(r.level))))
            && (RepeatDue(rounds, r) ==> notice == Some(Notice(Repeat, r.level, EventFor(r.level))))
            && (RecoveryDue(rounds, r) ==> notice == Some(Notice(Recovery, Fine, Recover)))
            && (ReminderDue(rounds, r) ==> notice == Some(Notice(NoRenewal, r.level, Low)))
            && (RunningOutDue(rounds, r) ==> notice == Some(Notice(RunningOut, r.level, Soon)))
            && (notice.Some? ==> ChangeDue(rounds, r) || RepeatDue(rounds, r) || RecoveryDue(rounds, r) || ReminderDue(rounds, r) || RunningOutDue(rounds, r))
  {
    RemembersLevel(rounds);
    CountsFailures(rounds);
    RemembersNotified(rounds);
    RemembersTimes(rounds);
    hide StateAfter, LastNotified, LastRunningOut, LastReminder, KnownLevel, UnreadableInARow;
  }

  // ----- to whom it goes

  // An enabled channel that is bound to the event; with none bound, all are.
  predicate GoesTo(r: Round, event: Event, id: string) {
    && (event in r.rules.channelsFor && r.rules.channelsFor[event] != {} ==> id in r.rules.channelsFor[event])
    && exists c :: c in r.channels && c.enabled && c.id == id
  }

  lemma TargetsAre(r: Round, event: Event)
    ensures forall id :: id in Targets(r, event) <==> GoesTo(r, event, id)
  {
    forall id ensures id in Targets(r, event) <==> GoesTo(r, event, id) {
      if GoesTo(r, event, id) {
        var c :| c in r.channels && c.enabled && c.id == id;
      }
    }
  }

  function KeyFor(n: Notice): Key { if n.kind == NoRenewal then NoRenewalLow else Of(n.event) }

  // A new message goes to exactly the enabled channels bound to its event, if there are any; who of them accepted it is noted.
  lemma MessageGoesOut(s: AlertState, r: Round, n: Notice)
    requires NoticeOf(s, r) == Some(n)
    ensures var sent := OutcomeAt(KeyFor(n), s, r).sent;
            && (sent.None? <==> forall id :: !GoesTo(r, n.event, id))
            && (sent.Some? ==>
                  && sent.value.at == r.now && !sent.value.retry
                  && (forall id :: id in sent.value.to <==> GoesTo(r, n.event, id))
                  && (forall id :: id in sent.value.got <==>
                        id in sent.value.to && KeyFor(n) in r.accepts && id in r.accepts[KeyFor(n)]))
  {
    TargetsAre(r, n.event);
    hide NoticeOf, Targets, GoesTo, Holds;
    var to := Targets(r, n.event);
    if to != {} {
      var id :| id in to;
      assert GoesTo(r, n.event, id);
    }
  }

  // The situation of an incident is there: what its message spoke of is what the evaluation finds, with the rule still on.
  predicate Situation(k: Key, s: AlertState, r: Round) {
    match k
    case NoRenewalLow => r.noRenewal && Low in r.rules.on && (r.level == Warn || r.level == Danger)
    case Of(Low) => r.level == Warn && Announced(r)
    case Of(Exhaust) => r.level == Danger && Announced(r)
    case Of(Recover) => r.level == Fine && Announced(r)
    case Of(Failing) => r.level == Unreadable && Announced(r) && s.errorCount + 1 >= (if r.rules.errorThreshold < 1 then 1 else r.rules.errorThreshold)
    case Of(Soon) => !r.noRenewal && Soon in r.rules.on && (r.level == Fine || r.level == Warn) && r.runsOutSoon
  }

  lemma SituationHolds(k: Key, s: AlertState, r: Round)
    requires r.level != Unknown
    ensures Holds(k, s, r) == Some(true) <==> Situation(k, s, r)
  {}

  predicate Ended(i: Incident, r: Round) { i.leftAt.Some? && r.now >= i.leftAt.value + 24 * 60 * 60 * 1000 }

  predicate RetryTime(i: Incident, r: Round) { i.retryAt <= r.now < i.firstAttemptAt + 24 * 60 * 60 * 1000 }

  // A first message that some addressed channels did not get is sent once more as soon as it is due, to exactly these; that is
  // when its situation is there, its time has come and less than a day has passed since it first went out.
  lemma RetryGoesOutIff(k: Key, s: AlertState, r: Round)
    requires r.level != Unknown && k in s.incidents
    requires NoticeOf(s, r).Some? ==> KeyFor(NoticeOf(s, r).value) != k
    ensures var i, sent := s.incidents[k], OutcomeAt(k, s, r).sent;
            && (sent.Some? <==> !Ended(i, r) && Situation(k, s, r) && RetryTime(i, r) && exists id :: id in i.remaining && GoesTo(r, i.event, id))
            && (sent.Some? ==>
                  && sent.value.at == r.now && sent.value.retry
                  && (forall id :: id in sent.value.to <==> id in i.remaining && GoesTo(r, i.event, id))
                  && (forall id :: id in sent.value.got <==> id in sent.value.to && k in r.accepts && id in r.accepts[k]))
  {
    var i := s.incidents[k];
    TargetsAre(r, i.event);
    SituationHolds(k, s, r);
    hide NoticeOf, Targets, GoesTo, Holds, Situation;
    var left := i.remaining * Targets(r, i.event);
    if id :| id in i.remaining && GoesTo(r, i.event, id) {
      assert id in left;
    }
    if left != {} {
      var id :| id in left;
      assert id in i.remaining && GoesTo(r, i.event, id);
    }
  }

  // Without a record nothing is sent but a new message.
  lemma NothingElseGoesOut(k: Key, s: AlertState, r: Round)
    requires k !in s.incidents && (NoticeOf(s, r).Some? ==> KeyFor(NoticeOf(s, r).value) != k)
    ensures OutcomeAt(k, s, r) == Outcome(None, None)
  {}

  // ----- what is put on record

  // One, two, four … minutes, at most an hour.
  lemma RetryDelays(n: nat)
    requires n > 0
    ensures RetryDelay(n) == (if n == 1 then 1 else if n == 2 then 2 else if n == 3 then 4 else if n == 4 then 8 else if n == 5 then 16
                              else if n == 6 then 32 else 60) * 60 * 1000
  {
    assert Pow2(1) == 2 && Pow2(2) == 4 && Pow2(3) == 8;
    assert Pow2(4) == 16 && Pow2(5) == 32 && Pow2(6) == 64;
  }

  // The first message of an incident: the channels that did not accept it are tried again from a minute on.
  lemma IncidentBegins(s: AlertState, r: Round, n: Notice)
    requires NoticeOf(s, r) == Some(n) && OutcomeAt(KeyFor(n), s, r).sent.Some?
    requires KeyFor(n) in s.incidents ==> Ended(s.incidents[KeyFor(n)], r)
    requires n.kind == NoRenewal ==> r.noRenewal == r.noRenewalAfter
    ensures var o := OutcomeAt(KeyFor(n), s, r);
            o.record == Some(Incident(n.kind, n.state, n.event, r.now, o.sent.value.to - o.sent.value.got, 1, r.doneAt + 60 * 1000, None))
  {
    RetryDelays(1);
    hide NoticeOf, Targets;
  }

  // A retry: those that accepted are through, the others wait for the next, later and later; after a day nobody waits.
  lemma RetryIsRecorded(k: Key, s: AlertState, r: Round)
    requires r.level != Unknown && k in s.incidents && OutcomeAt(k, s, r).sent.Some? && OutcomeAt(k, s, r).sent.value.retry
    requires k == NoRenewalLow ==> r.noRenewal == r.noRenewalAfter
    ensures var i, o := s.incidents[k], OutcomeAt(k, s, r);
            && o.record.Some?
            && var next := r.doneAt + RetryDelay(i.attempts + 1);
               o.record.value == i.(attempts := i.attempts + 1, retryAt := next, leftAt := None,
                                    remaining := if next >= i.firstAttemptAt + 24 * 60 * 60 * 1000 then {} else o.sent.value.to - o.sent.value.got)
  {
    hide NoticeOf, Targets, RetryDelay, Holds;
  }

  // Another message about an incident on record: who accepts it need not get the first one any more; for the others it counts
  // as one more try if any of them was addressed.
  lemma AnotherIsRecorded(s: AlertState, r: Round, n: Notice)
    requires r.level != Unknown && NoticeOf(s, r) == Some(n) && OutcomeAt(KeyFor(n), s, r).sent.Some?
    requires KeyFor(n) in s.incidents && !Ended(s.incidents[KeyFor(n)], r) && s.incidents[KeyFor(n)].event == n.event
    requires n.kind == NoRenewal ==> r.noRenewal == r.noRenewalAfter
    ensures var i, o := s.incidents[KeyFor(n)], OutcomeAt(KeyFor(n), s, r);
            && o.record.Some?
            && var open := i.remaining * o.sent.value.to;
               var next := r.doneAt + RetryDelay(i.attempts + 1);
               && (o.record.value.firstAttemptAt, o.record.value.kind, o.record.value.state, o.record.value.event)
                  == (i.firstAttemptAt, i.kind, i.state, i.event)
               && o.record.value.attempts == (if open == {} then i.attempts else i.attempts + 1)
               && o.record.value.retryAt == (if open == {} then i.retryAt else next)
               && o.record.value.remaining == if open == {} || next >= i.firstAttemptAt + 24 * 60 * 60 * 1000 then {} else open - o.sent.value.got
  {
    hide NoticeOf, RetryDelay, Holds;
  }
}
