// When a situation that comes and goes is one incident, and when it is the next one.
module AlertDepartures {
  import opened Outcomes
  import opened Alerts
  import opened AlertIncidents

  function From(s: AlertState, rounds: seq<Round>): AlertState {
    if rounds == [] then s else Evaluate(From(s, rounds[..|rounds| - 1]), rounds[|rounds| - 1])
  }

  predicate Present(k: Key, s: AlertState, r: Round) { r.level != Unknown && Holds(k, s, r) == Some(true) }

  // The single reminder starts over when the upstream's renewal is switched while messages are under way.
  predicate Reset(k: Key, r: Round) { k == NoRenewalLow && r.noRenewal != r.noRenewalAfter }

  // It is still the same incident: same first message, for a part of the channels it was still open for.
  predicate SameIncident(k: Key, i: Incident, s: AlertState) {
    && k in s.incidents
    && var j := s.incidents[k];
       && (j.kind, j.state, j.event, j.firstAttemptAt) == (i.kind, i.state, i.event, i.firstAttemptAt)
       && j.remaining <= i.remaining
  }

  // What one evaluation can do to a record: keep the incident, or end it when it was over or was reset; a record that is
  // there afterwards all the same is a new incident.
  lemma RecordFate(k: Key, s: AlertState, r: Round)
    requires k in s.incidents && r.level != Unknown
    ensures var i, s' := s.incidents[k], Evaluate(s, r);
            if Reset(k, r) then k !in s'.incidents
            else if Over(i, r) then k in s'.incidents ==> s'.incidents[k].firstAttemptAt == r.now && s'.incidents[k].leftAt.None?
            else SameIncident(k, i, s')
                 && s'.incidents[k].leftAt == (if Present(k, s, r) then None else if Holds(k, s, r) == Some(false) && i.leftAt.None? then Some(r.now) else i.leftAt)
  {
    AllKeys(k);
    hide Holds, NoticeOf, Targets;
  }

  // The time of the last evaluation that found the situation, or of the start.
  function LastPresent(k: Key, s: AlertState, rounds: seq<Round>, start: int): int {
    if rounds == [] then start
    else
      var front, r := rounds[..|rounds| - 1], rounds[|rounds| - 1];
      if Present(k, From(s, front), r) then r.now else LastPresent(k, s, front, start)
  }

  // Every evaluation comes less than a day after the situation was last found.
  predicate NeverAwayADay(k: Key, s: AlertState, rounds: seq<Round>, start: int) {
    rounds == []
    || var front, r := rounds[..|rounds| - 1], rounds[|rounds| - 1];
       NeverAwayADay(k, s, front, start) && r.now - LastPresent(k, s, front, start) < INCIDENT_GAP && !Reset(k, r) && r.now >= Clock(front)
  }

  // A situation never away for a day stays one incident, with one first message, over any number of evaluations.
  lemma {:induction false} ShortDeparturesKeepIt(k: Key, s: AlertState, rounds: seq<Round>, start: int)
    requires k in s.incidents && s.incidents[k].leftAt.None? && NeverAwayADay(k, s, rounds, start)
    requires forall i :: 0 <= i < |rounds| ==> start <= rounds[i].now <= rounds[i].doneAt
    ensures SameIncident(k, s.incidents[k], From(s, rounds))
    ensures var left := From(s, rounds).incidents[k].leftAt; left.Some? ==> left.value >= LastPresent(k, s, rounds, start)
    ensures rounds != [] ==> LastPresent(k, s, rounds, start) <= rounds[|rounds| - 1].now
    ensures rounds == [] ==> LastPresent(k, s, rounds, start) == start
  {
    if rounds != [] {
      var front, r := rounds[..|rounds| - 1], rounds[|rounds| - 1];
      assert forall i :: 0 <= i < |front| ==> front[i] == rounds[i];
      ShortDeparturesKeepIt(k, s, front, start);
      hide Evaluate;
      assert front != [] ==> rounds[|front| - 1].now <= rounds[|front| - 1].doneAt == Clock(front);
      UnknownKeeps(From(s, front), r);
      if r.level != Unknown { RecordFate(k, From(s, front), r); }
    }
  }

  lemma UnknownKeeps(s: AlertState, r: Round)
    ensures r.level == Unknown ==> Evaluate(s, r) == s
  {}

  // At this evaluation the situation was not found, and not yet away for a day.
  predicate AwayAt(k: Key, s: AlertState, rounds: seq<Round>, i: nat)
    requires k in s.incidents && s.incidents[k].leftAt.Some? && i < |rounds|
  {
    && !Present(k, From(s, rounds[..i]), rounds[i]) && !Reset(k, rounds[i])
    && rounds[i].now < s.incidents[k].leftAt.value + INCIDENT_GAP
  }

  // A situation away for a day is over: whatever is on record after the next evaluation is another incident.
  lemma {:induction false} LongDeparturesEndIt(k: Key, s: AlertState, rounds: seq<Round>, last: Round)
    requires k in s.incidents && s.incidents[k].leftAt.Some? && last.level != Unknown
    requires forall i :: 0 <= i < |rounds| ==> AwayAt(k, s, rounds, i)
    requires last.now >= s.incidents[k].leftAt.value + INCIDENT_GAP
    ensures var s' := From(s, rounds);
            && SameIncident(k, s.incidents[k], s') && s'.incidents[k].leftAt == s.incidents[k].leftAt
            && (k in Evaluate(s', last).incidents ==> Evaluate(s', last).incidents[k].firstAttemptAt == last.now)
  {
    StaysAway(k, s, rounds);
    RecordFate(k, From(s, rounds), last);
  }

  lemma {:induction false} StaysAway(k: Key, s: AlertState, rounds: seq<Round>)
    requires k in s.incidents && s.incidents[k].leftAt.Some?
    requires forall i :: 0 <= i < |rounds| ==> AwayAt(k, s, rounds, i)
    ensures SameIncident(k, s.incidents[k], From(s, rounds)) && From(s, rounds).incidents[k].leftAt == s.incidents[k].leftAt
  {
    if rounds != [] {
      var n := |rounds| - 1;
      var front, r := rounds[..n], rounds[n];
      forall i | 0 <= i < n ensures AwayAt(k, s, front, i) {
        assert AwayAt(k, s, rounds, i) && front[..i] == rounds[..i] && front[i] == rounds[i];
      }
      StaysAway(k, s, front);
      hide Evaluate;
      assert AwayAt(k, s, rounds, n);
      UnknownKeeps(From(s, front), r);
      if r.level != Unknown { RecordFate(k, From(s, front), r); }
    }
  }
}
