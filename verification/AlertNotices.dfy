// Which new messages every run of evaluations sends.
module AlertNotices {
  import opened Outcomes
  import opened Alerts
  import opened AlertIncidents

  function NoticeAt(rounds: seq<Round>, i: nat): Option<Notice>
    requires i < |rounds|
  {
    if rounds[i].level == Unknown then None else NoticeOf(StateAfter(rounds[..i]), rounds[i])
  }

  // ----- failed reads

  // How many of the last evaluations in a row found the balance unreadable; those without any balance do not count.
  function UnreadableInARow(rounds: seq<Round>): nat {
    if rounds == [] then 0
    else
      var front, r := rounds[..|rounds| - 1], rounds[|rounds| - 1];
      if r.level == Unknown then UnreadableInARow(front) else if r.level == Unreadable then UnreadableInARow(front) + 1 else 0
  }

  lemma {:induction false} CountsFailures(rounds: seq<Round>)
    ensures StateAfter(rounds).errorCount == UnreadableInARow(rounds)
  {
    if rounds != [] {
      CountsFailures(rounds[..|rounds| - 1]);
    }
  }

  // Failed reads say nothing until there were as many in a row as the rules ask for, and do not disturb the level before them.
  lemma FewFailuresAreSilent(rounds: seq<Round>, r: Round)
    requires r.level == Unreadable && UnreadableInARow(rounds) + 1 < Threshold(r)
    ensures var s := StateAfter(rounds);
            && StateNow(s, r) == s.state && NoticeOf(s, r) == None && Holds(Of(Failing), s, r) == None
  {
    CountsFailures(rounds);
  }

  // ----- what a message may be about

  lemma NoticesAreApt(rounds: seq<Round>, i: nat)
    requires i < |rounds| && NoticeAt(rounds, i).Some?
    ensures var s, r, n := StateAfter(rounds[..i]), rounds[i], NoticeAt(rounds, i).value;
            && n.event in r.rules.on
            && (r.noRenewal ==> n.event != Exhaust && n.event != Soon && (n.event == Low ==> n.kind == NoRenewal))
            && (n.kind == Recovery ==> Bad(s.state) && StateNow(s, r) == Fine)
            && (n.kind == Change ==> n.state != s.state && n.state == r.level)
            && (n.kind == Repeat ==> n.state == s.state == r.level && r.now - s.notifiedAt > r.rules.renotifyAfter > 0)
  {
    CountsFailures(rounds[..i]);
  }

  // ----- repetitions

  // The last time a message about the balance went out.
  function LastNotified(rounds: seq<Round>): int {
    if rounds == [] then 0
    else
      var n := |rounds| - 1;
      var notice := NoticeAt(rounds, n);
      if notice.Some? && notice.value.kind in {Change, Repeat, Recovery} then rounds[n].now else LastNotified(rounds[..n])
  }

  lemma {:induction false} RemembersNotified(rounds: seq<Round>)
    ensures StateAfter(rounds).notifiedAt == LastNotified(rounds)
  {
    if rounds != [] {
      var n := |rounds| - 1;
      RemembersNotified(rounds[..n]);
      assert rounds[..n + 1] == rounds;
    }
  }

  // A repetition comes later after the last message about the balance than the rules' pause, and never without a pause.
  lemma RepeatsAreSpaced(rounds: seq<Round>, i: nat)
    requires i < |rounds| && NoticeAt(rounds, i).Some? && NoticeAt(rounds, i).value.kind == Repeat
    ensures rounds[i].rules.renotifyAfter > 0 && rounds[i].now > LastNotified(rounds[..i]) + rounds[i].rules.renotifyAfter
  {
    RemembersNotified(rounds[..i]);
  }

  // ----- the single reminder

  predicate WithoutRenewal(r: Round) { r.noRenewal && r.noRenewalAfter && r.now > 0 }

  function Reminders(rounds: seq<Round>): nat {
    if rounds == [] then 0
    else
      var n := |rounds| - 1;
      var notice := NoticeAt(rounds, n);
      Reminders(rounds[..n]) + if notice.Some? && notice.value.kind == NoRenewal then 1 else 0
  }

  // An upstream that stays without renewal is reminded of once, however often its balance falls and rises.
  lemma {:induction false} RemindedOnce(rounds: seq<Round>)
    requires forall i :: 0 <= i < |rounds| ==> WithoutRenewal(rounds[i])
    ensures Reminders(rounds) <= 1 && (Reminders(rounds) == 0 <==> StateAfter(rounds).noRenewalNotifiedAt == 0)
    ensures StateAfter(rounds).noRenewalNotifiedAt >= 0
  {
    if rounds != [] {
      var n := |rounds| - 1;
      assert forall i :: 0 <= i < n ==> rounds[..n][i] == rounds[i];
      RemindedOnce(rounds[..n]);
      assert WithoutRenewal(rounds[n]);
    }
  }

  lemma LowIsRemembered(s: AlertState, r: Round)
    requires WithoutRenewal(r) && LowWithoutRenewal(r) && s.noRenewalNotifiedAt >= 0
    ensures Evaluate(s, r).noRenewalNotifiedAt > 0
  {}

  // And it is reminded as soon as the balance is low or used up, with the rule on.
  lemma RemindedWhenLow(rounds: seq<Round>, r: Round)
    requires forall i :: 0 <= i < |rounds| ==> WithoutRenewal(rounds[i])
    requires WithoutRenewal(r) && LowWithoutRenewal(r)
    ensures Reminders(rounds + [r]) == 1
  {
    hide Evaluate, Reminders, LowWithoutRenewal;
    RemindedOnce(rounds);
    var more := rounds + [r];
    assert more[..|rounds|] == rounds;
    forall i | 0 <= i < |more| ensures WithoutRenewal(more[i]) {
      if i < |rounds| { assert more[i] == rounds[i]; }
    }
    RemindedOnce(more);
    LowIsRemembered(StateAfter(rounds), r);
  }
}
