// Balance alerts of one upstream: what is sent in one evaluation, and the record kept of every incident so that channels
// which missed its first message get it later (lib/alerts.js). Sending is a parameter: which channels accept a message.
module Alerts {
  import opened Outcomes

  const MINUTE := 60000
  const RETRY_MAX := 60 * MINUTE
  const RETRY_WINDOW := 24 * 60 * MINUTE
  const INCIDENT_GAP := 24 * 60 * MINUTE

  datatype Level = Unknown | Fine | Warn | Danger | Unreadable
  datatype Event = Low | Exhaust | Failing | Recover | Soon
  datatype Kind = Change | Repeat | Recovery | RunningOut | NoRenewal
  datatype Key = Of(event: Event) | NoRenewalLow

  datatype Channel = Channel(id: string, enabled: bool)

  // Switched-on events, the pause before a repetition, the number of failed reads that count, and the channels per event
  // (none named means all).
  datatype Rules = Rules(on: set<Event>, renotifyAfter: int, errorThreshold: nat, channelsFor: map<Event, set<string>>)

  datatype Incident = Incident(kind: Kind, state: Level, event: Event, firstAttemptAt: int, remaining: set<string>,
                               attempts: nat, retryAt: int, leftAt: Option<int>)

  // A time of 0 stands for never.
  datatype AlertState = AlertState(state: Level, errorCount: nat, notifiedAt: int, etaNotifiedAt: int, noRenewalNotifiedAt: int,
                                   incidents: map<Key, Incident>)

  // One evaluation: the upstream as it is now, the forecast's verdict, who accepts a message of which incident, when the
  // messages are out, and whether the upstream is renewed by then.
  datatype Round = Round(level: Level, noRenewal: bool, runsOutSoon: bool, rules: Rules, channels: seq<Channel>, now: int,
                         accepts: map<Key, set<string>>, doneAt: int, noRenewalAfter: bool)

  datatype Notice = Notice(kind: Kind, state: Level, event: Event)

  // A message that went out: to whom, who got it, and whether it was a retry of the incident's first message.
  datatype Sent = Sent(at: int, to: set<string>, got: set<string>, retry: bool)

  function Pow2(n: nat): (r: nat)
    ensures r > 0
  {
    if n == 0 then 1 else 2 * Pow2(n - 1)
  }

  // After the n-th attempt.
  function RetryDelay(attempts: nat): int
    requires attempts > 0
  {
    var wait := MINUTE * Pow2(if attempts - 1 < 6 then attempts - 1 else 6);
    if wait < RETRY_MAX then wait else RETRY_MAX
  }

  function Bound(rules: Rules, event: Event): set<string> {
    if event in rules.channelsFor then rules.channelsFor[event] else {}
  }

  function Targets(r: Round, event: Event): set<string> {
    set c | c in r.channels && c.enabled && (Bound(r.rules, event) == {} || c.id in Bound(r.rules, event)) :: c.id
  }

  // ----- what the upstream's condition is

  function EventOf(level: Level): Option<Event> {
    match level
    case Warn => Some(Low)
    case Danger => Some(Exhaust)
    case Unreadable => Some(Failing)
    case Fine => Some(Recover)
    case Unknown => None
  }

  predicate AlertOn(r: Round, event: Event) {
    event in r.rules.on && !(r.noRenewal && (event == Low || event == Exhaust))
  }

  predicate RunsOut(r: Round) {
    !r.noRenewal && Soon in r.rules.on && r.level != Unreadable && r.level != Danger && r.runsOutSoon
  }

  predicate LowWithoutRenewal(r: Round) {
    r.noRenewal && Low in r.rules.on && (r.level == Warn || r.level == Danger)
  }

  function ErrorCount(s: AlertState, r: Round): nat { if r.level == Unreadable then s.errorCount + 1 else 0 }

  function Threshold(r: Round): nat { if r.rules.errorThreshold < 1 then 1 else r.rules.errorThreshold }

  function StateNow(s: AlertState, r: Round): Level {
    if r.level == Unreadable && ErrorCount(s, r) < Threshold(r) then s.state else r.level
  }

  predicate Bad(level: Level) { level == Warn || level == Danger || level == Unreadable }

  predicate RenotifyDue(r: Round, at: int) { r.rules.renotifyAfter > 0 && r.now - at > r.rules.renotifyAfter }

  // Whether the situation of an incident is there; unknown while failed reads are too few to count.
  function Holds(k: Key, s: AlertState, r: Round): Option<bool> {
    match k
    case NoRenewalLow => Some(LowWithoutRenewal(r))
    case Of(Soon) => Some(RunsOut(r))
    case Of(Failing) =>
      if r.level != Unreadable then Some(false)
      else if ErrorCount(s, r) >= Threshold(r) then Some(AlertOn(r, Failing)) else None
    case Of(event) => Some(AlertOn(r, event) && EventOf(r.level) == Some(event))
  }

  // The one new message of this evaluation, if any.
  function NoticeOf(s: AlertState, r: Round): Option<Notice> {
    var state := StateNow(s, r);
    var confirmed := state == r.level && (r.level != Unreadable || ErrorCount(s, r) >= Threshold(r));
    var on := EventOf(state).Some? && AlertOn(r, EventOf(state).value);
    if LowWithoutRenewal(r) && s.noRenewalNotifiedAt == 0 then Some(Notice(NoRenewal, r.level, Low))
    else if confirmed && Bad(state) && state != s.state && on then Some(Notice(Change, state, EventOf(state).value))
    else if confirmed && Bad(state) && state == s.state && on && RenotifyDue(r, s.notifiedAt) then Some(Notice(Repeat, state, EventOf(state).value))
    else if state == Fine && (if r.noRenewal then s.state == Unreadable else Bad(s.state)) && AlertOn(r, Recover) then Some(Notice(Recovery, Fine, Recover))
    else if RunsOut(r) && (s.etaNotifiedAt == 0 || RenotifyDue(r, s.etaNotifiedAt)) then Some(Notice(RunningOut, state, Soon))
    else None
  }

  function KeyOf(n: Notice): Key { if n.kind == NoRenewal then NoRenewalLow else Of(n.event) }

  // ----- the record of one incident

  // An incident whose situation has been away for a day is over.
  predicate Over(i: Incident, r: Round) { i.leftAt.Some? && r.now - i.leftAt.value >= INCIDENT_GAP }

  // The record brought up to date: channels no longer addressed are dropped, and the time of departure is kept.
  function Seen(i: Incident, k: Key, s: AlertState, r: Round): Incident {
    var holds := Holds(k, s, r);
    i.(remaining := i.remaining * Targets(r, i.event),
       leftAt := if holds == Some(true) then None else if holds == Some(false) && i.leftAt.None? then Some(r.now) else i.leftAt)
  }

  predicate RetryDue(i: Incident, k: Key, s: AlertState, r: Round) {
    && Holds(k, s, r) == Some(true) && i.remaining != {}
    && r.now >= i.retryAt && r.now - i.firstAttemptAt < RETRY_WINDOW
  }

  function Accepting(r: Round, k: Key): set<string> { if k in r.accepts then r.accepts[k] else {} }

  // After a message of the incident went out once more.
  function Tried(i: Incident, to: set<string>, got: set<string>, doneAt: int): Incident {
    if i.remaining * to == {} then i
    else
      var retryAt := doneAt + RetryDelay(i.attempts + 1);
      i.(remaining := if retryAt - i.firstAttemptAt >= RETRY_WINDOW then {} else i.remaining - got,
         attempts := i.attempts + 1, retryAt := retryAt)
  }

  function Started(n: Notice, to: set<string>, got: set<string>, r: Round): Incident {
    Incident(n.kind, n.state, n.event, r.now, to - got, 1, r.doneAt + RetryDelay(1), None)
  }

  // The record under a key before anything is sent.
  function Kept(k: Key, s: AlertState, r: Round): Option<Incident> {
    if k in s.incidents && !Over(s.incidents[k], r) then Some(Seen(s.incidents[k], k, s, r)) else None
  }

  // A message to send: a new one, or the first one once more.
  datatype Send = Send(key: Key, notice: Option<Notice>, to: set<string>)

  function Planned(k: Key, s: AlertState, r: Round): Option<Send> {
    var notice, kept := NoticeOf(s, r), Kept(k, s, r);
    if notice.Some? && KeyOf(notice.value) == k then
      if Targets(r, notice.value.event) != {} then Some(Send(k, notice, Targets(r, notice.value.event))) else None
    else if kept.Some? && RetryDue(kept.value, k, s, r) then Some(Send(k, None, kept.value.remaining))
    else None
  }

  function Got(send: Send, r: Round): set<string> { send.to * Accepting(r, send.key) }

  // The record after its message went out.
  function AfterSend(send: Send, kept: Option<Incident>, r: Round): Option<Incident> {
    if kept.Some? then Some(Tried(kept.value, send.to, Got(send, r), r.doneAt))
    else if send.notice.Some? then Some(Started(send.notice.value, send.to, Got(send, r), r))
    else None
  }

  // What becomes of the record under one key, and the message sent for it.
  datatype Outcome = Outcome(record: Option<Incident>, sent: Option<Sent>)

  function OutcomeAt(k: Key, s: AlertState, r: Round): Outcome {
    var kept, planned := Kept(k, s, r), Planned(k, s, r);
    var o := if planned.None? then Outcome(kept, None)
             else Outcome(AfterSend(planned.value, kept, r),
                          Some(Sent(r.now, planned.value.to, Got(planned.value, r), planned.value.notice.None?)));
    if r.noRenewal != r.noRenewalAfter && k == NoRenewalLow then o.(record := None) else o
  }

  const KEYS: seq<Key> := [Of(Low), Of(Exhaust), Of(Failing), Of(Recover), Of(Soon), NoRenewalLow]

  lemma AllKeys(k: Key)
    ensures k in KEYS
  {
    match k
    case NoRenewalLow => assert KEYS[5] == k;
    case Of(Low) => assert KEYS[0] == k;
    case Of(Exhaust) => assert KEYS[1] == k;
    case Of(Failing) => assert KEYS[2] == k;
    case Of(Recover) => assert KEYS[3] == k;
    case Of(Soon) => assert KEYS[4] == k;
  }

  // ----- the whole evaluation

  function Times(s: AlertState, r: Round): AlertState {
    var notice := NoticeOf(s, r);
    var s := s.(state := StateNow(s, r), errorCount := ErrorCount(s, r));
    var s := if notice.None? then s
             else if notice.value.kind == NoRenewal then s.(noRenewalNotifiedAt := r.now)
             else if notice.value.kind == RunningOut then s.(etaNotifiedAt := r.now)
             else s.(notifiedAt := r.now);
    if r.noRenewal != r.noRenewalAfter then s.(noRenewalNotifiedAt := 0) else s
  }

  function Evaluate(s: AlertState, r: Round): AlertState {
    if r.level == Unknown then s
    else Times(s, r).(incidents := map k | k in KEYS && OutcomeAt(k, s, r).record.Some? :: OutcomeAt(k, s, r).record.value)
  }

  // ----- the evaluation as the program carries it out

  // Records and messages after the loop over the stored incidents, as far as the keys `done` go.
  ghost predicate Booked(done: seq<Key>, s: AlertState, r: Round, incidents: map<Key, Incident>, sends: seq<Send>) {
    && (forall k :: k in incidents ==> k in done && Kept(k, s, r) == Some(incidents[k]))
    && (forall k :: k in done && Kept(k, s, r).Some? ==> k in incidents)
    && PlannedOnce(s, r, sends)
    && (forall i :: 0 <= i < |sends| ==> sends[i].key in done && sends[i].notice.None?)
    && (forall k :: k in done && Planned(k, s, r).Some? && Planned(k, s, r).value.notice.None? ==> Planned(k, s, r).value in sends)
  }

  ghost predicate PlannedOnce(s: AlertState, r: Round, sends: seq<Send>) {
    && (forall i :: 0 <= i < |sends| ==> Planned(sends[i].key, s, r) == Some(sends[i]))
    && (forall i, j :: 0 <= i < j < |sends| ==> sends[i].key != sends[j].key)
  }

  lemma BookedOneMore(done: seq<Key>, key: Key, s: AlertState, r: Round, incidents: map<Key, Incident>, sends: seq<Send>,
                      kept: Option<Incident>, retry: Option<Send>)
    requires Booked(done, s, r, incidents, sends) && key !in done && kept == Kept(key, s, r)
    requires retry == (if Planned(key, s, r).Some? && Planned(key, s, r).value.notice.None? then Planned(key, s, r) else None)
    requires retry.Some? ==> retry.value.key == key
    ensures Booked(done + [key], s, r, if kept.Some? then incidents[key := kept.value] else incidents,
                   if retry.Some? then sends + [retry.value] else sends)
  {
    hide Kept, Planned;
    assert forall k :: k in done + [key] <==> k in done || k == key;
    if retry.Some? {
      var sends' := sends + [retry.value];
      SentOneMore(done, key, s, r, sends, retry.value);
      assert forall x :: x in sends' <==> x in sends || x == retry.value;
      hide PlannedOnce;
    }
  }

  lemma SentOneMore(done: seq<Key>, key: Key, s: AlertState, r: Round, sends: seq<Send>, retry: Send)
    requires PlannedOnce(s, r, sends) && forall i :: 0 <= i < |sends| ==> sends[i].key in done && sends[i].notice.None?
    requires key !in done && retry.key == key && retry.notice.None? && Planned(key, s, r) == Some(retry)
    ensures PlannedOnce(s, r, sends + [retry])
    ensures forall i :: 0 <= i < |sends + [retry]| ==> (sends + [retry])[i].key in done + [key] && (sends + [retry])[i].notice.None?
  {
    hide Planned;
  }

  lemma NothingBooked(s: AlertState, r: Round)
    ensures Booked([], s, r, map[], [])
  {}

  lemma RetryOf(key: Key, s: AlertState, r: Round)
    ensures var p, kept, notice := Planned(key, s, r), Kept(key, s, r), NoticeOf(s, r);
            var retry := kept.Some? && !(notice.Some? && KeyOf(notice.value) == key) && RetryDue(kept.value, key, s, r);
            (if p.Some? && p.value.notice.None? then p else None) == if retry then Some(Send(key, None, kept.value.remaining)) else None
  {}

  // The loop over the stored incidents.
  method Bookkeep(s: AlertState, r: Round, notice: Option<Notice>) returns (incidents: map<Key, Incident>, sends: seq<Send>)
    requires notice == NoticeOf(s, r)
    ensures Booked(KEYS, s, r, incidents, sends)
  {
    hide Booked, Planned, Holds, NoticeOf, Targets, Over, RetryDue;
    incidents, sends := map[], [];
    NothingBooked(s, r);
    var n := 0;
    while n < |KEYS|
      invariant 0 <= n <= |KEYS|
      invariant Booked(KEYS[..n], s, r, incidents, sends)
    {
      var key := KEYS[n];
      assert KEYS[..n + 1] == KEYS[..n] + [key] && key !in KEYS[..n];
      RetryOf(key, s, r);
      n := n + 1;
      if key !in s.incidents || Over(s.incidents[key], r) {
        BookedOneMore(KEYS[..n - 1], key, s, r, incidents, sends, None, None);
        continue;
      }
      var incident := Seen(s.incidents[key], key, s, r);
      var retry := !(notice.Some? && KeyOf(notice.value) == key) && RetryDue(incident, key, s, r);
      var send := Send(key, None, incident.remaining);
      BookedOneMore(KEYS[..n - 1], key, s, r, incidents, sends, Some(incident), if retry then Some(send) else None);
      incidents := incidents[key := incident];
      if retry { sends := sends + [send]; }
    }
    assert KEYS[..n] == KEYS;
  }

  function At(m: map<Key, Incident>, k: Key): Option<Incident> { if k in m then Some(m[k]) else None }

  function KeysOf(sends: seq<Send>): set<Key> { set x | x in sends :: x.key }

  // Every message to send, once each.
  ghost predicate AllPlanned(s: AlertState, r: Round, sends: seq<Send>) {
    PlannedOnce(s, r, sends) && forall k: Key :: Planned(k, s, r).Some? ==> Planned(k, s, r).value in sends
  }

  function AfterAll(k: Key, s: AlertState, r: Round): Option<Incident> {
    if Planned(k, s, r).Some? then AfterSend(Planned(k, s, r).value, Kept(k, s, r), r) else Kept(k, s, r)
  }

  // The message planned for the key of the new notice is that notice.
  lemma NoticePlanned(s: AlertState, r: Round)
    ensures var notice := NoticeOf(s, r);
            && (notice.Some? ==>
                 var to := Targets(r, notice.value.event);
                 Planned(KeyOf(notice.value), s, r) == if to != {} then Some(Send(KeyOf(notice.value), notice, to)) else None)
            && (forall k: Key :: Planned(k, s, r).Some? && Planned(k, s, r).value.notice.Some? ==> notice.Some? && k == KeyOf(notice.value))
  {}

  lemma PlannedHasRecord(k: Key, s: AlertState, r: Round)
    ensures Planned(k, s, r).Some? && Planned(k, s, r).value.notice.None? ==> Kept(k, s, r).Some?
  {}

  lemma DoneWithAll(s: AlertState, r: Round, sends: seq<Send>, kept: map<Key, Incident>, incidents: map<Key, Incident>)
    requires AllPlanned(s, r, sends) && forall k: Key :: At(kept, k) == Kept(k, s, r)
    requires forall k: Key :: k !in KeysOf(sends) ==> At(incidents, k) == At(kept, k)
    requires forall j :: 0 <= j < |sends| ==> At(incidents, sends[j].key) == AfterSend(sends[j], Kept(sends[j].key, s, r), r)
    ensures forall k: Key :: At(incidents, k) == AfterAll(k, s, r)
  {
    hide Kept, Planned, AfterSend, At;
    forall k: Key ensures At(incidents, k) == AfterAll(k, s, r) {
      OtherKey(k, s, r);
      assert Planned(k, s, r).Some? ==> k in KeysOf(sends);
      if k in KeysOf(sends) {
        var x :| x in sends && x.key == k;
        var j :| 0 <= j < |sends| && sends[j] == x;
        assert Planned(k, s, r) == Some(sends[j]);
      }
    }
  }

  lemma OtherKey(k: Key, s: AlertState, r: Round)
    ensures Planned(k, s, r).Some? ==> Planned(k, s, r).value.key == k
  {}

  // The loop over what was sent.
  method Deliver(s: AlertState, r: Round, kept: map<Key, Incident>, sends: seq<Send>) returns (incidents: map<Key, Incident>)
    requires AllPlanned(s, r, sends) && forall k: Key :: At(kept, k) == Kept(k, s, r)
    ensures forall k: Key :: At(incidents, k) == AfterAll(k, s, r)
  {
    hide Kept, Planned, NoticeOf, Got, Tried, Started, AfterAll;
    incidents := kept;
    var i := 0;
    while i < |sends|
      invariant 0 <= i <= |sends|
      invariant forall k: Key :: k !in KeysOf(sends[..i]) ==> At(incidents, k) == At(kept, k)
      invariant forall j :: 0 <= j < i ==> At(incidents, sends[j].key) == AfterSend(sends[j], Kept(sends[j].key, s, r), r)
    {
      var send := sends[i];
      assert sends[..i + 1] == sends[..i] + [send];
      assert Planned(send.key, s, r) == Some(send);
      PlannedHasRecord(send.key, s, r);
      assert send.key !in KeysOf(sends[..i]) && At(incidents, send.key) == Kept(send.key, s, r);
      var got := Got(send, r);
      if send.key in incidents {
        incidents := incidents[send.key := Tried(incidents[send.key], send.to, got, r.doneAt)];
      } else {
        incidents := incidents[send.key := Started(send.notice.value, send.to, got, r)];
      }
      i := i + 1;
    }
    assert sends[..i] == sends;
    DoneWithAll(s, r, sends, kept, incidents);
  }

  lemma BookedAll(s: AlertState, r: Round, kept: map<Key, Incident>, sends: seq<Send>)
    requires Booked(KEYS, s, r, kept, sends)
    ensures var notice := NoticeOf(s, r);
            var extra := if notice.Some? && Targets(r, notice.value.event) != {}
                       then [Send(KeyOf(notice.value), notice, Targets(r, notice.value.event))] else [];
            AllPlanned(s, r, sends + extra)
    ensures forall k: Key :: At(kept, k) == Kept(k, s, r)
  {
    hide Kept, Planned;
    NoticePlanned(s, r);
    forall k: Key ensures At(kept, k) == Kept(k, s, r) {
      AllKeys(k);
    }
    var notice := NoticeOf(s, r);
    var extra := if notice.Some? && Targets(r, notice.value.event) != {}
               then [Send(KeyOf(notice.value), notice, Targets(r, notice.value.event))] else [];
    forall k: Key | Planned(k, s, r).Some? ensures Planned(k, s, r).value in sends + extra {
      AllKeys(k);
      if Planned(k, s, r).value.notice.Some? {
        assert Planned(k, s, r).value == extra[0] && extra[0] in extra;
      }
    }
  }

  // One message for each key under which one is sent, to those it is sent to.
  ghost predicate AreTheMessages(s: AlertState, r: Round, sends: seq<Send>) {
    && (forall i, j :: 0 <= i < j < |sends| ==> sends[i].key != sends[j].key)
    && (forall x :: x in sends ==> OutcomeAt(x.key, s, r).sent == Some(Sent(r.now, x.to, Got(x, r), x.notice.None?)))
    && (forall k: Key :: OutcomeAt(k, s, r).sent.Some? ==> exists x :: x in sends && x.key == k)
  }

  lemma MessagesArePlanned(s: AlertState, r: Round, sends: seq<Send>)
    requires AllPlanned(s, r, sends)
    ensures AreTheMessages(s, r, sends)
  {
    hide Planned, Kept, AfterSend;
    forall x | x in sends ensures OutcomeAt(x.key, s, r).sent == Some(Sent(r.now, x.to, Got(x, r), x.notice.None?)) {
      var i :| 0 <= i < |sends| && sends[i] == x;
      assert Planned(sends[i].key, s, r) == Some(sends[i]);
    }
    forall k: Key | OutcomeAt(k, s, r).sent.Some? ensures exists x :: x in sends && x.key == k {
      OtherKey(k, s, r);
      assert Planned(k, s, r).value in sends;
    }
  }

  class Monitor {
    var state: AlertState

    constructor ()
      ensures state == AlertState(Unknown, 0, 0, 0, 0, map[])
    {
      state := AlertState(Unknown, 0, 0, 0, 0, map[]);
    }

    // `sends` are the messages of this evaluation.
    method EvaluateStation(r: Round) returns (sends: seq<Send>)
      modifies this
      ensures state == Evaluate(old(state), r)
      ensures if r.level == Unknown then sends == [] else AreTheMessages(old(state), r, sends)
    {
      hide Kept, Planned, AfterSend, Times, Booked, Targets;
      sends := [];
      if r.level == Unknown { return; }
      var prev := state;
      var notice := NoticeOf(prev, r);
      var kept;
      kept, sends := Bookkeep(prev, r, notice);
      BookedAll(prev, r, kept, sends);
      if notice.Some? && Targets(r, notice.value.event) != {} {
        sends := sends + [Send(KeyOf(notice.value), notice, Targets(r, notice.value.event))];
      } else {
        assert sends + [] == sends;
      }
      MessagesArePlanned(prev, r, sends);
      var incidents := Deliver(prev, r, kept, sends);
      if r.noRenewal != r.noRenewalAfter { incidents := incidents - {NoRenewalLow}; }
      state := Times(prev, r).(incidents := incidents);
      SameRecords(prev, r, incidents);
    }
  }

  lemma SameRecords(s: AlertState, r: Round, incidents: map<Key, Incident>)
    requires forall k: Key :: At(incidents, k) == if r.noRenewal != r.noRenewalAfter && k == NoRenewalLow then None else AfterAll(k, s, r)
    ensures incidents == map k | k in KEYS && OutcomeAt(k, s, r).record.Some? :: OutcomeAt(k, s, r).record.value
  {
    hide Kept, Planned, AfterSend;
    forall k: Key ensures k in KEYS && OutcomeAt(k, s, r).record == At(incidents, k) {
      AllKeys(k);
    }
  }
}
