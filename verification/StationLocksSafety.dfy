// Mutual exclusion, absence of deadlock, and a lock map that empties itself, for any number of callers and any stations.
module StationLocksSafety {
  import opened Sequences
  import opened StationLocks

  // ----- what being granted means

  lemma {:induction false} SettledMeansReleased(s: State, n: nat, m: nat)
    requires forall i :: 0 <= i < |s.tickets| ==> Chained(s, i)
    requires m <= n < |s.tickets| && Settled(s, n) && s.tickets[m].id == s.tickets[n].id
    ensures DoneTicket(s, m)
    decreases n
  {
    assert Chained(s, n);
    if m < n && s.tickets[n].previous.Some? {
      var p := s.tickets[n].previous.value;
      assert m <= p;
      SettledMeansReleased(s, p, m);
    }
  }

  // Everyone before a granted ticket has left.
  lemma GrantedIsNext(s: State, n: nat, m: nat)
    requires forall i :: 0 <= i < |s.tickets| ==> Chained(s, i)
    requires m < n < |s.tickets| && Granted(s, n) && s.tickets[m].id == s.tickets[n].id
    ensures DoneTicket(s, m)
  {
    assert Chained(s, n);
    if s.tickets[n].previous.Some? {
      var p := s.tickets[n].previous.value;
      assert m <= p;
      SettledMeansReleased(s, p, m);
    }
  }

  // And the other way round: once everyone before has left, a ticket is granted.
  lemma {:induction false} NextIsGranted(s: State, n: nat)
    requires forall i :: 0 <= i < |s.tickets| ==> Chained(s, i)
    requires n < |s.tickets| && forall m :: 0 <= m < n && s.tickets[m].id == s.tickets[n].id ==> DoneTicket(s, m)
    ensures Granted(s, n)
    decreases n
  {
    assert Chained(s, n);
    if s.tickets[n].previous.Some? {
      NextIsGranted(s, s.tickets[n].previous.value);
    }
  }

  // ----- steps

  // Statuses only move to Done, tickets are only added.
  predicate Grows(s: State, s': State) {
    && |s.status| == |s'.status| && |s.tickets| <= |s'.tickets| && s.tickets == s'.tickets[..|s.tickets|]
    && forall c :: 0 <= c < |s.status| && s.status[c].Done? ==> s'.status[c].Done?
  }

  lemma {:induction false} SettledStays(s: State, s': State, n: nat)
    requires Grows(s, s') && n < |s.tickets| && Settled(s, n)
    ensures Settled(s', n)
    decreases n
  {
    assert s.tickets[n] == s'.tickets[n];
    if s.tickets[n].previous.Some? {
      SettledStays(s, s', s.tickets[n].previous.value);
    }
  }

  lemma GrantedStays(s: State, s': State, n: nat)
    requires Grows(s, s') && n < |s.tickets| && Granted(s, n)
    ensures Granted(s', n)
  {
    assert s.tickets[n] == s'.tickets[n];
    if s.tickets[n].previous.Some? {
      SettledStays(s, s', s.tickets[n].previous.value);
    }
  }

  lemma ChainedStays(s: State, s': State, n: nat)
    requires Grows(s, s') && n < |s.tickets| && Chained(s, n)
    ensures Chained(s', n)
  {
    assert forall m :: 0 <= m <= n ==> s.tickets[m] == s'.tickets[m];
  }

  // What a caller owns, when others step.
  lemma OwnsStays(s: State, s': State, c: nat, order: seq<int>)
    requires Grows(s, s') && c < |s.status| && s'.status[c] == s.status[c] && Owns(s, c, order)
    requires forall n :: |s.tickets| <= n < |s'.tickets| ==> s'.tickets[n].caller != c
    ensures Owns(s', c, order)
  {
    hide Granted;
    assert forall n :: 0 <= n < |s.tickets| ==> s.tickets[n] == s'.tickets[n];
    forall i | 0 <= i < TakenBy(s.status[c], order) ensures HasTicket(s', c, order[i]) {
      var n: nat :| n < |s.tickets| && IsTicket(s, n, c, order[i]);
      assert IsTicket(s', n, c, order[i]);
    }
    forall n | 0 <= n < |s'.tickets| && s'.tickets[n].caller == c && s'.tickets[n].id in order[..HeldBy(s.status[c], order)] ensures Granted(s', n) {
      GrantedStays(s, s', n);
    }
  }

  ghost predicate TicketsInv(s: State) {
    && (forall n :: 0 <= n < |s.tickets| ==> s.tickets[n].caller < |s.status| && Chained(s, n))
    && (forall id: int :: Mapped(s, id))
    && (forall n, m :: 0 <= n < m < |s.tickets| ==> s.tickets[n].caller != s.tickets[m].caller || s.tickets[n].id != s.tickets[m].id)
  }

  lemma EnterKeepsTickets(s: State, c: nat, order: seq<int>, k: nat)
    requires TicketsInv(s) && c < |s.status| && !s.status[c].Done? && !HasTicketAt(s, c, order, k)
    ensures TicketsInv(Enter(s, c, order, k)) && Grows(s, Enter(s, c, order, k))
  {
    var s' := Enter(s, c, order, k);
    assert forall n :: 0 <= n < |s.tickets| ==> s.tickets[n] == s'.tickets[n];
    forall n | 0 <= n < |s'.tickets| ensures s'.tickets[n].caller < |s'.status| && Chained(s', n) {
      if n < |s.tickets| {
        assert Chained(s, n);
        ChainedStays(s, s', n);
      } else {
        assert Mapped(s, order[k]);
      }
    }
    forall id: int ensures Mapped(s', id) {
      assert Mapped(s, id);
      assert forall m :: 0 <= m < |s.tickets| ==> DoneTicket(s, m) == DoneTicket(s', m);
    }
    forall n, m | 0 <= n < m < |s'.tickets| ensures s'.tickets[n].caller != s'.tickets[m].caller || s'.tickets[n].id != s'.tickets[m].id {
      if m == |s.tickets| && s'.tickets[n].caller == c { assert !IsTicket(s, n, c, order[k]); }
    }
  }

  predicate HasTicketAt(s: State, c: nat, order: seq<int>, k: nat) { k < |order| && HasTicket(s, c, order[k]) }

  lemma LeaveKeepsTickets(s: State, c: nat, order: seq<int>)
    requires TicketsInv(s) && c < |s.status| && s.status[c].Acting? && Owns(s, c, order)
    ensures TicketsInv(Leave(s, c)) && Grows(s, Leave(s, c))
  {
    var s' := Leave(s, c);
    forall n | 0 <= n < |s'.tickets| ensures s'.tickets[n].caller < |s'.status| && Chained(s', n) {
      assert Chained(s, n);
      ChainedStays(s, s', n);
    }
    forall id: int ensures Mapped(s', id) {
      assert Mapped(s, id);
      if id in s.locks && IsTicket(s, s.locks[id], c, id) {
        var n := s.locks[id];
        assert order[..|order|] == order && Granted(s, n);
        forall m | 0 <= m < |s'.tickets| && s'.tickets[m].id == id ensures DoneTicket(s', m) {
          if m < n { GrantedIsNext(s, n, m); }
        }
      }
    }
  }

  // The caller itself, one ticket further.
  lemma EnterOwns(s: State, c: nat, order: seq<int>, k: nat)
    requires c < |s.status| && Owns(s, c, order) && k <= |order| && k == TakenBy(s.status[c], order) && Grows(s, Enter(s, c, order, k))
    requires forall n :: 0 <= n < |s.tickets| && s.tickets[n].caller == c && s.tickets[n].id in order[..k] ==> Granted(s, n)
    ensures Owns(Enter(s, c, order, k), c, order)
  {
    hide Granted;
    var s' := Enter(s, c, order, k);
    assert forall n :: 0 <= n < |s.tickets| ==> s.tickets[n] == s'.tickets[n];
    var taken := TakenBy(s'.status[c], order);
    assert order[..k] <= order[..taken] && (k < |order| ==> order[..k + 1] == order[..k] + [order[k]]);
    forall i | 0 <= i < taken ensures HasTicket(s', c, order[i]) {
      if i < k {
        var n: nat :| n < |s.tickets| && IsTicket(s, n, c, order[i]);
        assert IsTicket(s', n, c, order[i]);
      } else {
        assert IsTicket(s', |s.tickets|, c, order[k]);
      }
    }
    assert k < |order| ==> order[k] !in order[..k];
    forall n | 0 <= n < |s'.tickets| && s'.tickets[n].caller == c && s'.tickets[n].id in order[..HeldBy(s'.status[c], order)] ensures Granted(s', n) {
      GrantedStays(s, s', n);
    }
  }

  lemma NotTakenYet(s: State, c: nat, order: seq<int>, k: nat)
    requires c < |s.status| && Owns(s, c, order) && k == TakenBy(s.status[c], order)
    ensures !HasTicketAt(s, c, order, k)
  {
    hide Granted;
    assert k < |order| ==> order[k] !in order[..k];
  }

  // The stepping caller's own part.
  lemma EnterKeeps(s: State, c: nat, order: seq<int>)
    requires TicketsInv(s) && c < |s.status| && Owns(s, c, order) && MayGoOn(s, c, order) && !s.status[c].Acting?
    ensures var s' := Step(s, c, order);
            TicketsInv(s') && Grows(s, s') && Owns(s', c, order) && forall n :: |s.tickets| <= n < |s'.tickets| ==> s'.tickets[n].caller == c
  {
    var k := if s.status[c].Fresh? then 0 else s.status[c].k + 1;
    NotTakenYet(s, c, order, k);
    EnterKeepsTickets(s, c, order, k);
    forall n | 0 <= n < |s.tickets| && s.tickets[n].caller == c && s.tickets[n].id in order[..k] ensures Granted(s, n) {
      AwaitedIsGranted(s, c, order, k, n);
    }
    hide TicketsInv, Granted;
    EnterOwns(s, c, order, k);
  }

  lemma StepKeeps(s: State, c: nat, orders: seq<seq<int>>)
    requires Inv(s, orders) && c < |orders| && MayGoOn(s, c, orders[c])
    ensures Inv(Step(s, c, orders[c]), orders)
  {
    var order, s' := orders[c], Step(s, c, orders[c]);
    assert Owns(s, c, order);
    hide Chained, Mapped, Granted, Owns, MayGoOn;
    if s.status[c].Acting? {
      LeaveKeepsTickets(s, c, order);
      LeaveOwns(s, c, order);
    } else {
      EnterKeeps(s, c, order);
    }
    forall d | 0 <= d < |orders| ensures Owns(s', d, orders[d]) {
      assert Owns(s, d, orders[d]);
      if d != c { OwnsStays(s, s', d, orders[d]); }
    }
  }

  lemma AwaitedIsGranted(s: State, c: nat, order: seq<int>, k: nat, n: nat)
    requires c < |s.status| && Owns(s, c, order) && MayGoOn(s, c, order) && !s.status[c].Acting?
    requires k == (if s.status[c].Fresh? then 0 else s.status[c].k + 1) && n < |s.tickets| && s.tickets[n].caller == c && s.tickets[n].id in order[..k]
    requires forall n, m :: 0 <= n < m < |s.tickets| ==> s.tickets[n].caller != s.tickets[m].caller || s.tickets[n].id != s.tickets[m].id
    ensures Granted(s, n)
  {
    hide Granted;
    if s.status[c].Waiting? {
      var w := s.status[c].k;
      var m: nat :| m < |s.tickets| && IsTicket(s, m, c, order[w]) && Granted(s, m);
      assert order[..w + 1] == order[..w] + [order[w]];
      if s.tickets[n].id == order[w] {
        assert !(n < m) && !(m < n);
      }
    }
  }

  lemma LeaveOwns(s: State, c: nat, order: seq<int>)
    requires c < |s.status| && Owns(s, c, order) && s.status[c].Acting?
    ensures Owns(Leave(s, c), c, order)
  {
    var s' := Leave(s, c);
    forall i | 0 <= i < |order| ensures HasTicket(s', c, order[i]) {
      var n: nat :| n < |s.tickets| && IsTicket(s, n, c, order[i]);
      assert IsTicket(s', n, c, order[i]);
    }
  }

  lemma {:induction false} RunKeeps(orders: seq<seq<int>>, schedule: seq<nat>)
    requires PossibleRun(orders, schedule) && forall c :: 0 <= c < |orders| ==> Ascending(orders[c])
    ensures Inv(Run(orders, schedule), orders)
  {
    if schedule != [] {
      RunKeeps(orders, schedule[..|schedule| - 1]);
      StepKeeps(Run(orders, schedule[..|schedule| - 1]), schedule[|schedule| - 1], orders);
    }
  }

  // ----- the promises

  // A caller holds a station from the moment its ticket is granted until it leaves.
  predicate Holds(s: State, c: nat, order: seq<int>, id: int) {
    c < |s.status| && HeldBy(s.status[c], order) <= |order| && id in order[..HeldBy(s.status[c], order)]
  }

  lemma HeldIsGranted(s: State, orders: seq<seq<int>>, c: nat, id: int) returns (n: nat)
    requires Inv(s, orders) && c < |orders| && Holds(s, c, orders[c], id)
    ensures IsTicket(s, n, c, id) && Granted(s, n) && !DoneTicket(s, n)
  {
    assert Owns(s, c, orders[c]);
    var held := HeldBy(s.status[c], orders[c]);
    var i :| 0 <= i < held && orders[c][..held][i] == id;
    assert HasTicket(s, c, orders[c][i]);
    n :| n < |s.tickets| && IsTicket(s, n, c, id);
  }

  lemma OneHolderIn(s: State, orders: seq<seq<int>>, c: nat, d: nat, id: int)
    requires Inv(s, orders) && c < |orders| && d < |orders| && Holds(s, c, orders[c], id) && Holds(s, d, orders[d], id)
    ensures c == d
  {
    hide Owns, Mapped, Holds, Settled, Granted;
    var n := HeldIsGranted(s, orders, c, id);
    var m := HeldIsGranted(s, orders, d, id);
    if n < m { GrantedIsNext(s, m, n); } else if m < n { GrantedIsNext(s, n, m); }
  }

  // At most one caller holds a station.
  lemma OneHolder(orders: seq<seq<int>>, schedule: seq<nat>, c: nat, d: nat, id: int)
    requires PossibleRun(orders, schedule) && forall c :: 0 <= c < |orders| ==> Ascending(orders[c])
    requires c < |orders| && d < |orders| && Holds(Run(orders, schedule), c, orders[c], id) && Holds(Run(orders, schedule), d, orders[d], id)
    ensures c == d
  {
    RunKeeps(orders, schedule);
    OneHolderIn(Run(orders, schedule), orders, c, d, id);
  }

  // A station is served in the order its tickets were taken: whoever holds it comes after everyone who asked earlier.
  lemma ServedInOrder(orders: seq<seq<int>>, schedule: seq<nat>, c: nat, id: int, n: nat, m: nat)
    requires PossibleRun(orders, schedule) && forall c :: 0 <= c < |orders| ==> Ascending(orders[c])
    requires c < |orders| && Holds(Run(orders, schedule), c, orders[c], id)
    requires m < n && IsTicket(Run(orders, schedule), n, c, id) && Run(orders, schedule).tickets[m].id == id
    ensures DoneTicket(Run(orders, schedule), m)
  {
    RunKeeps(orders, schedule);
    var s := Run(orders, schedule);
    hide Owns, Mapped, Holds, Settled, Granted, Run, PossibleRun;
    var n' := HeldIsGranted(s, orders, c, id);
    assert !(n < n') && !(n' < n);
    GrantedIsNext(s, n, m);
  }

  // While anyone has not finished, someone can go on.
  lemma NoDeadlock(orders: seq<seq<int>>, schedule: seq<nat>, c: nat) returns (d: nat)
    requires PossibleRun(orders, schedule) && forall c :: 0 <= c < |orders| ==> Ascending(orders[c])
    requires c < |orders| && c < |Run(orders, schedule).status| && !Run(orders, schedule).status[c].Done?
    ensures d < |orders| && MayGoOn(Run(orders, schedule), d, orders[d])
  {
    RunKeeps(orders, schedule);
    d := GoesOn(Run(orders, schedule), orders, c);
  }

  // Following a waiting caller to whom it waits for leads to ever greater stations.
  lemma {:induction false} GoesOn(s: State, orders: seq<seq<int>>, c: nat) returns (d: nat)
    requires Inv(s, orders) && c < |orders| && !s.status[c].Done?
    ensures d < |orders| && MayGoOn(s, d, orders[d])
    decreases Above(s, orders, c)
  {
    assert Owns(s, c, orders[c]);
    if !s.status[c].Waiting? { return c; }
    var k := s.status[c].k;
    var id := orders[c][k];
    assert HasTicket(s, c, id);
    var n: nat :| n < |s.tickets| && IsTicket(s, n, c, id);
    if Granted(s, n) { return c; }
    var m := FirstUnreleased(s, n);
    var e := s.tickets[m].caller;
    NextIsGranted(s, m);
    assert Owns(s, e, orders[e]) && IsTicket(s, m, e, id);
    if MayGoOn(s, e, orders[e]) { return e; }
    WaitsForGreater(s, orders, c, e, m);
    d := GoesOn(s, orders, e);
  }

  lemma {:induction false} FirstUnreleased(s: State, n: nat) returns (m: nat)
    requires forall i :: 0 <= i < |s.tickets| ==> Chained(s, i)
    requires n < |s.tickets| && !Granted(s, n)
    ensures m < n && s.tickets[m].id == s.tickets[n].id && !DoneTicket(s, m)
    ensures forall j :: 0 <= j < m && s.tickets[j].id == s.tickets[n].id ==> DoneTicket(s, j)
  {
    if forall m :: 0 <= m < n && s.tickets[m].id == s.tickets[n].id ==> DoneTicket(s, m) {
      NextIsGranted(s, n);
      assert false;
    }
    m := 0;
    while s.tickets[m].id != s.tickets[n].id || DoneTicket(s, m)
      invariant m < n && forall j :: 0 <= j < m && s.tickets[j].id == s.tickets[n].id ==> DoneTicket(s, j)
      invariant exists j :: m <= j < n && s.tickets[j].id == s.tickets[n].id && !DoneTicket(s, j)
      decreases n - m
    {
      m := m + 1;
    }
  }

  // The station a caller waits for; how many callers wait for a greater one.
  predicate WaitsAbove(s: State, orders: seq<seq<int>>, e: nat, id: int) {
    e < |orders| && e < |s.status| && s.status[e].Waiting? && s.status[e].k < |orders[e]| && orders[e][s.status[e].k] > id
  }

  function Above(s: State, orders: seq<seq<int>>, c: nat): nat {
    if c < |orders| && c < |s.status| && s.status[c].Waiting? && s.status[c].k < |orders[c]|
    then |set e: nat | e < |orders| && WaitsAbove(s, orders, e, orders[c][s.status[c].k])|
    else 0
  }

  // Whoever blocks a station without being able to go on waits for a greater one.
  lemma BlockerWaits(s: State, e: nat, order: seq<int>, m: nat, id: int)
    requires e < |s.status| && Owns(s, e, order)
    requires IsTicket(s, m, e, id) && Granted(s, m) && !s.status[e].Done? && !MayGoOn(s, e, order)
    ensures s.status[e].Waiting? && s.status[e].k < |order| && order[s.status[e].k] > id
  {
    hide Granted;
    var k := s.status[e].k;
    assert order[..k + 1] == order[..k] + [order[k]];
    assert order[k] != id;
    assert id in order[..k];
  }

  lemma WaitsForGreater(s: State, orders: seq<seq<int>>, c: nat, e: nat, m: nat)
    requires Inv(s, orders) && c < |orders| && s.status[c].Waiting? && s.status[c].k < |orders[c]|
    requires e < |orders| && IsTicket(s, m, e, orders[c][s.status[c].k]) && Granted(s, m) && !s.status[e].Done? && !MayGoOn(s, e, orders[e])
    ensures Above(s, orders, e) < Above(s, orders, c)
  {
    var id := orders[c][s.status[c].k];
    assert Owns(s, e, orders[e]);
    hide Granted, Owns, Mapped, Chained, MayGoOn;
    BlockerWaits(s, e, orders[e], m, id);
    var k := s.status[e].k;
    var above := set x: nat | x < |orders| && WaitsAbove(s, orders, x, id);
    var above' := set x: nat | x < |orders| && WaitsAbove(s, orders, x, orders[e][k]);
    assert above' <= above - {e};
    Smaller(above', above - {e});
    assert e in above;
  }

  lemma {:induction false} Smaller(a: set<nat>, b: set<nat>)
    requires a <= b
    ensures |a| <= |b|
    decreases |a|
  {
    if a != {} {
      var x :| x in a;
      Smaller(a - {x}, b - {x});
    }
  }

  // Once everyone has finished the lock map is empty; an entry always belongs to someone who has not.
  lemma MapEmpties(orders: seq<seq<int>>, schedule: seq<nat>)
    requires PossibleRun(orders, schedule) && forall c :: 0 <= c < |orders| ==> Ascending(orders[c])
    ensures var s := Run(orders, schedule);
            && (forall id: int :: id in s.locks <==> exists n: nat :: n < |s.tickets| && s.tickets[n].id == id && !DoneTicket(s, n))
            && ((forall c :: 0 <= c < |s.status| ==> s.status[c].Done?) ==> s.locks == map[])
  {
    RunKeeps(orders, schedule);
    var s := Run(orders, schedule);
    forall id: int ensures id in s.locks <==> exists n: nat :: n < |s.tickets| && s.tickets[n].id == id && !DoneTicket(s, n) {
      assert Mapped(s, id);
      if id in s.locks {
        var n := s.locks[id];
        assert n < |s.tickets| && s.tickets[n].id == id && !DoneTicket(s, n);
      }
    }
    if forall c :: 0 <= c < |s.status| ==> s.status[c].Done? {
      forall id: int ensures id !in s.locks {
        assert Mapped(s, id);
      }
      assert s.locks.Keys == {};
    }
  }

  // ----- runs end

  function Left(status: Status, order: seq<int>): nat {
    match status
    case Fresh => |order| + 2
    case Waiting(k) => if k < |order| then |order| - k + 1 else 1
    case Acting => 1
    case Done => 0
  }

  function LeftAll(status: seq<Status>, orders: seq<seq<int>>): nat
    requires |status| == |orders|
  {
    if status == [] then 0
    else LeftAll(status[..|status| - 1], orders[..|status| - 1]) + Left(status[|status| - 1], orders[|status| - 1])
  }

  lemma {:induction false} LeftAfter(status: seq<Status>, orders: seq<seq<int>>, c: nat, next: Status)
    requires |status| == |orders| && c < |status|
    ensures LeftAll(status[c := next], orders) == LeftAll(status, orders) - Left(status[c], orders[c]) + Left(next, orders[c])
  {
    var n := |status| - 1;
    if c < n {
      LeftAfter(status[..n], orders[..n], c, next);
      assert status[c := next][..n] == status[..n][c := next];
    } else {
      assert status[c := next][..n] == status[..n];
    }
  }

  function Total(orders: seq<seq<int>>): nat {
    if orders == [] then 0 else Total(orders[..|orders| - 1]) + |orders[|orders| - 1]| + 2
  }

  lemma {:induction false} LeftAtStart(status: seq<Status>, orders: seq<seq<int>>)
    requires |status| == |orders| && forall c :: 0 <= c < |status| ==> status[c] == Fresh
    ensures LeftAll(status, orders) == Total(orders)
  {
    if status != [] {
      LeftAtStart(status[..|status| - 1], orders[..|status| - 1]);
    }
  }

  // Every step brings the end nearer by one: nobody waits for ever as long as actions end.
  lemma {:induction false} RunsEnd(orders: seq<seq<int>>, schedule: seq<nat>)
    requires PossibleRun(orders, schedule) && forall c :: 0 <= c < |orders| ==> Ascending(orders[c])
    ensures |Run(orders, schedule).status| == |orders|
    ensures LeftAll(Run(orders, schedule).status, orders) == Total(orders) - |schedule|
  {
    if schedule == [] {
      LeftAtStart(Run(orders, []).status, orders);
    } else {
      var front, c := schedule[..|schedule| - 1], schedule[|schedule| - 1];
      RunsEnd(orders, front);
      RunKeeps(orders, front);
      var s := Run(orders, front);
      assert Owns(s, c, orders[c]);
      LeftAfter(s.status, orders, c, Step(s, c, orders[c]).status[c]);
    }
  }
}
