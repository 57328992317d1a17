// Locks on several stations at once (withStationLocks in db/store.js). Every stretch of code between two awaits is one step;
// promises are kept as the tickets that make them up. Station ids are compared by their sort order.
module StationLocks {
  import opened Outcomes
  import opened Sequences

  // Ids without the empty ones, each once, sorted.
  function Present(ids: seq<Option<int>>): (out: seq<int>)
    ensures forall x :: x in out <==> Some(x) in ids
  {
    if ids == [] then []
    else
      var front, last := Present(ids[..|ids| - 1]), ids[|ids| - 1];
      assert ids == ids[..|ids| - 1] + [last];
      if last.Some? then front + [last.value] else front
  }

  function LockOrder(ids: seq<Option<int>>): (out: seq<int>)
    ensures Ascending(out) && forall x :: x in out <==> Some(x) in ids
  {
    Sorted(Present(ids))
  }

  // One caller's turn for one station: it comes after the ticket `previous`, if there was an entry in the lock map.
  datatype Ticket = Ticket(caller: nat, id: int, previous: Option<nat>)

  // Waiting(k): the ticket for the k-th station is taken and its predecessor awaited.
  datatype Status = Fresh | Waiting(k: nat) | Acting | Done

  datatype State = State(status: seq<Status>, tickets: seq<Ticket>, locks: map<int, nat>)

  function Start(n: nat): State { State(seq(n, _ => Fresh), [], map[]) }

  // Whether the promise of a ticket is settled: it and everything before it has been released.
  predicate Settled(s: State, n: nat)
    requires n < |s.tickets|
    decreases n
  {
    && s.tickets[n].caller < |s.status| && s.status[s.tickets[n].caller].Done?
    && (s.tickets[n].previous.Some? ==> s.tickets[n].previous.value < n && Settled(s, s.tickets[n].previous.value))
  }

  // A ticket may go ahead.
  predicate Granted(s: State, n: nat)
    requires n < |s.tickets|
  {
    s.tickets[n].previous.Some? ==> s.tickets[n].previous.value < n && Settled(s, s.tickets[n].previous.value)
  }

  predicate IsTicket(s: State, n: nat, c: nat, id: int) {
    n < |s.tickets| && s.tickets[n].caller == c && s.tickets[n].id == id
  }

  predicate MayGoOn(s: State, c: nat, order: seq<int>) {
    && c < |s.status|
    && match s.status[c]
       case Fresh => true
       case Waiting(k) => k < |order| && exists n: nat :: n < |s.tickets| && IsTicket(s, n, c, order[k]) && Granted(s, n)
       case Acting => true
       case Done => false
  }

  // From the start, or from a settled predecessor, to the next await: the next ticket is taken, or the action begins.
  function Enter(s: State, c: nat, order: seq<int>, k: nat): State
    requires c < |s.status|
  {
    if k < |order| then
      var id := order[k];
      State(s.status[c := Waiting(k)],
            s.tickets + [Ticket(c, id, if id in s.locks then Some(s.locks[id]) else None)],
            s.locks[id := |s.tickets|])
    else s.(status := s.status[c := Acting])
  }

  // The action has ended: everything is released, and an entry of the map goes if it still is the caller's own.
  function Leave(s: State, c: nat): State
    requires c < |s.status|
  {
    s.(status := s.status[c := Done],
       locks := map id | id in s.locks && !IsTicket(s, s.locks[id], c, id) :: s.locks[id])
  }

  function Step(s: State, c: nat, order: seq<int>): State {
    if !MayGoOn(s, c, order) then s
    else
      match s.status[c]
      case Fresh => Enter(s, c, order, 0)
      case Waiting(k) => Enter(s, c, order, k + 1)
      case Acting => Leave(s, c)
      case Done => s
  }

  // A schedule names who steps; a caller that cannot step is not scheduled.
  function Run(orders: seq<seq<int>>, schedule: seq<nat>): State {
    if schedule == [] then Start(|orders|)
    else
      var s, c := Run(orders, schedule[..|schedule| - 1]), schedule[|schedule| - 1];
      if c < |orders| then Step(s, c, orders[c]) else s
  }

  predicate PossibleRun(orders: seq<seq<int>>, schedule: seq<nat>) {
    schedule == []
    || var front, c := schedule[..|schedule| - 1], schedule[|schedule| - 1];
       PossibleRun(orders, front) && c < |orders| && MayGoOn(Run(orders, front), c, orders[c])
  }

  // ----- what every run keeps

  predicate DoneTicket(s: State, n: nat)
    requires n < |s.tickets|
  {
    s.tickets[n].caller < |s.status| && s.status[s.tickets[n].caller].Done?
  }

  // The predecessor of a ticket is the last ticket before it; without one everything before it is released.
  predicate Chained(s: State, n: nat)
    requires n < |s.tickets|
  {
    var t := s.tickets[n];
    match t.previous
    case Some(p) => p < n && s.tickets[p].id == t.id && forall m :: p < m < n ==> s.tickets[m].id != t.id
    case None => forall m :: 0 <= m < n && s.tickets[m].id == t.id ==> DoneTicket(s, m)
  }

  // An entry of the map is the last ticket of its station and not released; without one everything is released.
  predicate Mapped(s: State, id: int) {
    if id in s.locks then
      var n := s.locks[id];
      n < |s.tickets| && s.tickets[n].id == id && !DoneTicket(s, n) && forall m :: n < m < |s.tickets| ==> s.tickets[m].id != id
    else forall m :: 0 <= m < |s.tickets| && s.tickets[m].id == id ==> DoneTicket(s, m)
  }

  // How many stations a caller has taken a ticket for, and how many of these are granted.
  function TakenBy(status: Status, order: seq<int>): nat {
    match status
    case Fresh => 0
    case Waiting(k) => if k < |order| then k + 1 else |order|
    case Acting => |order|
    case Done => |order|
  }

  function HeldBy(status: Status, order: seq<int>): nat {
    match status
    case Fresh => 0
    case Waiting(k) => if k < |order| then k else |order|
    case Acting => |order|
    case Done => 0
  }

  predicate HasTicket(s: State, c: nat, id: int) { exists n: nat :: n < |s.tickets| && IsTicket(s, n, c, id) }

  predicate Owns(s: State, c: nat, order: seq<int>)
    requires c < |s.status|
  {
    && Ascending(order)
    && (s.status[c].Waiting? ==> s.status[c].k < |order|)
    && (forall i :: 0 <= i < TakenBy(s.status[c], order) ==> HasTicket(s, c, order[i]))
    && (forall n :: 0 <= n < |s.tickets| && s.tickets[n].caller == c ==> s.tickets[n].id in order[..TakenBy(s.status[c], order)])
    && (forall n :: 0 <= n < |s.tickets| && s.tickets[n].caller == c && s.tickets[n].id in order[..HeldBy(s.status[c], order)] ==> Granted(s, n))
  }

  ghost predicate Inv(s: State, orders: seq<seq<int>>) {
    && |s.status| == |orders|
    && (forall n :: 0 <= n < |s.tickets| ==> s.tickets[n].caller < |s.status| && Chained(s, n))
    && (forall id: int :: Mapped(s, id))
    && (forall n, m :: 0 <= n < m < |s.tickets| ==> s.tickets[n].caller != s.tickets[m].caller || s.tickets[n].id != s.tickets[m].id)
    && (forall c :: 0 <= c < |orders| ==> Owns(s, c, orders[c]))
  }
}
