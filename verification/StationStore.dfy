// The part of the station store that keeps the locks, step by step as the program carries it out.
module StationStore {
  import opened Outcomes
  import opened StationLocks

  class Store {
    var stationLocks: map<int, nat>
    var tickets: seq<Ticket>
    var status: seq<Status>

    constructor (callers: nat)
      ensures Now() == Start(callers)
    {
      stationLocks, tickets := map[], [];
      status := seq(callers, _ => Fresh);
    }

    function Now(): State
      reads this
    {
      State(status, tickets, stationLocks)
    }

    // From one await to the next: `order` is the caller's sorted list of stations.
    method GoOn(c: nat, order: seq<int>)
      requires MayGoOn(Now(), c, order) && Owns(Now(), c, order)
      modifies this
      ensures Now() == Step(old(Now()), c, order)
    {
      match status[c] {
        case Fresh => Take(c, order, 0);
        case Waiting(k) => Take(c, order, k + 1);
        case Acting => Release(c, order);
        case Done =>
      }
    }

    method Take(c: nat, order: seq<int>, k: nat)
      requires c < |status|
      modifies this
      ensures Now() == Enter(old(Now()), c, order, k)
    {
      if k >= |order| {
        status := status[c := Acting];
        return;
      }
      var id := order[k];
      var previous := if id in stationLocks then Some(stationLocks[id]) else None;
      stationLocks := stationLocks[id := |tickets|];
      tickets := tickets + [Ticket(c, id, previous)];
      status := status[c := Waiting(k)];
    }

    // Last taken, first released.
    method Release(c: nat, order: seq<int>)
      requires c < |status| && status[c].Acting? && Owns(Now(), c, order)
      modifies this
      ensures Now() == Leave(old(Now()), c)
    {
      ghost var before := Now();
      var i := |order|;
      while i > 0
        invariant 0 <= i <= |order| && tickets == before.tickets && status == before.status
        invariant forall id :: id in stationLocks ==> id in before.locks && stationLocks[id] == before.locks[id]
        invariant forall id :: id in before.locks && id !in stationLocks ==> IsTicket(before, before.locks[id], c, id)
        invariant forall id :: id in stationLocks && IsTicket(before, stationLocks[id], c, id) ==> id in order[..i]
      {
        assert order[..i] == order[..i - 1] + [order[i - 1]];
        i := i - 1;
        var id := order[i];
        if id in stationLocks && IsTicket(Now(), stationLocks[id], c, id) {
          stationLocks := stationLocks - {id};
        }
      }
      assert order[..0] == [];
      status := status[c := Done];
    }
  }
}
