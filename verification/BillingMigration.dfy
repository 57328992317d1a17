// Moving identities loses no capability: lookups find the latest one before and after, whatever older programs add in between.
module BillingMigration {
  import opened Outcomes
  import opened BillingIdentities

  // The table after a migration, as a map.
  function Migrated(t: Table): (out: Table)
    ensures forall i: Identity :: At(out, i) == MigratedAt(t, t.Keys, i)
  {
    var keys := t.Keys + set i | i in t :: Wrap(i);
    var out := map i | i in keys && MigratedAt(t, t.Keys, i).Some? :: MigratedAt(t, t.Keys, i).value;
    assert forall i: Identity :: MigratedAt(t, t.Keys, i).Some? ==> i in keys by {
      forall i: Identity | MigratedAt(t, t.Keys, i).Some? ensures i in keys {
        if i !in t { assert i.Wrap? && i.of in t; }
      }
    }
    out
  }

  // A connection's capabilities, wherever they may be stored: under the digest, its old hash, or wrapped versions of the two.
  predicate Source(t: Table, digest: Identity, i: Identity) {
    && i in t && t[i].capability.Some?
    && if i.Wrap? then i in Aliases(digest) && t[i].scheme == Wrapped else (i == digest || i == Hmac(digest)) && t[i].scheme == Legacy
  }

  // The latest of them, if there is any.
  ghost predicate Latest(t: Table, digest: Identity, found: Option<Capability>) {
    if found.None? then forall i: Identity :: !Source(t, digest, i)
    else
      && (exists i: Identity :: Source(t, digest, i) && t[i].capability == found)
      && forall i: Identity :: Source(t, digest, i) ==> t[i].capability.value.verifiedAt <= found.value.verifiedAt
  }

  // Rows under wrapped identities are readable: they are written by this program.
  predicate WrappedReadable(t: Table) { forall i :: i in t && t[i].scheme == Wrapped ==> t[i].capability.Some? && i.Wrap? }

  predicate WellKept(t: Table) { LegacyUnwrapped(t) && Consistent(t) && WrappedReadable(t) }

  // The best of the row under a legacy identity and the one under its wrapped form.
  lemma MigratedUnder(t: Table, i: Identity)
    requires WellKept(t) && !i.Odd? && !i.Wrap?
    ensures var a, b, c := Source(t, i, i), Source(t, i, Wrap(i)), Read(Migrated(t), Wrap(i));
            && (c.None? <==> !a && !b)
            && (c.Some? ==> (a && c == t[i].capability) || (b && c == t[Wrap(i)].capability))
            && (a && c.Some? ==> t[i].capability.value.verifiedAt <= c.value.verifiedAt)
            && (b && c.Some? ==> t[Wrap(i)].capability.value.verifiedAt <= c.value.verifiedAt)
  {
    var w := Wrap(i);
    assert Aliases(i)[0] == w;
    assert At(Migrated(t), w) == MigratedAt(t, t.Keys, w);
  }

  // After a migration a lookup finds the latest of all capabilities the table held for the connection, legacy or wrapped.
  lemma LookupFindsLatest(t: Table, n: nat)
    requires WellKept(t)
    ensures Latest(t, Digest(n), Get(Migrated(t), Digest(n)))
  {
    var d := Digest(n);
    var h := Hmac(d);
    MigratedUnder(t, d);
    MigratedUnder(t, h);
    assert Aliases(d)[0] == Wrap(d) && Aliases(d)[1] == Wrap(h) && Aliases(h)[0] == Wrap(h);
    assert Source(t, d, d) == Source(t, d, d) && Source(t, d, h) == Source(t, h, h) && Source(t, d, Wrap(h)) == Source(t, h, Wrap(h));
    forall i: Identity | Source(t, d, i) ensures i == d || i == h || i == Wrap(d) || i == Wrap(h) {
    }
  }

  // Among equally late ones: wrapped rows before those they were to take over, and the digest's before its old hash's.
  function Places(digest: Identity): seq<Identity> { [Wrap(digest), digest, Wrap(Hmac(digest)), Hmac(digest)] }

  ghost predicate FirstLatest(t: Table, digest: Identity, k: nat) {
    && k < 4 && Source(t, digest, Places(digest)[k])
    && forall j :: 0 <= j < 4 && Source(t, digest, Places(digest)[j]) ==>
         var a, b := t[Places(digest)[j]].verifiedAt, t[Places(digest)[k]].verifiedAt; a < b || (a == b && k <= j)
  }

  // Which of them is found is never left open.
  lemma FindsTheFirst(t: Table, n: nat, k: nat)
    requires WellKept(t) && FirstLatest(t, Digest(n), k)
    ensures Get(Migrated(t), Digest(n)) == t[Places(Digest(n))[k]].capability
  {
    var d := Digest(n);
    var h := Hmac(d);
    UnderIs(t, d);
    UnderIs(t, h);
    assert Aliases(d)[0] == Wrap(d) && Aliases(d)[1] == Wrap(h) && Aliases(h)[0] == Wrap(h);
    assert Source(t, d, h) == Source(t, h, h) && Source(t, d, Wrap(h)) == Source(t, h, Wrap(h));
    assert Places(d)[0] == Wrap(d) && Places(d)[1] == d && Places(d)[2] == Wrap(h) && Places(d)[3] == h;
    hide Migrated, Places, Source;
  }

  // Under one identity: the wrapped row, unless the legacy one is later.
  lemma UnderIs(t: Table, i: Identity)
    requires WellKept(t) && !i.Odd? && !i.Wrap?
    ensures var a, b, c := Source(t, i, i), Source(t, i, Wrap(i)), Read(Migrated(t), Wrap(i));
            && (c.None? <==> !a && !b)
            && (a && (b ==> t[i].verifiedAt > t[Wrap(i)].verifiedAt) ==> c == t[i].capability)
            && (b && (a ==> t[i].verifiedAt <= t[Wrap(i)].verifiedAt) ==> c == t[Wrap(i)].capability)
            && (c.Some? ==> c.value.verifiedAt == if b && (a ==> t[i].verifiedAt <= t[Wrap(i)].verifiedAt) then t[Wrap(i)].verifiedAt else t[i].verifiedAt)
  {
    var w := Wrap(i);
    assert Aliases(i)[0] == w;
    assert At(Migrated(t), w) == MigratedAt(t, t.Keys, w);
  }

  // The migration keeps tables well kept and leaves nothing to move; doing it again changes nothing.
  lemma MigrationSettles(t: Table)
    requires WellKept(t)
    ensures WellKept(Migrated(t)) && (forall i :: i in Migrated(t) ==> !Movable(Migrated(t), i))
    ensures Migrated(Migrated(t)) == Migrated(t)
  {
    var m := Migrated(t);
    forall i | i in m ensures At(m, i) == MigratedAt(t, t.Keys, i) {
    }
    forall i | i in m ensures !Movable(m, i) {
      assert At(m, i) == MigratedAt(t, t.Keys, i);
    }
    forall i: Identity ensures At(Migrated(m), i) == At(m, i) {
      assert i.Wrap? ==> !Movable(m, i.of);
    }
    SameTable(Migrated(m), m);
  }

  lemma SameTable(a: Table, b: Table)
    requires forall i: Identity :: At(a, i) == At(b, i)
    ensures a == b
  {
    assert forall i :: i in a ==> At(a, i) == At(b, i);
    assert forall i :: i in b ==> At(a, i) == At(b, i);
  }

  // What the repository's migration leaves is this table.
  lemma RehashGivesMigrated(t: Table, table: Table)
    requires forall i: Identity :: At(table, i) == MigratedAt(t, t.Keys, i)
    ensures table == Migrated(t)
  {
    SameTable(table, Migrated(t));
  }

  // Rows that cannot be moved stay as they are, and nothing else is touched.
  lemma OthersStay(t: Table, i: Identity)
    requires WellKept(t) && !Movable(t, i) && !(i.Wrap? && Movable(t, i.of))
    ensures At(Migrated(t), i) == At(t, i)
  {}

  // ----- set and delete

  lemma SetIsFound(t: Table, n: nat, c: Capability, m: nat)
    requires WellKept(t)
    ensures WellKept(Set(t, Digest(n), c))
    ensures var found := Get(Set(t, Digest(n), c), Digest(n)); found.Some? && found.value.verifiedAt >= c.verifiedAt
    ensures m != n ==> Get(Set(t, Digest(n), c), Digest(m)) == Get(t, Digest(m))
  {}

  // After a delete nothing is found, also after later migrations unless a legacy row is left or written anew; other
  // connections keep what they have.
  lemma DeleteIsFinal(t: Table, n: nat, m: nat)
    requires WellKept(t)
    ensures var after := Delete(t, Digest(n));
            && WellKept(after) && Get(after, Digest(n)) == None
            && (m != n ==> Get(after, Digest(m)) == Get(t, Digest(m)))
            && (Get(Migrated(after), Digest(n)) == None <==> !Source(t, Digest(n), Digest(n)) && !Source(t, Digest(n), Hmac(Digest(n))))
  {
    var d, after := Digest(n), Delete(t, Digest(n));
    assert Aliases(d)[0] == Wrap(d) && Aliases(d)[1] == Wrap(Hmac(d));
    assert Aliases(d) == [Wrap(d), Wrap(Hmac(d))];
    MigratedUnder(after, d);
    MigratedUnder(after, Hmac(d));
    assert Aliases(Hmac(d))[0] == Wrap(Hmac(d));
    assert forall i: Identity :: !i.Wrap? ==> At(after, i) == At(t, i);
    assert Source(after, d, d) == Source(t, d, d) && Source(after, d, Hmac(d)) == Source(t, d, Hmac(d));
    assert Source(after, Hmac(d), Hmac(d)) == Source(after, d, Hmac(d));
  }

  // ----- any history of writes and migrations

  datatype Event =
    | OldWrite(n: nat, hashed: bool, capability: Capability)  // an older program
    | Write(n: nat, capability: Capability)
    | Drop(n: nat)
    | Migrate

  function LegacyKey(n: nat, hashed: bool): Identity { if hashed then Hmac(Digest(n)) else Digest(n) }

  function After(t: Table, e: Event): Table {
    match e
    case OldWrite(n, hashed, c) => t[LegacyKey(n, hashed) := Row(Some(c), c.verifiedAt, Legacy)]
    case Write(n, c) => Set(t, Digest(n), c)
    case Drop(n) => Delete(t, Digest(n))
    case Migrate => Migrated(t)
  }

  function Run(events: seq<Event>): Table {
    if events == [] then map[] else After(Run(events[..|events| - 1]), events[|events| - 1])
  }

  lemma {:induction false} RunIsWellKept(events: seq<Event>)
    ensures WellKept(Run(events))
  {
    if events != [] {
      var front, e := events[..|events| - 1], events[|events| - 1];
      RunIsWellKept(front);
      match e
      case OldWrite(n, hashed, c) =>
      case Write(n, c) => SetIsFound(Run(front), n, c, n);
      case Drop(n) => DeleteIsFinal(Run(front), n, n);
      case Migrate => MigrationSettles(Run(front));
    }
  }

  // Written since the connection was last dropped, under growing times: what a lookup has to find.
  function LastWritten(n: nat, events: seq<Event>): Option<Capability> {
    if events == [] then None
    else
      match events[|events| - 1]
      case OldWrite(m, _, c) => if m == n then Some(c) else LastWritten(n, events[..|events| - 1])
      case Write(m, c) => if m == n then Some(c) else LastWritten(n, events[..|events| - 1])
      case Drop(m) => if m == n then None else LastWritten(n, events[..|events| - 1])
      case Migrate => LastWritten(n, events[..|events| - 1])
  }

  // Capabilities of a connection are written with growing times, and none is dropped while an old program's row waits.
  predicate Orderly(n: nat, events: seq<Event>) {
    events == []
    || var front, e := events[..|events| - 1], events[|events| - 1];
       && Orderly(n, front)
       && match e
          case OldWrite(m, _, c) => m == n ==> Newer(c, LastWritten(n, front))
          case Write(m, c) => m == n ==> Newer(c, LastWritten(n, front))
          case Drop(m) => m == n ==> !Source(Run(front), Digest(n), Digest(n)) && !Source(Run(front), Digest(n), Hmac(Digest(n)))
          case Migrate => true
  }

  predicate Newer(c: Capability, last: Option<Capability>) { last.Some? ==> c.verifiedAt > last.value.verifiedAt }

  // The latest capability, and no other of the same time.
  ghost predicate Only(t: Table, n: nat, found: Option<Capability>) {
    && Latest(t, Digest(n), found)
    && forall i: Identity :: Source(t, Digest(n), i) && found.Some? ==> t[i].capability == found || t[i].capability.value.verifiedAt < found.value.verifiedAt
  }

  // The latest stored capability is the last one written, whatever was migrated when.
  lemma {:induction false} RunHoldsLastWritten(n: nat, events: seq<Event>)
    requires Orderly(n, events)
    ensures Only(Run(events), n, LastWritten(n, events))
  {
    if events == [] {
    } else {
      var front, e := events[..|events| - 1], events[|events| - 1];
      var t, last := Run(front), LastWritten(n, front);
      RunHoldsLastWritten(n, front);
      RunIsWellKept(front);
      assert Run(events) == After(t, e);
      hide Run, Orderly, Only, WellKept;
      match e
      case OldWrite(m, hashed, c) => PutKeepsLatest(t, n, LegacyKey(m, hashed), Row(Some(c), c.verifiedAt, Legacy), last);
      case Write(m, c) => PutKeepsLatest(t, n, Wrap(Digest(m)), Row(Some(c), c.verifiedAt, Wrapped), last);
      case Drop(m) => DropKeepsLatest(t, n, m, last);
      case Migrate => MigrateKeepsLatest(t, n, last);
    }
  }

  // So after every migration a lookup gives exactly what was written last.
  lemma MigratedLookup(n: nat, events: seq<Event>)
    requires Orderly(n, events)
    ensures Get(Migrated(Run(events)), Digest(n)) == LastWritten(n, events)
  {
    RunIsWellKept(events);
    RunHoldsLastWritten(n, events);
    LookupFindsLatest(Run(events), n);
    var t, found, last := Run(events), Get(Migrated(Run(events)), Digest(n)), LastWritten(n, events);
    hide Run, Get, Migrated, WellKept, Source;
    if last.Some? {
      var j: Identity :| Source(t, Digest(n), j) && t[j].capability == last;
      assert found.Some?;
    }
    if found.Some? {
      var i: Identity :| Source(t, Digest(n), i) && t[i].capability == found;
      assert last.Some?;
    }
  }

  // The program starts on a table any history of programs left: after the migration, as the loop carries it out, every lookup
  // gives the latest capability stored, and the one written last where the history was orderly.
  method StartUp(repository: Repository, keyReady: bool, rows: seq<Identity>, broken: Option<nat>, ghost events: seq<Event>)
    returns (r: Result<Report, string>)
    requires repository.table == Run(events)
    requires forall i :: i in rows <==> i in repository.table && repository.table[i].scheme == Legacy
    requires forall p, q :: 0 <= p < q < |rows| ==> rows[p] != rows[q]
    modifies repository
    ensures r.Failure? ==> repository.table == Run(events)
    ensures r.Success? ==> repository.table == Run(events + [Migrate])
    ensures r.Success? ==> forall n: nat :: Latest(Run(events), Digest(n), Get(repository.table, Digest(n)))
    ensures r.Success? ==> forall n: nat :: Orderly(n, events) ==> Get(repository.table, Digest(n)) == LastWritten(n, events)
  {
    RunIsWellKept(events);
    r := repository.RehashBillingCapabilities(keyReady, rows, broken);
    if r.Success? {
      hide WellKept, Run, Orderly, LastWritten, Latest, Get, Migrated;
      RehashGivesMigrated(Run(events), repository.table);
      forall n: nat ensures Latest(Run(events), Digest(n), Get(repository.table, Digest(n))) {
        LookupFindsLatest(Run(events), n);
      }
      forall n: nat | Orderly(n, events) ensures Get(repository.table, Digest(n)) == LastWritten(n, events) {
        MigratedLookup(n, events);
      }
      MigratedAfter(events);
    }
  }

  lemma MigratedAfter(events: seq<Event>)
    ensures Run(events + [Migrate]) == Migrated(Run(events))
  {
    assert (events + [Migrate])[..|events|] == events;
  }

  predicate Own(n: nat, i: Identity) { i == Digest(n) || i == Hmac(Digest(n)) || i == Wrap(Digest(n)) }

  lemma PutKeepsLatest(t: Table, n: nat, i: Identity, row: Row, last: Option<Capability>)
    requires WellKept(t) && Only(t, n, last) && row.capability.Some?
    requires Own(n, i) ==> Newer(row.capability.value, last)
    requires i.Wrap? ==> row.scheme == Wrapped && i.of.Digest?
    requires !i.Wrap? ==> row.scheme == Legacy
    ensures Only(t[i := row], n, if Own(n, i) then row.capability else last)
  {
    var d, t' := Digest(n), t[i := row];
    assert Aliases(d) == [Wrap(d), Wrap(Hmac(d))] && Aliases(d)[0] == Wrap(d);
    forall j: Identity | j != i ensures Source(t', d, j) == Source(t, d, j) {
    }
    if Own(n, i) {
      assert Source(t', d, i);
    } else {
      assert !Source(t', d, i) && !Source(t, d, i);
      if last.Some? {
        var j: Identity :| Source(t, d, j) && t[j].capability == last;
        assert Source(t', d, j) && t'[j].capability == last;
      }
    }
  }

  lemma DropKeepsLatest(t: Table, n: nat, m: nat, last: Option<Capability>)
    requires WellKept(t) && Only(t, n, last)
    requires m == n ==> !Source(t, Digest(n), Digest(n)) && !Source(t, Digest(n), Hmac(Digest(n)))
    ensures Only(Delete(t, Digest(m)), n, if m == n then None else last)
  {
    var d, t' := Digest(n), Delete(t, Digest(m));
    assert Aliases(d) == [Wrap(d), Wrap(Hmac(d))] && Aliases(Digest(m)) == [Wrap(Digest(m)), Wrap(Hmac(Digest(m)))];
    assert Aliases(Digest(m))[0] == Wrap(Digest(m)) && Aliases(Digest(m))[1] == Wrap(Hmac(Digest(m)));
    if m != n {
      forall j: Identity ensures Source(t', d, j) == Source(t, d, j) {
      }
      if last.Some? {
        var j: Identity :| Source(t, d, j) && t[j].capability == last;
        assert Source(t', d, j) && t'[j].capability == last;
      }
    } else {
      forall j: Identity ensures !Source(t', d, j) {
      }
    }
  }

  // A source of the migrated table holds what some source before held; and what was under an identity is not lost to an older one.
  lemma SourcesMove(t: Table, n: nat, i: Identity) returns (j: Identity)
    requires WellKept(t) && Source(Migrated(t), Digest(n), i)
    ensures Source(t, Digest(n), j) && t[j].capability == Migrated(t)[i].capability
  {
    var d := Digest(n);
    assert At(Migrated(t), i) == MigratedAt(t, t.Keys, i);
    assert Aliases(d) == [Wrap(d), Wrap(Hmac(d))];
    assert i.Wrap?;
    MigratedUnder(t, i.of);
    assert Aliases(i.of)[0] == i;
    assert Read(Migrated(t), i) == Migrated(t)[i].capability;
    j := if Source(t, i.of, i.of) && Read(Migrated(t), i) == t[i.of].capability then i.of else i;
  }

  lemma MigrateKeepsLatest(t: Table, n: nat, last: Option<Capability>)
    requires WellKept(t) && Only(t, n, last)
    ensures Only(Migrated(t), n, last)
  {
    var d, m := Digest(n), Migrated(t);
    forall i: Identity | Source(m, d, i)
      ensures last.Some? && (m[i].capability == last || m[i].capability.value.verifiedAt < last.value.verifiedAt) {
      var j := SourcesMove(t, n, i);
    }
    if last.Some? {
      LookupFindsLatest(t, n);
      var j: Identity :| Source(t, d, j) && t[j].capability == last;
      FoundAgain(t, n, j);
    }
  }

  lemma FoundAgain(t: Table, n: nat, j: Identity)
    requires WellKept(t) && Source(t, Digest(n), j) && Only(t, n, t[j].capability)
    ensures exists i: Identity :: Source(Migrated(t), Digest(n), i) && Migrated(t)[i].capability == t[j].capability
  {
    var d := Digest(n);
    var i := if j.Wrap? then j else Wrap(j);
    assert Aliases(d) == [Wrap(d), Wrap(Hmac(d))] && Aliases(d)[0] == Wrap(d) && Aliases(d)[1] == Wrap(Hmac(d));
    assert i in Aliases(d);
    MigratedUnder(t, i.of);
    assert Aliases(i.of)[0] == i;
    assert Source(Migrated(t), d, i);
    var k := SourcesMove(t, n, i);
  }
}
