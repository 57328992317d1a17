// Identities under which billing capabilities are stored, and their migration to wrapped ones (lib/billing-capability-storage.js,
// rehashBillingCapabilities in db/pool.js). The keyed hashes are injective and their results tell apart from anything else.
module BillingIdentities {
  import opened Outcomes

  // A digest of a connection, its old keyed hash, its domain-separated keyed hash; or text that is no digest at all.
  datatype Identity = Digest(n: nat) | Hmac(of: Identity) | Wrap(of: Identity) | Odd(text: string)

  datatype Scheme = Legacy | Wrapped

  // The capability as stored; the time also stands in a column of its own.
  datatype Capability = Capability(verifiedAt: int, content: string)
  datatype Row = Row(capability: Option<Capability>, verifiedAt: int, scheme: Scheme)

  type Table = map<Identity, Row>

  function Aliases(digest: Identity): seq<Identity> { [Wrap(digest), Wrap(Hmac(digest))] }

  function WrapLegacy(identity: Identity): Option<Identity> { if identity.Odd? then None else Some(Wrap(identity)) }

  predicate Movable(t: Table, identity: Identity) {
    identity in t && t[identity].scheme == Legacy && WrapLegacy(identity).Some? && t[identity].capability.Some?
  }

  // INSERT … ON DUPLICATE KEY UPDATE of a wrapped row: a row of the old scheme gives way, one of the new scheme to a newer one.
  function Upserted(before: Option<Row>, row: Row): Row {
    if before.None? || before.value.scheme != Wrapped || row.verifiedAt > before.value.verifiedAt
    then Row(row.capability, row.verifiedAt, Wrapped) else before.value
  }

  function At(t: Table, identity: Identity): Option<Row> { if identity in t then Some(t[identity]) else None }

  // One legacy row moved.
  function Moved(t: Table, identity: Identity, row: Row): Table {
    var upserted := t[Wrap(identity) := Upserted(At(t, Wrap(identity)), row)];
    if identity in upserted && upserted[identity].scheme == Legacy then upserted - {identity} else upserted
  }

  // ----- the storage

  function Get(t: Table, digest: Identity): Option<Capability> {
    var first, second := Read(t, Wrap(digest)), Read(t, Wrap(Hmac(digest)));
    if first.None? then second
    else if second.None? || first.value.verifiedAt >= second.value.verifiedAt then first else second
  }

  function Read(t: Table, identity: Identity): Option<Capability> {
    if identity in t && t[identity].scheme == Wrapped then t[identity].capability else None
  }

  function Set(t: Table, digest: Identity, c: Capability): Table { t[Wrap(digest) := Row(Some(c), c.verifiedAt, Wrapped)] }

  function Delete(t: Table, digest: Identity): Table {
    map i | i in t && !(i in Aliases(digest) && t[i].scheme == Wrapped) :: t[i]
  }

  // ----- the migration as a whole

  // The table after the legacy rows in `done` were moved, in any order.
  function MigratedAt(t: Table, done: set<Identity>, i: Identity): Option<Row> {
    if i.Wrap? && i.of in done && Movable(t, i.of) then Some(Upserted(At(t, i), t[i.of]))
    else if i in done && Movable(t, i) then None
    else At(t, i)
  }

  // Old programs write digests and their old keyed hashes, never wrapped ones.
  predicate LegacyUnwrapped(t: Table) { forall i :: i in t && t[i].scheme == Legacy ==> !i.Wrap? }

  predicate Consistent(t: Table) { forall i :: i in t && t[i].capability.Some? ==> t[i].capability.value.verifiedAt == t[i].verifiedAt }

  datatype Report = Report(migrated: nat, skipped: bool, invalid: nat)

  class Repository {
    var table: Table
    var marker: bool

    constructor ()
      ensures table == map[] && !marker
    {
      table, marker := map[], false;
    }

    // `rows` are the legacy rows in the order they are read; `broken` is the row whose statements fail, if any.
    method RehashBillingCapabilities(keyReady: bool, rows: seq<Identity>, broken: Option<nat>) returns (r: Result<Report, string>)
      requires LegacyUnwrapped(table)
      requires forall i :: i in rows <==> i in table && table[i].scheme == Legacy
      requires forall p, q :: 0 <= p < q < |rows| ==> rows[p] != rows[q]
      modifies this
      ensures r.Failure? ==> table == old(table) && marker == old(marker)
      ensures r.Success? ==> marker && forall i: Identity :: At(table, i) == MigratedAt(old(table), old(table).Keys, i)
      ensures r.Success? ==> r.value.skipped == (r.value.migrated == 0 && old(marker)) && r.value.migrated + r.value.invalid == |rows|
      ensures r.Success? ==> (r.value.invalid == 0 <==> forall i :: i in rows ==> Movable(old(table), i))
    {
      ghost var start := table;
      var t, migrated, invalid := table, 0, 0;
      for k := 0 to |rows|
        invariant forall i: Identity :: At(t, i) == MigratedAt(start, Elements(rows[..k]), i)
        invariant migrated + invalid == k && table == start && marker == old(marker)
        invariant invalid == 0 <==> forall p :: 0 <= p < k ==> Movable(start, rows[p])
      {
        var identity := rows[k];
        assert rows[..k + 1] == rows[..k] + [identity];
        assert Elements(rows[..k + 1]) == Elements(rows[..k]) + {identity};
        assert identity !in Elements(rows[..k]);
        assert identity in rows && identity in start;
        assert At(t, identity) == Some(start[identity]);
        var row := t[identity];
        var wrapped := WrapLegacy(identity);
        if wrapped.Some? && !keyReady { return Failure("key not ready"); }
        if wrapped.None? || row.capability.None? {
          OneSkipped(start, Elements(rows[..k]), identity);
          invalid := invalid + 1;
          continue;
        }
        if broken == Some(k) { return Failure("statement failed"); }
        OneMoved(start, Elements(rows[..k]), t, identity);
        t := Moved(t, identity, row);
        migrated := migrated + 1;
      }
      assert rows[..|rows|] == rows;
      OnlyLegacyMatters(start, Elements(rows));
      table := t;
      r := Success(Report(migrated, migrated == 0 && marker, invalid));
      marker := true;
    }
  }

  function Elements(rows: seq<Identity>): set<Identity> { set i | i in rows }

  lemma OneSkipped(t: Table, done: set<Identity>, identity: Identity)
    requires !Movable(t, identity)
    ensures forall i: Identity :: MigratedAt(t, done + {identity}, i) == MigratedAt(t, done, i)
  {}

  lemma OneMoved(start: Table, done: set<Identity>, t: Table, identity: Identity)
    requires forall i: Identity :: At(t, i) == MigratedAt(start, done, i)
    requires LegacyUnwrapped(start) && Movable(start, identity) && identity !in done && forall i :: i in done ==> i in start && start[i].scheme == Legacy
    ensures forall i: Identity :: At(Moved(t, identity, start[identity]), i) == MigratedAt(start, done + {identity}, i)
  {
    var w := Wrap(identity);
    assert At(t, identity) == Some(start[identity]) && At(t, w) == At(start, w);
    forall i: Identity ensures At(Moved(t, identity, start[identity]), i) == MigratedAt(start, done + {identity}, i) {
      assert At(t, i) == MigratedAt(start, done, i);
    }
  }

  lemma OnlyLegacyMatters(t: Table, legacy: set<Identity>)
    requires forall i :: i in legacy <==> i in t && t[i].scheme == Legacy
    ensures forall i: Identity :: MigratedAt(t, legacy, i) == MigratedAt(t, t.Keys, i)
  {}
}
