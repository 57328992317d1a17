// Moving monitor links, and moving them back in the same order: after undoing a prefix of the log the table is
// the old one with exactly the remaining lines still applied.
module MergedLinks {
  import opened Outcomes
  import opened ReconciliationTables
  import opened UpstreamMerge

  ghost predicate Is(rows: seq<LinkRow>, lo: nat, hi: nat, id: LinkId) {
    exists j :: lo <= j < hi && j < |rows| && rows[j].id == id
  }

  function Target(rows: seq<LinkRow>, j: nat, retained: string): LinkId
    requires j < |rows|
  {
    Retargeted(rows[j].id, retained)
  }

  // Row j is the one that becomes the retained station's link: there was none, and no earlier row takes the place.
  ghost predicate Moves(links: map<LinkId, Link>, rows: seq<LinkRow>, retained: string, j: nat) {
    && j < |rows| && Target(rows, j, retained) !in links
    && forall i :: 0 <= i < j ==> Target(rows, i, retained) != Target(rows, j, retained)
  }

  ghost predicate Arrives(links: map<LinkId, Link>, rows: seq<LinkRow>, retained: string, lo: nat, hi: nat, id: LinkId) {
    exists j :: lo <= j < hi && Moves(links, rows, retained, j) && Target(rows, j, retained) == id
  }

  // `now` is `links` with rows lo..hi merged.
  ghost predicate Merged(now: map<LinkId, Link>, links: map<LinkId, Link>, rows: seq<LinkRow>, retained: string, lo: nat, hi: nat) {
    && (forall id :: id in now <==> (id in links && !Is(rows, lo, hi, id)) || Arrives(links, rows, retained, lo, hi, id))
    && (forall id :: id in now && id in links ==> now[id] == links[id])
    && (forall j :: lo <= j < hi && Moves(links, rows, retained, j) && Target(rows, j, retained) in now
          ==> now[Target(rows, j, retained)] == rows[j].link)
  }

  // The rows are links of the table that do not belong to the retained station, each once.
  ghost predicate Rows(links: map<LinkId, Link>, rows: seq<LinkRow>, retained: string) {
    && (forall k :: 0 <= k < |rows| ==> rows[k].id in links && links[rows[k].id] == rows[k].link && rows[k].id.station != retained)
    && (forall i, j :: 0 <= i < j < |rows| ==> rows[i].id != rows[j].id)
  }

  ghost predicate Present(present: set<(string, int)>, now: map<LinkId, Link>, retained: string) {
    forall own, channel :: (own, channel) in present <==> LinkId(own, channel, retained) in now
  }

  // What the log says about row j.
  ghost function LinkDetail(links: map<LinkId, Link>, rows: seq<LinkRow>, retained: string, j: nat): Detail
    requires j < |rows|
  {
    var id := rows[j].id;
    if Moves(links, rows, retained, j) then LinkMoved(id.own, id.channel, id.station)
    else LinkDropped(id.own, id.channel, id.station, rows[j].link)
  }

  ghost function LinkDetails(links: map<LinkId, Link>, rows: seq<LinkRow>, retained: string, lo: nat): (out: seq<Detail>)
    requires lo <= |rows|
    ensures |out| == |rows| - lo
  {
    seq(|rows| - lo, k requires 0 <= k < |rows| - lo => LinkDetail(links, rows, retained, lo + k))
  }

  lemma AlreadyPresent(now: map<LinkId, Link>, links: map<LinkId, Link>, rows: seq<LinkRow>, retained: string, k: nat)
    requires Rows(links, rows, retained) && k < |rows| && Merged(now, links, rows, retained, 0, k)
    ensures Target(rows, k, retained) in now <==> !Moves(links, rows, retained, k)
  {
    var target := Target(rows, k, retained);
    if target !in links && !Moves(links, rows, retained, k) {
      var i := FirstWithTarget(links, rows, retained, k);
      assert Arrives(links, rows, retained, 0, k, target);
    }
  }

  lemma FirstWithTarget(links: map<LinkId, Link>, rows: seq<LinkRow>, retained: string, k: nat) returns (i: nat)
    requires k < |rows| && Target(rows, k, retained) !in links && !Moves(links, rows, retained, k)
    ensures i < k && Moves(links, rows, retained, i) && Target(rows, i, retained) == Target(rows, k, retained)
  {
    i :| 0 <= i < k && Target(rows, i, retained) == Target(rows, k, retained);
    if !Moves(links, rows, retained, i) {
      i := FirstWithTarget(links, rows, retained, i);
    }
  }

  lemma DropStep(now: map<LinkId, Link>, links: map<LinkId, Link>, rows: seq<LinkRow>, retained: string, k: nat)
    requires Rows(links, rows, retained) && k < |rows| && Merged(now, links, rows, retained, 0, k)
    requires !Moves(links, rows, retained, k)
    ensures Merged(now - {rows[k].id}, links, rows, retained, 0, k + 1)
  {
    var next := now - {rows[k].id};
    forall id ensures Is(rows, 0, k + 1, id) <==> Is(rows, 0, k, id) || id == rows[k].id {}
    forall id ensures Arrives(links, rows, retained, 0, k + 1, id) <==> Arrives(links, rows, retained, 0, k, id) {}
  }

  lemma MoveStep(now: map<LinkId, Link>, links: map<LinkId, Link>, rows: seq<LinkRow>, retained: string, k: nat)
    requires Rows(links, rows, retained) && k < |rows| && Merged(now, links, rows, retained, 0, k)
    requires Moves(links, rows, retained, k)
    ensures rows[k].id in now && RenameLink(now, rows[k].id, Target(rows, k, retained)).Some?
    ensures Merged(RenameLink(now, rows[k].id, Target(rows, k, retained)).value, links, rows, retained, 0, k + 1)
  {
    AlreadyPresent(now, links, rows, retained, k);
    var from, to := rows[k].id, Target(rows, k, retained);
    assert !Is(rows, 0, k, from);
    var next := RenameLink(now, from, to).value;
    forall id ensures Is(rows, 0, k + 1, id) <==> Is(rows, 0, k, id) || id == from {}
    forall id ensures Arrives(links, rows, retained, 0, k + 1, id) <==> Arrives(links, rows, retained, 0, k, id) || id == to {}
  }

  // The link loop cannot meet a duplicate key, and ends with every row merged.
  lemma {:induction false} MoveLinksReach(now: map<LinkId, Link>, present: set<(string, int)>, links: map<LinkId, Link>,
                                          rows: seq<LinkRow>, retained: string, k: nat)
    requires Rows(links, rows, retained) && k <= |rows|
    requires Merged(now, links, rows, retained, 0, k) && Present(present, now, retained)
    ensures var out := MoveLinks(now, present, rows[k..], retained);
            && out.Success? && Merged(out.value.0, links, rows, retained, 0, |rows|)
            && out.value.1 == LinkDetails(links, rows, retained, k)
    decreases |rows| - k
  {
    hide Merged, Moves;
    if k < |rows| {
      var id := rows[k].id;
      AlreadyPresent(now, links, rows, retained, k);
      assert rows[k..][1..] == rows[k + 1..];
      if Moves(links, rows, retained, k) {
        MoveStep(now, links, rows, retained, k);
        var next := RenameLink(now, id, Target(rows, k, retained)).value;
        MoveLinksReach(next, present + {(id.own, id.channel)}, links, rows, retained, k + 1);
      } else {
        DropStep(now, links, rows, retained, k);
        MoveLinksReach(now - {id}, present, links, rows, retained, k + 1);
      }
      assert LinkDetails(links, rows, retained, k) == [LinkDetail(links, rows, retained, k)] + LinkDetails(links, rows, retained, k + 1);
    }
  }

  // ----- moving links back

  // A row that does not move contributes only its own absence.
  lemma SkipsOne(links: map<LinkId, Link>, rows: seq<LinkRow>, retained: string, k: nat)
    requires Rows(links, rows, retained) && k < |rows| && !Moves(links, rows, retained, k)
    ensures forall id :: Is(rows, k, |rows|, id) <==> Is(rows, k + 1, |rows|, id) || id == rows[k].id
    ensures forall id :: Arrives(links, rows, retained, k + 1, |rows|, id) <==> Arrives(links, rows, retained, k, |rows|, id)
    ensures !Arrives(links, rows, retained, k, |rows|, rows[k].id) && !Is(rows, k + 1, |rows|, rows[k].id)
  {
    forall id ensures Is(rows, k, |rows|, id) <==> Is(rows, k + 1, |rows|, id) || id == rows[k].id {}
    forall id ensures Arrives(links, rows, retained, k + 1, |rows|, id) <==> Arrives(links, rows, retained, k, |rows|, id) {}
  }

  lemma ReAddStep(now: map<LinkId, Link>, links: map<LinkId, Link>, rows: seq<LinkRow>, retained: string, k: nat)
    requires Rows(links, rows, retained) && k < |rows| && Merged(now, links, rows, retained, k, |rows|)
    requires !Moves(links, rows, retained, k)
    ensures rows[k].id !in now
    ensures Merged(now[rows[k].id := rows[k].link], links, rows, retained, k + 1, |rows|)
  {
    var id' := rows[k].id;
    assert Is(rows, k, |rows|, id');
    SkipsOne(links, rows, retained, k);
    hide Moves, Arrives, Is;
    assert !Arrives(links, rows, retained, k, |rows|, id') && !Is(rows, k + 1, |rows|, id');
  }

  lemma MoveBackStep(now: map<LinkId, Link>, links: map<LinkId, Link>, rows: seq<LinkRow>, retained: string, k: nat)
    requires Rows(links, rows, retained) && k < |rows| && Merged(now, links, rows, retained, k, |rows|)
    requires Moves(links, rows, retained, k)
    ensures RenameLink(now, Target(rows, k, retained), rows[k].id).Some?
    ensures Merged(RenameLink(now, Target(rows, k, retained), rows[k].id).value, links, rows, retained, k + 1, |rows|)
  {
    var from, to := Target(rows, k, retained), rows[k].id;
    assert Arrives(links, rows, retained, k, |rows|, from);
    assert Is(rows, k, |rows|, to);
    var next := RenameLink(now, from, to).value;
    forall id ensures Is(rows, k, |rows|, id) <==> Is(rows, k + 1, |rows|, id) || id == to {}
    forall id ensures Arrives(links, rows, retained, k, |rows|, id) <==> Arrives(links, rows, retained, k + 1, |rows|, id) || id == from {}
    assert !Arrives(links, rows, retained, k + 1, |rows|, from);
  }

  lemma NothingLeft(now: map<LinkId, Link>, links: map<LinkId, Link>, rows: seq<LinkRow>, retained: string)
    requires Merged(now, links, rows, retained, |rows|, |rows|)
    ensures now == links
  {
    assert forall id :: id in now <==> id in links;
  }

  lemma {:induction false} RestoreLinksReach(t: Tables, links: map<LinkId, Link>, rows: seq<LinkRow>, retained: string, k: nat)
    requires Rows(links, rows, retained) && k <= |rows|
    requires Merged(t.links, links, rows, retained, k, |rows|)
    ensures UndoRows(t, LinkDetails(links, rows, retained, k), retained) == Some(t.(links := links))
    decreases |rows| - k
  {
    hide Merged, Moves;
    if k == |rows| {
      NothingLeft(t.links, links, rows, retained);
    } else {
      var details := LinkDetails(links, rows, retained, k);
      assert details[0] == LinkDetail(links, rows, retained, k);
      assert details[1..] == LinkDetails(links, rows, retained, k + 1);
      if Moves(links, rows, retained, k) {
        MoveBackStep(t.links, links, rows, retained, k);
        var next := RenameLink(t.links, Target(rows, k, retained), rows[k].id).value;
        RestoreLinksReach(t.(links := next), links, rows, retained, k + 1);
      } else {
        ReAddStep(t.links, links, rows, retained, k);
        RestoreLinksReach(t.(links := t.links[rows[k].id := rows[k].link]), links, rows, retained, k + 1);
      }
    }
  }
}
