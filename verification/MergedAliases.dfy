// The aliases a merge plans for the retained station (lib/upstream-merge.js, mergedCostAliases), and when undoing the
// merge brings the old ones back. How a text is trimmed and which address it stands for are parameters.
module MergedAliases {
  import opened Outcomes
  import opened UpstreamMerge
  import opened MergeRoundTrip

  datatype Texts = Texts(trim: string -> string, keyOf: string -> string)

  // Trimming twice is trimming once.
  ghost predicate Trims(texts: Texts) {
    forall v {:trigger texts.trim(texts.trim(v))} :: texts.trim(texts.trim(v)) == texts.trim(v)
  }

  datatype Source = Source(baseUrl: string, aliases: seq<string>)

  datatype Collected = Collected(out: seq<string>, seen: set<string>)

  function Add(c: Collected, value: string, texts: Texts): Collected {
    var text := texts.trim(value);
    if text == "" || texts.keyOf(text) in c.seen then c
    else Collected(c.out + [text], c.seen + {texts.keyOf(text)})
  }

  function AddAll(c: Collected, values: seq<string>, texts: Texts): Collected {
    if values == [] then c else Add(AddAll(c, values[..|values| - 1], texts), values[|values| - 1], texts)
  }

  function Values(merged: seq<Source>): seq<string> {
    if merged == [] then [] else
      var last := merged[|merged| - 1];
      Values(merged[..|merged| - 1]) + [last.baseUrl] + last.aliases
  }

  function Planned(own: string, before: seq<string>, merged: seq<Source>, texts: Texts): seq<string> {
    AddAll(Collected([], {texts.keyOf(own)}), before + Values(merged), texts).out
  }

  lemma AddOne(c: Collected, values: seq<string>, value: string, texts: Texts)
    ensures AddAll(c, values + [value], texts) == Add(AddAll(c, values, texts), value, texts)
  {
    assert (values + [value])[..|values|] == values;
  }

  method AddEach(c: Collected, values: seq<string>, texts: Texts, ghost start: Collected, ghost done: seq<string>)
    returns (c': Collected)
    requires c == AddAll(start, done, texts)
    ensures c' == AddAll(start, done + values, texts)
  {
    hide Add, AddAll;
    c' := c;
    assert done + values[..0] == done;
    for i := 0 to |values|
      invariant c' == AddAll(start, done + values[..i], texts)
    {
      AddOne(start, done + values[..i], values[i], texts);
      c' := Add(c', values[i], texts);
      assert done + values[..i + 1] == done + values[..i] + [values[i]];
    }
    assert values[..|values|] == values;
  }

  method MergedCostAliases(own: string, before: seq<string>, merged: seq<Source>, texts: Texts) returns (out: seq<string>)
    ensures out == Planned(own, before, merged, texts)
  {
    hide Add;
    var start := Collected([], {texts.keyOf(own)});
    var c := AddEach(start, before, texts, start, []);
    assert [] + before == before + Values(merged[..0]);
    for k := 0 to |merged|
      invariant c == AddAll(start, before + Values(merged[..k]), texts)
    {
      ghost var done := before + Values(merged[..k]);
      AddOne(start, done, merged[k].baseUrl, texts);
      c := Add(c, merged[k].baseUrl, texts);
      c := AddEach(c, merged[k].aliases, texts, start, done + [merged[k].baseUrl]);
      assert merged[..k + 1][..k] == merged[..k];
      assert done + [merged[k].baseUrl] + merged[k].aliases == before + Values(merged[..k + 1]);
    }
    assert merged[..|merged|] == merged;
    out := c.out;
  }

  // Trimmed, not empty, each address once and none of those seen.
  ghost predicate Clean(xs: seq<string>, seen: set<string>, texts: Texts) {
    && (forall i :: 0 <= i < |xs| ==> texts.trim(xs[i]) == xs[i] && xs[i] != "" && texts.keyOf(xs[i]) !in seen)
    && (forall i, j :: 0 <= i < j < |xs| ==> texts.keyOf(xs[i]) != texts.keyOf(xs[j]))
  }

  // What is collected is clean, and all of it is marked as seen.
  lemma {:induction false} CollectsClean(own: string, values: seq<string>, texts: Texts)
    requires Trims(texts)
    ensures var c := AddAll(Collected([], {own}), values, texts);
            && Clean(c.out, {own}, texts) && own in c.seen
            && forall i :: 0 <= i < |c.out| ==> texts.keyOf(c.out[i]) in c.seen
    decreases |values|
  {
    if values != [] {
      CollectsClean(own, values[..|values| - 1], texts);
      assert texts.trim(texts.trim(values[|values| - 1])) == texts.trim(values[|values| - 1]);
    }
  }

  lemma {:induction false} CollectsAllOf(c: Collected, xs: seq<string>, texts: Texts)
    requires Clean(xs, c.seen, texts)
    ensures AddAll(c, xs, texts).out == c.out + xs
    ensures AddAll(c, xs, texts).seen == c.seen + (set x | x in xs :: texts.keyOf(x))
    decreases |xs|
  {
    if xs != [] {
      var n := |xs| - 1;
      CollectsAllOf(c, xs[..n], texts);
      assert AddAll(c, xs[..n], texts).out + [xs[n]] == c.out + xs;
      assert xs == xs[..n] + [xs[n]];
      assert forall x :: x in xs <==> x in xs[..n] || x == xs[n];
    }
  }

  lemma {:induction false} AddAllExtends(c: Collected, xs: seq<string>, ys: seq<string>, texts: Texts)
    ensures AddAll(c, xs, texts).out <= AddAll(c, xs + ys, texts).out
    decreases |ys|
  {
    if ys == [] {
      assert xs + ys == xs;
    } else {
      assert (xs + ys)[..|xs + ys| - 1] == xs + ys[..|ys| - 1];
      AddAllExtends(c, xs, ys[..|ys| - 1], texts);
    }
  }

  lemma {:induction false} OnlyConcat(a: seq<string>, b: seq<string>, keep: seq<string>)
    ensures Only(a + b, keep) == Only(a, keep) + Only(b, keep)
  {
    if a == [] {
      assert a + b == b;
    } else {
      assert (a + b)[1..] == a[1..] + b;
      OnlyConcat(a[1..], b, keep);
    }
  }

  lemma {:induction false} OnlyAll(a: seq<string>, keep: seq<string>)
    requires forall x :: x in a ==> x in keep
    ensures Only(a, keep) == a
  {
    if a != [] { OnlyAll(a[1..], keep); }
  }

  lemma {:induction false} OnlyNone(a: seq<string>, keep: seq<string>)
    requires forall x :: x in a ==> x !in keep
    ensures Only(a, keep) == []
  {
    if a != [] { OnlyNone(a[1..], keep); }
  }

  lemma CleanBehind(x: string, rest: seq<string>, seen: set<string>, texts: Texts)
    ensures Clean([x] + rest, seen, texts) <==>
              && texts.trim(x) == x && x != "" && texts.keyOf(x) !in seen && Clean(rest, seen, texts)
              && forall y :: y in rest ==> texts.keyOf(y) != texts.keyOf(x)
  {
    var all := [x] + rest;
    assert forall i :: 0 <= i < |rest| ==> all[i + 1] == rest[i] && rest[i] in rest;
    assert forall i :: 0 < i < |all| ==> all[i] == rest[i - 1];
    assert all[0] == x;
    if Clean(all, seen, texts) {
      forall i | 0 <= i < |rest| ensures texts.keyOf(rest[i]) != texts.keyOf(x) && texts.trim(rest[i]) == rest[i] && rest[i] != "" && texts.keyOf(rest[i]) !in seen {
        assert all[i + 1] == rest[i];
      }
      forall i, j | 0 <= i < j < |rest| ensures texts.keyOf(rest[i]) != texts.keyOf(rest[j]) {
        assert all[i + 1] == rest[i] && all[j + 1] == rest[j];
      }
    }
  }

  // A part of a clean list, in order, is clean.
  lemma {:induction false} OnlyClean(a: seq<string>, keep: seq<string>, seen: set<string>, texts: Texts)
    requires Clean(a, seen, texts)
    ensures Clean(Only(a, keep), seen, texts) && forall x :: x in Only(a, keep) ==> x in a
  {
    if a != [] {
      hide Clean;
      var x, rest := a[0], a[1..];
      assert a == [x] + rest;
      CleanBehind(x, rest, seen, texts);
      OnlyClean(rest, keep, seen, texts);
      CleanBehind(x, Only(rest, keep), seen, texts);
    }
  }

  // The planned list starts with the old one if that is clean, and none of it comes again.
  lemma CleanIsKept(own: string, before: seq<string>, merged: seq<Source>, texts: Texts)
    requires Trims(texts) && Clean(before, {texts.keyOf(own)}, texts)
    ensures Only(Planned(own, before, merged, texts), before) == before
  {
    var after, key := Planned(own, before, merged, texts), texts.keyOf(own);
    CollectsClean(key, before + Values(merged), texts);
    CollectsAllOf(Collected([], {key}), before, texts);
    AddAllExtends(Collected([], {key}), before, Values(merged), texts);
    var rest := after[|before|..];
    assert after == before + rest;
    NothingTwice(before, rest, {key}, texts);
    OnlyConcat(before, rest, before);
    OnlyAll(before, before);
    OnlyNone(rest, before);
  }

  lemma NothingTwice(before: seq<string>, rest: seq<string>, seen: set<string>, texts: Texts)
    requires Clean(before + rest, seen, texts)
    ensures forall x :: x in rest ==> x !in before
  {
    var all := before + rest;
    forall i, k | 0 <= i < |before| && 0 <= k < |rest| ensures before[i] != rest[k] {
      assert all[i] == before[i] && all[|before| + k] == rest[k];
    }
  }

  // Undoing the planned merge gives the retained station its old aliases back exactly when that list was clean: every
  // text trimmed and not empty, no address twice, and not the station's own. The merge then keeps the aliases, as
  // KeepsAliases asks for.
  lemma PlannedComesBack(own: string, before: seq<string>, merged: seq<Source>, texts: Texts)
    requires Trims(texts)
    ensures var after := Planned(own, before, merged, texts);
            && (AliasesAfterUndo(Some(after), before, Some(Without(after, before))) == before
                <==> Clean(before, {texts.keyOf(own)}, texts))
            && (Only(after, before) == before <==> Clean(before, {texts.keyOf(own)}, texts))
  {
    hide Clean, Only, Planned, Trims;
    var after, key := Planned(own, before, merged, texts), texts.keyOf(own);
    AliasesBack(before, after, []);
    if Clean(before, {key}, texts) {
      CleanIsKept(own, before, merged, texts);
    } else {
      PlannedClean(own, before, merged, texts);
      OnlyClean(after, before, {key}, texts);
    }
  }

  // The planned list never names an address twice nor the station's own.
  lemma PlannedClean(own: string, before: seq<string>, merged: seq<Source>, texts: Texts)
    requires Trims(texts)
    ensures Clean(Planned(own, before, merged, texts), {texts.keyOf(own)}, texts)
  {
    CollectsClean(texts.keyOf(own), before + Values(merged), texts);
  }

  // ----- which aliases are planned

  function Addresses(xs: seq<string>, texts: Texts): set<string> { set x | x in xs :: texts.keyOf(x) }

  lemma AddressesOneMore(xs: seq<string>, x: string, texts: Texts)
    ensures Addresses(xs + [x], texts) == Addresses(xs, texts) + {texts.keyOf(x)}
  {
    assert forall y :: y in xs + [x] <==> y in xs || y == x;
  }

  // The addresses of the texts handed in that are not blank.
  function Given(values: seq<string>, texts: Texts): set<string> {
    set v | v in values && texts.trim(v) != "" :: texts.keyOf(texts.trim(v))
  }

  lemma {:induction false} CollectsEach(own: string, values: seq<string>, texts: Texts)
    ensures var c := AddAll(Collected([], {own}), values, texts);
            && c.seen == {own} + Addresses(c.out, texts) == {own} + Given(values, texts)
            && forall x :: x in c.out ==> texts.keyOf(x) != own
    decreases |values|
  {
    if values == [] {
      assert Addresses([], texts) == {} && Given([], texts) == {};
    } else {
      var front, v := values[..|values| - 1], values[|values| - 1];
      CollectsEach(own, front, texts);
      var c, text := AddAll(Collected([], {own}), front, texts), texts.trim(v);
      assert values == front + [v];
      assert forall w :: w in values <==> w in front || w == v;
      assert Given(values, texts) == Given(front, texts) + if text != "" then {texts.keyOf(text)} else {};
      AddressesOneMore(c.out, text, texts);
    }
  }

  // An address is planned exactly when it is not the station's own and some text handed in stands for it.
  lemma PlannedIff(own: string, before: seq<string>, merged: seq<Source>, texts: Texts)
    ensures Addresses(Planned(own, before, merged, texts), texts) == Given(before + Values(merged), texts) - {texts.keyOf(own)}
  {
    var key := texts.keyOf(own);
    CollectsEach(key, before + Values(merged), texts);
    hide Values, AddAll;
    var out := Planned(own, before, merged, texts);
    assert key !in Addresses(out, texts);
  }

  // What is handed in of the merged stations: each one's address and aliases.
  lemma {:induction false} GivenByMerged(merged: seq<Source>, v: string)
    ensures v in Values(merged) <==> exists s :: s in merged && (v == s.baseUrl || v in s.aliases)
  {
    if merged != [] {
      var front, last := merged[..|merged| - 1], merged[|merged| - 1];
      GivenByMerged(front, v);
      assert forall s :: s in merged <==> s in front || s == last;
    }
  }
}
