// What the ledger's numbers are: how amounts are rounded, when two entries are the same, and what a version holds.
module LedgerValues {
  import opened Outcomes
  import opened Ledger

  // ----- rounding

  function Abs(x: real): real { if x < 0.0 then -x else x }

  // The whole number of units next to an amount; of two equally near ones, the one further from zero.
  predicate Rounds(u: int, x: real, units: real) {
    && Abs(u as real - x * units) <= 0.5
    && (Abs(u as real - x * units) == 0.5 ==> Abs(u as real) > Abs(x * units))
  }

  lemma RoundsToOne(u: int, v: int, x: real, units: real)
    requires Rounds(u, x, units) && Rounds(v, x, units)
    ensures u == v
  {
    var y := x * units;
    assert Abs(u as real - v as real) <= 1.0;
  }

  lemma UnitsRound(x: real, scale: nat)
    ensures Rounds(Units(x, scale), x, Pow10(scale))
  {
    var p := Pow10(scale);
    hide Pow10;
    if x >= 0.0 {
      Product(x, p);
      HalfUp(x * p);
    } else {
      var y := -x * p;
      Product(-x, p);
      HalfUp(y);
      Negated(x, p);
      assert Units(x, scale) == -(y + 0.5).Floor;
    }
  }

  lemma Negated(x: real, p: real)
    ensures -x * p == -(x * p)
  {}

  lemma HalfUp(y: real)
    requires y >= 0.0
    ensures var u := (y + 0.5).Floor;
            Abs(u as real - y) <= 0.5 && u >= 0 && (Abs(u as real - y) == 0.5 ==> u as real > y)
  {
    var u := (y + 0.5).Floor;
    assert u as real <= y + 0.5 < u as real + 1.0;
  }

  // Amounts are kept to eight decimals and rates to six.
  lemma Scales()
    ensures Pow10(USD_SCALE) == 100000000.0 && Pow10(RATE_SCALE) == 1000000.0
  {
    assert Pow10(2) == 100.0 && Pow10(4) == 10000.0;
    assert Pow10(6) == 1000000.0;
    assert Pow10(7) == 10000000.0;
  }

  // A stored number is within half a unit of its last decimal of what was given.
  lemma StoredIsNear(x: Option<real>, scale: nat)
    ensures x.None? <==> Stored(x, scale).None?
    ensures x.Some? ==> Abs(Stored(x, scale).value - x.value) <= 0.5 / Pow10(scale)
  {
    if x.Some? {
      var p, u := Pow10(scale), Units(x.value, scale);
      UnitsRound(x.value, scale);
      Divided(u as real, x.value, p);
    }
  }

  lemma Divided(u: real, x: real, p: real)
    requires p >= 1.0 && Abs(u - x * p) <= 0.5
    ensures Abs(u / p - x) <= 0.5 / p
  {
    var d, h := u / p - x, 0.5 / p;
    assert d * p == u - x * p && h * p == 0.5;
    if d > h {
      Larger(d, h, p);
    } else if -d > h {
      Larger(-d, h, p);
    }
  }

  lemma Larger(a: real, b: real, p: real)
    requires a > b && p > 0.0
    ensures a * p > b * p
  {
    Product(a - b, p);
    assert (a - b) * p == a * p - b * p;
  }

  // ----- when two entries are the same

  // Both absent, or both rounded to the same number of units.
  ghost predicate SameAmount(x: Option<real>, y: Option<real>, units: real) {
    if x.None? || y.None? then x.None? && y.None? else exists u :: Rounds(u, x.value, units) && Rounds(u, y.value, units)
  }

  lemma SameAmountIff(x: Option<real>, y: Option<real>, scale: nat)
    ensures LedgerDecimal(x, scale) == LedgerDecimal(y, scale) <==> SameAmount(x, y, Pow10(scale))
  {
    if x.Some? && y.Some? {
      var u, v, p := Units(x.value, scale), Units(y.value, scale), Pow10(scale);
      UnitsRound(x.value, scale);
      UnitsRound(y.value, scale);
      hide Units, Rounds;
      if w: int :| Rounds(w, x.value, p) && Rounds(w, y.value, p) {
        RoundsToOne(u, w, x.value, p);
        RoundsToOne(v, w, y.value, p);
      }
    }
  }

  // Entries are the same in money when window, way of costing, revenue and rates agree, and the cost too unless both have fixed
  // costs; and in content when expected cost, reason and tokens agree as well.
  lemma SameIff(a: Entry, b: Entry)
    ensures SameMoney(a, b) <==>
              && a.window.startMs == b.window.startMs && a.window.endMs == b.window.endMs && a.window.timezone == b.window.timezone
              && a.costBasis == b.costBasis && SameAmount(a.revenue, b.revenue, 100000000.0)
              && (a.costBasis != Some("fixed") || b.costBasis != Some("fixed") ==> SameAmount(a.cost, b.cost, 100000000.0))
              && SameAmount(a.revenueRate, b.revenueRate, 1000000.0) && SameAmount(a.costRate, b.costRate, 1000000.0)
    ensures SameContent(a, b) <==>
              && SameMoney(a, b) && SameAmount(a.expectedCost, b.expectedCost, 100000000.0)
              && a.gapReason == b.gapReason && a.tokens == b.tokens
  {
    Scales();
    SameAmountIff(a.revenue, b.revenue, USD_SCALE);
    SameAmountIff(a.cost, b.cost, USD_SCALE);
    SameAmountIff(a.revenueRate, b.revenueRate, RATE_SCALE);
    SameAmountIff(a.costRate, b.costRate, RATE_SCALE);
    SameAmountIff(a.expectedCost, b.expectedCost, USD_SCALE);
    hide Pow10, LedgerDecimal, SameAmount;
  }

  // ----- what a version holds

  // Missing when the given one is, otherwise the given one rounded to whole units.
  ghost predicate KeptIn(stored: Option<real>, given: Option<real>, units: real) {
    if given.None? then stored.None?
    else stored.Some? && exists u: int :: Rounds(u, given.value, units) && stored.value * units == u as real
  }

  lemma StoredIsKept(x: Option<real>, scale: nat)
    ensures KeptIn(Stored(x, scale), x, Pow10(scale))
  {
    if x.Some? {
      UnitsRound(x.value, scale);
      var u, p := Units(x.value, scale), Pow10(scale);
      hide Pow10, Units, Rounds;
      Unscaled(u as real, p);
      assert Stored(x, scale).value == u as real / p;
    }
  }

  // The version a write adds holds the entry, its numbers rounded to the columns' decimals.
  lemma VersionHoldsEntry(ledger: seq<Version>, entry: Entry, resettle: bool)
    requires |Saved(ledger, entry, resettle)| > |ledger|
    ensures var next := Saved(ledger, entry, resettle);
            var e := next[|ledger|].entry;
            && next[..|ledger|] == ledger && |next| == |ledger| + 1
            && e.window == entry.window && e.costBasis == entry.costBasis && e.gapReason == entry.gapReason && e.tokens == entry.tokens
            && e.settledAt == entry.settledAt
            && KeptIn(e.revenue, entry.revenue, 100000000.0) && KeptIn(e.cost, entry.cost, 100000000.0)
            && KeptIn(e.expectedCost, entry.expectedCost, 100000000.0)
            && KeptIn(e.revenueRate, entry.revenueRate, 1000000.0) && KeptIn(e.costRate, entry.costRate, 1000000.0)
  {
    Scales();
    StoredIsKept(entry.revenue, USD_SCALE);
    StoredIsKept(entry.cost, USD_SCALE);
    StoredIsKept(entry.expectedCost, USD_SCALE);
    StoredIsKept(entry.revenueRate, RATE_SCALE);
    StoredIsKept(entry.costRate, RATE_SCALE);
    hide Pow10, Stored, KeptIn;
  }

  // A later fill only touches the latest version, and only while its expected cost is missing because the logs lag behind.
  lemma FillIff(ledger: seq<Version>, revision: nat, expectedCost: Option<real>, gapReason: Option<string>, tokens: Option<int>)
    ensures var next := Filled(ledger, revision, expectedCost, gapReason, tokens);
            var n := |ledger| - 1;
            if ledger != [] && ledger[n].revision == revision && ledger[n].entry.expectedCost == None
               && ledger[n].entry.gapReason == Some("EXPECTED_COST_LAGGING")
            then
              && |next| == |ledger| && next[..n] == ledger[..n]
              && next[n].revision == revision && next[n].source == ledger[n].source
              && next[n].entry == ledger[n].entry.(expectedCost := next[n].entry.expectedCost, gapReason := gapReason, tokens := tokens)
              && KeptIn(next[n].entry.expectedCost, expectedCost, 100000000.0)
            else next == ledger
  {
    Scales();
    StoredIsKept(expectedCost, USD_SCALE);
    hide Pow10, Stored, KeptIn;
  }
}
