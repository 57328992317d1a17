// The append-only ledger of one binding and one day: when a settlement writes another version
// (lib/reconciliation-ledger.js, and the transaction in server/reconciliation-repository.js that asks it).
module Ledger {
  import opened Outcomes

  datatype Window = Window(startMs: int, endMs: int, timezone: string)

  // Amounts and rates as numbers; absent ones are null. The last three before the time are the expected cost, the reason why
  // it is missing, and the tokens of the day.
  datatype Entry = Entry(window: Window, revenue: Option<real>, cost: Option<real>, revenueRate: Option<real>, costRate: Option<real>,
                         costBasis: Option<string>, expectedCost: Option<real>, gapReason: Option<string>, tokens: Option<int>, settledAt: int)

  datatype Source = Settle | Resettle
  datatype Version = Version(revision: nat, source: Source, entry: Entry)

  const USD_SCALE := 8
  const RATE_SCALE := 6

  // ----- decimals

  function Pow10(n: nat): (p: real)
    ensures p >= 1.0
  {
    if n == 0 then 1.0 else 10.0 * Pow10(n - 1)
  }

  // Rounded half away from zero, in units of the last decimal place.
  function Units(x: real, scale: nat): int {
    if x >= 0.0 then (x * Pow10(scale) + 0.5).Floor else -(-x * Pow10(scale) + 0.5).Floor
  }

  function LedgerDecimal(x: Option<real>, scale: nat): Option<int> { if x.None? then None else Some(Units(x.value, scale)) }

  // What a DECIMAL column gives back.
  function Stored(x: Option<real>, scale: nat): Option<real> {
    if x.None? then None else Some(Units(x.value, scale) as real / Pow10(scale))
  }

  function StoredEntry(e: Entry): Entry {
    e.(revenue := Stored(e.revenue, USD_SCALE), cost := Stored(e.cost, USD_SCALE), revenueRate := Stored(e.revenueRate, RATE_SCALE),
       costRate := Stored(e.costRate, RATE_SCALE), expectedCost := Stored(e.expectedCost, USD_SCALE))
  }

  lemma Unscaled(k: real, p: real)
    requires p > 0.0
    ensures (k / p) * p == k && (-(k / p)) * p == -k && (k / p >= 0.0 <==> k >= 0.0)
  {
    var y := k / p;
    assert y * p == k;
    if y >= 0.0 { Product(y, p); } else { Product(-y, p); }
  }

  lemma Product(a: real, b: real)
    requires a >= 0.0 && b > 0.0
    ensures a * b >= 0.0 && (a > 0.0 ==> a * b > 0.0)
  {}

  // A stored number rounds to what was stored.
  lemma StoredRounds(x: Option<real>, scale: nat)
    ensures LedgerDecimal(Stored(x, scale), scale) == LedgerDecimal(x, scale)
  {
    if x.Some? {
      hide Pow10;
      var k, p := Units(x.value, scale), Pow10(scale);
      var y := k as real / p;
      Unscaled(k as real, p);
      assert Units(y, scale) == if k >= 0 then (k as real + 0.5).Floor else -(-(k as real) + 0.5).Floor;
    }
  }

  // ----- the decision

  // Money, rates and way of costing; the cost counts only when it is not fixed on both sides.
  predicate SameMoney(a: Entry, b: Entry) {
    && a.window == b.window && a.costBasis == b.costBasis
    && LedgerDecimal(a.revenue, USD_SCALE) == LedgerDecimal(b.revenue, USD_SCALE)
    && ((a.costBasis == Some("fixed") && b.costBasis == Some("fixed")) || LedgerDecimal(a.cost, USD_SCALE) == LedgerDecimal(b.cost, USD_SCALE))
    && LedgerDecimal(a.revenueRate, RATE_SCALE) == LedgerDecimal(b.revenueRate, RATE_SCALE)
    && LedgerDecimal(a.costRate, RATE_SCALE) == LedgerDecimal(b.costRate, RATE_SCALE)
  }

  predicate SameExpected(a: Entry, b: Entry) {
    && LedgerDecimal(a.expectedCost, USD_SCALE) == LedgerDecimal(b.expectedCost, USD_SCALE)
    && a.gapReason == b.gapReason && a.tokens == b.tokens
  }

  predicate SameContent(a: Entry, b: Entry) { SameMoney(a, b) && SameExpected(a, b) }

  datatype Decision = Decision(write: bool, revision: nat, source: Source, settledAt: int)

  function WriteDecision(latest: Option<Version>, entry: Entry, resettle: bool): Decision {
    if latest.None? then Decision(true, 1, Settle, entry.settledAt)
    else
      var v := latest.value;
      var next := Decision(true, v.revision + 1, Resettle, entry.settledAt);
      if v.entry.window != entry.window then next
      else if resettle && !SameContent(v.entry, entry) then next
      else Decision(false, v.revision, v.source, v.entry.settledAt)
  }

  // ----- the repository

  // The latest version as the transaction reads it: the columns of the expected cost are not among those selected.
  function AsSelected(v: Version): Version { v.(entry := v.entry.(expectedCost := None, gapReason := None, tokens := None)) }

  function Latest(ledger: seq<Version>): Option<Version> { if ledger == [] then None else Some(ledger[|ledger| - 1]) }

  function Decide(ledger: seq<Version>, entry: Entry, resettle: bool): Decision {
    WriteDecision(if ledger == [] then None else Some(AsSelected(ledger[|ledger| - 1])), entry, resettle)
  }

  function Saved(ledger: seq<Version>, entry: Entry, resettle: bool): seq<Version> {
    var d := Decide(ledger, entry, resettle);
    if d.write then ledger + [Version(d.revision, d.source, StoredEntry(entry))] else ledger
  }

  // The expected cost filled in later, in the latest version, while it is missing because the logs lag behind.
  function Filled(ledger: seq<Version>, revision: nat, expectedCost: Option<real>, gapReason: Option<string>, tokens: Option<int>): seq<Version> {
    if ledger == [] then ledger
    else
      var n := |ledger| - 1;
      var e := ledger[n].entry;
      if ledger[n].revision == revision && e.expectedCost.None? && e.gapReason == Some("EXPECTED_COST_LAGGING")
      then ledger[n := ledger[n].(entry := e.(expectedCost := Stored(expectedCost, USD_SCALE), gapReason := gapReason, tokens := tokens))]
      else ledger
  }

  datatype Event =
    | Save(entry: Entry, resettle: bool)
    | Fill(revision: nat, expectedCost: Option<real>, gapReason: Option<string>, tokens: Option<int>)

  function After(ledger: seq<Version>, e: Event): seq<Version> {
    match e
    case Save(entry, resettle) => Saved(ledger, entry, resettle)
    case Fill(revision, expectedCost, gapReason, tokens) => Filled(ledger, revision, expectedCost, gapReason, tokens)
  }

  function Run(events: seq<Event>): seq<Version> {
    if events == [] then [] else After(Run(events[..|events| - 1]), events[|events| - 1])
  }

  // ----- sameness

  lemma SameIsEquivalence(a: Entry, b: Entry, c: Entry)
    ensures SameContent(a, a)
    ensures SameContent(a, b) ==> SameContent(b, a)
    ensures SameContent(a, b) && SameContent(b, c) ==> SameContent(a, c)
  {}

  // Rounding for the table changes neither content nor sameness.
  lemma StoringKeepsContent(e: Entry)
    ensures SameContent(StoredEntry(e), e)
  {
    StoredRounds(e.revenue, USD_SCALE);
    StoredRounds(e.cost, USD_SCALE);
    StoredRounds(e.revenueRate, RATE_SCALE);
    StoredRounds(e.costRate, RATE_SCALE);
    StoredRounds(e.expectedCost, USD_SCALE);
  }

  // ----- what the ledger of a day looks like after any history

  predicate Numbered(ledger: seq<Version>) { forall i :: 0 <= i < |ledger| ==> ledger[i].revision == i + 1 }

  lemma {:induction false} RevisionsCountUp(events: seq<Event>)
    ensures Numbered(Run(events))
    ensures Run(events) != [] ==> Run(events)[0].source == Settle && forall i :: 0 < i < |Run(events)| ==> Run(events)[i].source == Resettle
  {
    if events != [] {
      RevisionsCountUp(events[..|events| - 1]);
    }
  }

  // Nothing written is taken back: versions before the latest stay as they are.
  lemma AppendOnly(events: seq<Event>, e: Event)
    ensures var ledger, next := Run(events), Run(events + [e]);
            && |ledger| <= |next| <= |ledger| + 1
            && (forall i :: 0 <= i < |ledger| - 1 ==> next[i] == ledger[i])
            && (forall i :: 0 <= i < |ledger| ==> AsSelected(next[i]) == AsSelected(ledger[i]))
  {
    assert (events + [e])[..|events|] == events;
  }

  // What makes a version follow another: a different window, different money, or a value among the three columns that the
  // transaction does not select.
  predicate HasExpected(e: Entry) { e.expectedCost.Some? || e.gapReason.Some? || e.tokens.Some? }

  lemma DecidedByMoney(ledger: seq<Version>, entry: Entry, resettle: bool)
    requires ledger != []
    ensures var last := ledger[|ledger| - 1].entry;
            Decide(ledger, entry, resettle).write <==>
              last.window != entry.window || (resettle && (!SameMoney(last, entry) || HasExpected(entry)))
  {}

  // Settling the same result again adds a version exactly when it is a re-settlement that has an expected cost, a reason or
  // tokens to record: the same content is then taken for different content.
  lemma ReplayAddsIff(ledger: seq<Version>, entry: Entry, resettle: bool, again: bool)
    requires Decide(ledger, entry, resettle).write
    ensures var once := Saved(ledger, entry, resettle);
            && SameContent(once[|once| - 1].entry, entry)
            && (Saved(once, entry, again) != once <==> again && HasExpected(entry))
  {
    StoringKeepsContent(entry);
    DecidedByMoney(Saved(ledger, entry, resettle), entry, again);
  }

  // And a re-settlement that only lost these three values is not recorded.
  lemma LostExpectedIsMissed(ledger: seq<Version>, entry: Entry)
    requires ledger != [] && SameMoney(ledger[|ledger| - 1].entry, entry) && !HasExpected(entry)
    ensures Saved(ledger, entry, true) == ledger
    ensures HasExpected(ledger[|ledger| - 1].entry) ==> !SameContent(ledger[|ledger| - 1].entry, entry)
  {}

  // The decision is the documented one — another version exactly for another window or other content — if and only if
  // the money differs, or the entry has none of the three values and neither has the latest version, or it has some and
  // they differ from the latest version's.
  lemma DecisionIsDocumentedIff(ledger: seq<Version>, entry: Entry)
    requires ledger != [] && ledger[|ledger| - 1].entry.window == entry.window
    ensures var last := ledger[|ledger| - 1].entry;
            (Decide(ledger, entry, true).write <==> !SameContent(last, entry)) <==>
              !SameMoney(last, entry) || (if HasExpected(entry) then !SameExpected(last, entry) else !HasExpected(last))
  {}

  // Without a re-settlement and with the same window, the first version stays the only one, whatever is read later.
  predicate Plain(e: Event, w: Window) { e.Save? ==> !e.resettle && e.entry.window == w }

  lemma {:induction false} FirstVersionStays(events: seq<Event>, w: Window)
    requires forall i :: 0 <= i < |events| ==> Plain(events[i], w)
    ensures |Run(events)| <= 1 && (Run(events) != [] ==> Run(events)[0].entry.window == w)
    ensures forall e :: Plain(e, w) && e.Save? && Run(events) != [] ==> Run(events + [e]) == Run(events)
  {
    if events != [] {
      FirstVersionStays(events[..|events| - 1], w);
    }
    forall e | Plain(e, w) && e.Save? && Run(events) != [] ensures Run(events + [e]) == Run(events) {
      assert (events + [e])[..|events|] == events;
    }
  }

  // ----- two versions in a row with the same window, money, rates and way of costing

  ghost predicate HasTwins(ledger: seq<Version>) {
    exists i :: 0 < i < |ledger| && SameMoney(ledger[i - 1].entry, ledger[i].entry)
  }

  // A re-settlement that changes neither window nor money but has one of the three values.
  predicate Repeats(ledger: seq<Version>, e: Event) {
    && e.Save? && e.resettle && HasExpected(e.entry)
    && ledger != [] && SameMoney(ledger[|ledger| - 1].entry, e.entry)
  }

  // Neither a write nor a fill changes what neighbouring versions have in common.
  lemma PairsStay(ledger: seq<Version>, e: Event, i: nat)
    requires 0 < i < |ledger|
    ensures var next := After(ledger, e);
            i < |next| && (SameMoney(next[i - 1].entry, next[i].entry) <==> SameMoney(ledger[i - 1].entry, ledger[i].entry))
  {
    hide LedgerDecimal, Stored, WriteDecision, StoredEntry;
    var next := After(ledger, e);
    assert AsSelected(next[i - 1]) == AsSelected(ledger[i - 1]) && AsSelected(next[i]) == AsSelected(ledger[i]);
  }

  lemma LastPair(ledger: seq<Version>, e: Event)
    ensures var next := After(ledger, e);
            && |ledger| <= |next| <= |ledger| + 1
            && (ledger != [] && |next| > |ledger|
                ==> (SameMoney(next[|ledger| - 1].entry, next[|ledger|].entry) <==> Repeats(ledger, e)))
            && (Repeats(ledger, e) ==> |next| > |ledger|)
  {
    hide LedgerDecimal, Stored;
    if ledger != [] && e.Save? {
      DecidedByMoney(ledger, e.entry, e.resettle);
      StoringKeepsContent(e.entry);
      hide StoredEntry, WriteDecision;
    }
  }

  lemma TwinsStep(ledger: seq<Version>, e: Event)
    ensures HasTwins(After(ledger, e)) <==> HasTwins(ledger) || Repeats(ledger, e)
  {
    assert Repeats(ledger, e) ==> ledger != [];
    hide SameMoney, After, Repeats;
    var next := After(ledger, e);
    LastPair(ledger, e);
    if i :| 0 < i < |ledger| && SameMoney(ledger[i - 1].entry, ledger[i].entry) { PairsStay(ledger, e, i); }
    if i :| 0 < i < |next| && SameMoney(next[i - 1].entry, next[i].entry) {
      if i < |ledger| { PairsStay(ledger, e, i); }
    }
    if Repeats(ledger, e) {
      assert SameMoney(next[|ledger| - 1].entry, next[|ledger|].entry);
    }
  }

  predicate RepeatedBy(events: seq<Event>, k: nat)
    requires k < |events|
  {
    Repeats(Run(events[..k]), events[k])
  }

  // Over any history, with expected costs filled in later or not: neighbouring versions agree in window, money, rates and way
  // of costing if and only if one of the writes was a re-settlement that repeated them and had one of the three values.
  lemma {:induction false} TwinsIffRepeated(events: seq<Event>)
    ensures HasTwins(Run(events)) <==> exists k: nat :: k < |events| && RepeatedBy(events, k)
  {
    hide HasTwins, Repeats, After;
    if events == [] {
      assert !HasTwins([]) by { NoTwins(); }
    } else {
      var n := |events| - 1;
      TwinsIffRepeated(events[..n]);
      TwinsStep(Run(events[..n]), events[n]);
      assert RepeatedBy(events, n) <==> Repeats(Run(events[..n]), events[n]);
      forall k: nat | k < n ensures RepeatedBy(events[..n], k) <==> RepeatedBy(events, k) {
        assert events[..n][..k] == events[..k];
      }
      hide RepeatedBy;
    }
  }

  lemma NoTwins()
    ensures !HasTwins([])
  {}

  // So neighbouring versions always differ as long as no re-settlement has an expected cost, a reason or tokens.
  lemma NeighboursDiffer(events: seq<Event>, i: nat)
    requires forall k :: 0 <= k < |events| && events[k].Save? && events[k].resettle ==> !HasExpected(events[k].entry)
    requires 0 < i < |Run(events)|
    ensures !SameMoney(Run(events)[i - 1].entry, Run(events)[i].entry)
  {
    TwinsIffRepeated(events);
  }

  // The time a settlement reports is that of the version then latest.
  lemma ReportsLatest(ledger: seq<Version>, entry: Entry, resettle: bool)
    ensures var d, next := Decide(ledger, entry, resettle), Saved(ledger, entry, resettle);
            next != [] && d.settledAt == next[|next| - 1].entry.settledAt && (Numbered(ledger) ==> d.revision == |next|)
  {}

  // An example: the same re-settlement with an expected cost, three times over, makes three versions.
  lemma ReplaysPileUp(w: Window)
    ensures var e := Entry(w, Some(2.0), Some(1.0), None, None, Some("usage"), Some(1.5), None, None, 0);
            |Run([Save(e, false), Save(e, true), Save(e, true)])| == 3
  {
    var e := Entry(w, Some(2.0), Some(1.0), None, None, Some("usage"), Some(1.5), None, None, 0);
    var events := [Save(e, false), Save(e, true), Save(e, true)];
    assert events[..2] == [Save(e, false), Save(e, true)] && events[..2][..1] == [Save(e, false)] && [Save(e, false)][..0] == [];
    var first := Saved([], e, false);
    assert Run([Save(e, false)]) == first;
    ReplayAddsIff([], e, false, true);
    var second := Saved(first, e, true);
    assert Run(events[..2]) == second;
    ReplayAddsIff(first, e, true, true);
  }
}
