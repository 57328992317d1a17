// The expected cost of one binding on one day: which buckets are its own, at which ratio, or why there is no number
// (lib/expected-cost-day.js).
module ExpectedCostDay {
  import opened Outcomes
  import opened Sequences
  import opened ExpectedCost

  datatype Window = Window(startMs: int, endMs: int)

  // A stretch of the day with one ratio; `ambiguous` when the key was changed within it and the ratios differ.
  datatype Segment = Segment(startMs: int, endMs: int, ratio: real, auto: bool, ambiguous: bool)

  // Facts about the binding and about how far the logs have been read.
  datatype Flags = Flags(off: bool, newapi: bool, keyShared: bool, groupAuto: bool, coveredFromMs: Option<int>, coveredToMs: Option<int>,
                         disabled: Option<Window>)

  datatype Reason =
    | Disabled | PriceUnsupported | NotStarted | KeyShared | GroupAuto | KeyChangeRatioDiffers | DayBoundaryUnsupported
    | PartialHourUnsupported | NotRecorded | Lagging | PriceUnreadable | CacheFieldsUnknown | PriceMissing | PriceTiered

  // `unpriced` holds the models without a price or, when all have one, those priced in tiers.
  datatype Day = Day(usd: Option<real>, reason: Option<Reason>, tokens: Option<nat>, byModel: seq<Row>, unpriced: seq<Row>,
                     bySegment: seq<Option<real>>, byChannel: seq<real>)

  // ----- the binding's own buckets

  predicate In(startMs: int, endMs: int, b: Bucket) { startMs <= b.slot < endMs }

  function Filter(bs: seq<Bucket>, keep: Bucket -> bool): (out: seq<Bucket>)
    ensures forall b :: b in out <==> b in bs && keep(b)
  {
    if bs == [] then []
    else
      assert bs == bs[..|bs| - 1] + [bs[|bs| - 1]];
      Filter(bs[..|bs| - 1], keep) + if keep(bs[|bs| - 1]) then [bs[|bs| - 1]] else []
  }

  function Mine(buckets: seq<Bucket>, channels: seq<int>, w: Window): seq<Bucket> {
    Filter(buckets, (b: Bucket) => b.channel in channels && In(w.startMs, w.endMs, b))
  }

  function Within(bs: seq<Bucket>, s: Segment): seq<Bucket> { Filter(bs, b => In(s.startMs, s.endMs, b)) }

  function OfChannel(bs: seq<Bucket>, c: int): seq<Bucket> { Filter(bs, (b: Bucket) => b.channel == c) }

  predicate InSegments(segments: seq<Segment>, b: Bucket) { exists i :: 0 <= i < |segments| && In(segments[i].startMs, segments[i].endMs, b) }

  function OwnOf(mine: seq<Bucket>, segments: seq<Segment>): seq<Bucket> { Filter(mine, b => InSegments(segments, b)) }

  function TokensOf(b: Bucket): nat { b.prompt + b.completion + b.cacheWrite }

  function Tokens(bs: seq<Bucket>): nat { if bs == [] then 0 else Tokens(bs[..|bs| - 1]) + TokensOf(bs[|bs| - 1]) }

  // ----- why there may be no number

  predicate Covered(f: Flags, w: Window) {
    f.coveredFromMs.Some? && f.coveredFromMs.value <= w.startMs && f.coveredToMs.Some? && f.coveredToMs.value >= w.endMs
  }

  predicate Misaligned(w: Window, s: Segment) {
    (s.startMs > w.startMs && s.startMs % SLOT != 0) || (s.endMs < w.endMs && s.endMs % SLOT != 0)
  }

  predicate InDisabledGap(f: Flags, w: Window) { f.disabled.Some? && w.startMs < f.disabled.value.endMs && w.endMs > f.disabled.value.startMs }

  // The first that applies.
  function Gate(w: Window, segments: seq<Segment>, priced: bool, mine: seq<Bucket>, f: Flags): Option<Reason> {
    if f.off || InDisabledGap(f, w) then Some(Disabled)
    else if !f.newapi then Some(PriceUnsupported)
    else if segments == [] then Some(NotStarted)
    else if f.keyShared then Some(KeyShared)
    else if f.groupAuto || exists i :: 0 <= i < |segments| && segments[i].auto then Some(GroupAuto)
    else if exists i :: 0 <= i < |segments| && segments[i].ambiguous then Some(KeyChangeRatioDiffers)
    else if w.startMs % SLOT != 0 || w.endMs % SLOT != 0 then Some(DayBoundaryUnsupported)
    else if exists i :: 0 <= i < |segments| && Misaligned(w, segments[i]) then Some(PartialHourUnsupported)
    else if f.coveredFromMs.Some? && f.coveredFromMs.value > w.startMs then Some(NotRecorded)
    else if !(f.coveredToMs.Some? && f.coveredToMs.value >= w.endMs) then Some(Lagging)
    else if !priced then Some(PriceUnreadable)
    else if exists b :: b in mine && !b.anthropic && b.cacheRead > b.prompt then Some(CacheFieldsUnknown)
    else None
  }

  // Tokens are known once the day has been read whole; not for a gap, nor for hours that are cut.
  function DayTokens(w: Window, segments: seq<Segment>, mine: seq<Bucket>, f: Flags, reason: Option<Reason>): Option<nat> {
    if !Covered(f, w) || (reason == Some(Disabled) && !f.off) || reason == Some(PartialHourUnsupported) then None
    else Some(Tokens(OwnOf(mine, segments)))
  }

  // ----- the number

  function UnitOf(quotaPerUnit: Option<real>): (unit: real)
    ensures unit > 0.0
  {
    if quotaPerUnit.Some? && quotaPerUnit.value > 0.0 then quotaPerUnit.value else DEFAULT_UNIT
  }

  function RatioOf(s: Segment): real { if s.ratio == 0.0 then 1.0 else s.ratio }

  function TermsOf(pricing: Pricing, s: Segment, unit: real): Terms { Terms(pricing, RatioOf(s), unit) }

  // What the day comes to, segment by segment.
  function SegmentsTotal(mine: seq<Bucket>, segments: seq<Segment>, pricing: Pricing, unit: real): real
    requires unit > 0.0
  {
    if segments == [] then 0.0
    else
      var s := segments[|segments| - 1];
      SegmentsTotal(mine, segments[..|segments| - 1], pricing, unit) + Total(Within(mine, s), TermsOf(pricing, s, unit))
  }

  predicate AnyMissing(mine: seq<Bucket>, segments: seq<Segment>, pricing: Pricing) {
    exists b :: b in mine && InSegments(segments, b) && Missing(b, pricing)
  }

  predicate AnyTiered(mine: seq<Bucket>, segments: seq<Segment>, pricing: Pricing) {
    exists b :: b in mine && InSegments(segments, b) && IsTiered(b, pricing)
  }

  // ----- rows by model over all segments

  // Each row added to the day's row of its model.
  function MergeRows(day: seq<Row>, rows: seq<Row>): seq<Row> {
    if rows == [] then day else AddRow(MergeRows(day, rows[..|rows| - 1]), rows[|rows| - 1])
  }

  method Merge(day: seq<Row>, rows: seq<Row>) returns (merged: seq<Row>)
    ensures merged == MergeRows(day, rows)
  {
    merged := day;
    for i := 0 to |rows|
      invariant merged == MergeRows(day, rows[..i])
    {
      assert rows[..i + 1][..i] == rows[..i];
      merged := AddRow(merged, rows[i]);
    }
    assert rows[..|rows|] == rows;
  }

  lemma {:induction false} MergedKeys(day: seq<Row>, rows: seq<Row>)
    requires OncePerKey(day)
    ensures OncePerKey(MergeRows(day, rows)) && KeysIn(MergeRows(day, rows)) == KeysIn(day) + KeysIn(rows)
    decreases |rows|
  {
    if rows == [] {
      assert KeysIn(day) + KeysIn([]) == KeysIn(day);
    } else {
      var front, r := rows[..|rows| - 1], rows[|rows| - 1];
      assert rows == front + [r];
      MergedKeys(day, front);
      KeysOneMore(front, r);
      OneRowPerKey(MergeRows(day, front), r);
    }
  }

  lemma {:induction false} MergedSums(day: seq<Row>, rows: seq<Row>, key: Key)
    ensures SumRows(MergeRows(day, rows)) == SumRows(day) + SumRows(rows)
    ensures UsdAt(MergeRows(day, rows), key) == UsdAt(day, key) + UsdAt(rows, key)
    decreases |rows|
  {
    if rows != [] {
      MergedSums(day, rows[..|rows| - 1], key);
      RowsGrowBy(MergeRows(day, rows[..|rows| - 1]), rows[|rows| - 1], key);
    }
  }

  // What the buckets of one model come to, segment by segment.
  function SegmentsKeyTotal(mine: seq<Bucket>, segments: seq<Segment>, key: Key, pricing: Pricing, unit: real): real
    requires unit > 0.0
  {
    if segments == [] then 0.0
    else
      var s := segments[|segments| - 1];
      SegmentsKeyTotal(mine, segments[..|segments| - 1], key, pricing, unit) + KeyTotal(Within(mine, s), key, TermsOf(pricing, s, unit))
  }

  // One row per model, with what its buckets come to; together they are the day's total.
  ghost predicate RowsOfDay(byModel: seq<Row>, mine: seq<Bucket>, segments: seq<Segment>, pricing: Pricing, unit: real)
    requires unit > 0.0
  {
    && OncePerKey(byModel) && SumRows(byModel) == SegmentsTotal(mine, segments, pricing, unit)
    && forall key :: UsdAt(byModel, key) == SegmentsKeyTotal(mine, segments, key, pricing, unit)
  }

  lemma RowsOfOneMore(byModel: seq<Row>, rows: seq<Row>, mine: seq<Bucket>, segments: seq<Segment>, s: Segment, pricing: Pricing, unit: real)
    requires unit > 0.0 && RowsOfDay(byModel, mine, segments, pricing, unit)
    requires RowsSoFar(rows, Within(mine, s), TermsOf(pricing, s, unit))
    ensures RowsOfDay(MergeRows(byModel, rows), mine, segments + [s], pricing, unit)
  {
    hide Total, KeyTotal, OncePerKey, Within, AddRow;
    MergedKeys(byModel, rows);
    assert (segments + [s])[..|segments|] == segments;
    forall key ensures UsdAt(MergeRows(byModel, rows), key) == SegmentsKeyTotal(mine, segments + [s], key, pricing, unit)
                       && SumRows(MergeRows(byModel, rows)) == SegmentsTotal(mine, segments + [s], pricing, unit) {
      MergedSums(byModel, rows, key);
    }
    MergedSums(byModel, rows, Key("", ""));
  }

  // ----- what was used, over all segments

  function UsedInDay(mine: seq<Bucket>, segments: seq<Segment>, key: Key, kind: Kind, pricing: Pricing): Counts {
    if segments == [] then NOTHING
    else
      var s := segments[|segments| - 1];
      Add(UsedInDay(mine, segments[..|segments| - 1], key, kind, pricing), Used(Within(mine, s), key, kind, pricing))
  }

  ghost predicate CountedOfDay(rows: seq<Row>, mine: seq<Bucket>, segments: seq<Segment>, kind: Kind, pricing: Pricing) {
    forall key :: CountsAt(rows, key) == UsedInDay(mine, segments, key, kind, pricing)
  }

  lemma {:induction false} MergedCounts(day: seq<Row>, rows: seq<Row>, key: Key)
    ensures CountsAt(MergeRows(day, rows), key) == Add(CountsAt(day, key), CountsAt(rows, key))
    decreases |rows|
  {
    hide AddRow, Add;
    if rows == [] {
      Together(CountsAt(day, key), NOTHING, NOTHING);
    } else {
      hide CountsAt;
      var front, r := rows[..|rows| - 1], rows[|rows| - 1];
      assert rows == front + [r];
      MergedCounts(day, front, key);
      CountsGrowBy(MergeRows(day, front), r, key);
      LastCounts(front, r, key);
      Together(CountsAt(day, key), CountsAt(front, key), CountsOf(r, key));
    }
  }

  lemma CountedOneMore(day: seq<Row>, rows: seq<Row>, mine: seq<Bucket>, segments: seq<Segment>, s: Segment, kind: Kind, pricing: Pricing)
    requires CountedOfDay(day, mine, segments, kind, pricing) && CountedSoFar(rows, Within(mine, s), kind, pricing)
    ensures CountedOfDay(MergeRows(day, rows), mine, segments + [s], kind, pricing)
  {
    hide Within, Used;
    assert (segments + [s])[..|segments|] == segments;
    forall key ensures CountsAt(MergeRows(day, rows), key) == UsedInDay(mine, segments + [s], key, kind, pricing) {
      MergedCounts(day, rows, key);
    }
  }

  // ----- models without a usable price, over all segments

  ghost predicate MissingAt(mine: seq<Bucket>, segments: seq<Segment>, key: Key, pricing: Pricing) {
    exists b :: b in mine && InSegments(segments, b) && KeyOf(b) == key && Missing(b, pricing)
  }

  ghost predicate TieredAt(mine: seq<Bucket>, segments: seq<Segment>, key: Key, pricing: Pricing) {
    exists b :: b in mine && InSegments(segments, b) && KeyOf(b) == key && IsTiered(b, pricing)
  }

  ghost predicate GapsOfDay(missing: seq<Row>, tiered: seq<Row>, mine: seq<Bucket>, segments: seq<Segment>, pricing: Pricing) {
    && OncePerKey(missing) && OncePerKey(tiered)
    && (forall key :: key in KeysIn(missing) <==> MissingAt(mine, segments, key, pricing))
    && (forall key :: key in KeysIn(tiered) <==> TieredAt(mine, segments, key, pricing))
  }

  lemma GapsOfOneMore(missing: seq<Row>, tiered: seq<Row>, m: seq<Row>, t: seq<Row>, mine: seq<Bucket>, segments: seq<Segment>,
                      s: Segment, pricing: Pricing)
    requires GapsOfDay(missing, tiered, mine, segments, pricing) && GapsSoFar(m, t, Within(mine, s), pricing)
    ensures GapsOfDay(MergeRows(missing, m), MergeRows(tiered, t), mine, segments + [s], pricing)
  {
    hide OncePerKey, KeysIn, Missing, IsTiered, InSegments;
    MergedKeys(missing, m);
    MergedKeys(tiered, t);
    InOneMore(segments, s);
    forall key ensures MissingAt(mine, segments + [s], key, pricing)
                       <==> MissingAt(mine, segments, key, pricing) || HasMissing(Within(mine, s), key, pricing) {
      if b :| b in mine && InSegments(segments + [s], b) && KeyOf(b) == key && Missing(b, pricing) {
        assert In(s.startMs, s.endMs, b) ==> b in Within(mine, s);
      }
    }
    forall key ensures TieredAt(mine, segments + [s], key, pricing)
                       <==> TieredAt(mine, segments, key, pricing) || HasTiered(Within(mine, s), key, pricing) {
      if b :| b in mine && InSegments(segments + [s], b) && KeyOf(b) == key && IsTiered(b, pricing) {
        assert In(s.startMs, s.endMs, b) ==> b in Within(mine, s);
      }
    }
  }

  lemma InOneMore(segments: seq<Segment>, s: Segment)
    ensures forall b :: InSegments(segments + [s], b) <==> InSegments(segments, b) || In(s.startMs, s.endMs, b)
  {
    forall b ensures InSegments(segments + [s], b) <==> InSegments(segments, b) || In(s.startMs, s.endMs, b) {
      if InSegments(segments, b) {
        var i :| 0 <= i < |segments| && In(segments[i].startMs, segments[i].endMs, b);
        assert (segments + [s])[i] == segments[i];
      }
      if In(s.startMs, s.endMs, b) { assert (segments + [s])[|segments|] == s; }
    }
  }

  lemma GapsMeanAny(missing: seq<Row>, tiered: seq<Row>, mine: seq<Bucket>, segments: seq<Segment>, pricing: Pricing)
    requires GapsOfDay(missing, tiered, mine, segments, pricing)
    ensures missing != [] <==> AnyMissing(mine, segments, pricing)
    ensures tiered != [] <==> AnyTiered(mine, segments, pricing)
  {
    hide Missing, IsTiered, InSegments;
    if missing != [] {
      assert missing[0].key in KeysIn(missing) && MissingAt(mine, segments, missing[0].key, pricing);
    }
    if tiered != [] {
      assert tiered[0].key in KeysIn(tiered) && TieredAt(mine, segments, tiered[0].key, pricing);
    }
    if b :| b in mine && InSegments(segments, b) && Missing(b, pricing) {
      assert MissingAt(mine, segments, KeyOf(b), pricing) && KeyOf(b) in KeysIn(missing);
    }
    if b :| b in mine && InSegments(segments, b) && IsTiered(b, pricing) {
      assert TieredAt(mine, segments, KeyOf(b), pricing) && KeyOf(b) in KeysIn(tiered);
    }
  }

  // ----- the amounts by segment

  // A segment's amount, unless one of its models has no usable price.
  ghost function PartOf(mine: seq<Bucket>, s: Segment, pricing: Pricing, unit: real): Option<real>
    requires unit > 0.0
  {
    if exists b :: b in Within(mine, s) && !Priced(b, pricing) then None else Some(Total(Within(mine, s), TermsOf(pricing, s, unit)))
  }

  ghost predicate PartsOfDay(parts: seq<Option<real>>, mine: seq<Bucket>, segments: seq<Segment>, pricing: Pricing, unit: real)
    requires unit > 0.0
  {
    |parts| == |segments| && forall i :: 0 <= i < |parts| ==> parts[i] == PartOf(mine, segments[i], pricing, unit)
  }

  // Unknown amounts count as zero.
  function SumKnown(parts: seq<Option<real>>): real {
    if parts == [] then 0.0
    else SumKnown(parts[..|parts| - 1]) + if parts[|parts| - 1].Some? then parts[|parts| - 1].value else 0.0
  }

  lemma {:induction false} PartsAddUp(parts: seq<Option<real>>, mine: seq<Bucket>, segments: seq<Segment>, pricing: Pricing, unit: real)
    requires unit > 0.0 && PartsOfDay(parts, mine, segments, pricing, unit)
    requires !AnyMissing(mine, segments, pricing) && !AnyTiered(mine, segments, pricing)
    ensures SumKnown(parts) == SegmentsTotal(mine, segments, pricing, unit)
    decreases |parts|
  {
    hide Total, Filter;
    if parts != [] {
      var n := |parts| - 1;
      InOneMore(segments[..n], segments[n]);
      assert segments == segments[..n] + [segments[n]];
      PartsAddUp(parts[..n], mine, segments[..n], pricing, unit);
      forall b | b in Within(mine, segments[n]) ensures Priced(b, pricing) {
        assert b in mine && InSegments(segments, b);
      }
    }
  }

  // ----- the day

  // With a number, it is the sum over the models, over the segments and (ExpectedCostSums) over the channels.
  method ExpectedCostForDay(w: Window, buckets: seq<Bucket>, channelIds: seq<int>, segments: seq<Segment>, pricing: Option<Pricing>,
                            quotaPerUnit: Option<real>, f: Flags) returns (day: Day)
    ensures var channels := Distinct(channelIds);
            var mine := Mine(buckets, channels, w);
            var gate := Gate(w, segments, pricing.Some?, mine, f);
            var unit := UnitOf(quotaPerUnit);
            && day.tokens == DayTokens(w, segments, mine, f, gate)
            && day.reason == (if gate.Some? then gate
                              else if AnyMissing(mine, segments, pricing.value) then Some(PriceMissing)
                              else if AnyTiered(mine, segments, pricing.value) then Some(PriceTiered) else None)
            && (day.usd.Some? <==> day.reason.None?)
            && (gate.Some? ==> day.byModel == [] && day.unpriced == [] && day.bySegment == [] && day.byChannel == [])
            && (gate.None? ==>
                  && RowsOfDay(day.byModel, mine, segments, pricing.value, unit)
                  && PartsOfDay(day.bySegment, mine, segments, pricing.value, unit)
                  && OncePerKey(day.unpriced)
                  && forall key :: key in KeysIn(day.unpriced) <==>
                       if AnyMissing(mine, segments, pricing.value) then MissingAt(mine, segments, key, pricing.value)
                       else TieredAt(mine, segments, key, pricing.value))
            && (gate.None? ==>
                  && CountedOfDay(day.byModel, mine, segments, Charged, pricing.value)
                  && (day.reason.Some? ==>
                        CountedOfDay(day.unpriced, mine, segments, if day.reason == Some(PriceMissing) then Unlisted else InTiers, pricing.value)))
            && (day.reason.None? ==>
                  && day.usd.value == SegmentsTotal(mine, segments, pricing.value, unit)
                  && day.usd.value == SumRows(day.byModel) == SumKnown(day.bySegment)
                  && day.unpriced == [] && |day.byChannel| == |channels|
                  && forall c :: 0 <= c < |channels| ==> day.byChannel[c] == SegmentsTotal(OfChannel(mine, channels[c]), segments, pricing.value, unit))
  {
    hide Gate, DayTokens, Filter, AnyMissing, AnyTiered, SegmentsTotal, UnitOf, OncePerKey, KeysIn, MissingAt, TieredAt, PartsOfDay, CountedOfDay;
    var channels := Distinct(channelIds);
    var mine := Mine(buckets, channels, w);
    var gate := Gate(w, segments, pricing.Some?, mine, f);
    var tokens := DayTokens(w, segments, mine, f, gate);
    if gate.Some? { return Day(None, gate, tokens, [], [], [], []); }
    NoGateMeansPriced(w, segments, pricing.Some?, mine, f);
    var table, unit := pricing.value, UnitOf(quotaPerUnit);
    var byModel, missing, tiered, bySegment := SegmentSums(mine, segments, table, unit);
    GapsMeanAny(missing, tiered, mine, segments, table);
    if missing != [] { return Day(None, Some(PriceMissing), tokens, byModel, missing, bySegment, []); }
    if tiered != [] { return Day(None, Some(PriceTiered), tokens, byModel, tiered, bySegment, []); }
    var byChannel := ChannelSums(mine, channels, segments, table, unit);
    PartsAddUp(bySegment, mine, segments, table, unit);
    day := Day(Some(SumKnown(bySegment)), None, tokens, byModel, [], bySegment, byChannel);
  }

  lemma NoGateMeansPriced(w: Window, segments: seq<Segment>, priced: bool, mine: seq<Bucket>, f: Flags)
    ensures Gate(w, segments, priced, mine, f).None? ==> priced
  {}

  method ChannelSums(mine: seq<Bucket>, channels: seq<int>, segments: seq<Segment>, pricing: Pricing, unit: real) returns (byChannel: seq<real>)
    requires unit > 0.0 && !AnyMissing(mine, segments, pricing) && !AnyTiered(mine, segments, pricing)
    ensures |byChannel| == |channels|
    ensures forall i :: 0 <= i < |channels| ==> byChannel[i] == SegmentsTotal(OfChannel(mine, channels[i]), segments, pricing, unit)
  {
    hide SegmentsTotal, RowsOfDay, GapsOfDay, PartsOfDay, AnyMissing, AnyTiered;
    byChannel := [];
    for c := 0 to |channels|
      invariant |byChannel| == c
      invariant forall i :: 0 <= i < c ==> byChannel[i] == SegmentsTotal(OfChannel(mine, channels[i]), segments, pricing, unit)
    {
      var part := OfChannel(mine, channels[c]);
      var rows, m, t, parts := SegmentSums(part, segments, pricing, unit);
      FewerMissing(mine, part, segments, pricing);
      PartsAddUp(parts, part, segments, pricing, unit);
      byChannel := byChannel + [SumKnown(parts)];
    }
  }

  lemma FewerMissing(mine: seq<Bucket>, some: seq<Bucket>, segments: seq<Segment>, pricing: Pricing)
    requires forall b :: b in some ==> b in mine
    ensures AnyMissing(some, segments, pricing) ==> AnyMissing(mine, segments, pricing)
    ensures AnyTiered(some, segments, pricing) ==> AnyTiered(mine, segments, pricing)
  {}

  // The loop over the segments.
  method SegmentSums(mine: seq<Bucket>, segments: seq<Segment>, pricing: Pricing, unit: real)
    returns (byModel: seq<Row>, missing: seq<Row>, tiered: seq<Row>, bySegment: seq<Option<real>>)
    requires unit > 0.0
    ensures RowsOfDay(byModel, mine, segments, pricing, unit)
    ensures GapsOfDay(missing, tiered, mine, segments, pricing)
    ensures PartsOfDay(bySegment, mine, segments, pricing, unit)
    ensures CountedOfDay(byModel, mine, segments, Charged, pricing)
    ensures CountedOfDay(missing, mine, segments, Unlisted, pricing) && CountedOfDay(tiered, mine, segments, InTiers, pricing)
  {
    NoneYet(mine, pricing, unit);
    hide Total, Filter, RowsOfDay, GapsOfDay, CountedOfDay;
    byModel, missing, tiered, bySegment := [], [], [], [];
    for i := 0 to |segments|
      invariant RowsOfDay(byModel, mine, segments[..i], pricing, unit)
      invariant GapsOfDay(missing, tiered, mine, segments[..i], pricing)
      invariant PartsOfDay(bySegment, mine, segments[..i], pricing, unit)
      invariant CountedOfDay(byModel, mine, segments[..i], Charged, pricing)
      invariant CountedOfDay(missing, mine, segments[..i], Unlisted, pricing) && CountedOfDay(tiered, mine, segments[..i], InTiers, pricing)
    {
      var s := segments[i];
      var r := ExpectedCostOf(Within(mine, s), TermsOf(pricing, s, unit));
      RowsOfOneMore(byModel, r.byModel, mine, segments[..i], s, pricing, unit);
      GapsOfOneMore(missing, tiered, r.missing, r.tiered, mine, segments[..i], s, pricing);
      CountedOneMore(byModel, r.byModel, mine, segments[..i], s, Charged, pricing);
      CountedOneMore(missing, r.missing, mine, segments[..i], s, Unlisted, pricing);
      CountedOneMore(tiered, r.tiered, mine, segments[..i], s, InTiers, pricing);
      assert segments[..i + 1] == segments[..i] + [s];
      missing := Merge(missing, r.missing);
      tiered := Merge(tiered, r.tiered);
      byModel := Merge(byModel, r.byModel);
      bySegment := bySegment + [r.usd];
    }
    assert segments[..|segments|] == segments;
  }

  lemma NoneYet(mine: seq<Bucket>, pricing: Pricing, unit: real)
    requires unit > 0.0
    ensures RowsOfDay([], mine, [], pricing, unit) && GapsOfDay([], [], mine, [], pricing)
    ensures forall kind :: CountedOfDay([], mine, [], kind, pricing)
  {}
}
