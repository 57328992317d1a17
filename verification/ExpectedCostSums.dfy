// How the day's number divides: by segment, by channel, in any order of the buckets; and how two bindings share a day's tokens.
module ExpectedCostSums {
  import opened Outcomes
  import opened Sequences
  import opened ExpectedCost
  import opened ExpectedCostDay

  // ----- the order of buckets does not matter

  function Without(bs: seq<Bucket>, i: nat): seq<Bucket>
    requires i < |bs|
  {
    bs[..i] + bs[i + 1..]
  }

  lemma {:induction false} TotalWithout(bs: seq<Bucket>, i: nat, t: Terms)
    requires i < |bs| && t.unit > 0.0
    ensures Total(bs, t) == Cost(bs[i], t) + Total(Without(bs, i), t)
    decreases |bs|
  {
    hide Cost;
    var n := |bs| - 1;
    if i < n {
      TotalWithout(bs[..n], i, t);
      assert Without(bs, i)[..n - 1] == Without(bs[..n], i);
    } else {
      assert Without(bs, i) == bs[..n];
    }
  }

  lemma TakenOut(bs: seq<Bucket>, i: nat)
    requires i < |bs|
    ensures multiset(bs) == multiset(Without(bs, i)) + multiset{bs[i]}
  {
    assert bs == bs[..i] + [bs[i]] + bs[i + 1..];
  }

  // Where the last bucket of one order is in the other.
  lemma LastOf(bs: seq<Bucket>, other: seq<Bucket>) returns (i: nat)
    requires multiset(bs) == multiset(other) && bs != []
    ensures i < |other| && other[i] == bs[|bs| - 1] && multiset(Without(other, i)) == multiset(bs[..|bs| - 1])
  {
    var n := |bs| - 1;
    assert bs[n] in multiset(bs);
    i :| 0 <= i < |other| && other[i] == bs[n];
    TakenOut(other, i);
    TakenOut(bs, n);
    assert Without(bs, n) == bs[..n];
    hide Without;
    assert multiset(Without(other, i)) == multiset(other) - multiset{bs[n]};
  }

  lemma {:induction false} TotalInAnyOrder(bs: seq<Bucket>, other: seq<Bucket>, t: Terms)
    requires multiset(bs) == multiset(other) && t.unit > 0.0
    ensures Total(bs, t) == Total(other, t)
    decreases |bs|
  {
    hide Cost;
    if bs == [] {
      assert |other| == |multiset(other)| == 0;
    } else {
      var i := LastOf(bs, other);
      TotalWithout(other, i, t);
      TotalInAnyOrder(bs[..|bs| - 1], Without(other, i), t);
    }
  }

  lemma {:induction false} FilterCounts(bs: seq<Bucket>, keep: Bucket -> bool, b: Bucket)
    ensures multiset(Filter(bs, keep))[b] == if keep(b) then multiset(bs)[b] else 0
  {
    if bs != [] {
      var front, last := bs[..|bs| - 1], bs[|bs| - 1];
      assert bs == front + [last];
      FilterCounts(front, keep, b);
    }
  }

  lemma FilterPermutes(bs: seq<Bucket>, other: seq<Bucket>, keep: Bucket -> bool)
    requires multiset(bs) == multiset(other)
    ensures multiset(Filter(bs, keep)) == multiset(Filter(other, keep))
  {
    forall b ensures multiset(Filter(bs, keep))[b] == multiset(Filter(other, keep))[b] {
      FilterCounts(bs, keep, b);
      FilterCounts(other, keep, b);
    }
  }

  lemma {:induction false} SegmentsInAnyOrder(bs: seq<Bucket>, other: seq<Bucket>, segments: seq<Segment>, pricing: Pricing, unit: real)
    requires multiset(bs) == multiset(other) && unit > 0.0
    ensures SegmentsTotal(bs, segments, pricing, unit) == SegmentsTotal(other, segments, pricing, unit)
  {
    hide Total, Filter;
    if segments != [] {
      var s := segments[|segments| - 1];
      SegmentsInAnyOrder(bs, other, segments[..|segments| - 1], pricing, unit);
      FilterPermutes(bs, other, b => In(s.startMs, s.endMs, b));
      TotalInAnyOrder(Within(bs, s), Within(other, s), TermsOf(pricing, s, unit));
    }
  }

  function OfKey(bs: seq<Bucket>, key: Key): seq<Bucket> { Filter(bs, b => KeyOf(b) == key) }

  lemma {:induction false} KeyTotalIsTotal(bs: seq<Bucket>, key: Key, t: Terms)
    requires t.unit > 0.0
    ensures KeyTotal(bs, key, t) == Total(OfKey(bs, key), t)
  {
    hide Cost, KeyOf, Priced;
    if bs != [] {
      var front, b := bs[..|bs| - 1], bs[|bs| - 1];
      assert bs == front + [b];
      KeyTotalIsTotal(front, key, t);
      OneMore(OfKey(front, key), b, t);
      LastFiltered(front, b, (x: Bucket) => KeyOf(x) == key);
    }
  }

  lemma {:induction false} ModelInAnyOrder(bs: seq<Bucket>, other: seq<Bucket>, segments: seq<Segment>, key: Key, pricing: Pricing, unit: real)
    requires multiset(bs) == multiset(other) && unit > 0.0
    ensures SegmentsKeyTotal(bs, segments, key, pricing, unit) == SegmentsKeyTotal(other, segments, key, pricing, unit)
  {
    hide Total, Filter, KeyTotal, KeyOf;
    if segments != [] {
      var s := segments[|segments| - 1];
      var terms := TermsOf(pricing, s, unit);
      ModelInAnyOrder(bs, other, segments[..|segments| - 1], key, pricing, unit);
      FilterPermutes(bs, other, b => In(s.startMs, s.endMs, b));
      var a, b := Within(bs, s), Within(other, s);
      FilterPermutes(a, b, (x: Bucket) => KeyOf(x) == key);
      TotalInAnyOrder(OfKey(a, key), OfKey(b, key), terms);
      KeyTotalIsTotal(a, key, terms);
      KeyTotalIsTotal(b, key, terms);
    }
  }

  lemma {:induction false} TokensWithout(bs: seq<Bucket>, i: nat)
    requires i < |bs|
    ensures Tokens(bs) == TokensOf(bs[i]) + Tokens(Without(bs, i))
    decreases |bs|
  {
    var n := |bs| - 1;
    if i < n {
      TokensWithout(bs[..n], i);
      assert Without(bs, i)[..n - 1] == Without(bs[..n], i);
    } else {
      assert Without(bs, i) == bs[..n];
    }
  }

  lemma {:induction false} TokensInAnyOrder(bs: seq<Bucket>, other: seq<Bucket>)
    requires multiset(bs) == multiset(other)
    ensures Tokens(bs) == Tokens(other)
    decreases |bs|
  {
    hide TokensOf;
    if bs == [] {
      assert |other| == |multiset(other)| == 0;
    } else {
      var i := LastOf(bs, other);
      TokensWithout(other, i);
      TokensInAnyOrder(bs[..|bs| - 1], Without(other, i));
    }
  }

  lemma SameMembers(bs: seq<Bucket>, other: seq<Bucket>)
    requires multiset(bs) == multiset(other)
    ensures forall b :: b in bs <==> b in other
  {
    forall b ensures b in bs <==> b in other {
      assert b in multiset(bs) <==> b in multiset(other);
    }
  }

  // Whatever the order in which the day's buckets are read: the same reason, tokens, total, amounts by model and channel
  // shares.
  lemma DayInAnyOrder(w: Window, buckets: seq<Bucket>, other: seq<Bucket>, channels: seq<int>, segments: seq<Segment>,
                      pricing: Pricing, priced: bool, unit: real, f: Flags, c: int, key: Key)
    requires multiset(buckets) == multiset(other) && unit > 0.0
    ensures var mine, mine' := Mine(buckets, channels, w), Mine(other, channels, w);
            var gate := Gate(w, segments, priced, mine, f);
            && gate == Gate(w, segments, priced, mine', f)
            && DayTokens(w, segments, mine, f, gate) == DayTokens(w, segments, mine', f, gate)
            && AnyMissing(mine, segments, pricing) == AnyMissing(mine', segments, pricing)
            && AnyTiered(mine, segments, pricing) == AnyTiered(mine', segments, pricing)
            && SegmentsTotal(mine, segments, pricing, unit) == SegmentsTotal(mine', segments, pricing, unit)
            && SegmentsKeyTotal(mine, segments, key, pricing, unit) == SegmentsKeyTotal(mine', segments, key, pricing, unit)
            && SegmentsTotal(OfChannel(mine, c), segments, pricing, unit) == SegmentsTotal(OfChannel(mine', c), segments, pricing, unit)
  {
    hide Filter, Tokens, SegmentsTotal, SegmentsKeyTotal, InSegments, Missing, IsTiered;
    FilterPermutes(buckets, other, (b: Bucket) => b.channel in channels && In(w.startMs, w.endMs, b));
    var mine, mine' := Mine(buckets, channels, w), Mine(other, channels, w);
    SameMembers(mine, mine');
    FilterPermutes(mine, mine', (b: Bucket) => InSegments(segments, b));
    TokensInAnyOrder(OwnOf(mine, segments), OwnOf(mine', segments));
    SegmentsInAnyOrder(mine, mine', segments, pricing, unit);
    ModelInAnyOrder(mine, mine', segments, key, pricing, unit);
    FilterPermutes(mine, mine', (b: Bucket) => b.channel == c);
    SegmentsInAnyOrder(OfChannel(mine, c), OfChannel(mine', c), segments, pricing, unit);
  }

  // ----- by channel

  function ChannelsTotal(bs: seq<Bucket>, channels: seq<int>, t: Terms): real
    requires t.unit > 0.0
  {
    if channels == [] then 0.0
    else ChannelsTotal(bs, channels[..|channels| - 1], t) + Total(OfChannel(bs, channels[|channels| - 1]), t)
  }

  lemma ChannelOneMore(bs: seq<Bucket>, b: Bucket, c: int)
    ensures OfChannel(bs + [b], c) == OfChannel(bs, c) + if b.channel == c then [b] else []
  {
    assert (bs + [b])[..|bs|] == bs;
  }

  lemma WithinOneMore(bs: seq<Bucket>, b: Bucket, s: Segment)
    ensures Within(bs + [b], s) == Within(bs, s) + if In(s.startMs, s.endMs, b) then [b] else []
  {
    assert (bs + [b])[..|bs|] == bs;
  }

  lemma {:induction false} OneBucketMore(bs: seq<Bucket>, b: Bucket, channels: seq<int>, t: Terms)
    requires t.unit > 0.0 && forall i, j :: 0 <= i < j < |channels| ==> channels[i] != channels[j]
    ensures ChannelsTotal(bs + [b], channels, t) == ChannelsTotal(bs, channels, t) + if b.channel in channels then Cost(b, t) else 0.0
  {
    hide Cost, Total, Filter, OfChannel;
    if channels != [] {
      var n := |channels| - 1;
      var c := channels[n];
      OneBucketMore(bs, b, channels[..n], t);
      ChannelOneMore(bs, b, c);
      OneMore(OfChannel(bs, c), b, t);
      assert OfChannel(bs, c) + [] == OfChannel(bs, c);
      assert channels == channels[..n] + [c];
      assert b.channel == c ==> b.channel !in channels[..n];
    }
  }

  // The channels' shares of some buckets add up to the whole.
  lemma {:induction false} SumsByChannel(bs: seq<Bucket>, channels: seq<int>, t: Terms)
    requires t.unit > 0.0 && forall i, j :: 0 <= i < j < |channels| ==> channels[i] != channels[j]
    requires forall b :: b in bs ==> b.channel in channels
    ensures ChannelsTotal(bs, channels, t) == Total(bs, t)
  {
    hide Cost;
    if bs == [] {
      NothingByChannel(channels, t);
    } else {
      var front, b := bs[..|bs| - 1], bs[|bs| - 1];
      assert bs == front + [b];
      SumsByChannel(front, channels, t);
      OneBucketMore(front, b, channels, t);
    }
  }

  lemma {:induction false} NothingByChannel(channels: seq<int>, t: Terms)
    requires t.unit > 0.0
    ensures ChannelsTotal([], channels, t) == 0.0
  {
    if channels != [] {
      NothingByChannel(channels[..|channels| - 1], t);
    }
  }

  lemma {:induction false} FiltersCommute(bs: seq<Bucket>, s: Segment, c: int)
    ensures Within(OfChannel(bs, c), s) == OfChannel(Within(bs, s), c)
  {
    if bs == [] {
    } else {
      var front, b := bs[..|bs| - 1], bs[|bs| - 1];
      assert bs == front + [b];
      hide Within, OfChannel, Filter;
      FiltersCommute(front, s, c);
      ChannelOneMore(front, b, c);
      WithinOneMore(front, b, s);
      if b.channel == c {
        WithinOneMore(OfChannel(front, c), b, s);
      } else {
        assert OfChannel(front, c) + [] == OfChannel(front, c);
      }
      if In(s.startMs, s.endMs, b) {
        ChannelOneMore(Within(front, s), b, c);
      } else {
        assert Within(front, s) + [] == Within(front, s);
      }
    }
  }

  lemma LastFiltered(bs: seq<Bucket>, b: Bucket, keep: Bucket -> bool)
    ensures Filter(bs + [b], keep) == if keep(b) then Filter(bs, keep) + [b] else Filter(bs, keep)
  {
    assert (bs + [b])[..|bs|] == bs;
  }

  function Sum(xs: seq<real>): real { if xs == [] then 0.0 else Sum(xs[..|xs| - 1]) + xs[|xs| - 1] }

  function ByChannel(mine: seq<Bucket>, channels: seq<int>, segments: seq<Segment>, pricing: Pricing, unit: real): real
    requires unit > 0.0
  {
    if channels == [] then 0.0
    else
      var c := channels[|channels| - 1];
      ByChannel(mine, channels[..|channels| - 1], segments, pricing, unit) + SegmentsTotal(OfChannel(mine, c), segments, pricing, unit)
  }

  lemma {:induction false} ListedByChannel(mine: seq<Bucket>, channels: seq<int>, segments: seq<Segment>, pricing: Pricing, unit: real, shares: seq<real>)
    requires unit > 0.0 && |shares| == |channels|
    requires forall i :: 0 <= i < |shares| ==> shares[i] == SegmentsTotal(OfChannel(mine, channels[i]), segments, pricing, unit)
    ensures Sum(shares) == ByChannel(mine, channels, segments, pricing, unit)
  {
    if channels != [] {
      ListedByChannel(mine, channels[..|channels| - 1], segments, pricing, unit, shares[..|shares| - 1]);
    }
  }

  lemma {:induction false} SegmentMoreByChannel(mine: seq<Bucket>, channels: seq<int>, segments: seq<Segment>, pricing: Pricing, unit: real)
    requires unit > 0.0 && segments != []
    ensures ByChannel(mine, channels, segments, pricing, unit)
         == ByChannel(mine, channels, segments[..|segments| - 1], pricing, unit)
            + ChannelsTotal(Within(mine, segments[|segments| - 1]), channels, TermsOf(pricing, segments[|segments| - 1], unit))
  {
    hide Total, Filter;
    if channels != [] {
      var c := channels[|channels| - 1];
      SegmentMoreByChannel(mine, channels[..|channels| - 1], segments, pricing, unit);
      FiltersCommute(mine, segments[|segments| - 1], c);
    }
  }

  // The channels' costs add up to the day's, over all segments.
  lemma {:induction false} DayByChannel(mine: seq<Bucket>, channels: seq<int>, segments: seq<Segment>, pricing: Pricing, unit: real)
    requires unit > 0.0 && forall i, j :: 0 <= i < j < |channels| ==> channels[i] != channels[j]
    requires forall b :: b in mine ==> b.channel in channels
    ensures ByChannel(mine, channels, segments, pricing, unit) == SegmentsTotal(mine, segments, pricing, unit)
  {
    if segments == [] {
      NoSegments(mine, channels, pricing, unit);
    } else {
      var n := |segments| - 1;
      DayByChannel(mine, channels, segments[..n], pricing, unit);
      SegmentMoreByChannel(mine, channels, segments, pricing, unit);
      SumsByChannel(Within(mine, segments[n]), channels, TermsOf(pricing, segments[n], unit));
    }
  }

  lemma {:induction false} NoSegments(mine: seq<Bucket>, channels: seq<int>, pricing: Pricing, unit: real)
    requires unit > 0.0
    ensures ByChannel(mine, channels, [], pricing, unit) == 0.0
  {
    if channels != [] {
      NoSegments(mine, channels[..|channels| - 1], pricing, unit);
    }
  }

  // As the method reports them: a day with a number has channel shares that add up to it.
  method DayAddsUp(w: Window, buckets: seq<Bucket>, channelIds: seq<int>, segments: seq<Segment>, pricing: Option<Pricing>,
                   quotaPerUnit: Option<real>, f: Flags) returns (day: Day)
    ensures day.usd.Some? ==> day.usd.value == Sum(day.byChannel)
  {
    day := ExpectedCostForDay(w, buckets, channelIds, segments, pricing, quotaPerUnit, f);
    ghost var channels := Distinct(channelIds);
    ghost var mine := Mine(buckets, channels, w);
    if day.usd.Some? {
      hide Gate, DayTokens, AnyMissing, AnyTiered, SegmentsTotal, Filter;
      NoGateMeansPriced(w, segments, pricing.Some?, mine, f);
      DayByChannel(mine, channels, segments, pricing.value, UnitOf(quotaPerUnit));
      ListedByChannel(mine, channels, segments, pricing.value, UnitOf(quotaPerUnit), day.byChannel);
    }
  }

  // ----- two bindings of the same channels on one day

  // The segments of the two share no hour and together cover the day.
  predicate Shared(w: Window, first: seq<Segment>, second: seq<Segment>, mine: seq<Bucket>) {
    && (forall b :: b in mine && InSegments(first, b) ==> !InSegments(second, b))
    && (forall b :: b in mine ==> InSegments(first, b) || InSegments(second, b))
  }

  lemma {:induction false} TokensShared(mine: seq<Bucket>, first: seq<Segment>, second: seq<Segment>, w: Window)
    requires Shared(w, first, second, mine)
    ensures Tokens(OwnOf(mine, first)) + Tokens(OwnOf(mine, second)) == Tokens(mine)
  {
    if mine != [] {
      var front, b := mine[..|mine| - 1], mine[|mine| - 1];
      assert mine == front + [b] && b in mine;
      TokensShared(front, first, second, w);
      LastFiltered(front, b, (x: Bucket) => InSegments(first, x));
      LastFiltered(front, b, (x: Bucket) => InSegments(second, x));
      TokensOneMore(OwnOf(front, first), b);
      TokensOneMore(OwnOf(front, second), b);
    }
  }

  lemma TokensOneMore(bs: seq<Bucket>, b: Bucket)
    ensures Tokens(bs + [b]) == Tokens(bs) + TokensOf(b)
  {
    assert (bs + [b])[..|bs|] == bs;
  }

  // Both report their tokens exactly when each has the day read whole, is switched off or outside of the gap, and has no
  // hour cut; and then these add up to the day's.
  lemma BindingsShareTokens(w: Window, mine: seq<Bucket>, first: seq<Segment>, second: seq<Segment>, priced: bool, f: Flags, f': Flags)
    requires Shared(w, first, second, mine)
    ensures var gate, gate' := Gate(w, first, priced, mine, f), Gate(w, second, priced, mine, f');
            var a, b := DayTokens(w, first, mine, f, gate), DayTokens(w, second, mine, f', gate');
            && (a.Some? && b.Some? ==> a.value + b.value == Tokens(mine))
            && (a.Some? <==> Covered(f, w) && (f.off || !InDisabledGap(f, w)) && gate != Some(PartialHourUnsupported))
            && (b.Some? <==> Covered(f', w) && (f'.off || !InDisabledGap(f', w)) && gate' != Some(PartialHourUnsupported))
  {
    hide Gate, DayTokens, InSegments;
    TokensShared(mine, first, second, w);
    TokensGiven(w, first, priced, mine, f);
    TokensGiven(w, second, priced, mine, f');
  }

  lemma TokensGiven(w: Window, segments: seq<Segment>, priced: bool, mine: seq<Bucket>, f: Flags)
    ensures var gate := Gate(w, segments, priced, mine, f);
            var tokens := DayTokens(w, segments, mine, f, gate);
            && (tokens.Some? <==> Covered(f, w) && (f.off || !InDisabledGap(f, w)) && gate != Some(PartialHourUnsupported))
            && (tokens.Some? ==> tokens.value == Tokens(OwnOf(mine, segments)))
  {
    hide Tokens, OwnOf;
  }

  // ----- what a number stands for

  // Where a number is given no hour is cut: every hourly bucket of the day lies within a segment or outside of it altogether.
  lemma HoursAreNotCut(w: Window, segments: seq<Segment>, priced: bool, mine: seq<Bucket>, f: Flags, b: Bucket, i: nat)
    requires Gate(w, segments, priced, mine, f).None? && i < |segments|
    requires b.slot % SLOT == 0 && In(w.startMs, w.endMs, b)
    ensures if In(segments[i].startMs, segments[i].endMs, b) then b.slot + SLOT <= segments[i].endMs
            else b.slot + SLOT <= segments[i].startMs || b.slot >= segments[i].endMs
  {
    var s := segments[i];
    assert !Misaligned(w, s);
    WholeHours(b.slot, w.endMs);
    WholeHours(b.slot, s.startMs);
    WholeHours(b.slot, s.endMs);
  }

  lemma WholeHours(a: int, b: int)
    requires a % SLOT == 0
    ensures b % SLOT == 0 && a < b ==> a + SLOT <= b
  {
    if b % SLOT == 0 && a < b {
      assert a == a / SLOT * SLOT && b == b / SLOT * SLOT;
    }
  }

  // And the logs have been read to the end of the day; the tokens are known too exactly when it is known where they begin.
  lemma NumberNeedsWholeDay(w: Window, segments: seq<Segment>, priced: bool, mine: seq<Bucket>, f: Flags)
    requires Gate(w, segments, priced, mine, f).None?
    ensures f.coveredToMs.Some? && f.coveredToMs.value >= w.endMs && !f.off && !InDisabledGap(f, w)
    ensures DayTokens(w, segments, mine, f, None).Some? <==> f.coveredFromMs.Some?
  {}
}
