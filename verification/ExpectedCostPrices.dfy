// What a bucket, a day and a missing number stand for: the charge against the list of prices, each bucket at the ratio of its
// segment, and the reasons in their order.
module ExpectedCostPrices {
  import opened Outcomes
  import opened ExpectedCost
  import opened ExpectedCostDay
  import opened ExpectedCostSums

  // ----- tokens and prices

  // Tokens read from and written to the cache are part of the prompt's, except where the service counts them separately.
  lemma InputIs(b: Bucket)
    ensures var cached := b.cacheRead + b.cacheWrite;
            if b.anthropic || (b.cacheWrite1h > 0 && b.cacheWrite > 0) then Input(b) == b.prompt
            else (b.prompt >= cached ==> Input(b) + cached == b.prompt) && (b.prompt < cached ==> Input(b) == 0)
  {}

  // Dollars per million tokens before the group's ratio, as listed beside the amounts.
  datatype Listed = Listed(input: real, output: real, cacheRead: real, cacheWrite: real)

  function ListOf(p: Price, unit: real): Listed
    requires p.PerToken? && unit > 0.0
  {
    var input := p.modelRatio * 1000000.0 / unit;
    Listed(input, input * p.completionRatio, input * p.cacheRatio, input * p.createCacheRatio)
  }

  function ByList(b: Bucket, l: Listed): real {
    Input(b) as real * l.input + b.completion as real * l.output + b.cacheRead as real * l.cacheRead + b.cacheWrite as real * l.cacheWrite
  }

  // Of the tokens written to the cache, those kept for an hour, never more than all of them.
  function ForAnHour(b: Bucket): nat { if b.cacheWrite1h <= b.cacheWrite then b.cacheWrite1h else b.cacheWrite }

  // A bucket costs what the listed prices make of its tokens, times the group's ratio, and three fifths of the listed price more
  // for each token written for an hour. So the list explains the charge exactly when nothing was written for an hour, or
  // writing or the group costs nothing.
  lemma ChargeAgainstList(b: Bucket, t: Terms)
    requires t.unit > 0.0 && PricedAs(b) in t.pricing && t.pricing[PricedAs(b)].PerToken?
    ensures var l := ListOf(t.pricing[PricedAs(b)], t.unit);
            && Cost(b, t) * 1000000.0 == (ByList(b, l) + ForAnHour(b) as real * l.cacheWrite * 0.6) * t.ratio
            && (Cost(b, t) * 1000000.0 == ByList(b, l) * t.ratio <==> ForAnHour(b) == 0 || l.cacheWrite == 0.0 || t.ratio == 0.0)
  {
    var p := t.pricing[PricedAs(b)];
    var l := ListOf(p, t.unit);
    assert Write1h(b) == ForAnHour(b);
    var extra := ForAnHour(b) as real * l.cacheWrite * 0.6;
    Charged(Input(b) as real, b.cacheRead as real, b.cacheWrite as real, ForAnHour(b) as real, b.completion as real, p, t.ratio, t.unit);
    Differ(ByList(b, l), extra, t.ratio);
    NoProduct(ForAnHour(b) as real, l.cacheWrite, t.ratio);
  }

  lemma Differ(a: real, extra: real, ratio: real)
    ensures (a + extra) * ratio == a * ratio <==> extra * ratio == 0.0
  {
    assert (a + extra) * ratio == a * ratio + extra * ratio;
  }

  lemma NoProduct(a: real, b: real, c: real)
    ensures a * b * 0.6 * c == 0.0 <==> a == 0.0 || b == 0.0 || c == 0.0
  {
    if a != 0.0 && b != 0.0 && c != 0.0 {
      NonZero(a, b);
      NonZero(a * b, 0.6);
      NonZero(a * b * 0.6, c);
    }
  }

  lemma NonZero(a: real, b: real)
    requires a != 0.0 && b != 0.0
    ensures a * b != 0.0
  {}

  lemma Charged(input: real, read: real, write: real, hour: real, output: real, p: Price, ratio: real, unit: real)
    requires p.PerToken? && unit > 0.0
    ensures var l := ListOf(p, unit);
            (input + read * p.cacheRatio + (write - hour) * p.createCacheRatio + hour * p.createCacheRatio * CACHE_WRITE_1H + output * p.completionRatio)
              * p.modelRatio * ratio / unit * 1000000.0
            == (input * l.input + output * l.output + read * l.cacheRead + write * l.cacheWrite + hour * l.cacheWrite * 0.6) * ratio
  {
    var m := ListOf(p, unit).input;
    var weight := input + read * p.cacheRatio + (write - hour) * p.createCacheRatio + hour * p.createCacheRatio * CACHE_WRITE_1H + output * p.completionRatio;
    calc {
      weight * p.modelRatio * ratio / unit * 1000000.0;
      == { Reorder(weight, p.modelRatio, ratio, unit); }
      weight * m * ratio;
      == { Spread(input, read, write, hour, output, p.cacheRatio, p.createCacheRatio, p.completionRatio, m); }
      (input * m + output * (m * p.completionRatio) + read * (m * p.cacheRatio) + write * (m * p.createCacheRatio)
       + hour * (m * p.createCacheRatio) * 0.6) * ratio;
    }
  }

  lemma Reorder(weight: real, ratio: real, group: real, unit: real)
    requires unit > 0.0
    ensures weight * ratio * group / unit * 1000000.0 == weight * (ratio * 1000000.0 / unit) * group
  {
    var x := ratio / unit;
    assert x * unit == ratio;
    assert ratio * 1000000.0 / unit == x * 1000000.0;
    assert weight * ratio * group == weight * x * group * unit;
  }

  lemma Spread(input: real, read: real, write: real, hour: real, output: real, c: real, w: real, o: real, m: real)
    ensures (input + read * c + (write - hour) * w + hour * w * CACHE_WRITE_1H + output * o) * m
         == input * m + output * (m * o) + read * (m * c) + write * (m * w) + hour * (m * w) * 0.6
  {
    assert (write - hour) * w == write * w - hour * w;
    assert hour * w * CACHE_WRITE_1H == hour * w + hour * w * 0.6;
    assert output * o * m == output * (m * o);
    assert read * c * m == read * (m * c);
    assert write * w * m == write * (m * w);
    assert hour * w * 0.6 * m == hour * (m * w) * 0.6;
  }

  // A price per call takes no account of tokens; the name the upstream knows a model by comes first; without a price nothing is
  // charged.
  lemma OtherCharges(b: Bucket, t: Terms)
    requires t.unit > 0.0
    ensures PricedAs(b) == (if b.upstreamModel == "" then b.model else b.upstreamModel)
    ensures PricedAs(b) in t.pricing && t.pricing[PricedAs(b)].PerCall?
            ==> Cost(b, t) == b.requests as real * (t.pricing[PricedAs(b)].modelPrice * t.ratio)
    ensures KindOf(b, t.pricing) != ExpectedCost.Charged ==> Cost(b, t) == 0.0
  {}

  // ----- the day, bucket by bucket

  // Which buckets of the station are the binding's, as often as they are listed.
  lemma MineIs(buckets: seq<Bucket>, channels: seq<int>, w: Window, b: Bucket)
    ensures multiset(Mine(buckets, channels, w))[b]
         == if b.channel in channels && w.startMs <= b.slot && b.slot < w.endMs then multiset(buckets)[b] else 0
  {
    FilterCounts(buckets, (b: Bucket) => b.channel in channels && In(w.startMs, w.endMs, b), b);
  }

  // The segment a bucket lies in, when it lies in no other.
  predicate LiesIn(segments: seq<Segment>, b: Bucket, i: nat) {
    i < |segments| && forall j :: 0 <= j < |segments| ==> (segments[j].startMs <= b.slot && b.slot < segments[j].endMs <==> j == i)
  }

  predicate Outside(segments: seq<Segment>, b: Bucket) {
    forall j :: 0 <= j < |segments| ==> b.slot < segments[j].startMs || b.slot >= segments[j].endMs
  }

  // A ratio of zero stands for one; without a positive quota per dollar there are 500000.
  function At(b: Bucket, s: Segment, pricing: Pricing, quotaPerUnit: Option<real>): real {
    Cost(b, Terms(pricing, if s.ratio == 0.0 then 1.0 else s.ratio,
                  if quotaPerUnit.Some? && quotaPerUnit.value > 0.0 then quotaPerUnit.value else 500000.0))
  }

  // A bucket adds to the day what it costs at the ratio of the segment it lies in, and nothing outside of all.
  lemma {:induction false} EachAtItsRatio(mine: seq<Bucket>, b: Bucket, segments: seq<Segment>, pricing: Pricing, quotaPerUnit: Option<real>, i: nat)
    ensures SegmentsTotal([], segments, pricing, UnitOf(quotaPerUnit)) == 0.0
    ensures var unit := UnitOf(quotaPerUnit);
            var more := SegmentsTotal(mine + [b], segments, pricing, unit) - SegmentsTotal(mine, segments, pricing, unit);
            && (LiesIn(segments, b, i) ==> more == At(b, segments[i], pricing, quotaPerUnit))
            && (Outside(segments, b) ==> more == 0.0)
    decreases |segments|
  {
    hide Cost, Filter, Total;
    if segments != [] {
      var front, s := segments[..|segments| - 1], segments[|segments| - 1];
      var t := TermsOf(pricing, s, UnitOf(quotaPerUnit));
      assert forall j :: 0 <= j < |front| ==> front[j] == segments[j];
      EachAtItsRatio(mine, b, front, pricing, quotaPerUnit, i);
      assert Within([], s) == [] && Total([], t) == 0.0 by { Nothing(s, t); }
      assert LiesIn(segments, b, i) ==> (if i < |front| then LiesIn(front, b, i) else Outside(front, b));
      WithinOneMore(mine, b, s);
      OneMore(Within(mine, s), b, t);
      assert Within(mine, s) + [] == Within(mine, s);
    }
  }

  lemma Nothing(s: Segment, t: Terms)
    requires t.unit > 0.0
    ensures Within([], s) == [] && Total([], t) == 0.0
  {}

  // Tokens of a day are those of the prompts, of the answers and written to the cache, of the binding's own hours only.
  lemma {:induction false} TokensOneByOne(mine: seq<Bucket>, b: Bucket, segments: seq<Segment>)
    ensures Tokens(OwnOf([], segments)) == 0
    ensures Tokens(OwnOf(mine + [b], segments))
         == Tokens(OwnOf(mine, segments)) + if Outside(segments, b) then 0 else b.prompt + b.completion + b.cacheWrite
  {
    LastFiltered(mine, b, x => InSegments(segments, x));
    TokensOneMore(OwnOf(mine, segments), b);
    assert InSegments(segments, b) <==> !Outside(segments, b);
  }

  // ----- reasons

  // The place of a reason among the others.
  function Place(r: Reason): nat {
    match r
    case Disabled => 1
    case PriceUnsupported => 2
    case NotStarted => 3
    case KeyShared => 4
    case GroupAuto => 5
    case KeyChangeRatioDiffers => 6
    case DayBoundaryUnsupported => 7
    case PartialHourUnsupported => 8
    case NotRecorded => 9
    case Lagging => 10
    case PriceUnreadable => 11
    case CacheFieldsUnknown => 12
    case PriceMissing => 13
    case PriceTiered => 14
  }

  ghost predicate OnTheHour(ms: int) { exists h :: ms == h * 3600000 }

  ghost predicate Applies(r: Reason, w: Window, segments: seq<Segment>, priced: bool, mine: seq<Bucket>, f: Flags) {
    match r
    case Disabled => f.off || (f.disabled.Some? && !(w.endMs <= f.disabled.value.startMs || f.disabled.value.endMs <= w.startMs))
    case PriceUnsupported => !f.newapi
    case NotStarted => |segments| == 0
    case KeyShared => f.keyShared
    case GroupAuto => f.groupAuto || exists s :: s in segments && s.auto
    case KeyChangeRatioDiffers => exists s :: s in segments && s.ambiguous
    case DayBoundaryUnsupported => !OnTheHour(w.startMs) || !OnTheHour(w.endMs)
    case PartialHourUnsupported =>
      exists s :: s in segments && ((w.startMs < s.startMs && !OnTheHour(s.startMs)) || (s.endMs < w.endMs && !OnTheHour(s.endMs)))
    case NotRecorded => f.coveredFromMs.Some? && w.startMs < f.coveredFromMs.value
    case Lagging => f.coveredToMs.None? || f.coveredToMs.value < w.endMs
    case PriceUnreadable => !priced
    case CacheFieldsUnknown => exists b :: b in mine && !b.anthropic && b.prompt < b.cacheRead
    case PriceMissing => false
    case PriceTiered => false
  }

  // The reason given is the first in this order that applies, and none is given when none applies.
  lemma FirstThatApplies(w: Window, segments: seq<Segment>, priced: bool, mine: seq<Bucket>, f: Flags)
    ensures var gate := Gate(w, segments, priced, mine, f);
            && (gate.Some? ==> Applies(gate.value, w, segments, priced, mine, f))
            && forall r :: Applies(r, w, segments, priced, mine, f) ==> gate.Some? && Place(gate.value) <= Place(r)
  {
    forall ms ensures OnTheHour(ms) <==> ms % SLOT == 0 {
      if ms % SLOT == 0 { assert ms == ms / SLOT * 3600000; }
    }
    forall s ensures s in segments <==> exists i :: 0 <= i < |segments| && segments[i] == s {}
  }

  // The tokens are given exactly when the day was read from its start to its end, was not skipped while the computation was
  // switched off, and no hour is cut.
  lemma TokensGivenIff(w: Window, segments: seq<Segment>, priced: bool, mine: seq<Bucket>, f: Flags)
    ensures var gate := Gate(w, segments, priced, mine, f);
            DayTokens(w, segments, mine, f, gate).Some?
            <==> && f.coveredFromMs.Some? && f.coveredFromMs.value <= w.startMs && f.coveredToMs.Some? && w.endMs <= f.coveredToMs.value
                 && (f.off || f.disabled.None? || w.endMs <= f.disabled.value.startMs || f.disabled.value.endMs <= w.startMs)
                 && gate != Some(PartialHourUnsupported)
  {
    TokensGiven(w, segments, priced, mine, f);
  }
}
