// What an upstream should charge for a day, from hourly buckets and its price list (lib/expected-cost.js,
// lib/expected-cost-day.js). Amounts are exact numbers.
module ExpectedCost {
  import opened Outcomes

  const SLOT := 3600000
  const DEFAULT_UNIT := 500000.0
  const CACHE_WRITE_1H := 1.6 // 6 / 3.75

  datatype Bucket = Bucket(channel: int, slot: int, model: string, upstreamModel: string, anthropic: bool, requests: nat,
                           prompt: nat, completion: nat, cacheRead: nat, cacheWrite: nat, cacheWrite1h: nat)

  datatype Price =
    | PerToken(modelRatio: real, completionRatio: real, cacheRatio: real, createCacheRatio: real)
    | PerCall(modelPrice: real)
    | Tiered

  type Pricing = map<string, Price>

  // The group's ratio and the upstream's quota per dollar.
  datatype Terms = Terms(pricing: Pricing, ratio: real, unit: real)

  // ----- one bucket

  function PricedAs(b: Bucket): string { if b.upstreamModel != "" then b.upstreamModel else b.model }

  function Min(a: nat, b: nat): nat { if a < b then a else b }

  function Write1h(b: Bucket): nat { Min(b.cacheWrite1h, b.cacheWrite) }

  // Prompt tokens without what was read from or written to the cache; some services count these separately already.
  function Input(b: Bucket): nat {
    if b.anthropic || Write1h(b) > 0 then b.prompt
    else if b.prompt > b.cacheRead + b.cacheWrite then b.prompt - b.cacheRead - b.cacheWrite else 0
  }

  predicate Missing(b: Bucket, pricing: Pricing) { PricedAs(b) !in pricing }

  predicate IsTiered(b: Bucket, pricing: Pricing) { PricedAs(b) in pricing && pricing[PricedAs(b)].Tiered? }

  predicate Priced(b: Bucket, pricing: Pricing) { PricedAs(b) in pricing && !pricing[PricedAs(b)].Tiered? }

  function Cost(b: Bucket, t: Terms): real
    requires t.unit > 0.0
  {
    if !Priced(b, t.pricing) then 0.0
    else
      match t.pricing[PricedAs(b)]
      case PerCall(price) => b.requests as real * price * t.ratio
      case PerToken(model, completion, cache, create) =>
        (Input(b) as real + b.cacheRead as real * cache + (b.cacheWrite - Write1h(b)) as real * create
         + Write1h(b) as real * create * CACHE_WRITE_1H + b.completion as real * completion) * model * t.ratio / t.unit
      case Tiered => 0.0
  }

  function Total(bs: seq<Bucket>, t: Terms): real
    requires t.unit > 0.0
  {
    if bs == [] then 0.0 else Total(bs[..|bs| - 1], t) + Cost(bs[|bs| - 1], t)
  }

  // ----- rows by model

  datatype Key = Key(model: string, pricedAs: string)
  datatype Row = Row(key: Key, requests: nat, input: nat, output: nat, cacheRead: nat, cacheWrite: nat, usd: real)

  function KeyOf(b: Bucket): Key { Key(b.model, PricedAs(b)) }

  predicate OncePerKey(rows: seq<Row>) { forall i, j :: 0 <= i < j < |rows| ==> rows[i].key != rows[j].key }

  // A bucket as a row of its own.
  function RowOf(b: Bucket, usd: real): Row { Row(KeyOf(b), b.requests, Input(b), b.completion, b.cacheRead, b.cacheWrite, usd) }

  function Plus(a: Row, b: Row): Row {
    Row(a.key, a.requests + b.requests, a.input + b.input, a.output + b.output, a.cacheRead + b.cacheRead, a.cacheWrite + b.cacheWrite, a.usd + b.usd)
  }

  function KeysIn(rows: seq<Row>): set<Key> { set r | r in rows :: r.key }

  lemma KeysOneMore(rows: seq<Row>, r: Row)
    ensures KeysIn(rows + [r]) == KeysIn(rows) + {r.key}
    ensures OncePerKey(rows + [r]) <==> OncePerKey(rows) && r.key !in KeysIn(rows)
  {
    var out := rows + [r];
    assert forall x :: x in out <==> x in rows || x == r;
    assert forall i :: 0 <= i < |rows| ==> out[i] == rows[i] && rows[i] in rows;
    if r.key in KeysIn(rows) {
      var x :| x in rows && x.key == r.key;
      var i :| 0 <= i < |rows| && rows[i] == x;
      assert out[i].key == out[|rows|].key;
    } else {
      assert OncePerKey(out) == OncePerKey(rows);
    }
  }

  // The row added to its model's row, which is made when it is met first.
  function AddRow(rows: seq<Row>, row: Row): seq<Row> {
    if rows == [] then [row]
    else
      var front, r := rows[..|rows| - 1], rows[|rows| - 1];
      if r.key == row.key then front + [Plus(r, row)] else AddRow(front, row) + [r]
  }

  lemma {:induction false} OneRowPerKey(rows: seq<Row>, row: Row)
    requires OncePerKey(rows)
    ensures OncePerKey(AddRow(rows, row)) && KeysIn(AddRow(rows, row)) == KeysIn(rows) + {row.key}
  {
    if rows == [] {
      KeysOneMore([], row);
      assert [] + AddRow([], row) == AddRow([], row);
    } else {
      var front, r := rows[..|rows| - 1], rows[|rows| - 1];
      assert rows == front + [r];
      KeysOneMore(front, r);
      KeysOneMore(front, Plus(r, row));
      if r.key != row.key {
        OneRowPerKey(front, row);
        KeysOneMore(AddRow(front, row), r);
      }
    }
  }

  function SumRows(rows: seq<Row>): real { if rows == [] then 0.0 else SumRows(rows[..|rows| - 1]) + rows[|rows| - 1].usd }

  // What the rows say about one model.
  function UsdAt(rows: seq<Row>, key: Key): real {
    if rows == [] then 0.0
    else UsdAt(rows[..|rows| - 1], key) + if rows[|rows| - 1].key == key then rows[|rows| - 1].usd else 0.0
  }

  lemma SumsOneMore(rows: seq<Row>, r: Row, key: Key)
    ensures SumRows(rows + [r]) == SumRows(rows) + r.usd
    ensures UsdAt(rows + [r], key) == UsdAt(rows, key) + if r.key == key then r.usd else 0.0
  {
    assert (rows + [r])[..|rows|] == rows;
  }

  lemma {:induction false} RowsGrowBy(rows: seq<Row>, row: Row, key: Key)
    ensures SumRows(AddRow(rows, row)) == SumRows(rows) + row.usd
    ensures UsdAt(AddRow(rows, row), key) == UsdAt(rows, key) + if row.key == key then row.usd else 0.0
  {
    if rows == [] {
      SumsOneMore([], row, key);
      assert [] + [row] == [row];
    } else {
      var front, r := rows[..|rows| - 1], rows[|rows| - 1];
      if r.key == row.key {
        SumsOneMore(front, Plus(r, row), key);
      } else {
        RowsGrowBy(front, row, key);
        SumsOneMore(AddRow(front, row), r, key);
      }
    }
  }

  // What the buckets of one model cost.
  function KeyTotal(bs: seq<Bucket>, key: Key, t: Terms): real
    requires t.unit > 0.0
  {
    if bs == [] then 0.0
    else KeyTotal(bs[..|bs| - 1], key, t) + if KeyOf(bs[|bs| - 1]) == key then Cost(bs[|bs| - 1], t) else 0.0
  }

  // What the buckets of one model with or without a usable price used.
  datatype Kind = Charged | Unlisted | InTiers
  datatype Counts = Counts(requests: nat, input: nat, output: nat, cacheRead: nat, cacheWrite: nat)

  const NOTHING := Counts(0, 0, 0, 0, 0)

  function Add(a: Counts, b: Counts): Counts {
    Counts(a.requests + b.requests, a.input + b.input, a.output + b.output, a.cacheRead + b.cacheRead, a.cacheWrite + b.cacheWrite)
  }

  function KindOf(b: Bucket, pricing: Pricing): Kind {
    if PricedAs(b) !in pricing then Unlisted else if pricing[PricedAs(b)].Tiered? then InTiers else Charged
  }

  function Used(bs: seq<Bucket>, key: Key, kind: Kind, pricing: Pricing): Counts {
    if bs == [] then NOTHING
    else
      var b := bs[|bs| - 1];
      Add(Used(bs[..|bs| - 1], key, kind, pricing),
          if KeyOf(b) == key && KindOf(b, pricing) == kind then Counts(b.requests, Input(b), b.completion, b.cacheRead, b.cacheWrite) else NOTHING)
  }

  function CountsOf(r: Row, key: Key): Counts {
    if r.key == key then Counts(r.requests, r.input, r.output, r.cacheRead, r.cacheWrite) else NOTHING
  }

  function CountsAt(rows: seq<Row>, key: Key): Counts {
    if rows == [] then NOTHING else Add(CountsAt(rows[..|rows| - 1], key), CountsOf(rows[|rows| - 1], key))
  }

  lemma LastCounts(rows: seq<Row>, r: Row, key: Key)
    ensures CountsAt(rows + [r], key) == Add(CountsAt(rows, key), CountsOf(r, key))
  {
    hide CountsOf, Add;
    assert (rows + [r])[..|rows|] == rows;
  }

  lemma Together(a: Counts, b: Counts, c: Counts)
    ensures Add(Add(a, b), c) == Add(a, Add(b, c)) && Add(a, b) == Add(b, a) && Add(a, NOTHING) == a
  {}

  ghost predicate CountedSoFar(rows: seq<Row>, bs: seq<Bucket>, kind: Kind, pricing: Pricing) {
    forall key :: CountsAt(rows, key) == Used(bs, key, kind, pricing)
  }

  lemma BothCounts(r: Row, row: Row, key: Key)
    requires r.key == row.key
    ensures CountsOf(Plus(r, row), key) == Add(CountsOf(r, key), CountsOf(row, key))
  {
    if r.key != key {
      hide Add;
      Together(NOTHING, NOTHING, NOTHING);
    }
  }

  lemma AddedLast(front: seq<Row>, r: Row, row: Row)
    ensures AddRow(front + [r], row) == if r.key == row.key then front + [Plus(r, row)] else AddRow(front, row) + [r]
  {
    assert (front + [r])[..|front|] == front;
  }

  lemma {:induction false} CountsGrowBy(rows: seq<Row>, row: Row, key: Key)
    ensures CountsAt(AddRow(rows, row), key) == Add(CountsAt(rows, key), CountsOf(row, key))
    decreases |rows|
  {
    if rows == [] {
      LastCounts([], row, key);
      assert [] + [row] == [row];
    } else {
      var front, r := rows[..|rows| - 1], rows[|rows| - 1];
      assert rows == front + [r];
      AddedLast(front, r, row);
      hide AddRow, CountsAt, CountsOf, Add, Plus;
      LastCounts(front, r, key);
      var a, b, c := CountsAt(front, key), CountsOf(r, key), CountsOf(row, key);
      Together(a, b, c);
      if r.key == row.key {
        BothCounts(r, row, key);
        LastCounts(front, Plus(r, row), key);
      } else {
        CountsGrowBy(front, row, key);
        LastCounts(AddRow(front, row), r, key);
        Together(a, c, b);
        Together(b, c, NOTHING);
      }
    }
  }

  lemma CountedStep(rows: seq<Row>, bs: seq<Bucket>, b: Bucket, kind: Kind, pricing: Pricing, usd: real)
    requires CountedSoFar(rows, bs, kind, pricing)
    ensures CountedSoFar(if KindOf(b, pricing) == kind then AddRow(rows, RowOf(b, usd)) else rows, bs + [b], kind, pricing)
  {
    hide AddRow, Input, KindOf, PricedAs, CountsAt, Add;
    assert (bs + [b])[..|bs|] == bs;
    forall key ensures CountsAt(if KindOf(b, pricing) == kind then AddRow(rows, RowOf(b, usd)) else rows, key)
                       == Used(bs + [b], key, kind, pricing) {
      CountsGrowBy(rows, RowOf(b, usd), key);
      Together(CountsAt(rows, key), NOTHING, NOTHING);
    }
  }

  ghost predicate HasMissing(bs: seq<Bucket>, key: Key, pricing: Pricing) { exists b :: b in bs && KeyOf(b) == key && Missing(b, pricing) }

  ghost predicate HasTiered(bs: seq<Bucket>, key: Key, pricing: Pricing) { exists b :: b in bs && KeyOf(b) == key && IsTiered(b, pricing) }

  datatype Result = Result(usd: Option<real>, byModel: seq<Row>, missing: seq<Row>, tiered: seq<Row>)

  // The rows by model are those of the buckets read so far.
  ghost predicate RowsSoFar(byModel: seq<Row>, bs: seq<Bucket>, t: Terms)
    requires t.unit > 0.0
  {
    && OncePerKey(byModel) && SumRows(byModel) == Total(bs, t)
    && forall key :: UsdAt(byModel, key) == KeyTotal(bs, key, t)
  }

  ghost predicate GapsSoFar(missing: seq<Row>, tiered: seq<Row>, bs: seq<Bucket>, pricing: Pricing) {
    && OncePerKey(missing) && OncePerKey(tiered)
    && (forall key :: key in KeysIn(missing) <==> HasMissing(bs, key, pricing))
    && (forall key :: key in KeysIn(tiered) <==> HasTiered(bs, key, pricing))
  }

  method ExpectedCostOf(buckets: seq<Bucket>, t: Terms) returns (r: Result)
    requires t.unit > 0.0
    ensures r.usd.None? <==> exists b :: b in buckets && !Priced(b, t.pricing)
    ensures r.usd.Some? ==> r.usd.value == Total(buckets, t)
    ensures RowsSoFar(r.byModel, buckets, t) && GapsSoFar(r.missing, r.tiered, buckets, t.pricing)
    ensures CountedSoFar(r.byModel, buckets, Charged, t.pricing)
    ensures CountedSoFar(r.missing, buckets, Unlisted, t.pricing) && CountedSoFar(r.tiered, buckets, InTiers, t.pricing)
  {
    hide Cost, RowsSoFar, GapsSoFar, CountedSoFar;
    NoRows(t);
    var byModel, missing, tiered: seq<Row> := [], [], [];
    for i := 0 to |buckets|
      invariant RowsSoFar(byModel, buckets[..i], t) && GapsSoFar(missing, tiered, buckets[..i], t.pricing)
      invariant CountedSoFar(byModel, buckets[..i], Charged, t.pricing)
      invariant CountedSoFar(missing, buckets[..i], Unlisted, t.pricing) && CountedSoFar(tiered, buckets[..i], InTiers, t.pricing)
    {
      var b := buckets[i];
      assert buckets[..i + 1] == buckets[..i] + [b];
      RowsStep(byModel, buckets[..i], b, t);
      GapsStep(missing, tiered, buckets[..i], b, t.pricing);
      CountedStep(byModel, buckets[..i], b, Charged, t.pricing, Cost(b, t));
      CountedStep(missing, buckets[..i], b, Unlisted, t.pricing, 0.0);
      CountedStep(tiered, buckets[..i], b, InTiers, t.pricing, 0.0);
      if PricedAs(b) !in t.pricing {
        missing := AddRow(missing, RowOf(b, 0.0));
        continue;
      }
      if t.pricing[PricedAs(b)].Tiered? {
        tiered := AddRow(tiered, RowOf(b, 0.0));
        continue;
      }
      byModel := AddRow(byModel, RowOf(b, Cost(b, t)));
    }
    assert buckets[..|buckets|] == buckets;
    GapsMeanUnpriced(missing, tiered, buckets, t.pricing);
    r := Result(if missing != [] || tiered != [] then None else Some(SumRows(byModel)), byModel, missing, tiered);
    assert SumRows(byModel) == Total(buckets, t) by { RowsAddUp(byModel, buckets, t); }
  }

  lemma NoRows(t: Terms)
    requires t.unit > 0.0
    ensures RowsSoFar([], [], t) && GapsSoFar([], [], [], t.pricing)
    ensures forall kind :: CountedSoFar([], [], kind, t.pricing)
  {}

  lemma RowsAddUp(byModel: seq<Row>, bs: seq<Bucket>, t: Terms)
    requires t.unit > 0.0 && RowsSoFar(byModel, bs, t)
    ensures SumRows(byModel) == Total(bs, t)
  {}

  lemma RowsStep(byModel: seq<Row>, bs: seq<Bucket>, b: Bucket, t: Terms)
    requires t.unit > 0.0 && RowsSoFar(byModel, bs, t)
    ensures RowsSoFar(if Priced(b, t.pricing) then AddRow(byModel, RowOf(b, Cost(b, t))) else byModel, bs + [b], t)
  {
    var row := RowOf(b, Cost(b, t));
    OneMore(bs, b, t);
    hide Cost, OncePerKey, KeysIn;
    OneRowPerKey(byModel, row);
    forall key ensures UsdAt(if Priced(b, t.pricing) then AddRow(byModel, row) else byModel, key) == KeyTotal(bs + [b], key, t) {
      RowsGrowBy(byModel, row, key);
      assert (bs + [b])[..|bs|] == bs;
    }
    RowsGrowBy(byModel, row, row.key);
  }

  lemma GapsStep(missing: seq<Row>, tiered: seq<Row>, bs: seq<Bucket>, b: Bucket, pricing: Pricing)
    requires GapsSoFar(missing, tiered, bs, pricing)
    ensures GapsSoFar(if Missing(b, pricing) then AddRow(missing, RowOf(b, 0.0)) else missing,
                      if IsTiered(b, pricing) then AddRow(tiered, RowOf(b, 0.0)) else tiered, bs + [b], pricing)
  {
    hide OncePerKey, KeysIn, Missing, IsTiered;
    OneRowPerKey(missing, RowOf(b, 0.0));
    OneRowPerKey(tiered, RowOf(b, 0.0));
    assert forall x :: x in bs + [b] <==> x in bs || x == b;
    forall key ensures HasMissing(bs + [b], key, pricing) <==> HasMissing(bs, key, pricing) || (KeyOf(b) == key && Missing(b, pricing)) {
      if HasMissing(bs, key, pricing) {
        var x :| x in bs && KeyOf(x) == key && Missing(x, pricing);
        assert x in bs + [b];
      }
      assert b in bs + [b];
    }
    forall key ensures HasTiered(bs + [b], key, pricing) <==> HasTiered(bs, key, pricing) || (KeyOf(b) == key && IsTiered(b, pricing)) {
      if HasTiered(bs, key, pricing) {
        var x :| x in bs && KeyOf(x) == key && IsTiered(x, pricing);
        assert x in bs + [b];
      }
      assert b in bs + [b];
    }
  }

  lemma GapsMeanUnpriced(missing: seq<Row>, tiered: seq<Row>, bs: seq<Bucket>, pricing: Pricing)
    requires GapsSoFar(missing, tiered, bs, pricing)
    ensures missing != [] <==> exists b :: b in bs && Missing(b, pricing)
    ensures tiered != [] <==> exists b :: b in bs && IsTiered(b, pricing)
    ensures missing == [] == tiered <==> forall b :: b in bs ==> Priced(b, pricing)
  {
    if missing != [] {
      assert missing[0].key in KeysIn(missing);
      assert HasMissing(bs, missing[0].key, pricing);
    }
    if tiered != [] {
      assert tiered[0].key in KeysIn(tiered);
      assert HasTiered(bs, tiered[0].key, pricing);
    }
    forall b | b in bs && Missing(b, pricing) ensures missing != [] {
      assert HasMissing(bs, KeyOf(b), pricing) && KeyOf(b) in KeysIn(missing);
    }
    forall b | b in bs && IsTiered(b, pricing) ensures tiered != [] {
      assert HasTiered(bs, KeyOf(b), pricing) && KeyOf(b) in KeysIn(tiered);
    }
    assert forall b :: !Priced(b, pricing) <==> Missing(b, pricing) || IsTiered(b, pricing);
  }

  lemma OneMore(bs: seq<Bucket>, b: Bucket, t: Terms)
    requires t.unit > 0.0
    ensures Total(bs + [b], t) == Total(bs, t) + Cost(b, t) && (!Priced(b, t.pricing) ==> Cost(b, t) == 0.0)
  {
    assert (bs + [b])[..|bs|] == bs;
  }
}
