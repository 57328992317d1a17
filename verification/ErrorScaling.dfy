// Error counts of a window of which only a sample was read, scaled to the window's total (lib/own-error-bucket.js).
module ErrorScaling {
  import opened Apportion

  // A count per channel, or per user with the count of first attempts; sampled says whether the count is an estimate.
  datatype Bucket = Bucket(key: string, count: nat, firstCount: nat, sampled: nat)

  // The buckets of a window, by the table they belong to.
  datatype Buckets = Buckets(channel: seq<Bucket>, user: seq<Bucket>)

  function Counts(group: seq<Bucket>): seq<nat> { seq(|group|, i requires 0 <= i < |group| => group[i].count) }

  function Firsts(group: seq<Bucket>): seq<nat> { seq(|group|, i requires 0 <= i < |group| => group[i].firstCount) }

  predicate SameKeys(out: seq<Bucket>, group: seq<Bucket>) {
    |out| == |group| && forall i :: 0 <= i < |out| ==> out[i].key == group[i].key
  }

  predicate FirstsFit(group: seq<Bucket>) { forall i :: 0 <= i < |group| ==> group[i].firstCount <= group[i].count }

  // Buckets that came to nothing are dropped.
  function Kept(group: seq<Bucket>): (out: seq<Bucket>)
    ensures forall b :: b in out ==> b.count > 0 && b.sampled == 1
  {
    if group == [] then []
    else
      var b := group[|group| - 1];
      Kept(group[..|group| - 1]) + if b.count > 0 then [b.(sampled := 1)] else []
  }

  // x * total / sample, rounded half up.
  function Scaled(x: nat, total: nat, sample: nat): nat
    requires sample > 0
  {
    (2 * x * total + sample) / (2 * sample)
  }

  // ----- sums

  lemma Appended(xs: seq<nat>, x: nat)
    ensures Sum(xs + [x]) == Sum(xs) + x
  {
    assert (xs + [x])[..|xs|] == xs;
  }

  lemma OneMore(group: seq<Bucket>, b: Bucket)
    ensures Sum(Counts(group + [b])) == Sum(Counts(group)) + b.count
    ensures Sum(Firsts(group + [b])) == Sum(Firsts(group)) + b.firstCount
  {
    assert Counts(group + [b]) == Counts(group) + [b.count];
    assert Firsts(group + [b]) == Firsts(group) + [b.firstCount];
    Appended(Counts(group), b.count);
    Appended(Firsts(group), b.firstCount);
  }

  // Dropping what is zero leaves every sum as it is.
  lemma {:induction false} KeptSums(group: seq<Bucket>)
    requires FirstsFit(group)
    ensures Sum(Counts(Kept(group))) == Sum(Counts(group)) && Sum(Firsts(Kept(group))) == Sum(Firsts(group))
    ensures FirstsFit(Kept(group))
  {
    if group == [] {
    } else {
      hide Counts, Firsts, Sum;
      var front, b := group[..|group| - 1], group[|group| - 1];
      assert group == front + [b];
      KeptSums(front);
      OneMore(front, b);
      OneMore(Kept(front), b.(sampled := 1));
      assert Kept(front) + [] == Kept(front);
    }
  }

  lemma {:induction false} ZeroSum(xs: seq<nat>)
    requires forall i :: 0 <= i < |xs| ==> xs[i] == 0
    ensures Sum(xs) == 0
  {
    if xs != [] {
      ZeroSum(xs[..|xs| - 1]);
    }
  }

  // ----- scaling

  method WithCounts(group: seq<Bucket>, counts: seq<nat>) returns (out: seq<Bucket>)
    requires |counts| == |group|
    ensures SameKeys(out, group) && Counts(out) == counts && Firsts(out) == Firsts(group)
  {
    out := group;
    for i := 0 to |group|
      invariant |out| == |group|
      invariant forall j :: 0 <= j < |out| ==> out[j] == if j < i then group[j].(count := counts[j]) else group[j]
    {
      out := out[i := out[i].(count := counts[i])];
    }
  }

  // Counts of first attempts, no greater than the counts themselves.
  method WithFirsts(group: seq<Bucket>, firsts: seq<nat>) returns (out: seq<Bucket>)
    requires |firsts| == |group|
    ensures SameKeys(out, group) && Counts(out) == Counts(group) && FirstsFit(out)
    ensures forall i :: 0 <= i < |out| ==> out[i].firstCount <= firsts[i] && (out[i].firstCount < firsts[i] ==> out[i].firstCount == out[i].count)
  {
    out := group;
    for i := 0 to |group|
      invariant |out| == |group|
      invariant forall j :: i <= j < |out| ==> out[j] == group[j]
      invariant forall j :: 0 <= j < i ==> out[j] == group[j].(firstCount := if firsts[j] < group[j].count then firsts[j] else group[j].count)
    {
      out := out[i := out[i].(firstCount := if firsts[i] < out[i].count then firsts[i] else out[i].count)];
    }
  }

  ghost predicate ScaledTo(group: seq<Bucket>, total: nat, out: seq<Bucket>) {
    SameKeys(out, group) && Apportioned(Counts(group), total, Counts(out))
  }

  // First attempts in proportion too, cut where they would exceed the errors.
  ghost predicate FirstsScaled(group: seq<Bucket>, firstTotal: nat, out: seq<Bucket>, firsts: seq<nat>) {
    && Apportioned(Firsts(group), firstTotal, firsts) && |firsts| == |out| && FirstsFit(out)
    && forall i :: 0 <= i < |out| ==> out[i].firstCount <= firsts[i] && (out[i].firstCount < firsts[i] ==> out[i].firstCount == out[i].count)
  }

  // `all` are the scaled buckets before those that came to nothing were dropped, `firsts` the shares of first attempts.
  method ScaleErrorBuckets(buckets: Buckets, total: nat, sample: nat) returns (out: Buckets, ghost all: Buckets, ghost firsts: seq<nat>)
    ensures sample == 0 || total <= sample ==> out == buckets
    ensures sample > 0 && total > sample ==>
              && out == Buckets(Kept(all.channel), Kept(all.user))
              && ScaledTo(buckets.channel, total, all.channel) && ScaledTo(buckets.user, total, all.user)
              && FirstsScaled(buckets.user, Scaled(Sum(Firsts(buckets.user)), total, sample), all.user, firsts)
              && Firsts(all.channel) == Firsts(buckets.channel)
  {
    if !(sample > 0) || !(total > sample) { return buckets, buckets, []; }
    var channelCounts := ApportionTo(Counts(buckets.channel), total);
    var channel := WithCounts(buckets.channel, channelCounts);
    var shares := ApportionTo(Firsts(buckets.user), Scaled(Sum(Firsts(buckets.user)), total, sample));
    var userCounts := ApportionTo(Counts(buckets.user), total);
    var user := WithCounts(buckets.user, userCounts);
    user := WithFirsts(user, shares);
    out, all, firsts := Buckets(Kept(channel), Kept(user)), Buckets(channel, user), shares;
  }

  // Channel counts and user counts each add up to the window's total, and no more first attempts are shown than errors.
  method ScaledSample(buckets: Buckets, total: nat, sample: nat) returns (out: Buckets)
    requires 0 < sample < total && Sum(Counts(buckets.channel)) > 0 && Sum(Counts(buckets.user)) > 0
    requires forall i :: 0 <= i < |buckets.channel| ==> buckets.channel[i].firstCount == 0
    ensures Sum(Counts(out.channel)) == total && Sum(Counts(out.user)) == total
    ensures forall b :: b in out.channel + out.user ==> b.count > 0 && b.sampled == 1 && b.firstCount <= b.count
    ensures Sum(Firsts(out.user)) <= if Sum(Firsts(buckets.user)) == 0 then 0 else Scaled(Sum(Firsts(buckets.user)), total, sample)
  {
    ghost var all, firsts;
    out, all, firsts := ScaleErrorBuckets(buckets, total, sample);
    forall i | 0 <= i < |all.channel| ensures all.channel[i].firstCount == 0 {
      assert Firsts(all.channel)[i] == Firsts(buckets.channel)[i];
    }
    KeptSums(all.channel);
    KeptSums(all.user);
    SmallerSum(Firsts(all.user), firsts, |firsts|);
    if Sum(Firsts(buckets.user)) == 0 { ZeroSum(firsts); }
  }

  // ----- where the sample comes from

  // One error row counts once for its channel and once for its user, in the buckets named by their keys.
  function Counted(group: seq<Bucket>, key: string, first: bool): seq<Bucket> {
    if group == [] then [Bucket(key, 1, if first then 1 else 0, 0)]
    else
      var front, b := group[..|group| - 1], group[|group| - 1];
      if b.key == key then front + [b.(count := b.count + 1, firstCount := b.firstCount + if first then 1 else 0)]
      else Counted(front, key, first) + [b]
  }

  datatype ErrorRow = ErrorRow(channelKey: string, userKey: string, first: bool)

  function Accumulated(rows: seq<ErrorRow>): Buckets {
    if rows == [] then Buckets([], [])
    else
      var so, r := Accumulated(rows[..|rows| - 1]), rows[|rows| - 1];
      Buckets(Counted(so.channel, r.channelKey, false), Counted(so.user, r.userKey, r.first))
  }

  lemma {:induction false} CountedOnce(group: seq<Bucket>, key: string, first: bool)
    ensures Sum(Counts(Counted(group, key, first))) == Sum(Counts(group)) + 1
  {
    if group == [] {
      OneMore([], Bucket(key, 1, if first then 1 else 0, 0));
      assert [] + [Bucket(key, 1, if first then 1 else 0, 0)] == Counted(group, key, first);
    } else {
      var front, b := group[..|group| - 1], group[|group| - 1];
      assert group == front + [b];
      OneMore(front, b);
      OneMore(front, b.(count := b.count + 1, firstCount := b.firstCount + if first then 1 else 0));
      if b.key != key {
        CountedOnce(front, key, first);
        OneMore(Counted(front, key, first), b);
      }
    }
  }

  // So a sample's channel counts and its user counts both add up to the number of rows read.
  lemma {:induction false} SampleSums(rows: seq<ErrorRow>)
    ensures Sum(Counts(Accumulated(rows).channel)) == |rows| == Sum(Counts(Accumulated(rows).user))
  {
    if rows != [] {
      var so, r := Accumulated(rows[..|rows| - 1]), rows[|rows| - 1];
      SampleSums(rows[..|rows| - 1]);
      CountedOnce(so.channel, r.channelKey, false);
      CountedOnce(so.user, r.userKey, r.first);
    }
  }

  // ----- what each count stands for

  // The rows of a channel, those of a user, and those of a user that were first attempts.
  function OfChannel(rows: seq<ErrorRow>, key: string): nat {
    if rows == [] then 0 else OfChannel(rows[..|rows| - 1], key) + if rows[|rows| - 1].channelKey == key then 1 else 0
  }

  function OfUser(rows: seq<ErrorRow>, key: string, onlyFirst: bool): nat {
    if rows == [] then 0
    else
      var r := rows[|rows| - 1];
      OfUser(rows[..|rows| - 1], key, onlyFirst) + if r.userKey == key && (r.first || !onlyFirst) then 1 else 0
  }

  predicate HasKey(group: seq<Bucket>, key: string) { group != [] && (group[|group| - 1].key == key || HasKey(group[..|group| - 1], key)) }

  function CountAt(group: seq<Bucket>, key: string): nat {
    if group == [] then 0 else if group[|group| - 1].key == key then group[|group| - 1].count else CountAt(group[..|group| - 1], key)
  }

  function FirstAt(group: seq<Bucket>, key: string): nat {
    if group == [] then 0 else if group[|group| - 1].key == key then group[|group| - 1].firstCount else FirstAt(group[..|group| - 1], key)
  }

  lemma AtOneMore(group: seq<Bucket>, b: Bucket, k: string)
    ensures CountAt(group + [b], k) == if b.key == k then b.count else CountAt(group, k)
    ensures FirstAt(group + [b], k) == if b.key == k then b.firstCount else FirstAt(group, k)
    ensures HasKey(group + [b], k) <==> HasKey(group, k) || b.key == k
  {
    assert (group + [b])[..|group|] == group;
  }

  lemma {:induction false} CountedAt(group: seq<Bucket>, key: string, first: bool, k: string)
    ensures CountAt(Counted(group, key, first), k) == CountAt(group, k) + if k == key then 1 else 0
    ensures FirstAt(Counted(group, key, first), k) == FirstAt(group, k) + if k == key && first then 1 else 0
    ensures HasKey(Counted(group, key, first), k) <==> HasKey(group, k) || k == key
  {
    if group == [] {
      var one := Bucket(key, 1, if first then 1 else 0, 0);
      AtOneMore([], one, k);
      assert [] + [one] == Counted(group, key, first);
    } else {
      var front, b := group[..|group| - 1], group[|group| - 1];
      var more := b.(count := b.count + 1, firstCount := b.firstCount + if first then 1 else 0);
      assert group == front + [b];
      assert Counted(group, key, first) == if b.key == key then front + [more] else Counted(front, key, first) + [b];
      AtOneMore(front, b, k);
      hide Counted, CountAt, FirstAt, HasKey;
      if b.key == key {
        AtOneMore(front, more, k);
      } else {
        CountedAt(front, key, first, k);
        AtOneMore(Counted(front, key, first), b, k);
      }
    }
  }

  lemma ReadOneMore(rows: seq<ErrorRow>, r: ErrorRow)
    ensures Accumulated(rows + [r]).channel == Counted(Accumulated(rows).channel, r.channelKey, false)
    ensures Accumulated(rows + [r]).user == Counted(Accumulated(rows).user, r.userKey, r.first)
  {
    assert (rows + [r])[..|rows|] == rows;
  }

  lemma RowsOneMore(rows: seq<ErrorRow>, r: ErrorRow, key: string)
    ensures OfChannel(rows + [r], key) == OfChannel(rows, key) + if r.channelKey == key then 1 else 0
    ensures OfUser(rows + [r], key, false) == OfUser(rows, key, false) + if r.userKey == key then 1 else 0
    ensures OfUser(rows + [r], key, true) == OfUser(rows, key, true) + if r.userKey == key && r.first then 1 else 0
  {
    assert (rows + [r])[..|rows|] == rows;
  }

  // Every channel's bucket holds exactly the number of its rows, and there is one for every channel met; and so does every
  // user's, with the number of those that were first attempts.
  lemma {:induction false} SampleCounts(rows: seq<ErrorRow>, key: string)
    ensures CountAt(Accumulated(rows).channel, key) == OfChannel(rows, key) && FirstAt(Accumulated(rows).channel, key) == 0
    ensures HasKey(Accumulated(rows).channel, key) <==> OfChannel(rows, key) > 0
    ensures CountAt(Accumulated(rows).user, key) == OfUser(rows, key, false) && FirstAt(Accumulated(rows).user, key) == OfUser(rows, key, true)
    ensures HasKey(Accumulated(rows).user, key) <==> OfUser(rows, key, false) > 0
  {
    if rows == [] {
    } else {
      hide Counted, CountAt, FirstAt, HasKey, Accumulated, OfChannel, OfUser;
      var front, r := rows[..|rows| - 1], rows[|rows| - 1];
      assert rows == front + [r];
      SampleCounts(front, key);
      ReadOneMore(front, r);
      RowsOneMore(front, r, key);
      CountedAt(Accumulated(front).channel, r.channelKey, false, key);
      CountedAt(Accumulated(front).user, r.userKey, r.first, key);
    }
  }

  // What is kept of the scaled buckets: all that came to something, in their order, marked as estimates.
  lemma {:induction false} KeptAre(a: seq<Bucket>, b: seq<Bucket>, x: Bucket)
    ensures Kept(a + b) == Kept(a) + Kept(b)
    ensures Kept([x]) == if x.count == 0 then [] else [Bucket(x.key, x.count, x.firstCount, 1)]
  {
    assert [x][..0] == [];
    if b == [] {
      assert a + b == a;
    } else {
      var n := |b| - 1;
      assert (a + b)[..|a + b| - 1] == a + b[..n];
      KeptAre(a, b[..n], x);
    }
  }

  // The first attempts of the window are those of the sample in proportion, rounded to the nearest whole number, halves up.
  lemma ScaledIsNearest(x: nat, total: nat, sample: nat)
    requires sample > 0
    ensures var d := 2 * (Scaled(x, total, sample) * sample - x * total); -(sample as int) < d <= sample
  {
    var a := 2 * x * total + sample;
    var q := a / (2 * sample);
    assert a == q * (2 * sample) + a % (2 * sample);
    assert 2 * (q * sample) == q * (2 * sample);
    assert 2 * x * total == 2 * (x * total);
  }
}
