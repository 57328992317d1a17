// The three keyed tables that a merge of duplicate upstreams rewrites, as values.
// A table whose primary key never changes is a map; the table of segment keys, whose primary
// key contains the upstream a merge rewrites, is a sequence of rows in storage order.
module ReconciliationTables {
  import opened Outcomes

  // reconciliation_rules, by id.
  datatype Rule = Rule(
    upstream: string,
    tokenId: int,
    tokenName: string,
    activeKey: Option<string>,
    canonicalKey: Option<string>)

  // reconciliation_rule_segments; a segment without an end is open.
  datatype Segment = Segment(id: string, ruleId: string, effectiveTo: Option<int>)

  // reconciliation_segment_keys.
  datatype KeyRow = KeyRow(
    segmentId: string,
    upstream: string,
    tokenId: int,
    tokenName: Option<string>,
    mask: Option<string>,
    source: string,
    activeKey: Option<string>)

  // channel_monitor_links: primary key and the two other columns.
  datatype LinkId = LinkId(own: string, channel: int, station: string)
  datatype Link = Link(revision: string, confirmedAt: int)

  const INITIAL := "initial"

  // ----- unique keys

  predicate UniqueRuleKeys(rules: map<string, Rule>) {
    forall a, b :: a in rules && b in rules && a != b && rules[a].activeKey.Some?
                   ==> rules[a].activeKey != rules[b].activeKey
  }

  predicate SamePrimaryKey(a: KeyRow, b: KeyRow) {
    a.segmentId == b.segmentId && a.upstream == b.upstream && a.tokenId == b.tokenId
  }

  predicate SameActiveKey(a: KeyRow, b: KeyRow) {
    a.activeKey.Some? && a.activeKey == b.activeKey
  }

  // PRIMARY KEY (segment, upstream, token) and UNIQUE KEY (active key; NULLs never collide).
  predicate UniqueKeyRows(keys: seq<KeyRow>) {
    forall i, j :: 0 <= i < j < |keys| ==> !SamePrimaryKey(keys[i], keys[j]) && !SameActiveKey(keys[i], keys[j])
  }

  // ----- joins

  function FindSegment(segments: seq<Segment>, id: string): (s: Option<Segment>)
    ensures s.Some? ==> s.value in segments && s.value.id == id
    ensures s.None? ==> forall x :: x in segments ==> x.id != id
  {
    if segments == [] then None
    else if segments[0].id == id then Some(segments[0])
    else FindSegment(segments[1..], id)
  }

  // Does a key row belong to a segment of this rule?
  predicate OfRule(segments: seq<Segment>, row: KeyRow, ruleId: string) {
    var s := FindSegment(segments, row.segmentId);
    s.Some? && s.value.ruleId == ruleId
  }

  // A row of an open segment; only asked of rows that have a segment.
  predicate InOpenSegment(segments: seq<Segment>, row: KeyRow) {
    var s := FindSegment(segments, row.segmentId);
    s.Some? && s.value.effectiveTo.None?
  }

  // ----- the active key of a rule that has no canonical key: "upstream:token"

  function Digits(n: nat): (text: string)
    ensures ':' !in text && text != "" && text[0] != '-'
  {
    var digit := ["0", "1", "2", "3", "4", "5", "6", "7", "8", "9"][n % 10];
    if n < 10 then digit else Digits(n / 10) + digit
  }

  function Decimal(n: int): (text: string)
    ensures ':' !in text && text != ""
  {
    if n < 0 then "-" + Digits(-n) else Digits(n)
  }

  function KeyText(station: string, token: int): string {
    station + ":" + Decimal(token)
  }

  lemma {:induction false} DigitsNameNumber(n: nat, m: nat)
    requires Digits(n) == Digits(m)
    ensures n == m
  {
    var a, b := Digits(n), Digits(m);
    if n < 10 || m < 10 {
      assert |a| == 1 ==> n < 10 && m < 10;
    } else {
      assert a == Digits(n / 10) + a[|a| - 1..] && b == Digits(m / 10) + b[|b| - 1..];
      assert Digits(n / 10) == a[..|a| - 1] && Digits(m / 10) == b[..|b| - 1];
      DigitsNameNumber(n / 10, m / 10);
    }
  }

  lemma DecimalNamesNumber(x: int, y: int)
    requires Decimal(x) == Decimal(y)
    ensures x == y
  {
    assert (x < 0 <==> Decimal(x)[0] == '-') && (y < 0 <==> Decimal(y)[0] == '-');
    if x < 0 {
      assert Decimal(x)[1..] == Digits(-x) && Decimal(y)[1..] == Digits(-y);
      DigitsNameNumber(-x, -y);
    } else {
      DigitsNameNumber(x, y);
    }
  }

  // The text determines station and token: the last colon is the separator, because decimals have none.
  lemma KeyTextNamesKey(a: string, x: int, b: string, y: int)
    requires KeyText(a, x) == KeyText(b, y)
    ensures a == b && x == y
  {
    hide Decimal;
    var text := KeyText(a, x);
    assert text[|a|] == ':' && text[|b|] == ':';
    assert |a| == |b|;
    assert text[..|a|] == a && KeyText(b, y)[..|b|] == b;
    assert text[|a| + 1..] == Decimal(x) && KeyText(b, y)[|b| + 1..] == Decimal(y);
    DecimalNamesNumber(x, y);
  }
}
