/** From a ranked partition to the bounded evidence: rank-based selection, then the streaming per-group bound. */
module TopK {
  import opened Wrappers
  import opened Sequences
  import opened Ranking
  import Evidence

  datatype Scope = Global | PerProductType

  /** One ranked result with the partition it belongs to. */
  datatype RankResult = RankResult(item: RankedValue, partitionKey: string)

  datatype GroupKey = GroupKey(productType: Option<Evidence.ProductType>, partitionKey: string)

  function KeyFor(scope: Scope, r: RankResult): GroupKey {
    GroupKey(if scope == PerProductType then Some(r.item.value.productType) else None, r.partitionKey)
  }

  /** How many of the results belong to a group. */
  function InGroup(scope: Scope, key: GroupKey, ranks: seq<RankResult>): nat {
    Count((r: RankResult) => KeyFor(scope, r) == key, ranks)
  }

  /** The simple meaning: keep a result iff fewer than `topK` results of its group precede it. */
  function Bounded(ranks: seq<RankResult>, topK: nat, scope: Scope): seq<RankResult> {
    if ranks == [] then []
    else
      var init, last := ranks[..|ranks| - 1], ranks[|ranks| - 1];
      Bounded(init, topK, scope) + (if InGroup(scope, KeyFor(scope, last), init) < topK then [last] else [])
  }

  /** `_bounded_ranks`: one pass with a counter per group that stops at the bound. */
  method BoundedRanks(ranks: seq<RankResult>, topK: nat, scope: Scope) returns (selected: seq<RankResult>)
    ensures selected == Bounded(ranks, topK, scope)
  {
    var counts: map<GroupKey, nat> := map[];
    selected := [];
    for i := 0 to |ranks|
      invariant selected == Bounded(ranks[..i], topK, scope)
      invariant Counted(counts, ranks[..i], topK, scope)
    {
      var key := KeyFor(scope, ranks[i]);
      var count := CountFor(counts, key);
      CountedStep(counts, ranks[..i], ranks[i], topK, scope);
      BoundedSnoc(ranks[..i], ranks[i], topK, scope);
      assert ranks[..i + 1] == ranks[..i] + [ranks[i]];
      if count < topK {
        selected := selected + [ranks[i]];
        counts := counts[key := count + 1];
      }
    }
    assert ranks[..|ranks|] == ranks;
  }

  /** `counts.get(key, 0)` */
  function CountFor(counts: map<GroupKey, nat>, key: GroupKey): nat {
    if key in counts then counts[key] else 0
  }

  /** Each counter is its group's size so far, but never beyond the bound. */
  ghost predicate Counted(counts: map<GroupKey, nat>, ranks: seq<RankResult>, topK: nat, scope: Scope) {
    forall key :: CountFor(counts, key) == Capped(InGroup(scope, key, ranks), topK)
  }

  lemma {:induction false} InGroupSnoc(scope: Scope, key: GroupKey, ranks: seq<RankResult>, r: RankResult)
    ensures InGroup(scope, key, ranks + [r]) == InGroup(scope, key, ranks) + if KeyFor(scope, r) == key then 1 else 0
  {
    CountConcat((x: RankResult) => KeyFor(scope, x) == key, ranks, [r]);
  }

  lemma {:induction false} CountedStep(
    counts: map<GroupKey, nat>, ranks: seq<RankResult>, r: RankResult, topK: nat, scope: Scope)
    requires Counted(counts, ranks, topK, scope)
    ensures var key := KeyFor(scope, r);
      var count := CountFor(counts, key);
      Counted(if count < topK then counts[key := count + 1] else counts, ranks + [r], topK, scope)
  {
    forall key ensures InGroup(scope, key, ranks + [r]) == InGroup(scope, key, ranks) + if KeyFor(scope, r) == key then 1 else 0 {
      InGroupSnoc(scope, key, ranks, r);
    }
  }

  lemma {:induction false} BoundedSnoc(ranks: seq<RankResult>, r: RankResult, topK: nat, scope: Scope)
    ensures Bounded(ranks + [r], topK, scope)
         == Bounded(ranks, topK, scope) + if InGroup(scope, KeyFor(scope, r), ranks) < topK then [r] else []
  {
    assert (ranks + [r])[..|ranks|] == ranks;
  }

  function Capped(n: nat, bound: nat): nat {
    if n <= bound then n else bound
  }

  // ---------- groups do not interfere ----------

  ghost predicate SeparateGroups(scope: Scope, a: seq<RankResult>, b: seq<RankResult>) {
    forall x, y | x in a && y in b :: KeyFor(scope, x) != KeyFor(scope, y)
  }

  lemma {:induction false} BoundedConcat(a: seq<RankResult>, b: seq<RankResult>, topK: nat, scope: Scope)
    requires SeparateGroups(scope, a, b)
    ensures Bounded(a + b, topK, scope) == Bounded(a, topK, scope) + Bounded(b, topK, scope)
  {
    if b == [] {
      assert a + b == a;
    } else {
      var init, last := b[..|b| - 1], b[|b| - 1];
      assert (a + b)[..|a + b| - 1] == a + init;
      assert (a + b)[|a + b| - 1] == last;
      BoundedConcat(a, init, topK, scope);
      OtherGroups(scope, KeyFor(scope, last), a, init);
    }
  }

  lemma {:induction false} OtherGroups(scope: Scope, key: GroupKey, a: seq<RankResult>, b: seq<RankResult>)
    requires forall x | x in a :: KeyFor(scope, x) != key
    ensures InGroup(scope, key, a + b) == InGroup(scope, key, b)
  {
    var mine := (r: RankResult) => KeyFor(scope, r) == key;
    CountConcat(mine, a, b);
    CountNone(mine, a);
  }

  /** Within one group the bound keeps a prefix. */
  lemma {:induction false} BoundedOneGroup(ranks: seq<RankResult>, topK: nat, scope: Scope, key: GroupKey)
    requires forall r | r in ranks :: KeyFor(scope, r) == key
    ensures Bounded(ranks, topK, scope) == if |ranks| <= topK then ranks else ranks[..topK]
  {
    if ranks != [] {
      var init, last := ranks[..|ranks| - 1], ranks[|ranks| - 1];
      BoundedOneGroup(init, topK, scope, key);
      CountAll((r: RankResult) => KeyFor(scope, r) == key, init);
      assert ranks == init + [last];
      if |ranks| > topK { assert ranks[..topK] == init[..topK]; }
    }
  }

  // ---------- one partition, end to end ----------

  function Tagged(ranked: seq<RankedValue>, partitionKey: string): (r: seq<RankResult>)
    ensures |r| == |ranked|
    ensures forall i | 0 <= i < |r| :: r[i] == RankResult(ranked[i], partitionKey)
  {
    seq(|ranked|, i requires 0 <= i < |ranked| => RankResult(ranked[i], partitionKey))
  }

  /** The pipeline's selection: every value whose competition rank is within the bound, all of a tie included. */
  function WithinRank(ranked: seq<RankedValue>, topK: nat): seq<RankedValue> {
    Select((r: RankedValue) => r.rank <= topK, ranked)
  }

  /** Position and rank: ranks never decrease along a ranking, and no rank exceeds its position. */
  lemma {:induction false} RankAtPosition(values: seq<MetricValue>, descending: bool, ranked: seq<RankedValue>, i: nat, j: nat)
    requires IsRanking(values, descending, ranked) && i <= j < |ranked|
    ensures ranked[i].rank <= ranked[j].rank && 1 <= ranked[j].rank <= j + 1
    ensures ranked[i].rank < ranked[j].rank <==> KeyOf(ranked[i].value) != KeyOf(ranked[j].value)
  {
    var s := ValuesOf(ranked);
    FirstOfKey(values, s, descending, j);
    FirstOfKey(values, s, descending, i);
    var keyJ := KeyOf(s[j]);
    var keyI := KeyOf(s[i]);
    if keyI != keyJ {
      BetterCountStrict(values, s, descending, i, j);
    }
  }

  lemma {:induction false} PositionBound(s: seq<MetricValue>, descending: bool, j: nat)
    requires BestFirst(s, descending) && j < |s|
    ensures BetterCount(s, descending, KeyOf(s[j])) <= j
  {
    var key := KeyOf(s[j]);
    var better := (v: MetricValue) => Better(descending, KeyOf(v), key);
    forall k | j <= k < |s| ensures !Better(descending, KeyOf(s[k]), key) {
      KeyTrichotomy(KeyOf(s[k]), key);
    }
    CountNone(better, s[j..]);
    CountConcat(better, s[..j], s[j..]);
    assert s == s[..j] + s[j..];
  }

  lemma {:induction false} FirstOfKey(values: seq<MetricValue>, s: seq<MetricValue>, descending: bool, j: nat)
    requires BestFirst(s, descending) && multiset(s) == multiset(values) && j < |s|
    ensures BetterCount(values, descending, KeyOf(s[j])) <= j
  {
    PositionBound(s, descending, j);
    CountsPermute(s, values, descending, KeyOf(s[j]));
  }

  /** A strictly worse later key has everything up to the earlier position before it. */
  lemma {:induction false} BetterCountStrict(
    values: seq<MetricValue>, s: seq<MetricValue>, descending: bool, i: nat, j: nat)
    requires BestFirst(s, descending) && multiset(s) == multiset(values) && i < j < |s|
    requires KeyOf(s[i]) != KeyOf(s[j])
    ensures BetterCount(values, descending, KeyOf(s[i])) <= i < BetterCount(values, descending, KeyOf(s[j]))
  {
    FirstOfKey(values, s, descending, i);
    CountsPermute(s, values, descending, KeyOf(s[j]));
    var better := (v: MetricValue) => Better(descending, KeyOf(v), KeyOf(s[j]));
    assert s == s[..i + 1] + s[i + 1..];
    CountConcat(better, s[..i + 1], s[i + 1..]);
    forall v | v in s[..i + 1] ensures better(v) {
      var k :| 0 <= k <= i && s[k] == v;
      if k < i && KeyOf(s[k]) != KeyOf(s[i]) {
        BetterTransitive(descending, KeyOf(s[k]), KeyOf(s[i]), KeyOf(s[j]));
      }
    }
    CountAll(better, s[..i + 1]);
  }

  lemma {:induction false} BetterTransitive(descending: bool, a: SortKey, b: SortKey, c: SortKey)
    requires Better(descending, a, b) && Better(descending, b, c)
    ensures Better(descending, a, c)
  {
    if descending { KeyTransitive(c, b, a); } else { KeyTransitive(a, b, c); }
  }

  /** Along a ranking, once a rank is past the bound every later one is. */
  lemma {:induction false} RankPrefix(
    values: seq<MetricValue>, descending: bool, ranked: seq<RankedValue>, topK: nat) returns (m: nat)
    requires IsRanking(values, descending, ranked)
    ensures m <= |ranked|
    ensures forall i | 0 <= i < m :: ranked[i].rank <= topK
    ensures forall i | m <= i < |ranked| :: ranked[i].rank > topK
    ensures Capped(|ranked|, topK) <= m
  {
    m := 0;
    while m < |ranked| && ranked[m].rank <= topK
      invariant 0 <= m <= |ranked|
      invariant forall i | 0 <= i < m :: ranked[i].rank <= topK
    {
      m := m + 1;
    }
    forall i | m <= i < |ranked| ensures ranked[i].rank > topK {
      RankAtPosition(values, descending, ranked, m, i);
    }
    if m < |ranked| {
      RankAtPosition(values, descending, ranked, m, m);
    }
  }

  lemma {:induction false} SelectPrefix(ranked: seq<RankedValue>, topK: nat, m: nat)
    requires m <= |ranked|
    requires forall i | 0 <= i < m :: ranked[i].rank <= topK
    requires forall i | m <= i < |ranked| :: ranked[i].rank > topK
    ensures WithinRank(ranked, topK) == ranked[..m]
  {
    var within := (r: RankedValue) => r.rank <= topK;
    assert ranked == ranked[..m] + ranked[m..];
    SelectConcat(within, ranked[..m], ranked[m..]);
    SelectAll(within, ranked[..m]);
    SelectNone(within, ranked[m..]);
  }

  /** The rank-bounded selection is a prefix, and it reaches at least the bound. */
  lemma {:induction false} WithinRankIsPrefix(
    values: seq<MetricValue>, descending: bool, ranked: seq<RankedValue>, topK: nat) returns (m: nat)
    requires IsRanking(values, descending, ranked)
    ensures m <= |ranked| && WithinRank(ranked, topK) == ranked[..m]
    ensures Capped(|ranked|, topK) <= m
    ensures m > topK <==> |ranked| > topK && ranked[topK].rank <= topK
  {
    m := RankPrefix(values, descending, ranked, topK);
    SelectPrefix(ranked, topK, m);
  }

  /** The whole stage for one partition. */
  function Kept(ranked: seq<RankedValue>, partitionKey: string, topK: nat, scope: Scope): seq<RankResult> {
    Bounded(Tagged(WithinRank(ranked, topK), partitionKey), topK, scope)
  }

  /** A tie group straddles the bound: the first result past it shares the rank of the last one within it. */
  ghost predicate TieAtBound(ranked: seq<RankedValue>, topK: nat) {
    0 < topK < |ranked| && ranked[topK - 1].rank == ranked[topK].rank
  }

  /** Ranking, selecting by rank and then streaming through the bound keeps exactly the first `topK` of the ranking,
      and something is dropped after the rank selection (which is what the answer discloses) iff a tie straddles
      the bound. */
  lemma {:induction false} PartitionTopK(
    values: seq<MetricValue>, descending: bool, ranked: seq<RankedValue>, partitionKey: string, topK: nat, scope: Scope)
    requires IsRanking(values, descending, ranked) && topK >= 1
    requires scope == PerProductType ==> forall v, w | v in values && w in values :: v.productType == w.productType
    ensures Kept(ranked, partitionKey, topK, scope) == Tagged(ranked[..Capped(|ranked|, topK)], partitionKey)
    ensures |Kept(ranked, partitionKey, topK, scope)| < |WithinRank(ranked, topK)| <==> TieAtBound(ranked, topK)
  {
    var m := WithinRankIsPrefix(values, descending, ranked, topK);
    PrefixKept(values, descending, ranked, partitionKey, m, topK, scope);
    PastBound(values, descending, ranked, topK, m);
  }

  lemma {:induction false} PrefixKept(
    values: seq<MetricValue>, descending: bool, ranked: seq<RankedValue>, partitionKey: string, m: nat, topK: nat, scope: Scope)
    requires IsRanking(values, descending, ranked) && Capped(|ranked|, topK) <= m <= |ranked|
    requires scope == PerProductType ==> forall v, w | v in values && w in values :: v.productType == w.productType
    ensures Bounded(Tagged(ranked[..m], partitionKey), topK, scope)
         == Tagged(ranked[..Capped(|ranked|, topK)], partitionKey)
  {
    if ranked != [] {
      OneGroup(values, descending, ranked, partitionKey, m, scope);
      BoundedPrefix(ranked, partitionKey, m, topK, scope);
    }
  }

  lemma {:induction false} PastBound(
    values: seq<MetricValue>, descending: bool, ranked: seq<RankedValue>, topK: nat, m: nat)
    requires IsRanking(values, descending, ranked) && topK >= 1
    requires m > topK <==> |ranked| > topK && ranked[topK].rank <= topK
    ensures m > topK <==> TieAtBound(ranked, topK)
  {
    if topK < |ranked| {
      StraddleIsTie(values, descending, ranked, topK);
    }
  }

  /** Bounding a tagged prefix of one group that reaches the bound keeps the first `topK`. */
  lemma {:induction false} BoundedPrefix(ranked: seq<RankedValue>, partitionKey: string, m: nat, topK: nat, scope: Scope)
    requires ranked != [] && Capped(|ranked|, topK) <= m <= |ranked|
    requires forall r | r in Tagged(ranked[..m], partitionKey) ::
               KeyFor(scope, r) == KeyFor(scope, RankResult(ranked[0], partitionKey))
    ensures Bounded(Tagged(ranked[..m], partitionKey), topK, scope)
         == Tagged(ranked[..Capped(|ranked|, topK)], partitionKey)
  {
    var selected := Tagged(ranked[..m], partitionKey);
    BoundedOneGroup(selected, topK, scope, KeyFor(scope, RankResult(ranked[0], partitionKey)));
    if m > topK {
      assert selected[..topK] == Tagged(ranked[..topK], partitionKey);
    }
  }

  lemma {:induction false} OneGroup(
    values: seq<MetricValue>, descending: bool, ranked: seq<RankedValue>, partitionKey: string, m: nat, scope: Scope)
    requires IsRanking(values, descending, ranked) && m <= |ranked| && ranked != []
    requires scope == PerProductType ==> forall v, w | v in values && w in values :: v.productType == w.productType
    ensures forall r | r in Tagged(ranked[..m], partitionKey) ::
              KeyFor(scope, r) == KeyFor(scope, RankResult(ranked[0], partitionKey))
  {
    forall i | 0 <= i < |ranked| ensures ranked[i].value in values {
      assert ValuesOf(ranked)[i] in multiset(ValuesOf(ranked));
    }
  }

  lemma {:induction false} StraddleIsTie(
    values: seq<MetricValue>, descending: bool, ranked: seq<RankedValue>, topK: nat)
    requires IsRanking(values, descending, ranked) && 1 <= topK < |ranked|
    ensures ranked[topK].rank <= topK <==> ranked[topK - 1].rank == ranked[topK].rank
  {
    RankAtPosition(values, descending, ranked, topK - 1, topK);
    RankAtPosition(values, descending, ranked, topK - 1, topK - 1);
    if KeyOf(ranked[topK - 1].value) != KeyOf(ranked[topK].value) {
      BetterCountStrict(values, ValuesOf(ranked), descending, topK - 1, topK);
    }
  }
}
