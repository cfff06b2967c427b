/** The ranking stage over all partitions: rank, select by rank, tag with the partition key, bound. */
module Stages {
  import opened Wrappers
  import opened Sequences
  import opened Ranking
  import opened TopK
  import opened Partitioning
  import Sorting
  import Evidence

  /** A ranked partition as the pipeline hands it on. */
  datatype RankedPartition = RankedPartition(values: seq<MetricValue>, descending: bool, ranked: seq<RankedValue>, key: string)

  /** A ranking of its values, which have one product type when types are counted apart. */
  ghost predicate ValidRanked(p: RankedPartition, scope: Scope) {
    && IsRanking(p.values, p.descending, p.ranked)
    && (scope == PerProductType ==> forall v, w | v in p.values && w in p.values :: v.productType == w.productType)
  }

  ghost predicate ValidStage(stage: seq<RankedPartition>, scope: Scope) {
    forall i | 0 <= i < |stage| :: ValidRanked(stage[i], scope)
  }

  /** All results the pipeline passes to the evidence builder. */
  function Passed(stage: seq<RankedPartition>, topK: nat): seq<RankResult> {
    if stage == [] then []
    else
      var last := stage[|stage| - 1];
      Passed(stage[..|stage| - 1], topK) + Tagged(WithinRank(last.ranked, topK), last.key)
  }

  /** The first `topK` of every partition. */
  function FirstOfEach(stage: seq<RankedPartition>, topK: nat): seq<RankResult> {
    if stage == [] then []
    else
      var last := stage[|stage| - 1];
      FirstOfEach(stage[..|stage| - 1], topK) + Tagged(last.ranked[..Capped(|last.ranked|, topK)], last.key)
  }

  ghost predicate SomeTieAtBound(stage: seq<RankedPartition>, topK: nat) {
    exists i | 0 <= i < |stage| :: TieAtBound(stage[i].ranked, topK)
  }

  lemma {:induction false} RankedInValues(p: RankedPartition, r: RankedValue)
    requires IsRanking(p.values, p.descending, p.ranked) && r in p.ranked
    ensures r.value in p.values
  {
    var i :| 0 <= i < |p.ranked| && p.ranked[i] == r;
    assert ValuesOf(p.ranked)[i] in multiset(ValuesOf(p.ranked));
  }

  lemma {:induction false} PassedFrom(stage: seq<RankedPartition>, topK: nat, x: RankResult)
    requires x in Passed(stage, topK)
    ensures exists i | 0 <= i < |stage| :: x.partitionKey == stage[i].key && x.item in stage[i].ranked
  {
    var n := |stage| - 1;
    if x in Passed(stage[..n], topK) {
      PassedFrom(stage[..n], topK, x);
      var i :| 0 <= i < n && x.partitionKey == stage[..n][i].key && x.item in stage[..n][i].ranked;
      assert x.partitionKey == stage[i].key && x.item in stage[i].ranked;
    } else {
      assert x.item in WithinRank(stage[n].ranked, topK);
    }
  }

  // ---------- what the bound does to any results ----------

  /** Every counter ends at its group's size, capped. */
  lemma {:induction false} BoundedCounts(ranks: seq<RankResult>, topK: nat, scope: Scope, key: GroupKey)
    ensures InGroup(scope, key, Bounded(ranks, topK, scope)) == Capped(InGroup(scope, key, ranks), topK)
  {
    if ranks == [] {
      assert Bounded(ranks, topK, scope) == [];
    } else {
      var init, last := ranks[..|ranks| - 1], ranks[|ranks| - 1];
      BoundedCounts(init, topK, scope, key);
      assert ranks == init + [last];
      InGroupSnoc(scope, key, init, last);
      InGroupSnoc(scope, key, Bounded(init, topK, scope), last);
      BoundedSnoc(init, last, topK, scope);
      assert Bounded(init, topK, scope) + [] == Bounded(init, topK, scope);
    }
  }

  lemma {:induction false} BoundedSize(ranks: seq<RankResult>, topK: nat, scope: Scope)
    ensures |Bounded(ranks, topK, scope)| <= |ranks|
  {
    if ranks != [] {
      BoundedSize(ranks[..|ranks| - 1], topK, scope);
    }
  }

  /** A full group loses something. */
  lemma {:induction false} OverfullDrops(ranks: seq<RankResult>, topK: nat, scope: Scope, key: GroupKey)
    requires InGroup(scope, key, ranks) > topK
    ensures |Bounded(ranks, topK, scope)| < |ranks|
  {
    BoundedSize(ranks, topK, scope);
    BoundedCounts(ranks, topK, scope, key);
    if |Bounded(ranks, topK, scope)| == |ranks| {
      NothingDropped(ranks, topK, scope);
    }
  }

  lemma {:induction false} NothingDropped(ranks: seq<RankResult>, topK: nat, scope: Scope)
    requires |Bounded(ranks, topK, scope)| == |ranks|
    ensures Bounded(ranks, topK, scope) == ranks
  {
    if ranks != [] {
      var init, last := ranks[..|ranks| - 1], ranks[|ranks| - 1];
      BoundedSize(init, topK, scope);
      NothingDropped(init, topK, scope);
      assert ranks == init + [last];
    }
  }

  /** What is left of a group's room is filled from the front of its next results. */
  lemma {:induction false} BoundedAppend(a: seq<RankResult>, w: seq<RankResult>, topK: nat, scope: Scope, key: GroupKey)
    requires forall r | r in w :: KeyFor(scope, r) == key
    requires InGroup(scope, key, a) <= topK
    ensures Bounded(a + w, topK, scope)
         == Bounded(a, topK, scope) + w[..Capped(|w|, topK - InGroup(scope, key, a))]
  {
    var room := topK - InGroup(scope, key, a);
    if w == [] {
      assert a + w == a;
    } else {
      var init, last := w[..|w| - 1], w[|w| - 1];
      BoundedAppend(a, init, topK, scope, key);
      AppendStep(a, init, last, init[..Capped(|init|, room)], topK, scope, key);
      TakeSnoc(w, room);
      SnocConcat(a, w);
    }
  }

  lemma {:induction false} SnocConcat<T>(a: seq<T>, w: seq<T>)
    requires w != []
    ensures a + w == (a + w[..|w| - 1]) + [w[|w| - 1]]
  {
  }

  lemma {:induction false} AppendStep(
    a: seq<RankResult>, w: seq<RankResult>, last: RankResult, kept: seq<RankResult>, topK: nat, scope: Scope, key: GroupKey)
    requires (forall r | r in w :: KeyFor(scope, r) == key) && KeyFor(scope, last) == key
    requires Bounded(a + w, topK, scope) == Bounded(a, topK, scope) + kept
    ensures Bounded((a + w) + [last], topK, scope)
         == Bounded(a, topK, scope) + (kept + if |w| < topK - InGroup(scope, key, a) then [last] else [])
  {
    BoundedSnoc(a + w, last, topK, scope);
    GroupGrows(a, w, scope, key);
  }

  lemma {:induction false} GroupGrows(a: seq<RankResult>, w: seq<RankResult>, scope: Scope, key: GroupKey)
    requires forall r | r in w :: KeyFor(scope, r) == key
    ensures InGroup(scope, key, a + w) == InGroup(scope, key, a) + |w|
  {
    CountConcat((r: RankResult) => KeyFor(scope, r) == key, a, w);
    CountAll((r: RankResult) => KeyFor(scope, r) == key, w);
  }

  lemma {:induction false} TakeSnoc<T>(w: seq<T>, room: nat)
    requires w != []
    ensures var init := w[..|w| - 1];
      w[..Capped(|w|, room)] == init[..Capped(|init|, room)] + if |init| < room then [w[|w| - 1]] else []
  {
  }

  // ---------- the stage ----------

  /** The counter of a partition's results. */
  function Counter(p: RankedPartition, scope: Scope): GroupKey
    requires p.ranked != []
  {
    KeyFor(scope, RankResult(p.ranked[0], p.key))
  }

  /** How many results the partitions that share a counter would keep, each on its own. */
  function Demand(stage: seq<RankedPartition>, topK: nat, scope: Scope, key: GroupKey): nat {
    if stage == [] then 0
    else
      var last := stage[|stage| - 1];
      Demand(stage[..|stage| - 1], topK, scope, key)
      + if last.ranked != [] && Counter(last, scope) == key then Capped(|last.ranked|, topK) else 0
  }

  /** No counter is asked for more than the bound. */
  ghost predicate Fits(stage: seq<RankedPartition>, topK: nat, scope: Scope) {
    forall key :: Demand(stage, topK, scope, key) <= topK
  }

  lemma {:induction false} OneCounter(p: RankedPartition, scope: Scope, m: nat)
    requires ValidRanked(p, scope) && p.ranked != [] && m <= |p.ranked|
    ensures forall r | r in Tagged(p.ranked[..m], p.key) :: KeyFor(scope, r) == Counter(p, scope)
  {
    OneGroup(p.values, p.descending, p.ranked, p.key, m, scope);
  }

  lemma {:induction false} TaggedCount(p: RankedPartition, scope: Scope, m: nat, key: GroupKey)
    requires ValidRanked(p, scope) && p.ranked != [] && m <= |p.ranked|
    ensures InGroup(scope, key, Tagged(p.ranked[..m], p.key)) == if Counter(p, scope) == key then m else 0
  {
    OneCounter(p, scope, m);
    var mine := (r: RankResult) => KeyFor(scope, r) == key;
    if Counter(p, scope) == key {
      CountAll(mine, Tagged(p.ranked[..m], p.key));
    } else {
      CountNone(mine, Tagged(p.ranked[..m], p.key));
    }
  }

  /** The demand is the size of the counter's group among the first of each. */
  lemma {:induction false} DemandCounts(stage: seq<RankedPartition>, topK: nat, scope: Scope, key: GroupKey)
    requires ValidStage(stage, scope)
    ensures InGroup(scope, key, FirstOfEach(stage, topK)) == Demand(stage, topK, scope, key)
  {
    if stage != [] {
      var init, last := stage[..|stage| - 1], stage[|stage| - 1];
      DemandCounts(init, topK, scope, key);
      var m := Capped(|last.ranked|, topK);
      CountConcat((r: RankResult) => KeyFor(scope, r) == key, FirstOfEach(init, topK), Tagged(last.ranked[..m], last.key));
      if last.ranked != [] { TaggedCount(last, scope, m, key); }
    }
  }

  /** The results passed on by one partition: a prefix of its ranking that reaches the bound. */
  lemma {:induction false} PassedPrefix(p: RankedPartition, topK: nat, scope: Scope) returns (m: nat)
    requires ValidRanked(p, scope) && topK >= 1
    ensures m <= |p.ranked| && WithinRank(p.ranked, topK) == p.ranked[..m] && Capped(|p.ranked|, topK) <= m
    ensures Capped(|p.ranked|, topK) < m <==> TieAtBound(p.ranked, topK)
  {
    m := WithinRankIsPrefix(p.values, p.descending, p.ranked, topK);
    PastBound(p.values, p.descending, p.ranked, topK, m);
  }

  lemma {:induction false} FitsPrefix(stage: seq<RankedPartition>, topK: nat, scope: Scope)
    requires stage != [] && Fits(stage, topK, scope)
    ensures Fits(stage[..|stage| - 1], topK, scope)
  {
    var init := stage[..|stage| - 1];
    forall key ensures Demand(init, topK, scope, key) <= topK {
      assert Demand(stage, topK, scope, key) <= topK;
    }
  }

  lemma {:induction false} FittingStage(stage: seq<RankedPartition>, topK: nat, scope: Scope)
    requires ValidStage(stage, scope) && topK >= 1 && Fits(stage, topK, scope)
    ensures Bounded(Passed(stage, topK), topK, scope) == FirstOfEach(stage, topK)
  {
    if stage != [] {
      var init, last := stage[..|stage| - 1], stage[|stage| - 1];
      FitsPrefix(stage, topK, scope);
      FittingStage(init, topK, scope);
      if last.ranked == [] {
        assert Tagged(WithinRank(last.ranked, topK), last.key) == [];
        assert Passed(stage, topK) == Passed(init, topK);
      } else {
        assert Demand(stage, topK, scope, Counter(last, scope)) <= topK;
        LastFits(init, last, topK, scope);
      }
    }
  }

  lemma {:induction false} LastFits(init: seq<RankedPartition>, last: RankedPartition, topK: nat, scope: Scope)
    requires ValidStage(init, scope) && ValidRanked(last, scope) && topK >= 1 && last.ranked != []
    requires Demand(init, topK, scope, Counter(last, scope)) + Capped(|last.ranked|, topK) <= topK
    requires Bounded(Passed(init, topK), topK, scope) == FirstOfEach(init, topK)
    ensures Bounded(Passed(init, topK) + Tagged(WithinRank(last.ranked, topK), last.key), topK, scope)
         == FirstOfEach(init, topK) + Tagged(last.ranked[..Capped(|last.ranked|, topK)], last.key)
  {
    var key := Counter(last, scope);
    var m := PassedPrefix(last, topK, scope);
    HeldBefore(init, topK, scope, key);
    RoomLeft(InGroup(scope, key, Passed(init, topK)), |last.ranked|, m, topK);
    LastAppended(Passed(init, topK), last, m, topK, scope);
  }

  lemma {:induction false} HeldBefore(init: seq<RankedPartition>, topK: nat, scope: Scope, key: GroupKey)
    requires ValidStage(init, scope) && Bounded(Passed(init, topK), topK, scope) == FirstOfEach(init, topK)
    ensures Capped(InGroup(scope, key, Passed(init, topK)), topK) == Demand(init, topK, scope, key)
  {
    BoundedCounts(Passed(init, topK), topK, scope, key);
    DemandCounts(init, topK, scope, key);
  }

  lemma {:induction false} LastAppended(before: seq<RankResult>, last: RankedPartition, m: nat, topK: nat, scope: Scope)
    requires ValidRanked(last, scope) && last.ranked != [] && Capped(|last.ranked|, topK) <= m <= |last.ranked|
    requires var held := InGroup(scope, Counter(last, scope), before);
      held <= topK && Capped(m, topK - held) == Capped(|last.ranked|, topK)
    ensures Bounded(before + Tagged(last.ranked[..m], last.key), topK, scope)
         == Bounded(before, topK, scope) + Tagged(last.ranked[..Capped(|last.ranked|, topK)], last.key)
  {
    OneCounter(last, scope, m);
    BoundedAppend(before, Tagged(last.ranked[..m], last.key), topK, scope, Counter(last, scope));
    TaggedTake(last, m, Capped(|last.ranked|, topK));
  }

  /** With room for its first results, a group keeps exactly those of what was passed on. */
  lemma {:induction false} RoomLeft(held: nat, n: nat, m: nat, topK: nat)
    requires 1 <= n && 1 <= topK && Capped(held, topK) + Capped(n, topK) <= topK && Capped(n, topK) <= m <= n
    ensures held <= topK && Capped(m, topK - held) == Capped(n, topK)
  {
  }

  lemma {:induction false} TaggedTake(p: RankedPartition, m: nat, k: nat)
    requires k <= m <= |p.ranked|
    ensures Tagged(p.ranked[..m], p.key)[..k] == Tagged(p.ranked[..k], p.key)
  {
  }

  /** The results passed on are at least the first of each, in every group. */
  lemma {:induction false} PassedDemand(stage: seq<RankedPartition>, topK: nat, scope: Scope, key: GroupKey)
    requires ValidStage(stage, scope) && topK >= 1
    ensures InGroup(scope, key, Passed(stage, topK)) >= Demand(stage, topK, scope, key)
  {
    if stage != [] {
      var init, last := stage[..|stage| - 1], stage[|stage| - 1];
      PassedDemand(init, topK, scope, key);
      var m := PassedPrefix(last, topK, scope);
      CountConcat((r: RankResult) => KeyFor(scope, r) == key, Passed(init, topK), Tagged(last.ranked[..m], last.key));
      if last.ranked != [] { TaggedCount(last, scope, m, key); }
    }
  }

  lemma {:induction false} TiePrefix(stage: seq<RankedPartition>, topK: nat)
    requires stage != []
    ensures SomeTieAtBound(stage, topK) <==>
            SomeTieAtBound(stage[..|stage| - 1], topK) || TieAtBound(stage[|stage| - 1].ranked, topK)
  {
    var init, last := stage[..|stage| - 1], |stage| - 1;
    if i :| 0 <= i < |stage| && TieAtBound(stage[i].ranked, topK) {
      assert i == last || TieAtBound(init[i].ranked, topK);
    }
    if i :| 0 <= i < |init| && TieAtBound(init[i].ranked, topK) {
      assert TieAtBound(stage[i].ranked, topK);
    }
  }

  /** More is passed on than the first of each exactly when some tie straddles the bound. */
  lemma {:induction false} PassedSize(stage: seq<RankedPartition>, topK: nat, scope: Scope)
    requires ValidStage(stage, scope) && topK >= 1
    ensures |FirstOfEach(stage, topK)| <= |Passed(stage, topK)|
    ensures |FirstOfEach(stage, topK)| < |Passed(stage, topK)| <==> SomeTieAtBound(stage, topK)
  {
    if stage != [] {
      PassedSize(stage[..|stage| - 1], topK, scope);
      TiePrefix(stage, topK);
      var m := PassedPrefix(stage[|stage| - 1], topK, scope);
    }
  }

  /** Main theorem of the stage. Over any partitions, bounding what the pipeline passes on keeps exactly the first
      `topK` of every partition if and only if no counter is asked for more than the bound, and results are dropped
      (and the truncation disclosed) exactly when a tie straddles a bound or a counter is asked for more. */
  lemma {:induction false} StageTopK(stage: seq<RankedPartition>, topK: nat, scope: Scope)
    requires ValidStage(stage, scope) && topK >= 1
    ensures Bounded(Passed(stage, topK), topK, scope) == FirstOfEach(stage, topK) <==> Fits(stage, topK, scope)
    ensures |Bounded(Passed(stage, topK), topK, scope)| < |Passed(stage, topK)|
       <==> SomeTieAtBound(stage, topK) || !Fits(stage, topK, scope)
  {
    BoundedSize(Passed(stage, topK), topK, scope);
    PassedSize(stage, topK, scope);
    if Fits(stage, topK, scope) {
      FittingStage(stage, topK, scope);
    } else {
      var key :| Demand(stage, topK, scope, key) > topK;
      DemandCounts(stage, topK, scope, key);
      PassedDemand(stage, topK, scope, key);
      BoundedCounts(Passed(stage, topK), topK, scope, key);
      OverfullDrops(Passed(stage, topK), topK, scope, key);
    }
  }

  // ---------- partitions with counters of their own ----------

  /** Distinct counters always fit. */
  lemma {:induction false} OwnCountersFit(stage: seq<RankedPartition>, topK: nat, scope: Scope)
    requires forall i, j | 0 <= i < j < |stage| && stage[i].ranked != [] && stage[j].ranked != [] ::
               Counter(stage[i], scope) != Counter(stage[j], scope)
    ensures Fits(stage, topK, scope)
  {
    forall key ensures Demand(stage, topK, scope, key) <= topK {
      OwnDemand(stage, topK, scope, key);
    }
  }

  lemma {:induction false} OwnDemand(stage: seq<RankedPartition>, topK: nat, scope: Scope, key: GroupKey)
    requires forall i, j | 0 <= i < j < |stage| && stage[i].ranked != [] && stage[j].ranked != [] ::
               Counter(stage[i], scope) != Counter(stage[j], scope)
    ensures Demand(stage, topK, scope, key) <= topK
    ensures Demand(stage, topK, scope, key) == 0
         || exists i | 0 <= i < |stage| :: stage[i].ranked != [] && Counter(stage[i], scope) == key
  {
    if stage != [] {
      var n := |stage| - 1;
      OwnDemand(stage[..n], topK, scope, key);
      if Demand(stage[..n], topK, scope, key) != 0 {
        var i :| 0 <= i < n && stage[..n][i].ranked != [] && Counter(stage[..n][i], scope) == key;
        assert stage[i].ranked != [] && Counter(stage[i], scope) == key;
      }
    }
  }

  /** The global ranking path end to end: partition, rank, select by rank, bound. `None` stands for its errors: a
      missing period, more than one final partition, or values that cannot be compared. */
  method GlobalTopK(
    registry: Registry, values: seq<MetricValue>, requestedPeriod: Option<string>, descending: bool, topK: nat)
    returns (r: Option<seq<RankResult>>, disclosed: bool, ranked: seq<RankedValue>)
    requires topK >= 1
    ensures r.Some? <==> values == [] || (!NeedsPeriod(registry, values, requestedPeriod)
                                          && |Partitions(registry, values)| == 1 && Rankable(values))
    ensures r.Some? ==> IsRanking(values, descending, ranked)
    ensures r.Some? ==> |r.value| == Capped(|values|, topK)
    ensures r.Some? ==> forall i | 0 <= i < |r.value| :: r.value[i].item == ranked[i]
    ensures r.Some? ==> (disclosed <==> TieAtBound(ranked, topK))
  {
    disclosed, ranked := false, [];
    if values == [] { return Some([]), false, []; }
    var partitions := PartitionValues(registry, values, requestedPeriod);
    if partitions.None? || |partitions.value| != 1 { return None, false, []; }
    var only := partitions.value[0];
    OnlyPartition(registry, values);
    var result := Rank(only.values, descending);
    if result.None? { return None, false, []; }
    ranked := result.value;
    var passed := Tagged(WithinRank(ranked, topK), KeyText(only.key));
    var kept := BoundedRanks(passed, topK, Global);
    TopOf(values, descending, ranked, KeyText(only.key), topK);
    return Some(kept), |kept| < |passed|, ranked;
  }

  lemma {:induction false} TopOf(
    values: seq<MetricValue>, descending: bool, ranked: seq<RankedValue>, partitionKey: string, topK: nat)
    requires IsRanking(values, descending, ranked) && topK >= 1
    ensures var passed := Tagged(WithinRank(ranked, topK), partitionKey);
            var kept := Bounded(passed, topK, Global);
            && |kept| == Capped(|values|, topK) && |kept| <= |ranked|
            && (forall i | 0 <= i < |kept| :: kept[i].item == ranked[i])
            && (|kept| < |passed| <==> TieAtBound(ranked, topK))
  {
    PartitionTopK(values, descending, ranked, partitionKey, topK, Global);
  }

  lemma {:induction false} OnlyPartition(registry: Registry, values: seq<MetricValue>)
    requires |Partitions(registry, values)| == 1
    ensures Partitions(registry, values)[0].values == values
  {
    var keys := GroupKeys(registry, values);
    InMap((v: MetricValue) => GroupOf(registry, v), values);
    assert keys == [keys[0]];
    SelectAll((v: MetricValue) => GroupOf(registry, v) == keys[0], values);
  }

  // ---------- the path per product type, from the values ----------

  function OfType(values: seq<MetricValue>, t: Evidence.ProductType): seq<MetricValue> {
    Select((v: MetricValue) => v.productType == t, values)
  }

  function SegmentPartitions(registry: Registry, t: Evidence.ProductType, values: seq<MetricValue>): seq<Partition> {
    Partitions(registry, OfType(values, t))
  }

  predicate SegmentNeedsPeriod(
    registry: Registry, t: Evidence.ProductType, values: seq<MetricValue>, requestedPeriod: Option<string>)
  {
    NeedsPeriod(registry, OfType(values, t), requestedPeriod)
  }

  method PartitionSegment(
    registry: Registry, t: Evidence.ProductType, values: seq<MetricValue>, requestedPeriod: Option<string>)
    returns (r: Option<seq<Partition>>)
    ensures r.Some? <==> !SegmentNeedsPeriod(registry, t, values, requestedPeriod)
    ensures r.Some? ==> r.value == SegmentPartitions(registry, t, values)
  {
    r := PartitionValues(registry, OfType(values, t), requestedPeriod);
  }

  /** The partitions of every segment's values, segment by segment. */
  function TypePartitions(registry: Registry, segments: seq<Evidence.ProductType>, values: seq<MetricValue>): seq<Partition> {
    if segments == [] then []
    else
      var last := segments[|segments| - 1];
      TypePartitions(registry, segments[..|segments| - 1], values) + SegmentPartitions(registry, last, values)
  }

  predicate PeriodsKnown(
    registry: Registry, segments: seq<Evidence.ProductType>, values: seq<MetricValue>, requestedPeriod: Option<string>)
  {
    forall t | t in segments :: !SegmentNeedsPeriod(registry, t, values, requestedPeriod)
  }

  /** The nested comprehension over segments and their partitions. */
  method PartitionByType(
    registry: Registry, segments: seq<Evidence.ProductType>, values: seq<MetricValue>, requestedPeriod: Option<string>)
    returns (r: Option<seq<Partition>>)
    ensures r.Some? <==> PeriodsKnown(registry, segments, values, requestedPeriod)
    ensures r.Some? ==> r.value == TypePartitions(registry, segments, values)
  {
    if segments == [] { return Some([]); }
    var init, last := segments[..|segments| - 1], segments[|segments| - 1];
    PeriodsSnoc(registry, segments, values, requestedPeriod);
    r := PartitionByType(registry, init, values, requestedPeriod);
    if r.None? { return; }
    var more := PartitionSegment(registry, last, values, requestedPeriod);
    if more.None? { return None; }
    return Some(r.value + more.value);
  }

  lemma {:induction false} PeriodsSnoc(
    registry: Registry, segments: seq<Evidence.ProductType>, values: seq<MetricValue>, requestedPeriod: Option<string>)
    requires segments != []
    ensures PeriodsKnown(registry, segments, values, requestedPeriod)
      <==> PeriodsKnown(registry, segments[..|segments| - 1], values, requestedPeriod)
           && !SegmentNeedsPeriod(registry, segments[|segments| - 1], values, requestedPeriod)
  {
    assert segments == segments[..|segments| - 1] + [segments[|segments| - 1]];
  }

  /** The sort direction, read off the partition's first value. */
  function Direction(descending: MetricValue -> bool, values: seq<MetricValue>): bool {
    values != [] && descending(values[0])
  }

  ghost predicate StagedAs(s: RankedPartition, p: Partition, descending: MetricValue -> bool) {
    && s.values == p.values && s.key == KeyText(p.key) && s.descending == Direction(descending, p.values)
    && IsRanking(s.values, s.descending, s.ranked)
  }

  ghost predicate Staged(stage: seq<RankedPartition>, partitions: seq<Partition>, descending: MetricValue -> bool) {
    |stage| == |partitions| && forall i | 0 <= i < |stage| :: StagedAs(stage[i], partitions[i], descending)
  }

  /** The ranking loop; values that cannot be compared are an error. */
  method RankPartitions(partitions: seq<Partition>, descending: MetricValue -> bool)
    returns (r: Option<seq<RankedPartition>>)
    ensures r.Some? <==> forall p | p in partitions :: Rankable(p.values)
    ensures r.Some? ==> Staged(r.value, partitions, descending)
  {
    var stage := [];
    for i := 0 to |partitions|
      invariant |stage| == i && forall j | 0 <= j < i :: StagedAs(stage[j], partitions[j], descending)
      invariant forall j | 0 <= j < i :: Rankable(partitions[j].values)
    {
      var p := partitions[i];
      var ranked := Rank(p.values, Direction(descending, p.values));
      if ranked.None? {
        assert p in partitions;
        return None;
      }
      stage := stage + [RankedPartition(p.values, Direction(descending, p.values), ranked.value, KeyText(p.key))];
    }
    return Some(stage);
  }

  /** A partition of values of one type. */
  predicate TypedAs(p: Partition, t: Evidence.ProductType) {
    p.values != [] && forall v | v in p.values :: v.productType == t
  }

  lemma {:induction false} PartitionsTyped(registry: Registry, values: seq<MetricValue>, t: Evidence.ProductType, p: Partition)
    requires p in Partitions(registry, OfType(values, t))
    ensures TypedAs(p, t)
  {
    var mine := OfType(values, t);
    var f := (v: MetricValue) => GroupOf(registry, v);
    var keys := GroupKeys(registry, mine);
    var i :| 0 <= i < |keys| && Partitions(registry, mine)[i] == p;
    assert keys[i] in keys;
    InMapExactly(f, mine);
    var v :| v in mine && f(v) == keys[i];
    assert v in Members(registry, keys[i], mine);
  }

  lemma {:induction false} TypePartitionsTyped(
    registry: Registry, segments: seq<Evidence.ProductType>, values: seq<MetricValue>, p: Partition)
    requires p in TypePartitions(registry, segments, values)
    ensures exists t | t in segments :: TypedAs(p, t)
  {
    var init, last := segments[..|segments| - 1], segments[|segments| - 1];
    if p in TypePartitions(registry, init, values) {
      TypePartitionsTyped(registry, init, values, p);
    } else {
      PartitionsTyped(registry, values, last, p);
      assert last in segments;
    }
  }

  lemma {:induction false} TypeStageValid(
    registry: Registry, segments: seq<Evidence.ProductType>, values: seq<MetricValue>, stage: seq<RankedPartition>,
    descending: MetricValue -> bool)
    requires Staged(stage, TypePartitions(registry, segments, values), descending)
    ensures ValidStage(stage, PerProductType)
  {
    var partitions := TypePartitions(registry, segments, values);
    forall i | 0 <= i < |stage| ensures ValidRanked(stage[i], PerProductType) {
      assert StagedAs(stage[i], partitions[i], descending);
      TypePartitionsTyped(registry, segments, values, partitions[i]);
    }
  }

  /** The ranking path per product type: partition every segment's values, rank each partition, select by rank, bound.
      `None` stands for its errors: a missing period or values that cannot be compared. */
  method PerTypeTopK(
    registry: Registry, segments: seq<Evidence.ProductType>, values: seq<MetricValue>, requestedPeriod: Option<string>,
    descending: MetricValue -> bool, topK: nat)
    returns (r: Option<seq<RankResult>>, disclosed: bool, stage: seq<RankedPartition>)
    requires topK >= 1
    ensures r.Some? <==> PeriodsKnown(registry, segments, values, requestedPeriod)
                         && forall p | p in TypePartitions(registry, segments, values) :: Rankable(p.values)
    ensures r.Some? ==> Staged(stage, TypePartitions(registry, segments, values), descending)
    ensures r.Some? ==> (r.value == FirstOfEach(stage, topK) <==> Fits(stage, topK, PerProductType))
    ensures r.Some? ==> (disclosed <==> SomeTieAtBound(stage, topK) || !Fits(stage, topK, PerProductType))
  {
    disclosed, stage := false, [];
    var partitions := PartitionByType(registry, segments, values, requestedPeriod);
    if partitions.None? { return None, false, []; }
    var ranked := RankPartitions(partitions.value, descending);
    if ranked.None? { return None, false, []; }
    stage := ranked.value;
    TypeStageValid(registry, segments, values, stage, descending);
    StageTopK(stage, topK, PerProductType);
    var passed := Passed(stage, topK);
    var kept := BoundedRanks(passed, topK, PerProductType);
    return Some(kept), |kept| < |passed|, stage;
  }

  // ---------- when every partition has its own counter ----------

  /** Of different types, or of different groups. */
  predicate PartApart(p: Partition, q: Partition) {
    p.key != q.key || forall v, w | v in p.values && w in q.values :: v.productType != w.productType
  }

  lemma {:induction false} TypePartitionsApart(
    registry: Registry, segments: seq<Evidence.ProductType>, values: seq<MetricValue>)
    requires forall i, j | 0 <= i < j < |segments| :: segments[i] != segments[j]
    ensures Sorting.Pairwise(PartApart, TypePartitions(registry, segments, values))
  {
    if segments != [] {
      var init, last := segments[..|segments| - 1], segments[|segments| - 1];
      TypePartitionsApart(registry, init, values);
      PartitionsConserve(registry, OfType(values, last));
      forall p, q | p in TypePartitions(registry, init, values) && q in Partitions(registry, OfType(values, last))
        ensures PartApart(p, q)
      {
        TypePartitionsTyped(registry, init, values, p);
        PartitionsTyped(registry, values, last, q);
      }
      Sorting.PairwiseConcat(PartApart, TypePartitions(registry, init, values), Partitions(registry, OfType(values, last)));
    }
  }

  /** With distinct segments and plain group keys nothing shares a counter, so the bound is the brute-force top k. */
  lemma {:induction false} PlainGroupsFit(
    registry: Registry, segments: seq<Evidence.ProductType>, values: seq<MetricValue>, stage: seq<RankedPartition>,
    descending: MetricValue -> bool, topK: nat)
    requires forall i, j | 0 <= i < j < |segments| :: segments[i] != segments[j]
    requires forall p | p in TypePartitions(registry, segments, values) :: PlainGroup(p.key)
    requires Staged(stage, TypePartitions(registry, segments, values), descending)
    ensures Fits(stage, topK, PerProductType)
  {
    var partitions := TypePartitions(registry, segments, values);
    TypePartitionsApart(registry, segments, values);
    forall i, j | 0 <= i < j < |stage| && stage[i].ranked != [] && stage[j].ranked != []
      ensures Counter(stage[i], PerProductType) != Counter(stage[j], PerProductType)
    {
      CountersApart(stage[i], stage[j], partitions[i], partitions[j], descending);
    }
    OwnCountersFit(stage, topK, PerProductType);
  }

  lemma {:induction false} CountersApart(
    s: RankedPartition, t: RankedPartition, p: Partition, q: Partition, descending: MetricValue -> bool)
    requires StagedAs(s, p, descending) && StagedAs(t, q, descending) && s.ranked != [] && t.ranked != []
    requires PartApart(p, q) && PlainGroup(p.key) && PlainGroup(q.key)
    ensures Counter(s, PerProductType) != Counter(t, PerProductType)
  {
    RankedInValues(s, s.ranked[0]);
    RankedInValues(t, t.ranked[0]);
    if s.key == t.key { KeyTextInjective(p.key, q.key); }
  }

  // ---------- when two partitions share a counter ----------

  /** A counter that is asked for more than the bound loses results of some partition. */
  lemma {:induction false} OverDemandLoses(stage: seq<RankedPartition>, topK: nat, scope: Scope, key: GroupKey)
    requires ValidStage(stage, scope) && topK >= 1 && Demand(stage, topK, scope, key) > topK
    ensures !Fits(stage, topK, scope)
    ensures Bounded(Passed(stage, topK), topK, scope) != FirstOfEach(stage, topK)
    ensures |Bounded(Passed(stage, topK), topK, scope)| < |Passed(stage, topK)|
  {
    StageTopK(stage, topK, scope);
  }

  lemma {:induction false} SharedDemand(stage: seq<RankedPartition>)
    requires |stage| == 2 && |stage[0].ranked| == 1 && |stage[1].ranked| == 1
    requires Counter(stage[0], PerProductType) == Counter(stage[1], PerProductType)
    ensures Demand(stage, 1, PerProductType, Counter(stage[0], PerProductType)) == 2
  {
    var key, init := Counter(stage[0], PerProductType), stage[..1];
    assert init[0] == stage[0] && init[..0] == [];
    assert Demand(init[..0], 1, PerProductType, key) == 0;
    assert Demand(init, 1, PerProductType, key) == 1;
  }

  /** Two products of one type under one metric and period, one without a currency and one with the currency "None". */
  predicate NonePair(registry: Registry, a: MetricValue, b: MetricValue) {
    && a.productType == b.productType && a.productId != b.productId && a.metricId == b.metricId && a.period == b.period
    && registry(a.metricId).currency.None? && a.currency.None? && b.currency == Some("None")
  }

  /** Such a pair shares a counter: at bound one, one of the two products is lost without any tie. */
  lemma {:induction false} NoneCurrencyCollides(
    registry: Registry, a: MetricValue, b: MetricValue, stage: seq<RankedPartition>, descending: MetricValue -> bool)
    requires NonePair(registry, a, b)
    requires Staged(stage, TypePartitions(registry, [a.productType], [a, b]), descending)
    ensures |stage| == 2 && !Fits(stage, 1, PerProductType) && !SomeTieAtBound(stage, 1)
    ensures Bounded(Passed(stage, 1), 1, PerProductType) != FirstOfEach(stage, 1)
  {
    NonePartitions(registry, a, b);
    TypeStageValid(registry, [a.productType], [a, b], stage, descending);
    var p := TypePartitions(registry, [a.productType], [a, b]);
    assert StagedAs(stage[0], p[0], descending) && StagedAs(stage[1], p[1], descending);
    PairLoses(stage, a, b);
  }

  lemma {:induction false} NonePartitions(registry: Registry, a: MetricValue, b: MetricValue)
    requires NonePair(registry, a, b)
    ensures var p := TypePartitions(registry, [a.productType], [a, b]);
      |p| == 2 && p[0].values == [a] && p[1].values == [b] && KeyText(p[0].key) == KeyText(p[1].key)
  {
    OneSegment(registry, a.productType, [a, b]);
    TwoGroups(registry, a, b);
    assert KeyParts(GroupOf(registry, a)) == KeyParts(GroupOf(registry, b));
  }

  lemma {:induction false} PairLoses(stage: seq<RankedPartition>, a: MetricValue, b: MetricValue)
    requires ValidStage(stage, PerProductType) && |stage| == 2 && stage[0].values == [a] && stage[1].values == [b]
    requires a.productType == b.productType && stage[0].key == stage[1].key
    ensures !Fits(stage, 1, PerProductType) && !SomeTieAtBound(stage, 1)
    ensures Bounded(Passed(stage, 1), 1, PerProductType) != FirstOfEach(stage, 1)
  {
    SingleCounter(stage[0], a);
    SingleCounter(stage[1], b);
    SharedDemand(stage);
    NoTies(stage);
    OverDemandLoses(stage, 1, PerProductType, Counter(stage[0], PerProductType));
  }

  lemma {:induction false} SingleCounter(s: RankedPartition, v: MetricValue)
    requires IsRanking(s.values, s.descending, s.ranked) && s.values == [v]
    ensures |s.ranked| == 1 && Counter(s, PerProductType) == GroupKey(Some(v.productType), s.key)
  {
    RankedInValues(s, s.ranked[0]);
  }

  lemma {:induction false} NoTies(stage: seq<RankedPartition>)
    requires forall i | 0 <= i < |stage| :: |stage[i].ranked| == 1
    ensures !SomeTieAtBound(stage, 1)
  {
  }

  lemma {:induction false} OneSegment(registry: Registry, t: Evidence.ProductType, values: seq<MetricValue>)
    requires forall v | v in values :: v.productType == t
    ensures TypePartitions(registry, [t], values) == Partitions(registry, values)
  {
    SelectAll((v: MetricValue) => v.productType == t, values);
    assert [t][..0] == [];
    assert TypePartitions(registry, [t][..0], values) == [];
  }

  /** Two values of different groups make two partitions of one value each. */
  lemma {:induction false} TwoGroups(registry: Registry, a: MetricValue, b: MetricValue)
    requires GroupOf(registry, a) != GroupOf(registry, b)
    ensures var p := Partitions(registry, [a, b]);
      |p| == 2 && p[0].key == GroupOf(registry, a) && p[0].values == [a] && p[1].key == GroupOf(registry, b) && p[1].values == [b]
  {
    GroupKeysSnoc(registry, [], a);
    GroupKeysSnoc(registry, [a], b);
    assert [] + [a] == [a] && [a] + [b] == [a, b];
    MembersSnoc(registry, GroupOf(registry, a), [a], b);
    MembersSnoc(registry, GroupOf(registry, b), [a], b);
  }
}
