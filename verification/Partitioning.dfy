/** Compatibility partitions, their key texts, and metric population counts. */
module Partitioning {
  import opened Wrappers
  import opened Text
  import opened Sequences
  import opened Ranking
  import Evidence

  /** What the metric registry says of a metric. */
  datatype Metric = Metric(
    comparabilityGroup: string, currency: Option<string>, period: Option<string>, crossProductPolicy: string,
    zeroUnverified: bool, positiveRanking: bool)

  type Registry = string -> Metric

  datatype Group = Group(comparability: string, currency: Option<string>, period: Option<string>, policy: string)

  /** Python's `a or b`: an absent or empty text gives way. */
  function Or(a: Option<string>, b: Option<string>): Option<string> {
    if a.Some? && a.value != "" then a else b
  }

  function GroupOf(registry: Registry, v: MetricValue): Group {
    var metric := registry(v.metricId);
    Group(metric.comparabilityGroup, Or(v.currency, metric.currency), Or(v.period, metric.period),
          metric.crossProductPolicy)
  }

  datatype Partition = Partition(key: Group, values: seq<MetricValue>, caveat: bool)

  const RETURNS := "historical_total_return"
  const SAME_SEMANTICS := "same_period_and_compatible_source_semantics"

  predicate MixesTypes(values: seq<MetricValue>) {
    exists v, w | v in values && w in values :: v.productType != w.productType
  }

  function Members(registry: Registry, key: Group, values: seq<MetricValue>): seq<MetricValue> {
    Select((v: MetricValue) => GroupOf(registry, v) == key, values)
  }

  function GroupKeys(registry: Registry, values: seq<MetricValue>): seq<Group> {
    Distinct(Map((v: MetricValue) => GroupOf(registry, v), values))
  }

  function PartitionFor(registry: Registry, key: Group, values: seq<MetricValue>): Partition {
    var members := Members(registry, key, values);
    Partition(key, members, key.policy == SAME_SEMANTICS && MixesTypes(members))
  }

  predicate NeedsPeriod(registry: Registry, values: seq<MetricValue>, requestedPeriod: Option<string>) {
    values != [] && requestedPeriod.None?
    && forall v | v in values :: registry(v.metricId).comparabilityGroup == RETURNS
  }

  /** The brute-force meaning: one partition per group key, in first-seen order, holding all its values in order. */
  function Partitions(registry: Registry, values: seq<MetricValue>): seq<Partition> {
    Map((key: Group) => PartitionFor(registry, key, values), GroupKeys(registry, values))
  }

  lemma {:induction false} MembersSnoc(registry: Registry, key: Group, values: seq<MetricValue>, v: MetricValue)
    ensures Members(registry, key, values + [v])
         == Members(registry, key, values) + if GroupOf(registry, v) == key then [v] else []
  {
    SelectConcat((x: MetricValue) => GroupOf(registry, x) == key, values, [v]);
  }

  lemma {:induction false} GroupKeysSnoc(registry: Registry, values: seq<MetricValue>, v: MetricValue)
    ensures var keys := GroupKeys(registry, values);
            GroupKeys(registry, values + [v]) ==
              if GroupOf(registry, v) in keys then keys else keys + [GroupOf(registry, v)]
  {
    var f := (x: MetricValue) => GroupOf(registry, x);
    var all := Map(f, values + [v]);
    assert all[..|all| - 1] == Map(f, values);
  }

  /** No value is of a metric other than a historical return. */
  predicate OnlyReturns(registry: Registry, values: seq<MetricValue>) {
    !exists v | v in values :: registry(v.metricId).comparabilityGroup != "historical_total_return"
  }

  /** The key names the metric's group and policy, and the value's own currency and period before the metric's. */
  predicate KeyFits(metric: Metric, key: Group, v: MetricValue) {
    && key.comparability == metric.comparabilityGroup && key.policy == metric.crossProductPolicy
    && key.currency == (if v.currency == None || v.currency == Some("") then metric.currency else v.currency)
    && key.period == (if v.period == None || v.period == Some("") then metric.period else v.period)
  }

  /** Products of several types are compared although only their period and source semantics are said to agree. */
  ghost predicate SemanticsDiffer(p: Partition) {
    p.key.policy == "same_period_and_compatible_source_semantics" && |set v | v in p.values :: v.productType| > 1
  }

  lemma {:induction false} TypesDiffer(values: seq<MetricValue>)
    ensures MixesTypes(values) <==> |set v | v in values :: v.productType| > 1
  {
    var types := set v | v in values :: v.productType;
    if v, w :| v in values && w in values && v.productType != w.productType {
      assert {v.productType, w.productType} <= types;
      TwoElements(types, v.productType, w.productType);
    } else if values != [] {
      assert types == {values[0].productType};
    } else {
      assert types == {};
    }
  }

  lemma {:induction false} TwoElements<T>(s: set<T>, a: T, b: T)
    requires a in s && b in s && a != b
    ensures |s| > 1
  {
    assert s == (s - {a} - {b}) + {a} + {b};
  }

  /** `CompatibilityPartitioner.partition`: one pass that fills a dictionary of lists. */
  method PartitionValues(registry: Registry, values: seq<MetricValue>, requestedPeriod: Option<string>)
    returns (r: Option<seq<Partition>>)
    ensures r == if NeedsPeriod(registry, values, requestedPeriod) then None else Some(Partitions(registry, values))
    ensures r.None? <==> requestedPeriod.None? && |values| > 0 && OnlyReturns(registry, values)
    ensures r.Some? ==> forall p | p in r.value :: p.caveat <==> SemanticsDiffer(p)
    ensures r.Some? ==> forall p, v | p in r.value && v in p.values :: KeyFits(registry(v.metricId), p.key, v)
  {
    if NeedsPeriod(registry, values, requestedPeriod) { return None; }
    var groups, order := FillGroups(registry, values);
    var partitions := [];
    for i := 0 to |order|
      invariant |partitions| == i
      invariant forall j | 0 <= j < i :: partitions[j] == PartitionFor(registry, order[j], values)
    {
      var members := groups[order[i]];
      partitions := partitions
        + [Partition(order[i], members, order[i].policy == SAME_SEMANTICS && MixesTypes(members))];
    }
    assert partitions == Partitions(registry, values);
    forall p | p in partitions
      ensures p.caveat <==> SemanticsDiffer(p)
      ensures forall v | v in p.values :: KeyFits(registry(v.metricId), p.key, v)
    {
      TypesDiffer(p.values);
    }
    return Some(partitions);
  }

  /** The dictionary and its key order describe the values seen so far. */
  ghost predicate Filled(
    registry: Registry, groups: map<Group, seq<MetricValue>>, order: seq<Group>, values: seq<MetricValue>)
  {
    && order == GroupKeys(registry, values)
    && (forall k :: k in groups <==> k in order)
    && (forall k | k in groups :: groups[k] == Members(registry, k, values))
  }

  lemma {:induction false} NoMembers(registry: Registry, key: Group, values: seq<MetricValue>)
    requires key !in GroupKeys(registry, values)
    ensures Members(registry, key, values) == []
  {
    InMap((v: MetricValue) => GroupOf(registry, v), values);
    SelectNone((v: MetricValue) => GroupOf(registry, v) == key, values);
  }

  /** `groups.setdefault(key, []).append(value)` */
  function Appended(groups: map<Group, seq<MetricValue>>, key: Group, v: MetricValue): (r: map<Group, seq<MetricValue>>)
    ensures r.Keys == groups.Keys + {key}
  {
    groups[key := (if key in groups then groups[key] else []) + [v]]
  }

  lemma {:induction false} MembersStep(
    registry: Registry, groups: map<Group, seq<MetricValue>>, values: seq<MetricValue>, v: MetricValue, k: Group)
    requires forall k | k in groups :: groups[k] == Members(registry, k, values)
    requires GroupOf(registry, v) !in groups ==> Members(registry, GroupOf(registry, v), values) == []
    requires k in Appended(groups, GroupOf(registry, v), v)
    ensures Appended(groups, GroupOf(registry, v), v)[k] == Members(registry, k, values + [v])
  {
    MembersSnoc(registry, k, values, v);
  }

  lemma {:induction false} KeysStep(
    groups: map<Group, seq<MetricValue>>, order: seq<Group>, key: Group,
    after: map<Group, seq<MetricValue>>, grown: seq<Group>)
    requires (forall k :: k in groups <==> k in order) && after.Keys == groups.Keys + {key}
    requires grown == if key in groups then order else order + [key]
    ensures forall k :: k in after <==> k in grown
  {
    forall k ensures k in after <==> k in grown {
      assert k in after <==> k in groups || k == key;
    }
  }

  lemma {:induction false} FillStep(
    registry: Registry, groups: map<Group, seq<MetricValue>>, order: seq<Group>, values: seq<MetricValue>, v: MetricValue,
    after: map<Group, seq<MetricValue>>, grown: seq<Group>)
    requires Filled(registry, groups, order, values) && after == Appended(groups, GroupOf(registry, v), v)
    requires grown == if GroupOf(registry, v) in groups then order else order + [GroupOf(registry, v)]
    ensures Filled(registry, after, grown, values + [v])
  {
    var key := GroupOf(registry, v);
    if key !in groups { NoMembers(registry, key, values); }
    forall k | k in after ensures after[k] == Members(registry, k, values + [v]) {
      MembersStep(registry, groups, values, v, k);
    }
    KeysStep(groups, order, key, after, grown);
    GroupKeysSnoc(registry, values, v);
  }

  method FillGroups(registry: Registry, values: seq<MetricValue>)
    returns (groups: map<Group, seq<MetricValue>>, order: seq<Group>)
    ensures order == GroupKeys(registry, values)
    ensures forall k | k in order :: k in groups && groups[k] == Members(registry, k, values)
  {
    groups, order := map[], [];
    for i := 0 to |values|
      invariant Filled(registry, groups, order, values[..i])
    {
      var key := GroupOf(registry, values[i]);
      assert values[..i + 1] == values[..i] + [values[i]];
      var grown := if key in groups then order else order + [key];
      var after := Appended(groups, key, values[i]);
      FillStep(registry, groups, order, values[..i], values[i], after, grown);
      groups, order := after, grown;
    }
    assert values[..|values|] == values;
  }

  // ---------- conservation ----------

  function AllMembers(partitions: seq<Partition>): seq<MetricValue> {
    if partitions == [] then [] else partitions[0].values + AllMembers(partitions[1..])
  }

  function AmongKeys(registry: Registry, keys: seq<Group>, values: seq<MetricValue>): seq<MetricValue> {
    Select((v: MetricValue) => GroupOf(registry, v) in keys, values)
  }

  /** The values whose group is among the keys, counted with multiplicity. */
  lemma {:induction false} KeysCover(registry: Registry, keys: seq<Group>, values: seq<MetricValue>)
    requires forall i, j | 0 <= i < j < |keys| :: keys[i] != keys[j]
    ensures multiset(AllMembers(Map((k: Group) => PartitionFor(registry, k, values), keys)))
         == multiset(AmongKeys(registry, keys, values))
  {
    var f := (k: Group) => PartitionFor(registry, k, values);
    if keys == [] {
      SelectNone((v: MetricValue) => GroupOf(registry, v) in keys, values);
    } else {
      assert Map(f, keys)[1..] == Map(f, keys[1..]);
      KeysCover(registry, keys[1..], values);
      AmongSplit(registry, keys[0], keys[1..], values);
      assert keys == [keys[0]] + keys[1..];
    }
  }

  lemma {:induction false} AmongSplit(registry: Registry, key: Group, rest: seq<Group>, values: seq<MetricValue>)
    requires key !in rest
    ensures multiset(AmongKeys(registry, [key] + rest, values))
         == multiset(Members(registry, key, values)) + multiset(AmongKeys(registry, rest, values))
  {
    var keys := [key] + rest;
    SelectEither((v: MetricValue) => GroupOf(registry, v) == key, (v: MetricValue) => GroupOf(registry, v) in rest,
                 (v: MetricValue) => GroupOf(registry, v) in keys, values);
  }

  /** Partitioning loses nothing, duplicates nothing and mixes no two groups. */
  lemma {:induction false} PartitionsConserve(registry: Registry, values: seq<MetricValue>)
    ensures multiset(AllMembers(Partitions(registry, values))) == multiset(values)
    ensures forall p | p in Partitions(registry, values) :: forall v | v in p.values :: GroupOf(registry, v) == p.key
    ensures forall i, j | 0 <= i < j < |Partitions(registry, values)| ::
              Partitions(registry, values)[i].key != Partitions(registry, values)[j].key
  {
    PartitionsCover(registry, values);
    PartitionsKeyed(registry, values);
  }

  lemma {:induction false} PartitionsCover(registry: Registry, values: seq<MetricValue>)
    ensures multiset(AllMembers(Partitions(registry, values))) == multiset(values)
  {
    var keys := GroupKeys(registry, values);
    KeysCover(registry, keys, values);
    AmongAll(registry, keys, values);
  }

  lemma {:induction false} AmongAll(registry: Registry, keys: seq<Group>, values: seq<MetricValue>)
    requires keys == GroupKeys(registry, values)
    ensures AmongKeys(registry, keys, values) == values
  {
    InMap((v: MetricValue) => GroupOf(registry, v), values);
    SelectAll((v: MetricValue) => GroupOf(registry, v) in keys, values);
  }

  lemma {:induction false} PartitionsKeyed(registry: Registry, values: seq<MetricValue>)
    ensures forall p | p in Partitions(registry, values) :: forall v | v in p.values :: GroupOf(registry, v) == p.key
    ensures forall i, j | 0 <= i < j < |Partitions(registry, values)| ::
              Partitions(registry, values)[i].key != Partitions(registry, values)[j].key
  {
    var keys := GroupKeys(registry, values);
    assert forall i | 0 <= i < |keys| :: Partitions(registry, values)[i] == PartitionFor(registry, keys[i], values);
  }

  // ---------- the compatibility key ----------

  function PartText(o: Option<string>): string {
    if o.Some? then o.value else "None"
  }

  function KeyParts(g: Group): seq<string> {
    [g.comparability, PartText(g.currency), PartText(g.period), g.policy]
  }

  /** `":".join(str(item) for item in key)` */
  function KeyText(g: Group): string {
    Join(":", KeyParts(g))
  }

  predicate ColonFree(g: Group) {
    ':' !in g.comparability && ':' !in PartText(g.currency) && ':' !in PartText(g.period) && ':' !in g.policy
  }

  function Colons(text: string): nat {
    Count((c: char) => c == ':', text)
  }

  lemma {:induction false} ColonsConcat(a: string, b: string)
    ensures Colons(a + ":" + b) == Colons(a) + 1 + Colons(b)
  {
    var colon := (c: char) => c == ':';
    CountConcat(colon, a, ":");
    CountConcat(colon, a + ":", b);
    assert Count(colon, ":") == 1;
  }

  lemma {:induction false} ColonsNone(text: string)
    ensures Colons(text) == 0 <==> ':' !in text
  {
    CountNone((c: char) => c == ':', text);
  }

  /** The text has three colons and those of its parts. */
  lemma {:induction false} KeyTextColons(g: Group)
    ensures KeyText(g) == g.comparability + ":" + (PartText(g.currency) + ":" + (PartText(g.period) + ":" + g.policy))
    ensures Colons(KeyText(g))
         == Colons(g.comparability) + Colons(PartText(g.currency)) + Colons(PartText(g.period)) + Colons(g.policy) + 3
    ensures ColonFree(g) <==> Colons(KeyText(g)) == 3
  {
    var tail := PartText(g.period) + ":" + g.policy;
    var rest := PartText(g.currency) + ":" + tail;
    JoinFour(g.comparability, PartText(g.currency), PartText(g.period), g.policy);
    ColonsConcat(PartText(g.period), g.policy);
    ColonsConcat(PartText(g.currency), tail);
    ColonsConcat(g.comparability, rest);
    ColonsNone(g.comparability);
    ColonsNone(PartText(g.currency));
    ColonsNone(PartText(g.period));
    ColonsNone(g.policy);
  }

  lemma {:induction false} JoinFour(a: string, b: string, c: string, d: string)
    ensures Join(":", [a, b, c, d]) == a + ":" + (b + ":" + (c + ":" + d))
  {
    assert [a, b, c, d][1..] == [b, c, d] && [b, c, d][1..] == [c, d] && [c, d][1..] == [d];
    assert Join(":", [c, d]) == c + ":" + d;
    assert Join(":", [b, c, d]) == b + ":" + (c + ":" + d);
  }

  /** A text with colon-free parts determines the parts: collisions are exactly an absent entry against "None". */
  lemma {:induction false} KeyTextExact(a: Group, b: Group)
    requires ColonFree(a)
    ensures KeyText(a) == KeyText(b) <==> KeyParts(a) == KeyParts(b)
  {
    if KeyText(a) == KeyText(b) {
      KeyTextColons(a);
      KeyTextColons(b);
      SplitJoin(':', KeyParts(a));
      SplitJoin(':', KeyParts(b));
    }
  }

  /** No part of the group's key can be mistaken for another's. */
  predicate PlainGroup(g: Group) {
    ColonFree(g) && g.currency != Some("None") && g.period != Some("None")
  }

  /** Plain groups have texts of their own among plain groups. */
  lemma {:induction false} KeyTextInjective(a: Group, b: Group)
    requires PlainGroup(a) && PlainGroup(b) && KeyText(a) == KeyText(b)
    ensures a == b
  {
    KeyTextExact(a, b);
    var p, q := KeyParts(a), KeyParts(b);
    assert p[0] == q[0] && p[1] == q[1] && p[2] == q[2] && p[3] == q[3];
  }

  /** An absent currency and one named "None" have one text, whatever the rest. */
  lemma {:induction false} KeyTextCollides(g: Group)
    requires g.currency.None?
    ensures KeyText(g) == KeyText(g.(currency := Some("None")))
  {
    assert KeyParts(g) == KeyParts(g.(currency := Some("None")));
  }

  /** Nothing else has the key text of this group. */
  ghost predicate KeyTextUnique(a: Group) {
    forall b: Group | KeyText(b) == KeyText(a) :: b == a
  }

  predicate Distinguishable(o: Option<string>) {
    o.Some? && o.value != "None"
  }

  /** A group's text is its own exactly when its parts hold no colon and its currency and period are present and not
      named "None". */
  lemma {:induction false} KeyTextOwn(a: Group)
    ensures KeyTextUnique(a) <==> ColonFree(a) && Distinguishable(a.currency) && Distinguishable(a.period)
  {
    if !ColonFree(a) {
      var b := ColonShifted(a);
      assert KeyText(b) == KeyText(a) && b != a;
    } else if !Distinguishable(a.currency) {
      var b := a.(currency := if a.currency.None? then Some("None") else None);
      assert KeyParts(b) == KeyParts(a);
      assert KeyText(b) == KeyText(a) && b != a;
    } else if !Distinguishable(a.period) {
      var b := a.(period := if a.period.None? then Some("None") else None);
      assert KeyParts(b) == KeyParts(a);
      assert KeyText(b) == KeyText(a) && b != a;
    } else {
      forall b: Group | KeyText(b) == KeyText(a) ensures b == a {
        KeyTextExact(a, b);
        PartsEqual(a, b);
      }
    }
  }

  lemma {:induction false} PartsEqual(a: Group, b: Group)
    requires KeyParts(a) == KeyParts(b) && Distinguishable(a.currency) && Distinguishable(a.period)
    ensures a == b
  {
    var p, q := KeyParts(a), KeyParts(b);
    assert p[0] == q[0] && p[1] == q[1] && p[2] == q[2] && p[3] == q[3];
  }

  lemma {:induction false} ColonSplit(text: string) returns (x: string, y: string)
    requires ':' in text
    ensures text == x + ":" + y
  {
    var i :| 0 <= i < |text| && text[i] == ':';
    x, y := text[..i], text[i + 1..];
  }

  /** Every group with a colon in some part has a different group with the same text: the colon moves over. */
  lemma {:induction false} ColonShifted(a: Group) returns (b: Group)
    requires !ColonFree(a)
    ensures KeyText(b) == KeyText(a) && b != a
  {
    var c, p := PartText(a.currency), PartText(a.period);
    if ':' in a.comparability {
      var x, y := ColonSplit(a.comparability);
      b := Group(x, Some(y + ":" + c), a.period, a.policy);
      ShiftRight(x, y, c, p + ":" + a.policy);
    } else if ':' in c {
      var x, y := ColonSplit(c);
      b := Group(a.comparability + ":" + x, Some(y), a.period, a.policy);
      ShiftRight(a.comparability, x, y, p + ":" + a.policy);
    } else if ':' in p {
      var x, y := ColonSplit(p);
      b := Group(a.comparability, Some(c + ":" + x), Some(y), a.policy);
      ShiftRight(c, x, y, a.policy);
    } else {
      var x, y := ColonSplit(a.policy);
      b := Group(a.comparability, a.currency, Some(p + ":" + x), y);
      assert p + ":" + (x + ":" + y) == (p + ":" + x) + ":" + y;
    }
    KeyTextColons(a);
    KeyTextColons(b);
  }

  lemma {:induction false} ShiftRight(a: string, b: string, c: string, rest: string)
    ensures (a + ":" + b) + ":" + (c + ":" + rest) == a + ":" + ((b + ":" + c) + ":" + rest)
  {
  }

  // ---------- population counts ----------

  datatype Operation = Display | FilterBy | RankBy | AggregateBy

  predicate IsZero(v: MetricValue) {
    v.value == Some(Num(0.0))
  }

  /** `MetricPolicy._valid` */
  predicate PolicyValid(registry: Registry, operation: Operation, v: MetricValue) {
    var metric := registry(v.metricId);
    if v.qualityStatus !in {"valid", "recorded_zero", "constant_metric"} then false
    else if !IsZero(v) then true
    else if metric.zeroUnverified then false
    else !(operation == RankBy && metric.positiveRanking)
  }

  /** The values `MetricPolicy.apply` lets through. */
  predicate ComparisonValid(registry: Registry, operation: Operation, v: MetricValue) {
    v.value.Some? && (operation == Display || operation == FilterBy || PolicyValid(registry, operation, v))
  }

  /** Why a value is left out: it is missing, or a comparison meets an untrusted status, an unverified zero, or a zero
      in a ranking of positive values. */
  predicate LeftOut(registry: Registry, operation: Operation, v: MetricValue) {
    || v.value.None?
    || ((operation == RankBy || operation == AggregateBy)
        && v.qualityStatus != "valid" && v.qualityStatus != "recorded_zero" && v.qualityStatus != "constant_metric")
    || ((operation == RankBy || operation == AggregateBy) && v.value == Some(Num(0.0)) && registry(v.metricId).zeroUnverified)
    || (operation == RankBy && v.value == Some(Num(0.0)) && registry(v.metricId).positiveRanking)
  }

  /** A value takes part in an operation exactly when there is no reason to leave it out. */
  lemma {:induction false} PolicyExactly(registry: Registry, operation: Operation, v: MetricValue)
    ensures ComparisonValid(registry, operation, v) <==> !LeftOut(registry, operation, v)
  {
  }

  type Identity = (Evidence.ProductType, string, string)

  function IdentityOf(v: MetricValue): Identity {
    (v.productType, v.productId, v.metricId)
  }

  function ValidIdentities(registry: Registry, operation: Operation, population: seq<MetricValue>): set<Identity> {
    set v | v in population && ComparisonValid(registry, operation, v) :: IdentityOf(v)
  }

  /** The three published counts of one group, and the nonzero values the policy rejects. */
  function Included(valid: set<Identity>, group: seq<MetricValue>): nat {
    Count((v: MetricValue) => !IsZero(v) && IdentityOf(v) in valid, group)
  }

  function MissingCount(group: seq<MetricValue>): nat {
    Count((v: MetricValue) => v.value.None?, group)
  }

  function ZeroCount(group: seq<MetricValue>): nat {
    Count((v: MetricValue) => IsZero(v), group)
  }

  function RejectedCount(registry: Registry, operation: Operation, group: seq<MetricValue>): nat {
    Count((v: MetricValue) => v.value.Some? && !IsZero(v) && !ComparisonValid(registry, operation, v), group)
  }

  /** A missing or rejected value that shares its identity with a valid one. */
  predicate Shadowed(registry: Registry, operation: Operation, valid: set<Identity>, v: MetricValue) {
    !IsZero(v) && !ComparisonValid(registry, operation, v) && IdentityOf(v) in valid
  }

  /** Each shadowed value is counted twice; apart from them the counts add up to the group. */
  lemma {:induction false} CountsWithShadows(
    registry: Registry, operation: Operation, population: seq<MetricValue>, group: seq<MetricValue>)
    requires forall v | v in group :: v in population
    ensures var valid := ValidIdentities(registry, operation, population);
            Included(valid, group) + ZeroCount(group) + MissingCount(group) + RejectedCount(registry, operation, group)
            == |group| + Count((v: MetricValue) => Shadowed(registry, operation, valid, v), group)
  {
    if group != [] {
      CountsWithShadows(registry, operation, population, group[1..]);
      assert group[0] in population;
    }
  }

  /** Included, zero, missing and rejected values partition the group iff no missing or rejected value of the group
      shares its identity with a valid one. */
  lemma {:induction false} PopulationConserved(
    registry: Registry, operation: Operation, population: seq<MetricValue>, group: seq<MetricValue>)
    requires forall v | v in group :: v in population
    ensures var valid := ValidIdentities(registry, operation, population);
            Included(valid, group) + ZeroCount(group) + MissingCount(group) + RejectedCount(registry, operation, group)
            == |group|
            <==> forall v | v in group :: !Shadowed(registry, operation, valid, v)
  {
    var valid := ValidIdentities(registry, operation, population);
    CountsWithShadows(registry, operation, population, group);
    CountNone((v: MetricValue) => Shadowed(registry, operation, valid, v), group);
  }

  /** Unique identities are enough. */
  lemma {:induction false} UniqueIdentitiesConserve(
    registry: Registry, operation: Operation, population: seq<MetricValue>, group: seq<MetricValue>)
    requires forall v | v in group :: v in population
    requires forall v, w | v in population && w in population && IdentityOf(v) == IdentityOf(w) :: v == w
    ensures Included(ValidIdentities(registry, operation, population), group) + ZeroCount(group) + MissingCount(group)
            + RejectedCount(registry, operation, group) == |group|
  {
    PopulationConserved(registry, operation, population, group);
  }

  /** A value listed once missing and once valid breaks the sum. */
  lemma {:induction false} SharedIdentityBreaksCounts(registry: Registry)
    ensures var present := MetricValue("m", Evidence.PublicFund, "p", Some(Num(1.0)), "valid", None, None, None);
            var absent := present.(value := None);
            var group := [present, absent];
            Included(ValidIdentities(registry, Display, group), group) + ZeroCount(group) + MissingCount(group)
            + RejectedCount(registry, Display, group) == |group| + 1
  {
    var present := MetricValue("m", Evidence.PublicFund, "p", Some(Num(1.0)), "valid", None, None, None);
    var absent := present.(value := None);
    var group := [present, absent];
    var valid := ValidIdentities(registry, Display, group);
    assert present in group && IdentityOf(present) in valid;
    CountsWithShadows(registry, Display, group, group);
    var shadowed := (v: MetricValue) => Shadowed(registry, Display, valid, v);
    assert group[1..] == [absent] && [absent][1..] == [];
    assert Count(shadowed, [absent]) == 1;
    assert Count(shadowed, group) == 1;
  }
}
