/** Competition ranking with ties, and the top-k bound that evidence keeps. */
module Ranking {
  import opened Wrappers
  import opened Text
  import opened Sequences
  import Sorting
  import Evidence

  /** Decimals and integers compare as numbers, texts by code points; Python cannot compare across. */
  datatype SortKey = Num(r: real) | Word(s: string)

  predicate KeyLt(a: SortKey, b: SortKey) {
    match (a, b)
    case (Num(x), Num(y)) => x < y
    case (Word(x), Word(y)) => StrLt(x, y)
    case (Num(_), Word(_)) => true
    case (Word(_), Num(_)) => false
  }

  datatype MetricValue = MetricValue(
    metricId: string, productType: Evidence.ProductType, productId: string, value: Option<SortKey>,
    qualityStatus: string, currency: Option<string>, period: Option<string>, sortValue: Option<SortKey>)

  /** `_sort_value` of a value that is present. */
  function KeyOf(v: MetricValue): SortKey {
    if v.sortValue.Some? then v.sortValue.value
    else if v.value.Some? then v.value.value
    else Num(0.0)
  }

  /** The inputs Python can rank: every value present, and all keys of one kind. */
  predicate Rankable(values: seq<MetricValue>) {
    && (forall v | v in values :: v.value.Some?)
    && ((forall v | v in values :: KeyOf(v).Num?) || (forall v | v in values :: KeyOf(v).Word?))
  }

  /** The sort value, or the value itself when there is none, is a number. */
  predicate NumericKey(v: MetricValue) {
    (v.sortValue.Some? && v.sortValue.value.Num?) || (v.sortValue.None? && v.value.Some? && v.value.value.Num?)
  }

  /** No value is missing, and no number would be compared with a text. */
  predicate Comparable(values: seq<MetricValue>) {
    forall v, w | v in values && w in values :: v.value.Some? && w.value.Some? && NumericKey(v) == NumericKey(w)
  }

  lemma {:induction false} RankableExactly(values: seq<MetricValue>)
    ensures Rankable(values) <==> Comparable(values)
  {
    if Comparable(values) && values != [] {
      forall v | v in values ensures v.value.Some? && NumericKey(v) == NumericKey(values[0]) {
        assert values[0] in values;
      }
    }
  }

  /** `a` ranks strictly before `b`. */
  predicate Better(descending: bool, a: SortKey, b: SortKey) {
    if descending then KeyLt(b, a) else KeyLt(a, b)
  }

  datatype RankedValue = RankedValue(value: MetricValue, rank: nat, tieCount: nat)

  // ---------- order facts ----------

  lemma {:induction false} KeyTrichotomy(a: SortKey, b: SortKey)
    ensures !(KeyLt(a, b) && KeyLt(b, a))
    ensures KeyLt(a, b) || KeyLt(b, a) <==> a != b
  {
    if a.Word? && b.Word? { StrLtTrichotomy(a.s, b.s); }
  }

  lemma {:induction false} KeyTransitive(a: SortKey, b: SortKey, c: SortKey)
    requires KeyLt(a, b) && KeyLt(b, c)
    ensures KeyLt(a, c)
  {
    if a.Word? && b.Word? && c.Word? { StrLtTransitive(a.s, b.s, c.s); }
  }

  /** A strict total order of keys gives a strict weak order of whatever carries them. */
  lemma {:induction false} BetterIsStrictWeak(descending: bool)
    ensures Sorting.StrictWeak((a: MetricValue, b: MetricValue) => Better(descending, KeyOf(a), KeyOf(b)))
  {
    forall x: MetricValue ensures !Better(descending, KeyOf(x), KeyOf(x)) { KeyTrichotomy(KeyOf(x), KeyOf(x)); }
    forall x: MetricValue, y: MetricValue, z: MetricValue
      | Better(descending, KeyOf(x), KeyOf(y)) && Better(descending, KeyOf(y), KeyOf(z))
      ensures Better(descending, KeyOf(x), KeyOf(z))
    {
      if descending { KeyTransitive(KeyOf(z), KeyOf(y), KeyOf(x)); } else { KeyTransitive(KeyOf(x), KeyOf(y), KeyOf(z)); }
    }
    forall x: MetricValue, y: MetricValue, z: MetricValue | Better(descending, KeyOf(x), KeyOf(z))
      ensures Better(descending, KeyOf(x), KeyOf(y)) || Better(descending, KeyOf(y), KeyOf(z))
    {
      BetterSplits(descending, KeyOf(x), KeyOf(y), KeyOf(z));
    }
  }

  lemma {:induction false} BetterSplits(descending: bool, x: SortKey, y: SortKey, z: SortKey)
    requires Better(descending, x, z)
    ensures Better(descending, x, y) || Better(descending, y, z)
  {
    KeyTrichotomy(x, y);
    KeyTrichotomy(y, z);
    if !Better(descending, x, y) && x != y {
      if descending { KeyTransitive(z, x, y); } else { KeyTransitive(y, x, z); }
    }
  }

  lemma {:induction false} IdIsStrictWeak()
    ensures Sorting.StrictWeak((a: MetricValue, b: MetricValue) => StrLt(a.productId, b.productId))
  {
    forall x: MetricValue ensures !StrLt(x.productId, x.productId) { StrLtTrichotomy(x.productId, x.productId); }
    forall x: MetricValue, y: MetricValue, z: MetricValue
      | StrLt(x.productId, y.productId) && StrLt(y.productId, z.productId)
      ensures StrLt(x.productId, z.productId)
    {
      StrLtTransitive(x.productId, y.productId, z.productId);
    }
    forall x: MetricValue, y: MetricValue, z: MetricValue | StrLt(x.productId, z.productId)
      ensures StrLt(x.productId, y.productId) || StrLt(y.productId, z.productId)
    {
      StrLtTrichotomy(x.productId, y.productId);
      if StrLt(y.productId, x.productId) { StrLtTransitive(y.productId, x.productId, z.productId); }
    }
  }

  // ---------- the two-pass stable sort ----------

  /** `sorted(key=product_id)` followed by `sort(key=_sort_value, reverse=descending)`. */
  function Ordered(values: seq<MetricValue>, descending: bool): seq<MetricValue> {
    Sorting.Sort((a: MetricValue, b: MetricValue) => Better(descending, KeyOf(a), KeyOf(b)),
                 Sorting.Sort((a: MetricValue, b: MetricValue) => StrLt(a.productId, b.productId), values))
  }

  /** Best first; equal keys in ascending product identifiers, whichever the direction. */
  ghost predicate BestFirst(s: seq<MetricValue>, descending: bool) {
    forall i, j | 0 <= i < j < |s| ::
      || Better(descending, KeyOf(s[i]), KeyOf(s[j]))
      || (KeyOf(s[i]) == KeyOf(s[j]) && !StrLt(s[j].productId, s[i].productId))
  }

  lemma {:induction false} OrderedIsBestFirst(values: seq<MetricValue>, descending: bool)
    ensures BestFirst(Ordered(values, descending), descending)
    ensures multiset(Ordered(values, descending)) == multiset(values)
  {
    var byId := (a: MetricValue, b: MetricValue) => StrLt(a.productId, b.productId);
    var byKey := (a: MetricValue, b: MetricValue) => Better(descending, KeyOf(a), KeyOf(b));
    var idsAscend := (a: MetricValue, b: MetricValue) => !StrLt(b.productId, a.productId);
    var any := (a: MetricValue, b: MetricValue) => true;
    var first := Sorting.Sort(byId, values);
    IdIsStrictWeak();
    Sorting.SortStable(byId, any, values);
    forall i, j | 0 <= i < j < |first| ensures idsAscend(first[i], first[j]) {
      StrLtTrichotomy(first[i].productId, first[j].productId);
    }
    BetterIsStrictWeak(descending);
    Sorting.SortStable(byKey, idsAscend, first);
    var s := Sorting.Sort(byKey, first);
    forall i, j | 0 <= i < j < |s| && !Better(descending, KeyOf(s[i]), KeyOf(s[j]))
      ensures KeyOf(s[i]) == KeyOf(s[j])
    {
      KeyTrichotomy(KeyOf(s[i]), KeyOf(s[j]));
    }
  }

  // ---------- ranks ----------

  /** How many values rank strictly before the key. */
  function BetterCount(values: seq<MetricValue>, descending: bool, key: SortKey): nat {
    Count((v: MetricValue) => Better(descending, KeyOf(v), key), values)
  }

  function EqualCount(values: seq<MetricValue>, key: SortKey): nat {
    Count((v: MetricValue) => KeyOf(v) == key, values)
  }

  /** In a best-first list the first position of a key is the number of better values. */
  lemma {:induction false} FirstPosition(s: seq<MetricValue>, descending: bool, i: nat)
    requires BestFirst(s, descending) && i < |s|
    requires forall j | 0 <= j < i :: KeyOf(s[j]) != KeyOf(s[i])
    ensures BetterCount(s, descending, KeyOf(s[i])) == i
  {
    var key := KeyOf(s[i]);
    var better := (v: MetricValue) => Better(descending, KeyOf(v), key);
    NoneBetterAfter(s, descending, i);
    assert forall v | v in s[..i] :: better(v);
    CountAll(better, s[..i]);
    CountNone(better, s[i..]);
    CountConcat(better, s[..i], s[i..]);
    assert s == s[..i] + s[i..];
  }

  lemma {:induction false} NoneBetterAfter(s: seq<MetricValue>, descending: bool, i: nat)
    requires BestFirst(s, descending) && i < |s|
    ensures forall v | v in s[i..] :: !Better(descending, KeyOf(v), KeyOf(s[i]))
  {
    forall k | i <= k < |s| ensures !Better(descending, KeyOf(s[k]), KeyOf(s[i])) {
      KeyTrichotomy(KeyOf(s[k]), KeyOf(s[i]));
    }
  }

  /** The independent meaning of a ranking: best first, rank one more than the number of better values,
      tie count the multiplicity. */
  ghost predicate IsRanking(values: seq<MetricValue>, descending: bool, ranked: seq<RankedValue>) {
    && |ranked| == |values|
    && multiset(ValuesOf(ranked)) == multiset(values)
    && BestFirst(ValuesOf(ranked), descending)
    && forall i | 0 <= i < |ranked| ::
         && ranked[i].rank == 1 + BetterCount(values, descending, KeyOf(ranked[i].value))
         && ranked[i].tieCount == EqualCount(values, KeyOf(ranked[i].value))
  }

  function ValuesOf(ranked: seq<RankedValue>): (s: seq<MetricValue>)
    ensures |s| == |ranked|
    ensures forall i | 0 <= i < |s| :: s[i] == ranked[i].value
  {
    seq(|ranked|, i requires 0 <= i < |ranked| => ranked[i].value)
  }

  /** The `ranks.setdefault` loop: each key gets the position at which it first stands. */
  method FirstRanks(ordered: seq<MetricValue>, descending: bool) returns (ranks: map<SortKey, nat>)
    requires BestFirst(ordered, descending)
    ensures forall v | v in ordered ::
              KeyOf(v) in ranks && ranks[KeyOf(v)] == 1 + BetterCount(ordered, descending, KeyOf(v))
  {
    ranks := map[];
    for i := 0 to |ordered|
      invariant forall j | 0 <= j < i :: KeyOf(ordered[j]) in ranks
      invariant forall k | k in ranks :: ranks[k] == 1 + BetterCount(ordered, descending, k)
      invariant forall k | k in ranks :: exists j | 0 <= j < i :: KeyOf(ordered[j]) == k
    {
      var key := KeyOf(ordered[i]);
      if key !in ranks {
        FirstPosition(ordered, descending, i);
        ranks := ranks[key := i + 1];
      }
    }
  }

  lemma {:induction false} CountsPermute(a: seq<MetricValue>, b: seq<MetricValue>, descending: bool, key: SortKey)
    requires multiset(a) == multiset(b)
    ensures BetterCount(a, descending, key) == BetterCount(b, descending, key)
    ensures EqualCount(a, key) == EqualCount(b, key)
  {
    CountPermutation((v: MetricValue) => Better(descending, KeyOf(v), key), a, b);
    CountPermutation((v: MetricValue) => KeyOf(v) == key, a, b);
  }

  /** The ranked items of a best-first list. */
  method RankOrdered(values: seq<MetricValue>, ordered: seq<MetricValue>, descending: bool)
    returns (ranked: seq<RankedValue>)
    requires BestFirst(ordered, descending) && multiset(ordered) == multiset(values)
    ensures IsRanking(values, descending, ranked)
  {
    var ranks := FirstRanks(ordered, descending);
    ranked := [];
    for i := 0 to |ordered|
      invariant |ranked| == i
      invariant forall j | 0 <= j < i :: ranked[j].value == ordered[j]
      invariant forall j | 0 <= j < i :: ranked[j].rank == 1 + BetterCount(values, descending, KeyOf(ordered[j]))
      invariant forall j | 0 <= j < i :: ranked[j].tieCount == EqualCount(values, KeyOf(ordered[j]))
    {
      var key := KeyOf(ordered[i]);
      CountsPermute(ordered, values, descending, key);
      assert ordered[i] in ordered;
      ranked := ranked + [RankedValue(ordered[i], ranks[key], EqualCount(ordered, key))];
    }
    assert ValuesOf(ranked) == ordered;
    assert |ordered| == |multiset(ordered)| == |multiset(values)| == |values|;
  }

  /** `TiePolicy.rank`; `None` is the error for values that cannot be compared. */
  method Rank(values: seq<MetricValue>, descending: bool) returns (r: Option<seq<RankedValue>>)
    ensures (r.Some? <==> Comparable(values)) && (r.Some? <==> Rankable(values))
    ensures r.Some? ==> IsRanking(values, descending, r.value)
  {
    RankableExactly(values);
    if !Rankable(values) { return None; }
    var ordered := Ordered(values, descending);
    OrderedIsBestFirst(values, descending);
    var ranked := RankOrdered(values, ordered, descending);
    return Some(ranked);
  }

  /** Ascending rank, descending rank and tie count of one key add up to two more than the population. */
  lemma {:induction false} RanksAddUp(values: seq<MetricValue>, key: SortKey)
    ensures (1 + BetterCount(values, false, key)) + (1 + BetterCount(values, true, key)) + EqualCount(values, key)
         == |values| + 2
  {
    if values != [] {
      RanksAddUp(values[1..], key);
      KeyTrichotomy(KeyOf(values[0]), key);
    }
  }

  /** With distinct keys the two directions are exact reversals of each other. */
  lemma {:induction false} DistinctReverse(values: seq<MetricValue>, up: seq<RankedValue>, down: seq<RankedValue>)
    requires IsRanking(values, false, up) && IsRanking(values, true, down)
    requires forall i, j | 0 <= i < j < |up| :: KeyOf(up[i].value) != KeyOf(up[j].value)
    ensures ValuesOf(down) == Reversed(ValuesOf(up))
  {
    var better := (a: MetricValue, b: MetricValue) => Better(true, KeyOf(a), KeyOf(b));
    var ascending, descending := ValuesOf(up), ValuesOf(down);
    forall x: MetricValue, y: MetricValue ensures !(better(x, y) && better(y, x)) {
      KeyTrichotomy(KeyOf(x), KeyOf(y));
    }
    DistinctKeysPermute(ascending, descending);
    assert Sorting.Pairwise(better, Reversed(ascending));
    assert Sorting.Pairwise(better, descending);
    Sorting.StrictOrderUnique(better, descending, Reversed(ascending));
  }

  lemma {:induction false} DistinctKeysPermute(a: seq<MetricValue>, b: seq<MetricValue>)
    requires multiset(a) == multiset(b)
    requires forall i, j | 0 <= i < j < |a| :: KeyOf(a[i]) != KeyOf(a[j])
    ensures forall i, j | 0 <= i < j < |b| :: KeyOf(b[i]) != KeyOf(b[j])
  {
    forall i, j | 0 <= i < j < |b| ensures KeyOf(b[i]) != KeyOf(b[j]) {
      var key := KeyOf(b[i]);
      var same := (v: MetricValue) => KeyOf(v) == key;
      CountPermutation(same, a, b);
      AtMostOne(a, key);
      assert b == b[..j] + ([b[j]] + b[j + 1..]);
      CountConcat(same, b[..j], [b[j]] + b[j + 1..]);
      assert b[i] in b[..j];
      CountNone(same, b[..j]);
    }
  }

  lemma {:induction false} AtMostOne(s: seq<MetricValue>, key: SortKey)
    requires forall i, j | 0 <= i < j < |s| :: KeyOf(s[i]) != KeyOf(s[j])
    ensures Count((v: MetricValue) => KeyOf(v) == key, s) <= 1
  {
    if s != [] {
      AtMostOne(s[1..], key);
      if KeyOf(s[0]) == key {
        CountNone((v: MetricValue) => KeyOf(v) == key, s[1..]);
      }
    }
  }

  /** With distinct product identifiers the meaning above leaves exactly one ranking. */
  lemma {:induction false} RankingUnique(
    values: seq<MetricValue>, descending: bool, a: seq<RankedValue>, b: seq<RankedValue>)
    requires IsRanking(values, descending, a) && IsRanking(values, descending, b)
    requires forall i, j | 0 <= i < j < |a| :: a[i].value.productId != a[j].value.productId
    requires forall i, j | 0 <= i < j < |b| :: b[i].value.productId != b[j].value.productId
    ensures a == b
  {
    var before := (x: MetricValue, y: MetricValue) =>
      Better(descending, KeyOf(x), KeyOf(y)) || (KeyOf(x) == KeyOf(y) && StrLt(x.productId, y.productId));
    forall x: MetricValue, y: MetricValue ensures !(before(x, y) && before(y, x)) {
      KeyTrichotomy(KeyOf(x), KeyOf(y));
      StrLtTrichotomy(x.productId, y.productId);
    }
    BestFirstIsStrict(ValuesOf(a), descending, before);
    BestFirstIsStrict(ValuesOf(b), descending, before);
    Sorting.StrictOrderUnique(before, ValuesOf(a), ValuesOf(b));
    forall i | 0 <= i < |a| ensures a[i] == b[i] {
      assert ValuesOf(a)[i] == ValuesOf(b)[i];
    }
  }

  lemma {:induction false} BestFirstIsStrict(
    s: seq<MetricValue>, descending: bool, before: (MetricValue, MetricValue) -> bool)
    requires BestFirst(s, descending)
    requires forall i, j | 0 <= i < j < |s| :: s[i].productId != s[j].productId
    requires forall x: MetricValue, y: MetricValue :: before(x, y) <==>
      Better(descending, KeyOf(x), KeyOf(y)) || (KeyOf(x) == KeyOf(y) && StrLt(x.productId, y.productId))
    ensures Sorting.Pairwise(before, s)
  {
    forall i, j | 0 <= i < j < |s| ensures before(s[i], s[j]) {
      StrLtTrichotomy(s[i].productId, s[j].productId);
    }
  }
}
