/** Denominator-preserving scoring of golden cases, and the aggregates of a whole suite. */
module Scoring {
  import opened Wrappers
  import opened Sequences
  import Text
  import opened Pacing

  // ---------- ratios ----------

  /** The failure messages of the report, by kind. */
  datatype Failure =
    | PlanMissing
    | FieldDiffers(name: string)
    | Differs(dimension: string)
    | ValueMissing(valueKey: ValueKey)
    | ValueDiffers(valueKey: ValueKey)
    | AggregateMissing(key: string)
    | AggregateDuplicated(key: string)
    | AggregateDiffers(key: string)
    | AggregateUnexpected(key: string)
    | EvidenceMissing(id: string)
    | ConceptMissing(concept: string)
    | ConceptForbidden(concept: string)
    | InCase(caseId: string, failure: Failure)

  datatype Ratio = Ratio(value: real, numerator: nat, denominator: nat, failures: seq<Failure>)

  function Quotient(numerator: nat, denominator: nat): real {
    if denominator == 0 then 1.0 else numerator as real / denominator as real
  }

  /** `_ratio` */
  function MakeRatio(numerator: nat, denominator: nat, failures: seq<Failure>): Ratio {
    Ratio(Quotient(numerator, denominator), numerator, denominator, failures)
  }

  const NotApplicable: Ratio := MakeRatio(0, 0, [])

  predicate Perfect(r: Ratio) {
    r.numerator == r.denominator
  }

  /** The value is the fraction; an empty one counts as whole. */
  predicate IsFraction(value: real, numerator: nat, denominator: nat) {
    if denominator == 0 then value == 1.0 else value * (denominator as real) == numerator as real
  }

  /** What every dimension promises: a proper fraction, and a reason exactly when it is not whole. */
  predicate Sound(r: Ratio) {
    && r.numerator <= r.denominator
    && IsFraction(r.value, r.numerator, r.denominator)
    && (r.failures == [] <==> Perfect(r))
    && 0.0 <= r.value <= 1.0
    && (r.value == 1.0 <==> Perfect(r))
  }

  lemma {:induction false} Divided(x: real, y: real)
    requires y > 0.0
    ensures (x / y) * y == x
  {
  }

  /** A positive factor keeps the order of a number and a bound, both ways. */
  lemma {:induction false} FactorOrder(q: real, bound: real, d: real)
    requires d > 0.0
    ensures q < bound <==> q * d < bound * d
    ensures q == bound <==> q * d == bound * d
  {
    if q < bound { ScaledLess(q, bound, d); }
    if bound < q { ScaledLess(bound, q, d); }
  }

  lemma {:induction false} QuotientWhole(numerator: nat, denominator: nat)
    requires numerator <= denominator
    ensures 0.0 <= Quotient(numerator, denominator) <= 1.0
    ensures Quotient(numerator, denominator) == 1.0 <==> numerator == denominator
    ensures IsFraction(Quotient(numerator, denominator), numerator, denominator)
  {
    if denominator != 0 {
      var n, d := numerator as real, denominator as real;
      Divided(n, d);
      FactorOrder(n / d, 0.0, d);
      FactorOrder(n / d, 1.0, d);
      assert 0.0 * d == 0.0 && 1.0 * d == d;
    }
  }

  // ---------- products and filters ----------

  function Elements<T>(s: seq<T>): set<T> {
    set x | x in s
  }

  lemma {:induction false} NoElements<T>(s: seq<T>)
    ensures |Elements(s)| == 0 <==> s == []
  {
    if s != [] { assert s[0] in Elements(s); }
  }

  /** Twice the common part over the two sizes: whole exactly for equal sets. */
  lemma {:induction false} DiceWhole<T>(a: set<T>, b: set<T>)
    ensures 2 * |a * b| <= |a| + |b|
    ensures 2 * |a * b| == |a| + |b| <==> a == b
  {
    assert |a| == |a * b| + |a - b| by { assert a == (a * b) + (a - b); }
    assert |b| == |a * b| + |b - a| by { assert b == (a * b) + (b - a); }
    if |a - b| == 0 && |b - a| == 0 {
      assert a - b == {} && b - a == {};
      assert forall x :: x in a <==> x in b;
    }
  }

  /** `sum(left == right for left, right in zip(a, b))` */
  function Agreements<T(==)>(a: seq<T>, b: seq<T>): nat {
    if a == [] || b == [] then 0
    else (if a[0] == b[0] then 1 else 0) + Agreements(a[1..], b[1..])
  }

  function Max(a: nat, b: nat): nat {
    if a < b then b else a
  }

  lemma {:induction false} AgreementsWhole<T>(a: seq<T>, b: seq<T>)
    ensures Agreements(a, b) <= |a| && Agreements(a, b) <= |b|
    ensures Agreements(a, b) == Max(|a|, |b|) <==> a == b
  {
    if a != [] && b != [] {
      AgreementsWhole(a[1..], b[1..]);
      assert a == [a[0]] + a[1..] && b == [b[0]] + b[1..];
    }
  }

  lemma {:induction false} AgreementsSnoc<T>(a: seq<T>, b: seq<T>, x: T, y: T)
    requires |a| == |b|
    ensures Agreements(a + [x], b + [y]) == Agreements(a, b) + Bit(x == y)
  {
    if a != [] {
      assert (a + [x])[1..] == a[1..] + [x] && (b + [y])[1..] == b[1..] + [y];
      AgreementsSnoc(a[1..], b[1..], x, y);
    }
  }

  lemma {:induction false} AgreementsCut<T>(a: seq<T>, b: seq<T>, n: nat)
    requires n <= |a| && n <= |b| && (n == |a| || n == |b|)
    ensures Agreements(a, b) == Agreements(a[..n], b[..n])
  {
    if n > 0 {
      assert a[..n][1..] == a[1..][..n - 1] && b[..n][1..] == b[1..][..n - 1];
      AgreementsCut(a[1..], b[1..], n - 1);
    }
  }

  lemma {:induction false} EqualPlaces<T>(a: seq<T>, b: seq<T>, positions: set<int>)
    requires |a| == |b|
    requires forall i | i in positions :: 0 <= i < |a| && a[i] == b[i]
    requires forall i | 0 <= i < |a| && a[i] == b[i] :: i in positions
    ensures Agreements(a, b) == |positions|
  {
    if a == [] {
      forall i ensures i !in positions {}
      assert positions == {};
    } else {
      var last := |a| - 1;
      assert a == a[..last] + [a[last]] && b == b[..last] + [b[last]];
      AgreementsSnoc(a[..last], b[..last], a[last], b[last]);
      EqualPlaces(a[..last], b[..last], positions - {last});
    }
  }

  /** Agreements are positions at which both sequences hold the same. */
  lemma {:induction false} AgreementsExactly<T>(a: seq<T>, b: seq<T>, positions: set<int>)
    requires forall i | i in positions :: 0 <= i < |a| && i < |b| && a[i] == b[i]
    requires forall i | 0 <= i < |a| && i < |b| && a[i] == b[i] :: i in positions
    ensures Agreements(a, b) == |positions|
  {
    var n := if |a| < |b| then |a| else |b|;
    AgreementsCut(a, b, n);
    EqualPlaces(a[..n], b[..n], positions);
  }

  datatype ProductScore = ProductScore(setNumerator: nat, setDenominator: nat, orderNumerator: nat, orderDenominator: nat)

  /** `score_products`: the set score is whole exactly for equal sets, the order score exactly for equal lists. */
  function ScoreProducts(expected: seq<string>, observed: seq<string>): (r: ProductScore)
    ensures r.setNumerator <= r.setDenominator && r.orderNumerator <= r.orderDenominator
    ensures r.setNumerator == r.setDenominator <==> Elements(expected) == Elements(observed)
    ensures r.orderNumerator == r.orderDenominator <==> expected == observed
    ensures expected + observed != [] ==>
              && r.setNumerator == 2 * |set x | x in expected && x in observed|
              && r.setDenominator == |set x | x in expected| + |set x | x in observed|
              && r.orderNumerator == |set i | 0 <= i < |expected| && i < |observed| && expected[i] == observed[i]|
  {
    var e, o := Elements(expected), Elements(observed);
    DiceWhole(e, o);
    AgreementsWhole(expected, observed);
    AgreementsExactly(expected, observed, set i | 0 <= i < |expected| && i < |observed| && expected[i] == observed[i]);
    assert e * o == set x | x in expected && x in observed;
    NoElements(expected);
    NoElements(observed);
    var denominator := |e| + |o|;
    var order := if expected == [] && observed == [] then 1 else Agreements(expected, observed);
    var longest := Max(Max(|expected|, |observed|), 1);
    if denominator == 0 then ProductScore(1, 1, order, longest)
    else ProductScore(2 * |e * o|, denominator, order, longest)
  }

  function ProductSet(s: ProductScore): (r: Ratio)
    requires s.setNumerator <= s.setDenominator
    ensures Sound(r) && (Perfect(r) <==> s.setNumerator == s.setDenominator)
  {
    QuotientWhole(s.setNumerator, s.setDenominator);
    MakeRatio(s.setNumerator, s.setDenominator,
              if Quotient(s.setNumerator, s.setDenominator) == 1.0 then [] else [Differs("product set")])
  }

  function ProductOrder(s: ProductScore): (r: Ratio)
    requires s.orderNumerator <= s.orderDenominator
    ensures Sound(r) && (Perfect(r) <==> s.orderNumerator == s.orderDenominator)
  {
    QuotientWhole(s.orderNumerator, s.orderDenominator);
    MakeRatio(s.orderNumerator, s.orderDenominator,
              if Quotient(s.orderNumerator, s.orderDenominator) == 1.0 then [] else [Differs("product order")])
  }

  /** `score_filters`, with each clause given by its canonical text. */
  function ScoreFilters(expected: seq<string>, observed: seq<string>): (r: Ratio)
    ensures Sound(r) && (Perfect(r) <==> Elements(expected) == Elements(observed))
    ensures expected + observed != [] ==>
              && r.numerator == 2 * |set x | x in expected && x in observed|
              && r.denominator == |set x | x in expected| + |set x | x in observed|
  {
    var e, o := Elements(expected), Elements(observed);
    DiceWhole(e, o);
    assert e * o == set x | x in expected && x in observed;
    NoElements(expected);
    NoElements(observed);
    var denominator := |e| + |o|;
    if denominator == 0 then MakeRatio(1, 1, [])
    else
      var numerator := 2 * |e * o|;
      QuotientWhole(numerator, denominator);
      MakeRatio(numerator, denominator, if numerator == denominator then [] else [Differs("filter slots")])
  }

  // ---------- values ----------

  /** A scalar of its declared type. */
  datatype Scalar = Decimal(decimal: real) | Integer(integer: int) | Date(day: int) | TextOf(text: string) | Boolean(flag: bool) | Null

  datatype ValueKey = ValueKey(productId: Option<string>, fieldId: string)

  datatype Value = Value(key: ValueKey, scalar: Scalar)

  datatype ExpectedValue = ExpectedValue(key: ValueKey, scalar: Scalar, tolerance: real)

  predicate SameType(a: Scalar, b: Scalar) {
    || (a.Decimal? && b.Decimal?) || (a.Integer? && b.Integer?) || (a.Date? && b.Date?)
    || (a.TextOf? && b.TextOf?) || (a.Boolean? && b.Boolean?) || (a.Null? && b.Null?)
  }

  function Abs(x: real): real {
    if x < 0.0 then -x else x
  }

  /** Equal, or decimals within the display tolerance. */
  predicate Within(e: ExpectedValue, s: Scalar) {
    s == e.scalar || (s.Decimal? && e.scalar.Decimal? && Abs(s.decimal - e.scalar.decimal) <= e.tolerance)
  }

  /** The last observation of a key is the one that counts. */
  predicate LastAt(observed: seq<Value>, i: nat) {
    i < |observed| && forall j | i < j < |observed| :: observed[j].key != observed[i].key
  }

  predicate Met(e: ExpectedValue, observed: seq<Value>) {
    exists i: nat | i < |observed| :: LastAt(observed, i) && observed[i].key == e.key && Within(e, observed[i].scalar)
  }

  /** The observations as a dictionary, later ones replacing earlier ones. */
  function ByKey(observed: seq<Value>): (m: map<ValueKey, Scalar>)
    ensures HoldsLast(observed, m) && KeysSeen(observed, m)
  {
    if observed == [] then map[]
    else
      var init, last := observed[..|observed| - 1], observed[|observed| - 1];
      var before := ByKey(init);
      assert observed == init + [last];
      HoldsLastStep(init, before, last);
      KeysSeenStep(init, before, last);
      before[last.key := last.scalar]
  }

  /** The dictionary holds the last observation of every key. */
  ghost predicate HoldsLast(observed: seq<Value>, m: map<ValueKey, Scalar>) {
    forall i: nat | i < |observed| && LastAt(observed, i) :: observed[i].key in m && m[observed[i].key] == observed[i].scalar
  }

  ghost predicate KeysSeen(observed: seq<Value>, m: map<ValueKey, Scalar>) {
    forall k | k in m :: exists i: nat :: i < |observed| && LastAt(observed, i) && observed[i].key == k
  }

  lemma {:induction false} HoldsLastStep(observed: seq<Value>, before: map<ValueKey, Scalar>, v: Value)
    requires HoldsLast(observed, before)
    ensures HoldsLast(observed + [v], before[v.key := v.scalar])
  {
    var all, m := observed + [v], before[v.key := v.scalar];
    forall i: nat | i < |all| && LastAt(all, i) ensures all[i].key in m && m[all[i].key] == all[i].scalar {
      if i < |observed| {
        assert all[|observed|] == v;
        assert forall j | i < j < |observed| :: observed[j] == all[j];
        assert LastAt(observed, i);
      }
    }
  }

  lemma {:induction false} KeysSeenStep(observed: seq<Value>, before: map<ValueKey, Scalar>, v: Value)
    requires KeysSeen(observed, before)
    ensures KeysSeen(observed + [v], before[v.key := v.scalar])
  {
    var all, m := observed + [v], before[v.key := v.scalar];
    forall k | k in m ensures exists i: nat :: i < |all| && LastAt(all, i) && all[i].key == k {
      if k == v.key {
        assert LastAt(all, |observed|);
      } else {
        var i: nat :| i < |observed| && LastAt(observed, i) && observed[i].key == k;
        assert LastAt(all, i);
      }
    }
  }

  lemma {:induction false} MetByKey(e: ExpectedValue, observed: seq<Value>)
    ensures Met(e, observed) <==> e.key in ByKey(observed) && Within(e, ByKey(observed)[e.key])
  {
    if e.key in ByKey(observed) {
      var i: nat :| i < |observed| && LastAt(observed, i) && observed[i].key == e.key;
    }
  }

  /** The verdict on one expectation. */
  function ValueFailure(e: ExpectedValue, byKey: map<ValueKey, Scalar>): (r: Option<Failure>)
    ensures r.None? <==> e.key in byKey && Within(e, byKey[e.key])
  {
    if e.key !in byKey || !SameType(byKey[e.key], e.scalar) then Some(ValueMissing(e.key))
    else if byKey[e.key] == e.scalar then None
    else if e.scalar.Decimal? && Abs(byKey[e.key].decimal - e.scalar.decimal) <= e.tolerance then None
    else Some(ValueDiffers(e.key))
  }

  /** `score_values` */
  method ScoreValues(expected: seq<ExpectedValue>, observed: seq<Value>) returns (r: Ratio)
    ensures Sound(r) && r.denominator == |expected|
    ensures r.numerator == Count((e: ExpectedValue) => Met(e, observed), expected)
    ensures |r.failures| == r.denominator - r.numerator
    ensures Perfect(r) <==> forall e | e in expected :: Met(e, observed)
  {
    var byKey := ByKey(observed);
    var failures, matched := [], 0;
    ghost var met := (e: ExpectedValue) => Met(e, observed);
    for i := 0 to |expected|
      invariant matched == Count(met, expected[..i])
      invariant |failures| + matched == i
    {
      var e := expected[i];
      MetByKey(e, observed);
      assert expected[..i + 1][..i] == expected[..i];
      CountSnoc(met, expected[..i + 1]);
      var failure := ValueFailure(e, byKey);
      if failure.None? {
        matched := matched + 1;
      } else {
        failures := failures + [failure.value];
      }
    }
    assert expected[..|expected|] == expected;
    CountWhole(met, expected);
    QuotientWhole(matched, |expected|);
    r := MakeRatio(matched, |expected|, failures);
  }

  lemma {:induction false} CountWhole<T>(p: T -> bool, s: seq<T>)
    ensures Count(p, s) == |s| <==> forall x | x in s :: p(x)
  {
    if s != [] {
      CountWhole(p, s[1..]);
      assert s == [s[0]] + s[1..];
    }
  }

  // ---------- aggregates ----------

  /** An aggregate: its full key, and its typed value. */
  datatype Aggregate = Aggregate(key: string, scalar: Scalar)

  function WithKey(key: string, s: seq<Aggregate>): seq<Aggregate> {
    Select((a: Aggregate) => a.key == key, s)
  }

  predicate UniqueKeys(s: seq<Aggregate>) {
    forall i, j | 0 <= i < j < |s| :: s[i].key != s[j].key
  }

  predicate Expected(expected: seq<Aggregate>, key: string) {
    exists e | e in expected :: e.key == key
  }

  /** Each expectation has exactly one observation, which equals it, and nothing else was observed. */
  predicate Corresponds(expected: seq<Aggregate>, observed: seq<Aggregate>) {
    && (forall e | e in expected :: WithKey(e.key, observed) == [e])
    && (forall o | o in observed :: Expected(expected, o.key))
  }

  /** `observed_by_key` */
  ghost predicate Grouped(byKey: map<string, seq<Aggregate>>, s: seq<Aggregate>) {
    && (forall a | a in s :: a.key in byKey)
    && (forall k | k in byKey :: byKey[k] == WithKey(k, s) && byKey[k] != [])
  }

  lemma {:induction false} WithKeySnoc(key: string, s: seq<Aggregate>, a: Aggregate)
    ensures WithKey(key, s + [a]) == WithKey(key, s) + if a.key == key then [a] else []
  {
    SelectConcat((x: Aggregate) => x.key == key, s, [a]);
  }

  /** `observed_by_key.setdefault(key, []).append(value)` */
  function Appended(byKey: map<string, seq<Aggregate>>, a: Aggregate): map<string, seq<Aggregate>> {
    byKey[a.key := (if a.key in byKey then byKey[a.key] else []) + [a]]
  }

  lemma {:induction false} GroupStep(byKey: map<string, seq<Aggregate>>, s: seq<Aggregate>, a: Aggregate)
    requires Grouped(byKey, s)
    ensures Grouped(Appended(byKey, a), s + [a])
  {
    var after := Appended(byKey, a);
    if a.key !in byKey {
      SelectNone((x: Aggregate) => x.key == a.key, s);
    }
    forall k | k in after ensures after[k] == WithKey(k, s + [a]) && after[k] != [] {
      WithKeySnoc(k, s, a);
    }
  }

  lemma {:induction false} GroupNext(byKey: map<string, seq<Aggregate>>, observed: seq<Aggregate>, i: nat)
    requires i < |observed| && Grouped(byKey, observed[..i])
    ensures Grouped(Appended(byKey, observed[i]), observed[..i + 1])
  {
    GroupStep(byKey, observed[..i], observed[i]);
    assert observed[..i + 1] == observed[..i] + [observed[i]];
  }

  method GroupObserved(observed: seq<Aggregate>) returns (byKey: map<string, seq<Aggregate>>)
    ensures Grouped(byKey, observed)
  {
    byKey := map[];
    for i := 0 to |observed|
      invariant Grouped(byKey, observed[..i])
    {
      GroupNext(byKey, observed, i);
      byKey := Appended(byKey, observed[i]);
    }
    assert observed[..|observed|] == observed;
  }

  /** The extra observations under expected keys. */
  function Extra(expected: seq<Aggregate>, observed: seq<Aggregate>, keys: seq<string>): nat {
    if keys == [] then 0
    else
      (if Expected(expected, keys[0]) && |WithKey(keys[0], observed)| > 1 then |WithKey(keys[0], observed)| - 1 else 0)
      + Extra(expected, observed, keys[1..])
  }

  lemma {:induction false} ExtraNone(expected: seq<Aggregate>, observed: seq<Aggregate>, keys: seq<string>)
    requires forall k | Expected(expected, k) :: |WithKey(k, observed)| <= 1
    ensures Extra(expected, observed, keys) == 0
  {
    if keys != [] {
      ExtraNone(expected, observed, keys[1..]);
    }
  }

  predicate Alone(e: Aggregate, observed: seq<Aggregate>) {
    WithKey(e.key, observed) == [e]
  }

  /** The verdict on one expectation, given the observations under its key. */
  function AggregateFailure(e: Aggregate, actual: seq<Aggregate>): (r: Option<Failure>)
    requires forall a | a in actual :: a.key == e.key
    ensures r.None? <==> actual == [e]
  {
    if actual == [] then Some(AggregateMissing(e.key))
    else if |actual| > 1 then Some(AggregateDuplicated(e.key))
    else
      assert actual[0] in actual;
      if SameType(actual[0].scalar, e.scalar) && actual[0].scalar == e.scalar then None
      else Some(AggregateDiffers(e.key))
  }

  /** The expectation loop of `score_aggregates`. */
  method MatchExpected(expected: seq<Aggregate>, observed: seq<Aggregate>, byKey: map<string, seq<Aggregate>>)
    returns (matched: nat, failures: seq<Failure>)
    requires Grouped(byKey, observed)
    ensures matched == Count((e: Aggregate) => Alone(e, observed), expected)
    ensures |failures| + matched == |expected|
  {
    failures, matched := [], 0;
    ghost var alone := (e: Aggregate) => Alone(e, observed);
    for i := 0 to |expected|
      invariant matched == Count(alone, expected[..i])
      invariant |failures| + matched == i
    {
      var e := expected[i];
      NoneWithKey(byKey, observed, e.key);
      assert expected[..i + 1][..i] == expected[..i];
      CountSnoc(alone, expected[..i + 1]);
      var failure := AggregateFailure(e, if e.key in byKey then byKey[e.key] else []);
      if failure.None? {
        matched := matched + 1;
      } else {
        failures := failures + [failure.value];
      }
    }
    assert expected[..|expected|] == expected;
  }

  lemma {:induction false} NoneWithKey(byKey: map<string, seq<Aggregate>>, observed: seq<Aggregate>, key: string)
    requires Grouped(byKey, observed)
    ensures WithKey(key, observed) == if key in byKey then byKey[key] else []
  {
    if key !in byKey {
      SelectNone((a: Aggregate) => a.key == key, observed);
    }
  }

  function Unexpected(expected: seq<Aggregate>, observed: seq<Aggregate>): seq<Aggregate> {
    Select((a: Aggregate) => !Expected(expected, a.key), observed)
  }

  lemma {:induction false} CorrespondsParts(expected: seq<Aggregate>, observed: seq<Aggregate>)
    ensures Corresponds(expected, observed)
         <==> Count((e: Aggregate) => Alone(e, observed), expected) == |expected| && Unexpected(expected, observed) == []
  {
    CountWhole((e: Aggregate) => Alone(e, observed), expected);
    SelectCount((a: Aggregate) => !Expected(expected, a.key), observed);
    CountNone((a: Aggregate) => !Expected(expected, a.key), observed);
  }

  function KeysOf(observed: seq<Aggregate>): seq<string> {
    Distinct(Map((a: Aggregate) => a.key, observed))
  }

  /** How many expected keys were observed. */
  function SeenKeys(expected: seq<Aggregate>, observed: seq<Aggregate>): nat {
    Count((k: string) => Expected(expected, k), KeysOf(observed))
  }

  /** Under the given keys: one observation each that is seen, and the extra ones, are all of them. */
  lemma {:induction false} ExtraCounts(expected: seq<Aggregate>, observed: seq<Aggregate>, keys: seq<string>)
    requires forall i, j | 0 <= i < j < |keys| :: keys[i] != keys[j]
    requires forall k | k in keys :: WithKey(k, observed) != []
    ensures Extra(expected, observed, keys) + Count((k: string) => Expected(expected, k), keys)
         == Count((a: Aggregate) => a.key in keys && Expected(expected, a.key), observed)
  {
    if keys == [] {
      CountNone((a: Aggregate) => a.key in keys && Expected(expected, a.key), observed);
    } else {
      var k, rest := keys[0], keys[1..];
      assert keys == [k] + rest && k !in rest;
      ExtraCounts(expected, observed, rest);
      KeyCounts(expected, observed, k, rest);
    }
  }

  lemma {:induction false} KeyCounts(expected: seq<Aggregate>, observed: seq<Aggregate>, k: string, rest: seq<string>)
    requires k !in rest
    ensures var keys := [k] + rest;
      Count((a: Aggregate) => a.key in keys && Expected(expected, a.key), observed)
      == (if Expected(expected, k) then |WithKey(k, observed)| else 0)
         + Count((a: Aggregate) => a.key in rest && Expected(expected, a.key), observed)
  {
    var keys := [k] + rest;
    var mine := (a: Aggregate) => a.key == k && Expected(expected, a.key);
    CountEither(mine, (a: Aggregate) => a.key in rest && Expected(expected, a.key),
                (a: Aggregate) => a.key in keys && Expected(expected, a.key), observed);
    if Expected(expected, k) {
      SelectCount((a: Aggregate) => a.key == k, observed);
      CountSame(mine, (a: Aggregate) => a.key == k, observed);
    } else {
      CountNone(mine, observed);
    }
  }

  /** The denominator: the expectations, and the observations beyond one for each expected key seen. */
  lemma {:induction false} DenominatorExact(expected: seq<Aggregate>, observed: seq<Aggregate>)
    ensures |Unexpected(expected, observed)| + Extra(expected, observed, KeysOf(observed)) + SeenKeys(expected, observed)
         == |observed|
  {
    var keys := KeysOf(observed);
    InMap((a: Aggregate) => a.key, observed);
    forall k | k in keys ensures WithKey(k, observed) != [] {
      InMapExactly((a: Aggregate) => a.key, observed);
      var a :| a in observed && a.key == k;
      assert a in WithKey(k, observed);
    }
    ExtraCounts(expected, observed, keys);
    var inside, outside := (a: Aggregate) => a.key in keys && Expected(expected, a.key), (a: Aggregate) => !Expected(expected, a.key);
    var any := (a: Aggregate) => true;
    CountEither(inside, outside, any, observed);
    CountAll(any, observed);
    SelectCount(outside, observed);
  }

  /** `score_aggregates` */
  method ScoreAggregates(expected: seq<Aggregate>, observed: seq<Aggregate>) returns (r: Ratio)
    ensures Sound(r)
    ensures Perfect(r) <==> Corresponds(expected, observed)
    ensures r.numerator == Count((e: Aggregate) => Alone(e, observed), expected)
    ensures r.denominator + SeenKeys(expected, observed) == |expected| + |observed|
  {
    DenominatorExact(expected, observed);
    var byKey := GroupObserved(observed);
    var matched, failures := MatchExpected(expected, observed, byKey);
    var unexpected := Unexpected(expected, observed);
    failures := failures + Map((a: Aggregate) => AggregateUnexpected(a.key), unexpected);
    var duplicates := Extra(expected, observed, KeysOf(observed));
    var denominator := |expected| + |unexpected| + duplicates;
    CorrespondsParts(expected, observed);
    if Corresponds(expected, observed) {
      ExtraNone(expected, observed, KeysOf(observed));
    }
    QuotientWhole(matched, denominator);
    r := MakeRatio(matched, denominator, failures);
  }

  lemma {:induction false} SameElements(a: seq<Aggregate>, b: seq<Aggregate>)
    requires UniqueKeys(a) && UniqueKeys(b) && forall x :: x in a <==> x in b
    ensures multiset(a) == multiset(b)
  {
    forall x ensures multiset(a)[x] == multiset(b)[x] {
      OnceOnly(a, x);
      OnceOnly(b, x);
    }
  }

  lemma {:induction false} OnceOnly(s: seq<Aggregate>, x: Aggregate)
    requires UniqueKeys(s)
    ensures multiset(s)[x] == if x in s then 1 else 0
  {
    if s != [] {
      var init, last := s[..|s| - 1], s[|s| - 1];
      assert s == init + [last];
      OnceOnly(init, x);
    }
  }

  lemma {:induction false} OneWithKey(s: seq<Aggregate>, e: Aggregate)
    requires UniqueKeys(s) && e in s
    ensures WithKey(e.key, s) == [e]
  {
    var i :| 0 <= i < |s| && s[i] == e;
    var mine := (a: Aggregate) => a.key == e.key;
    assert s == s[..i] + ([e] + s[i + 1..]);
    SelectConcat(mine, s[..i], [e] + s[i + 1..]);
    SelectConcat(mine, [e], s[i + 1..]);
    SelectNone(mine, s[..i]);
    SelectNone(mine, s[i + 1..]);
  }

  lemma {:induction false} TwoWithKey(s: seq<Aggregate>, i: nat, j: nat)
    requires i < j < |s| && s[i].key == s[j].key
    ensures |WithKey(s[i].key, s)| >= 2
  {
    assert s == s[..j] + s[j..];
    SelectConcat((a: Aggregate) => a.key == s[i].key, s[..j], s[j..]);
    assert s[i] in s[..j] && s[j] in s[j..];
    assert s[i] in WithKey(s[i].key, s[..j]) && s[j] in WithKey(s[i].key, s[j..]);
  }

  lemma {:induction false} CorrespondsUnique(expected: seq<Aggregate>, observed: seq<Aggregate>)
    requires Corresponds(expected, observed)
    ensures UniqueKeys(observed)
  {
    forall i, j | 0 <= i < j < |observed| ensures observed[i].key != observed[j].key {
      if observed[i].key == observed[j].key {
        TwoWithKey(observed, i, j);
      }
    }
  }

  /** With unique expected keys, whole means the same aggregates in some order. */
  lemma {:induction false} CorrespondsIsPermutation(expected: seq<Aggregate>, observed: seq<Aggregate>)
    requires UniqueKeys(expected)
    ensures Corresponds(expected, observed) <==> multiset(expected) == multiset(observed)
  {
    if Corresponds(expected, observed) {
      CorrespondsUnique(expected, observed);
      forall x ensures x in expected <==> x in observed {
        if x in expected { assert x in WithKey(x.key, observed); }
        if x in observed {
          var e :| e in expected && e.key == x.key;
          assert x in WithKey(e.key, observed);
        }
      }
      SameElements(expected, observed);
    }
    if multiset(expected) == multiset(observed) {
      PermutedKeys(expected, observed);
      forall x ensures x in expected <==> x in observed {
        assert x in expected <==> x in multiset(expected);
        assert x in observed <==> x in multiset(observed);
      }
      forall e | e in expected ensures WithKey(e.key, observed) == [e] {
        OneWithKey(observed, e);
      }
    }
  }

  lemma {:induction false} PermutedKeys(a: seq<Aggregate>, b: seq<Aggregate>)
    requires UniqueKeys(a) && multiset(a) == multiset(b)
    ensures UniqueKeys(b)
  {
    forall i, j | 0 <= i < j < |b| ensures b[i].key != b[j].key {
      if b[i].key == b[j].key {
        assert b[i] in multiset(a) && b[j] in multiset(a);
        OneWithKey(a, b[i]);
        OneWithKey(a, b[j]);
        assert [b[i]][0] == [b[j]][0];
        TwiceIn(b, i, j);
        OnceOnly(a, b[i]);
      }
    }
  }

  lemma {:induction false} TwiceIn(s: seq<Aggregate>, i: nat, j: nat)
    requires i < j < |s| && s[i] == s[j]
    ensures multiset(s)[s[i]] >= 2
  {
    assert s == s[..j] + s[j..];
    assert s[i] in s[..j] && s[j] in s[j..];
  }

  // ---------- exact dimensions, evidence and stability ----------

  /** `_exact_dimension` */
  function Exact<T(==)>(expected: T, observed: T, dimension: string): (r: Ratio)
    ensures Sound(r) && r.denominator == 1 && (Perfect(r) <==> expected == observed)
  {
    var n := if expected == observed then 1 else 0;
    QuotientWhole(n, 1);
    MakeRatio(n, 1, if expected == observed then [] else [Differs(dimension)])
  }

  /** A score that lists one failure per item that fails. */
  function ItemScore(items: nat, failures: seq<Failure>): (r: Ratio)
    requires |failures| <= items
    ensures Sound(r) && r.denominator == items && (Perfect(r) <==> failures == [])
  {
    QuotientWhole(items - |failures|, items);
    MakeRatio(items - |failures|, items, failures)
  }

  lemma {:induction false} ElementsWithin<T>(a: seq<T>, b: seq<T>)
    ensures Elements(a) <= Elements(b) <==> forall x | x in a :: x in b
  {
    if Elements(a) <= Elements(b) {
      forall x | x in a ensures x in b { assert x in Elements(a); }
    }
  }

  /** `score_evidence` */
  function ScoreEvidence(expected: seq<string>, observed: seq<string>): (r: Ratio)
    ensures Sound(r) && r.denominator == |expected|
    ensures Perfect(r) <==> Elements(expected) <= Elements(observed)
  {
    var missing := Select((id: string) => id !in observed, expected);
    ElementsWithin(expected, observed);
    assert missing == [] || missing[0] in missing;
    ItemScore(|expected|, Map((id: string) => EvidenceMissing(id), missing))
  }

  predicate AllSame(signatures: seq<string>) {
    forall s | s in signatures :: s == signatures[0]
  }

  lemma {:induction false} AllSameTail(signatures: seq<string>)
    requires signatures != []
    ensures AllSame(signatures) <==> forall s | s in signatures[1..] :: s == signatures[0]
  {
    forall s ensures s in signatures <==> s == signatures[0] || s in signatures[1..] {
      assert signatures == [signatures[0]] + signatures[1..];
    }
  }

  /** `score_repeated_stability` */
  function ScoreStability(signatures: seq<string>): (r: Ratio)
    ensures Sound(r)
    ensures Perfect(r) <==> AllSame(signatures)
  {
    if |signatures| < 2 then NotApplicable
    else
      var baseline := signatures[0];
      var same := (s: string) => s == baseline;
      var matches := Count(same, signatures[1..]);
      CountWhole(same, signatures[1..]);
      QuotientWhole(matches, |signatures| - 1);
      AllSameTail(signatures);
      assert AllSame(signatures) <==> forall s | s in signatures[1..] :: same(s);
      MakeRatio(matches, |signatures| - 1,
                if matches == |signatures| - 1 then [] else [Differs("repeated output")])
  }

  // ---------- plans ----------

  /** The plan fields an expectation may leave unchecked, and the plan's own optional values. */
  datatype Details = Details(
    metrics: Option<string>, metricTargets: Option<string>, sort: Option<string>, needsClarification: Option<string>,
    topK: Option<string>, aggregation: Option<string>, clarificationReason: Option<string>)

  datatype Heading = Heading(intent: string, productTypes: string, asOfDate: string, resultGrain: string)

  datatype Plan = Plan(heading: Heading, details: Details, filters: seq<string>, topKScope: string)

  datatype Segment = Segment(productType: string, grain: string)

  datatype ExpectedPlan = ExpectedPlan(
    heading: Heading, details: Details, filters: Option<seq<string>>, topKScope: string, segments: seq<Segment>)

  datatype Check = Check(name: string, expected: Option<string>, actual: Option<string>)

  predicate AllMatch(checks: seq<Check>) {
    forall c | c in checks :: c.expected == c.actual
  }

  function HeadingChecks(e: Heading, p: Option<Heading>): (r: seq<Check>)
    ensures |r| == 4 && forall c | c in r :: c.expected.Some?
    ensures p.Some? ==> (AllMatch(r) <==> e == p.value)
  {
    var r := [Check("intent", Some(e.intent), if p.Some? then Some(p.value.intent) else None),
              Check("product_types", Some(e.productTypes), if p.Some? then Some(p.value.productTypes) else None),
              Check("as_of_date", Some(e.asOfDate), if p.Some? then Some(p.value.asOfDate) else None),
              Check("result_grain", Some(e.resultGrain), if p.Some? then Some(p.value.resultGrain) else None)];
    assert r[0] in r && r[1] in r && r[2] in r && r[3] in r;
    r
  }

  predicate Unchecked(expected: Option<string>, actual: Option<string>) {
    expected.None? || expected == actual
  }

  /** Every detail that is expected is the plan's. */
  predicate DetailsAgree(e: Details, p: Details) {
    && Unchecked(e.metrics, p.metrics) && Unchecked(e.metricTargets, p.metricTargets) && Unchecked(e.sort, p.sort)
    && Unchecked(e.needsClarification, p.needsClarification) && Unchecked(e.topK, p.topK)
    && Unchecked(e.aggregation, p.aggregation) && Unchecked(e.clarificationReason, p.clarificationReason)
  }

  function DetailChecks(e: Details, p: Details): (r: seq<Check>)
    ensures (forall c | c in r :: Unchecked(c.expected, c.actual)) <==> DetailsAgree(e, p)
  {
    var r := [Check("metrics", e.metrics, p.metrics), Check("metric_targets", e.metricTargets, p.metricTargets),
              Check("sort", e.sort, p.sort), Check("needs_clarification", e.needsClarification, p.needsClarification),
              Check("top_k", e.topK, p.topK), Check("aggregation", e.aggregation, p.aggregation),
              Check("clarification_reason", e.clarificationReason, p.clarificationReason)];
    assert r[0] in r && r[1] in r && r[2] in r && r[3] in r && r[4] in r && r[5] in r && r[6] in r;
    r
  }

  const NoDetails: Details := Details(None, None, None, None, None, None, None)

  function PlanChecks(e: ExpectedPlan, plan: Option<Plan>): seq<Check> {
    HeadingChecks(e.heading, if plan.Some? then Some(plan.value.heading) else None)
    + Select((c: Check) => c.expected.Some?, DetailChecks(e.details, if plan.Some? then plan.value.details else NoDetails))
  }

  predicate PlanAgrees(e: ExpectedPlan, plan: Option<Plan>) {
    plan.Some? && e.heading == plan.value.heading && DetailsAgree(e.details, plan.value.details)
  }

  lemma {:induction false} PlanChecksAgree(e: ExpectedPlan, plan: Plan)
    ensures AllMatch(PlanChecks(e, Some(plan))) <==> PlanAgrees(e, Some(plan))
  {
    var heading := HeadingChecks(e.heading, Some(plan.heading));
    var details := DetailChecks(e.details, plan.details);
    var checked := Select((c: Check) => c.expected.Some?, details);
    assert PlanChecks(e, Some(plan)) == heading + checked;
    assert AllMatch(heading + checked) <==> AllMatch(heading) && AllMatch(checked);
    assert AllMatch(checked) <==> forall c | c in details :: Unchecked(c.expected, c.actual);
  }

  function PlanFields(e: ExpectedPlan, plan: Option<Plan>): (r: Ratio)
    ensures Sound(r) && (Perfect(r) <==> PlanAgrees(e, plan))
  {
    var checks := PlanChecks(e, plan);
    if plan.None? then
      QuotientWhole(0, |checks|);
      MakeRatio(0, |checks|, [PlanMissing])
    else
      PlanChecksAgree(e, plan.value);
      var differing := Select((c: Check) => c.expected != c.actual, checks);
      assert differing == [] || differing[0] in differing;
      ItemScore(|checks|, Map((c: Check) => FieldDiffers(c.name), differing))
  }

  predicate FiltersAgree(e: ExpectedPlan, plan: Option<Plan>) {
    e.filters.None? || Elements(e.filters.value) == if plan.None? then {} else Elements(plan.value.filters)
  }

  function FilterSlots(e: ExpectedPlan, plan: Option<Plan>): (r: Ratio)
    ensures Sound(r) && (Perfect(r) <==> FiltersAgree(e, plan))
  {
    if e.filters.None? then NotApplicable
    else ScoreFilters(e.filters.value, if plan.None? then [] else plan.value.filters)
  }

  function ScopeScore(e: ExpectedPlan, plan: Option<Plan>): (r: Ratio)
    ensures Sound(r) && r.denominator == 1 && (Perfect(r) <==> plan.Some? && plan.value.topKScope == e.topKScope)
  {
    if plan.None? then
      QuotientWhole(0, 1);
      MakeRatio(0, 1, [PlanMissing])
    else Exact(e.topKScope, plan.value.topKScope, "top_k_scope")
  }

  // ---------- answers ----------

  datatype ExpectedAnswer = ExpectedAnswer(
    required: seq<string>, forbidden: seq<string>, limitation: Option<bool>, clarification: Option<bool>)

  datatype AnswerCheck = AnswerCheck(passed: bool, failure: Failure)

  predicate AllIn(concepts: seq<string>, text: string) {
    forall c | c in concepts :: Text.Contains(text, c)
  }

  predicate AnswerRight(e: ExpectedAnswer, text: string, limitation: bool, clarification: bool) {
    && AllIn(e.required, text)
    && (forall c | c in e.forbidden :: !Text.Contains(text, c))
    && (e.limitation.None? || e.limitation.value == limitation)
    && (e.clarification.None? || e.clarification.value == clarification)
  }

  predicate AllPassed(checks: seq<AnswerCheck>) {
    forall c | c in checks :: c.passed
  }

  lemma {:induction false} PassedSnoc(checks: seq<AnswerCheck>, c: AnswerCheck)
    ensures AllPassed(checks + [c]) <==> AllPassed(checks) && c.passed
  {
  }

  method AnswerChecks(e: ExpectedAnswer, text: string, limitation: bool, clarification: bool)
    returns (checks: seq<AnswerCheck>)
    ensures AllPassed(checks) <==> AnswerRight(e, text, limitation, clarification)
    ensures |checks| == |e.required| + |e.forbidden| + Bit(e.limitation.Some?) + Bit(e.clarification.Some?)
  {
    checks := [];
    for i := 0 to |e.required|
      invariant |checks| == i
      invariant AllPassed(checks) <==> AllIn(e.required[..i], text)
    {
      var check := AnswerCheck(Text.Contains(text, e.required[i]), ConceptMissing(e.required[i]));
      PassedSnoc(checks, check);
      assert e.required[..i + 1] == e.required[..i] + [e.required[i]];
      checks := checks + [check];
    }
    assert e.required[..|e.required|] == e.required;
    for i := 0 to |e.forbidden|
      invariant |checks| == |e.required| + i
      invariant AllPassed(checks) <==> AllIn(e.required, text) && forall c | c in e.forbidden[..i] :: !Text.Contains(text, c)
    {
      var check := AnswerCheck(!Text.Contains(text, e.forbidden[i]), ConceptForbidden(e.forbidden[i]));
      PassedSnoc(checks, check);
      assert e.forbidden[..i + 1] == e.forbidden[..i] + [e.forbidden[i]];
      checks := checks + [check];
    }
    assert e.forbidden[..|e.forbidden|] == e.forbidden;
    if e.limitation.Some? {
      var check := AnswerCheck(e.limitation.value == limitation, Differs("limitation behavior"));
      PassedSnoc(checks, check);
      checks := checks + [check];
    }
    if e.clarification.Some? {
      var check := AnswerCheck(e.clarification.value == clarification, Differs("clarification behavior"));
      PassedSnoc(checks, check);
      checks := checks + [check];
    }
  }

  function AnswerScore(checks: seq<AnswerCheck>): (r: Ratio)
    ensures Sound(r) && r.denominator == |checks| && (Perfect(r) <==> AllPassed(checks))
  {
    var failed := Select((c: AnswerCheck) => !c.passed, checks);
    assert failed == [] || failed[0] in failed;
    ItemScore(|checks|, Map((c: AnswerCheck) => c.failure, failed))
  }

  // ---------- whole cases ----------

  datatype ExpectedResult = ExpectedResult(
    products: seq<string>, orderMatters: bool, values: seq<ExpectedValue>, aggregates: seq<Aggregate>,
    evidenceIds: seq<string>, partitions: seq<string>, envelope: Option<bool>)

  datatype GoldenCase = GoldenCase(caseId: string, plan: ExpectedPlan, result: ExpectedResult, answer: ExpectedAnswer)

  datatype ObservedCase = ObservedCase(
    plan: Option<Plan>, products: seq<string>, values: seq<Value>, aggregates: seq<Aggregate>, answerText: string,
    evidenceIds: seq<string>, limitation: bool, clarification: bool, signatures: seq<string>,
    segments: seq<Segment>, partitions: seq<string>, envelope: bool)

  datatype CaseScore = CaseScore(
    caseId: string, planFields: Ratio, filterSlots: Ratio, topKScope: Ratio, segmentAssignment: Ratio,
    compatibilityPartitions: Ratio, assembledEnvelope: Ratio, productSet: Ratio, productOrder: Ratio,
    numericValues: Ratio, aggregateValues: Ratio, evidenceCoverage: Ratio, answerSemantics: Ratio,
    repeatStability: Ratio, failures: seq<Failure>)

  /** The dimensions, in the order of the report's metrics. */
  function Dimensions(s: CaseScore): (r: seq<Ratio>)
    ensures |r| == 13
  {
    [s.planFields, s.filterSlots, s.topKScope, s.segmentAssignment, s.compatibilityPartitions, s.assembledEnvelope,
     s.productSet, s.productOrder, s.numericValues, s.aggregateValues, s.evidenceCoverage, s.answerSemantics,
     s.repeatStability]
  }

  function AllFailures(scores: seq<Ratio>): seq<Failure> {
    if scores == [] then [] else AllFailures(scores[..|scores| - 1]) + scores[|scores| - 1].failures
  }

  lemma {:induction false} NoFailures(scores: seq<Ratio>)
    ensures AllFailures(scores) == [] <==> forall r | r in scores :: r.failures == []
  {
    if scores != [] {
      NoFailures(scores[..|scores| - 1]);
      assert scores == scores[..|scores| - 1] + [scores[|scores| - 1]];
    }
  }

  predicate PlanRight(c: GoldenCase, o: ObservedCase) {
    PlanAgrees(c.plan, o.plan) && FiltersAgree(c.plan, o.plan) && o.plan.Some? && o.plan.value.topKScope == c.plan.topKScope
  }

  predicate ShapeRight(c: GoldenCase, o: ObservedCase) {
    && (c.plan.segments == [] || Elements(c.plan.segments) == Elements(o.segments))
    && (c.result.partitions == [] || Elements(c.result.partitions) == Elements(o.partitions))
    && (c.result.envelope.None? || c.result.envelope.value == o.envelope)
  }

  predicate ProductsRight(c: GoldenCase, o: ObservedCase) {
    Elements(c.result.products) == Elements(o.products) && (c.result.orderMatters ==> c.result.products == o.products)
  }

  predicate ContentRight(c: GoldenCase, o: ObservedCase) {
    && (forall e | e in c.result.values :: Met(e, o.values))
    && Corresponds(c.result.aggregates, o.aggregates)
    && Elements(c.result.evidenceIds) <= Elements(o.evidenceIds)
    && AnswerRight(c.answer, o.answerText, o.limitation, o.clarification)
    && AllSame(o.signatures)
  }

  /** The observation is what the case asks for, said without any score. */
  predicate Right(c: GoldenCase, o: ObservedCase) {
    PlanRight(c, o) && ShapeRight(c, o) && ProductsRight(c, o) && ContentRight(c, o)
  }

  /** Every dimension is a proper fraction with reasons, and the case's reasons are the dimensions' in order. */
  ghost predicate Scored(s: CaseScore) {
    && (forall d | d in Dimensions(s) :: Sound(d))
    && s.failures == AllFailures(Dimensions(s))
  }

  function SegmentScore(c: GoldenCase, o: ObservedCase): (r: Ratio)
    ensures Sound(r) && (Perfect(r) <==> c.plan.segments == [] || Elements(c.plan.segments) == Elements(o.segments))
  {
    assert c.plan.segments != [] ==> c.plan.segments[0] in Elements(c.plan.segments);
    if Elements(c.plan.segments) == {} then NotApplicable
    else Exact(Elements(c.plan.segments), Elements(o.segments), "segment assignment")
  }

  function PartitionScore(c: GoldenCase, o: ObservedCase): (r: Ratio)
    ensures Sound(r)
    ensures Perfect(r) <==> c.result.partitions == [] || Elements(c.result.partitions) == Elements(o.partitions)
  {
    assert c.result.partitions != [] ==> c.result.partitions[0] in Elements(c.result.partitions);
    if Elements(c.result.partitions) == {} then NotApplicable
    else Exact(Elements(c.result.partitions), Elements(o.partitions), "compatibility partitions")
  }

  function EnvelopeScore(c: GoldenCase, o: ObservedCase): (r: Ratio)
    ensures Sound(r) && (Perfect(r) <==> c.result.envelope.None? || c.result.envelope.value == o.envelope)
  {
    if c.result.envelope.None? then NotApplicable else Exact(c.result.envelope.value, o.envelope, "assembled envelope")
  }

  function OrderScore(c: GoldenCase, o: ObservedCase): (r: Ratio)
    ensures Sound(r) && (Perfect(r) <==> (c.result.orderMatters ==> c.result.products == o.products))
  {
    if !c.result.orderMatters then NotApplicable else ProductOrder(ScoreProducts(c.result.products, o.products))
  }

  ghost predicate PlanScored(s: CaseScore, c: GoldenCase, o: ObservedCase) {
    && Sound(s.planFields) && Sound(s.filterSlots) && Sound(s.topKScope)
    && (Perfect(s.planFields) && Perfect(s.filterSlots) && Perfect(s.topKScope) <==> PlanRight(c, o))
  }

  ghost predicate ShapeScored(s: CaseScore, c: GoldenCase, o: ObservedCase) {
    && Sound(s.segmentAssignment) && Sound(s.compatibilityPartitions) && Sound(s.assembledEnvelope)
    && (Perfect(s.segmentAssignment) && Perfect(s.compatibilityPartitions) && Perfect(s.assembledEnvelope)
        <==> ShapeRight(c, o))
  }

  ghost predicate ProductsScored(s: CaseScore, c: GoldenCase, o: ObservedCase) {
    && Sound(s.productSet) && Sound(s.productOrder)
    && (Perfect(s.productSet) && Perfect(s.productOrder) <==> ProductsRight(c, o))
  }

  ghost predicate ContentScored(s: CaseScore, c: GoldenCase, o: ObservedCase) {
    && Sound(s.numericValues) && Sound(s.aggregateValues) && Sound(s.evidenceCoverage) && Sound(s.answerSemantics)
    && Sound(s.repeatStability)
    && (Perfect(s.numericValues) && Perfect(s.aggregateValues) && Perfect(s.evidenceCoverage)
        && Perfect(s.answerSemantics) && Perfect(s.repeatStability)
        <==> ContentRight(c, o))
  }

  method ScoreContent(c: GoldenCase, o: ObservedCase, before: CaseScore) returns (s: CaseScore)
    ensures s == before.(numericValues := s.numericValues, aggregateValues := s.aggregateValues,
                         evidenceCoverage := s.evidenceCoverage, answerSemantics := s.answerSemantics,
                         repeatStability := s.repeatStability)
    ensures ContentScored(s, c, o)
  {
    var values := ScoreValues(c.result.values, o.values);
    var aggregates := ScoreAggregates(c.result.aggregates, o.aggregates);
    var evidence := ScoreEvidence(c.result.evidenceIds, o.evidenceIds);
    var checks := AnswerChecks(c.answer, o.answerText, o.limitation, o.clarification);
    s := before.(numericValues := values, aggregateValues := aggregates, evidenceCoverage := evidence,
                 answerSemantics := AnswerScore(checks), repeatStability := ScoreStability(o.signatures));
  }

  function ScoreShape(c: GoldenCase, o: ObservedCase): (s: CaseScore)
    ensures s.caseId == c.caseId && PlanScored(s, c, o) && ShapeScored(s, c, o) && ProductsScored(s, c, o)
  {
    var n := NotApplicable;
    CaseScore(c.caseId, PlanFields(c.plan, o.plan), FilterSlots(c.plan, o.plan), ScopeScore(c.plan, o.plan),
              SegmentScore(c, o), PartitionScore(c, o), EnvelopeScore(c, o),
              ProductSet(ScoreProducts(c.result.products, o.products)), OrderScore(c, o), n, n, n, n, n, [])
  }

  lemma {:induction false} DimensionsScored(s: CaseScore, c: GoldenCase, o: ObservedCase)
    requires PlanScored(s, c, o) && ShapeScored(s, c, o) && ProductsScored(s, c, o) && ContentScored(s, c, o)
    ensures forall d | d in Dimensions(s) :: Sound(d)
    ensures AllFailures(Dimensions(s)) == [] <==> Right(c, o)
  {
    NoFailures(Dimensions(s));
    EachDimension(s);
  }

  /** `score_case` */
  method ScoreCase(c: GoldenCase, o: ObservedCase) returns (s: CaseScore)
    ensures s.caseId == c.caseId && Scored(s)
    ensures s.failures == [] <==> Right(c, o)
    ensures (Perfect(s.planFields) && Perfect(s.filterSlots) && Perfect(s.topKScope)) <==> PlanRight(c, o)
  {
    s := ScoreContent(c, o, ScoreShape(c, o));
    DimensionsScored(s, c, o);
    s := s.(failures := AllFailures(Dimensions(s)));
  }

  predicate Silent(s: CaseScore) {
    && s.planFields.failures == [] && s.filterSlots.failures == [] && s.topKScope.failures == []
    && s.segmentAssignment.failures == [] && s.compatibilityPartitions.failures == []
    && s.assembledEnvelope.failures == [] && s.productSet.failures == [] && s.productOrder.failures == []
    && s.numericValues.failures == [] && s.aggregateValues.failures == [] && s.evidenceCoverage.failures == []
    && s.answerSemantics.failures == [] && s.repeatStability.failures == []
  }

  lemma {:induction false} EachDimension(s: CaseScore)
    ensures (forall d | d in Dimensions(s) :: d.failures == []) <==> Silent(s)
  {
    var d := Dimensions(s);
    assert d[0] in d && d[1] in d && d[2] in d && d[3] in d && d[4] in d && d[5] in d && d[6] in d;
    assert d[7] in d && d[8] in d && d[9] in d && d[10] in d && d[11] in d && d[12] in d;
  }

  // ---------- suites ----------

  /** `_for_mode`: planning alone keeps the three plan dimensions. */
  function ForMode(s: CaseScore, planOnly: bool): CaseScore {
    if !planOnly then s
    else
      var n := NotApplicable;
      CaseScore(s.caseId, s.planFields, s.filterSlots, s.topKScope, n, n, n, n, n, n, n, n, n, n,
                AllFailures([s.planFields, s.filterSlots, s.topKScope]))
  }

  lemma {:induction false} TrailingSilent(scores: seq<Ratio>, silent: seq<Ratio>)
    requires forall r | r in silent :: r.failures == []
    ensures AllFailures(scores + silent) == AllFailures(scores)
  {
    if silent == [] {
      assert scores + silent == scores;
    } else {
      assert (scores + silent)[..|scores + silent| - 1] == scores + silent[..|silent| - 1];
      TrailingSilent(scores, silent[..|silent| - 1]);
      assert silent[|silent| - 1] in silent;
    }
  }

  lemma {:induction false} KeptSound(s: CaseScore)
    requires Scored(s)
    ensures Sound(s.planFields) && Sound(s.filterSlots) && Sound(s.topKScope)
  {
    var d := Dimensions(s);
    assert d[0] in d && d[1] in d && d[2] in d;
  }

  /** A case scored for planning alone is still scored, and is clean exactly when its plan is right. */
  lemma {:induction false} PlanOnlyScored(s: CaseScore)
    requires Scored(s)
    ensures Scored(ForMode(s, true))
    ensures ForMode(s, true).failures == [] <==> Perfect(s.planFields) && Perfect(s.filterSlots) && Perfect(s.topKScope)
  {
    var kept := [s.planFields, s.filterSlots, s.topKScope];
    var n := NotApplicable;
    var silent := [n, n, n, n, n, n, n, n, n, n];
    assert Dimensions(ForMode(s, true)) == kept + silent;
    TrailingSilent(kept, silent);
    NoFailures(kept);
    KeptSound(s);
    assert kept[0] in kept && kept[1] in kept && kept[2] in kept;
  }

  function Sum(s: seq<nat>): nat {
    if s == [] then 0 else Sum(s[..|s| - 1]) + s[|s| - 1]
  }

  function CaseFailures(metric: nat, scores: seq<CaseScore>): seq<Failure>
    requires metric < 13
  {
    if scores == [] then []
    else
      var last := scores[|scores| - 1];
      CaseFailures(metric, scores[..|scores| - 1])
      + Map((f: Failure) => InCase(last.caseId, f), Dimensions(last)[metric].failures)
  }

  /** `_aggregate` */
  function AggregateScore(metric: nat, scores: seq<CaseScore>): Ratio
    requires metric < 13
  {
    MakeRatio(Sum(Map((s: CaseScore) => Dimensions(s)[metric].numerator, scores)),
              Sum(Map((s: CaseScore) => Dimensions(s)[metric].denominator, scores)),
              CaseFailures(metric, scores))
  }

  lemma {:induction false} MapInit<T, U>(f: T -> U, s: seq<T>)
    requires s != []
    ensures Map(f, s)[..|s| - 1] == Map(f, s[..|s| - 1])
  {
  }

  lemma {:induction false} AggregateStep(metric: nat, scores: seq<CaseScore>)
    requires metric < 13 && scores != []
    ensures var total, before := AggregateScore(metric, scores), AggregateScore(metric, scores[..|scores| - 1]);
      var last := Dimensions(scores[|scores| - 1])[metric];
      && total.numerator == before.numerator + last.numerator
      && total.denominator == before.denominator + last.denominator
      && |total.failures| == |before.failures| + |last.failures|
  {
    MapInit((s: CaseScore) => Dimensions(s)[metric].numerator, scores);
    MapInit((s: CaseScore) => Dimensions(s)[metric].denominator, scores);
  }

  /** The aggregate of one case is the case's own score. */
  lemma {:induction false} AggregateOfOne(metric: nat, score: CaseScore)
    requires metric < 13
    ensures var total, own := AggregateScore(metric, [score]), Dimensions(score)[metric];
      total.numerator == own.numerator && total.denominator == own.denominator
  {
    AggregateStep(metric, [score]);
    assert [score][..0] == [];
    assert Map((s: CaseScore) => Dimensions(s)[metric].numerator, []) == [];
    assert Map((s: CaseScore) => Dimensions(s)[metric].denominator, []) == [];
  }

  /** Aggregates of two suites add up. */
  lemma {:induction false} AggregatesAdd(metric: nat, a: seq<CaseScore>, b: seq<CaseScore>)
    requires metric < 13
    ensures var total, left, right := AggregateScore(metric, a + b), AggregateScore(metric, a), AggregateScore(metric, b);
      total.numerator == left.numerator + right.numerator && total.denominator == left.denominator + right.denominator
  {
    if b == [] {
      assert a + b == a;
      assert Map((s: CaseScore) => Dimensions(s)[metric].numerator, b) == [];
      assert Map((s: CaseScore) => Dimensions(s)[metric].denominator, b) == [];
    } else {
      var all := a + b;
      assert all[..|all| - 1] == a + b[..|b| - 1] && all[|all| - 1] == b[|b| - 1];
      AggregatesAdd(metric, a, b[..|b| - 1]);
      AggregateStep(metric, all);
      AggregateStep(metric, b);
    }
  }

  lemma {:induction false} CaseReasons(metric: nat, scores: seq<CaseScore>, f: Failure)
    requires metric < 13
    ensures f in CaseFailures(metric, scores) <==>
            exists s | s in scores :: exists g | g in Dimensions(s)[metric].failures :: f == InCase(s.caseId, g)
  {
    if scores != [] {
      var init, last := scores[..|scores| - 1], scores[|scores| - 1];
      assert scores == init + [last];
      CaseReasons(metric, init, f);
      InMapExactly((g: Failure) => InCase(last.caseId, g), Dimensions(last)[metric].failures);
    }
  }

  /** A suite's aggregate is a proper fraction with reasons, and is whole exactly when every case is. */
  lemma {:induction false} AggregateWhole(metric: nat, scores: seq<CaseScore>)
    requires metric < 13 && forall s | s in scores :: Sound(Dimensions(s)[metric])
    ensures Sound(AggregateScore(metric, scores))
    ensures Perfect(AggregateScore(metric, scores)) <==> forall s | s in scores :: Perfect(Dimensions(s)[metric])
  {
    var total := AggregateScore(metric, scores);
    if scores != [] {
      var init, last := scores[..|scores| - 1], scores[|scores| - 1];
      AggregateWhole(metric, init);
      AggregateStep(metric, scores);
      assert scores == init + [last];
      assert last in scores;
    }
    QuotientWhole(total.numerator, total.denominator);
  }

  predicate RightFor(c: GoldenCase, o: ObservedCase, planOnly: bool) {
    if planOnly then PlanRight(c, o) else Right(c, o)
  }

  predicate UniqueCases(cases: seq<GoldenCase>) {
    forall i, j | 0 <= i < j < |cases| :: cases[i].caseId != cases[j].caseId
  }

  datatype Report = Report(scores: seq<CaseScore>, aggregates: seq<Ratio>)

  ghost predicate Clean(s: CaseScore) {
    forall d | d in Dimensions(s) :: Perfect(d)
  }

  lemma {:induction false} CleanScores(s: CaseScore)
    requires Scored(s)
    ensures s.failures == [] <==> Clean(s)
  {
    NoFailures(Dimensions(s));
  }

  lemma {:induction false} SuiteWhole(scores: seq<CaseScore>, aggregates: seq<Ratio>)
    requires (forall s | s in scores :: Scored(s)) && |aggregates| == 13
    requires forall m | 0 <= m < 13 :: aggregates[m] == AggregateScore(m, scores)
    ensures forall r | r in aggregates :: Sound(r)
    ensures (forall r | r in aggregates :: Perfect(r)) <==> forall s | s in scores :: s.failures == []
  {
    forall m | 0 <= m < 13
      ensures Sound(aggregates[m])
      ensures Perfect(aggregates[m]) <==> forall s | s in scores :: Perfect(Dimensions(s)[m])
    {
      forall s | s in scores ensures Sound(Dimensions(s)[m]) { assert Dimensions(s)[m] in Dimensions(s); }
      AggregateWhole(m, scores);
    }
    if forall r | r in aggregates :: Perfect(r) {
      forall s | s in scores ensures s.failures == [] {
        forall m | 0 <= m < 13 ensures Perfect(Dimensions(s)[m]) { assert aggregates[m] in aggregates; }
        CleanScores(s);
      }
    }
    if forall s | s in scores :: s.failures == [] {
      forall s, m | s in scores && 0 <= m < 13 ensures Perfect(Dimensions(s)[m]) {
        CleanScores(s);
        assert Dimensions(s)[m] in Dimensions(s);
      }
    }
  }

  /** `EvaluationRunner.run` */
  method RunSuite(cases: seq<GoldenCase>, observe: GoldenCase -> ObservedCase, planOnly: bool) returns (r: Option<Report>)
    ensures r.None? <==> |cases| == 0 || exists i, j | 0 <= i < j < |cases| :: cases[i].caseId == cases[j].caseId
    ensures r.Some? ==> |r.value.scores| == |cases| && |r.value.aggregates| == 13
    ensures r.Some? ==> forall s | s in r.value.scores :: Scored(s)
    ensures r.Some? ==> forall i | 0 <= i < |cases| ::
      (r.value.scores[i].failures == [] <==> RightFor(cases[i], observe(cases[i]), planOnly))
    ensures r.Some? ==> forall i | 0 <= i < |cases| :: r.value.scores[i].caseId == cases[i].caseId
    ensures r.Some? ==> forall m | 0 <= m < 13 :: r.value.aggregates[m] == AggregateScore(m, r.value.scores)
    ensures r.Some? ==> forall a | a in r.value.aggregates :: Sound(a)
    ensures r.Some? ==> ((forall a | a in r.value.aggregates :: Perfect(a))
                          <==> forall c | c in cases :: RightFor(c, observe(c), planOnly))
  {
    if cases == [] || !UniqueCases(cases) { return None; }
    var scores := [];
    for i := 0 to |cases|
      invariant |scores| == i
      invariant forall j | 0 <= j < i ::
        Scored(scores[j]) && (scores[j].failures == [] <==> RightFor(cases[j], observe(cases[j]), planOnly))
      invariant forall j | 0 <= j < i :: scores[j].caseId == cases[j].caseId
    {
      var score := ScoreCase(cases[i], observe(cases[i]));
      PlanOnlyScored(score);
      scores := scores + [ForMode(score, planOnly)];
    }
    var aggregates := seq(13, m requires 0 <= m < 13 => AggregateScore(m, scores));
    SuiteWhole(scores, aggregates);
    return Some(Report(scores, aggregates));
  }
}
