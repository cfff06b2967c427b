/** Deterministic product entity resolution. */
module Resolver {
  import opened Wrappers
  import opened Sequences
  import opened Evidence
  import Sorting
  import Text

  datatype IdentifierType = Unknown | ProductId | MarketIdentifier | Isin | Ticker | Name

  datatype Identifier = Identifier(kind: IdentifierType, value: string)

  datatype Entry = Entry(productId: string, productType: ProductType, name: string, identifiers: seq<Identifier>, names: seq<string>)

  datatype MatchKind = ExactProductId | ExactIdentifier | ExactName | FuzzyCandidate

  datatype Candidate = Candidate(productId: string, productType: ProductType, name: string, kind: MatchKind, score: int)

  datatype Resolution = Resolution(selected: Option<Candidate>, candidates: seq<Candidate>)

  /** The normalized text of a mention, and the identifier type it claims. */
  datatype Mention = Mention(query: string, kind: IdentifierType)

  /** The similarity of two texts in ten-thousandths. */
  type Similarity = (string, string) -> nat

  // ---------- orders ----------

  datatype Rank = Rank(first: int, second: int, id: string)

  predicate Before(a: Rank, b: Rank) {
    || a.first < b.first
    || (a.first == b.first && a.second < b.second)
    || (a.first == b.first && a.second == b.second && Text.StrLt(a.id, b.id))
  }

  lemma {:induction false} BeforeTransitive(a: Rank, b: Rank, c: Rank)
    requires Before(a, b) && Before(b, c)
    ensures Before(a, c)
  {
    if Text.StrLt(a.id, b.id) && Text.StrLt(b.id, c.id) {
      Text.StrLtTransitive(a.id, b.id, c.id);
    }
  }

  lemma {:induction false} BeforeTotal(a: Rank, b: Rank)
    ensures !(Before(a, b) && Before(b, a))
    ensures Before(a, b) || Before(b, a) <==> a != b
  {
    Text.StrLtTrichotomy(a.id, b.id);
  }

  ghost predicate Ordered<T(!new)>(rank: T -> Rank, s: seq<T>) {
    Sorting.Pairwise((a: T, b: T) => Before(rank(a), rank(b)), s)
  }

  function SortBy<T>(rank: T -> Rank, s: seq<T>): seq<T> {
    Sorting.Sort((a: T, b: T) => Before(rank(a), rank(b)), s)
  }

  ghost predicate RanksDiffer<T>(rank: T -> Rank, s: seq<T>) {
    forall i, j | 0 <= i < j < |s| :: rank(s[i]) != rank(s[j])
  }

  lemma {:induction false} BeforeWeak<T(!new)>(rank: T -> Rank)
    ensures Sorting.StrictWeak((a: T, b: T) => Before(rank(a), rank(b)))
  {
    forall x: T, y: T, z: T
      ensures !Before(rank(x), rank(x))
      ensures Before(rank(x), rank(y)) && Before(rank(y), rank(z)) ==> Before(rank(x), rank(z))
      ensures Before(rank(x), rank(z)) ==> Before(rank(x), rank(y)) || Before(rank(y), rank(z))
    {
      BeforeTotal(rank(x), rank(x));
      BeforeTotal(rank(x), rank(y));
      BeforeTotal(rank(y), rank(z));
      if Before(rank(x), rank(y)) && Before(rank(y), rank(z)) { BeforeTransitive(rank(x), rank(y), rank(z)); }
      if Before(rank(x), rank(z)) && Before(rank(y), rank(x)) { BeforeTransitive(rank(y), rank(x), rank(z)); }
    }
  }

  lemma {:induction false} SortByOrdered<T(!new)>(rank: T -> Rank, s: seq<T>)
    requires RanksDiffer(rank, s)
    ensures Ordered(rank, SortBy(rank, s))
  {
    BeforeWeak(rank);
    forall i, j | 0 <= i < j < |s| ensures Before(rank(s[i]), rank(s[j])) || Before(rank(s[j]), rank(s[i])) {
      BeforeTotal(rank(s[i]), rank(s[j]));
    }
    Sorting.SortStrict((a: T, b: T) => Before(rank(a), rank(b)), s);
  }

  lemma {:induction false} InSort<T(!new)>(rank: T -> Rank, s: seq<T>)
    ensures forall x :: x in SortBy(rank, s) <==> x in s
  {
    forall x ensures x in SortBy(rank, s) <==> x in s {
      assert x in SortBy(rank, s) <==> x in multiset(SortBy(rank, s));
      assert x in s <==> x in multiset(s);
    }
  }

  /** Strictly ordered sequences with the same elements are equal. */
  lemma {:induction false} OrderedUnique<T(!new)>(rank: T -> Rank, a: seq<T>, b: seq<T>)
    requires Ordered(rank, a) && Ordered(rank, b)
    requires forall x :: x in a <==> x in b
    ensures a == b
  {
    var lt := (x: T, y: T) => Before(rank(x), rank(y));
    forall x, y ensures !(lt(x, y) && lt(y, x)) { BeforeTotal(rank(x), rank(y)); }
    forall x ensures multiset(a)[x] == multiset(b)[x] {
      OnceOrdered(rank, a, x);
      OnceOrdered(rank, b, x);
    }
    Sorting.StrictOrderUnique(lt, a, b);
  }

  lemma {:induction false} OnceOrdered<T(!new)>(rank: T -> Rank, s: seq<T>, x: T)
    requires Ordered(rank, s)
    ensures multiset(s)[x] == if x in s then 1 else 0
  {
    if s != [] {
      var init, last := s[..|s| - 1], s[|s| - 1];
      assert s == init + [last];
      OnceOrdered(rank, init, x);
      BeforeTotal(rank(x), rank(x));
    }
  }

  // ---------- resolution ----------

  predicate Distinctive(types: seq<ProductType>) {
    types != [] && forall i, j | 0 <= i < j < |types| :: types[i] != types[j]
  }

  /** `tuple(ProductType).index(t)` */
  function Canonical(t: ProductType): nat {
    match t
    case DomesticBond => 0
    case DomesticEtf => 1
    case DomesticEtn => 2
    case OverseasEtf => 3
    case OverseasEtn => 4
    case PublicFund => 5
  }

  /** `product_order`, then the product identifier. */
  function RequestRank(types: seq<ProductType>): Entry -> Rank {
    (e: Entry) => Rank(0, IndexIn(types, e.productType), e.productId)
  }

  function CandidateRank(c: Candidate): Rank {
    Rank(if c.kind.FuzzyCandidate? then -c.score else 0, Canonical(c.productType), c.productId)
  }

  function Eligible(entries: seq<Entry>, types: seq<ProductType>): seq<Entry> {
    SortBy(RequestRank(types), Select((e: Entry) => e.productType in types, entries))
  }

  predicate ProductIdMatch(m: Mention, e: Entry) {
    (m.kind.Unknown? || m.kind.ProductId?) && Identifier(ProductId, m.query) in e.identifiers
  }

  predicate OtherIdMatch(m: Mention, e: Entry) {
    exists i | i in e.identifiers :: i.value == m.query && !i.kind.ProductId? && (m.kind.Unknown? || m.kind == i.kind)
  }

  predicate ByName(m: Mention) {
    m.kind.Unknown? || m.kind.Name?
  }

  predicate NameMatch(m: Mention, e: Entry) {
    ByName(m) && m.query in e.names
  }

  /** The first element with a property. */
  function First<T>(p: T -> bool, s: seq<T>): (r: Option<T>)
    ensures r.None? <==> forall x | x in s :: !p(x)
    ensures r.Some? ==> r.value in s && p(r.value)
  {
    if s == [] then None
    else
      assert s == [s[0]] + s[1..];
      if p(s[0]) then Some(s[0]) else First(p, s[1..])
  }

  function Best(sim: Similarity, query: string, names: seq<string>): (n: nat)
    ensures forall name | name in names :: sim(query, name) <= n
    ensures names != [] ==> exists name | name in names :: sim(query, name) == n
  {
    if names == [] then 0
    else
      var rest := Best(sim, query, names[1..]);
      assert names == [names[0]] + names[1..];
      if rest < sim(query, names[0]) || |names| == 1 then sim(query, names[0]) else rest
  }

  function CandidateOf(e: Entry, kind: MatchKind, score: int): Candidate {
    Candidate(e.productId, e.productType, e.name, kind, score)
  }

  function NameCandidate(e: Entry): Candidate {
    CandidateOf(e, ExactName, 9800)
  }

  function Fuzzy(m: Mention, sim: Similarity): Entry -> Candidate {
    (e: Entry) => CandidateOf(e, FuzzyCandidate, Best(sim, m.query, e.names))
  }

  function FirstFive<T>(s: seq<T>): seq<T> {
    if |s| <= 5 then s else s[..5]
  }

  function SelectedOnly(c: Candidate): Resolution {
    Resolution(Some(c), [c])
  }

  function NameMatches(eligible: seq<Entry>, m: Mention): seq<Entry> {
    Select((e: Entry) => NameMatch(m, e), eligible)
  }

  function FuzzyRanked(eligible: seq<Entry>, m: Mention, sim: Similarity): seq<Candidate> {
    SortBy(CandidateRank, Map(Fuzzy(m, sim), Select((e: Entry) => e.names != [], eligible)))
  }

  function ResolveAmong(eligible: seq<Entry>, m: Mention, sim: Similarity): Resolution {
    var primary := First((e: Entry) => ProductIdMatch(m, e), eligible);
    if primary.Some? then SelectedOnly(CandidateOf(primary.value, ExactProductId, 10000))
    else
      var secondary := First((e: Entry) => OtherIdMatch(m, e), eligible);
      if secondary.Some? then SelectedOnly(CandidateOf(secondary.value, ExactIdentifier, 9900))
      else
        var names := NameMatches(eligible, m);
        if |names| == 1 then SelectedOnly(NameCandidate(names[0]))
        else if |names| > 1 then Resolution(None, FirstFive(SortBy(CandidateRank, Map(NameCandidate, names))))
        else if !ByName(m) then Resolution(None, [])
        else
          Resolution(None, FirstFive(Select((c: Candidate) => c.score >= 4000, FuzzyRanked(eligible, m, sim))))
  }

  /** `EntityResolver.resolve`; unusable product types are an error. */
  function Resolve(entries: seq<Entry>, m: Mention, types: seq<ProductType>, sim: Similarity): Option<Resolution> {
    if !Distinctive(types) then None else Some(ResolveAmong(Eligible(entries, types), m, sim))
  }

  // ---------- order independence ----------

  predicate Unique(entries: seq<Entry>) {
    forall i, j | 0 <= i < j < |entries| :: !SameProduct(entries[i], entries[j])
  }

  predicate SameProduct(a: Entry, b: Entry) {
    a.productType == b.productType && a.productId == b.productId
  }

  lemma {:induction false} SelectUnique(p: Entry -> bool, s: seq<Entry>)
    requires Unique(s)
    ensures Unique(Select(p, s))
  {
    if s != [] {
      SelectUnique(p, s[1..]);
      forall e | e in Select(p, s[1..]) ensures !SameProduct(s[0], e) {
        var i :| 0 <= i < |s[1..]| && s[1..][i] == e;
        assert s[i + 1] == e;
      }
      var rest, r := Select(p, s[1..]), Select(p, s);
      assert r == if p(s[0]) then [s[0]] + rest else rest;
      forall i, j | 0 <= i < j < |r| ensures !SameProduct(r[i], r[j]) {
        if p(s[0]) { assert r[j] == rest[j - 1] && r[j] in rest; }
      }
    }
  }

  lemma {:induction false} EligibleOrdered(entries: seq<Entry>, types: seq<ProductType>)
    requires Unique(entries)
    ensures Ordered(RequestRank(types), Eligible(entries, types))
    ensures forall e :: e in Eligible(entries, types) <==> e in entries && e.productType in types
  {
    var chosen := Select((e: Entry) => e.productType in types, entries);
    var rank := RequestRank(types);
    SelectUnique((e: Entry) => e.productType in types, entries);
    forall i, j | 0 <= i < j < |chosen| ensures rank(chosen[i]) != rank(chosen[j]) {
      assert chosen[i] in chosen && chosen[j] in chosen;
    }
    SortByOrdered(rank, chosen);
    InSort(rank, chosen);
  }

  /** Resolution depends on which products are indexed, not on their order. */
  lemma {:induction false} OrderIrrelevant(
    a: seq<Entry>, b: seq<Entry>, m: Mention, types: seq<ProductType>, sim: Similarity)
    requires Unique(a) && Unique(b) && forall e :: e in a <==> e in b
    ensures Resolve(a, m, types, sim) == Resolve(b, m, types, sim)
  {
    EligibleOrdered(a, types);
    EligibleOrdered(b, types);
    OrderedUnique(RequestRank(types), Eligible(a, types), Eligible(b, types));
  }

  // ---------- what is selected ----------

  /** The first match in an ordered sequence precedes every other match. */
  lemma {:induction false} FirstLeast<T(!new)>(rank: T -> Rank, p: T -> bool, s: seq<T>, x: T)
    requires Ordered(rank, s) && x in s && p(x)
    ensures First(p, s).Some? && (First(p, s).value == x || Before(rank(First(p, s).value), rank(x)))
  {
    if p(s[0]) {
      var i :| 0 <= i < |s| && s[i] == x;
    } else {
      assert s == [s[0]] + s[1..];
      assert Ordered(rank, s[1..]);
      FirstLeast(rank, p, s[1..], x);
    }
  }

  // ---------- what matches, and in which order ----------

  /** The product has the mention as its product identifier, and the mention may be one. */
  predicate HasProductId(m: Mention, e: Entry) {
    (m.kind == Unknown || m.kind == ProductId) && exists i | i in e.identifiers :: i.kind == ProductId && i.value == m.query
  }

  /** The product has the mention as another identifier, of the claimed type if one is claimed. */
  predicate HasOtherId(m: Mention, e: Entry) {
    exists i | i in e.identifiers :: i.kind != ProductId && i.value == m.query && (m.kind == Unknown || i.kind == m.kind)
  }

  /** The mention may be a name, and the product has that name. */
  predicate Named(m: Mention, e: Entry) {
    (m.kind == Unknown || m.kind == Name) && exists n | n in e.names :: n == m.query
  }

  /** A type requested earlier, or the same type and a smaller product identifier. */
  ghost predicate Earlier(types: seq<ProductType>, a: Entry, b: Entry) {
    || (exists p, q | 0 <= p < q < |types| :: types[p] == a.productType && types[q] == b.productType)
    || (a.productType == b.productType && Text.StrLt(a.productId, b.productId))
  }

  const ALL_TYPES: seq<ProductType> := [DomesticBond, DomesticEtf, DomesticEtn, OverseasEtf, OverseasEtn, PublicFund]

  /** A higher score, then an earlier type in the declared order, then a smaller product identifier. */
  ghost predicate Ahead(a: Candidate, b: Candidate) {
    || a.score > b.score
    || (a.score == b.score
        && exists p, q | 0 <= p < q < |ALL_TYPES| :: ALL_TYPES[p] == a.productType && ALL_TYPES[q] == b.productType)
    || (a.score == b.score && a.productType == b.productType && Text.StrLt(a.productId, b.productId))
  }

  lemma {:induction false} MatchesExactly(m: Mention, e: Entry)
    ensures ProductIdMatch(m, e) <==> HasProductId(m, e)
    ensures OtherIdMatch(m, e) <==> HasOtherId(m, e)
    ensures NameMatch(m, e) <==> Named(m, e)
  {
    if HasProductId(m, e) {
      var i :| i in e.identifiers && i.kind == ProductId && i.value == m.query;
      assert i == Identifier(ProductId, m.query);
    }
  }

  lemma {:induction false} EarlierExactly(types: seq<ProductType>, a: Entry, b: Entry)
    requires Distinctive(types) && a.productType in types && b.productType in types
    ensures Before(RequestRank(types)(a), RequestRank(types)(b)) <==> Earlier(types, a, b)
  {
    var p, q := IndexIn(types, a.productType), IndexIn(types, b.productType);
    assert types[p] == a.productType && types[q] == b.productType;
  }

  lemma {:induction false} DeclaredOrder(a: ProductType, b: ProductType)
    ensures Canonical(a) < Canonical(b) <==>
            exists p, q | 0 <= p < q < |ALL_TYPES| :: ALL_TYPES[p] == a && ALL_TYPES[q] == b
  {
    assert ALL_TYPES[Canonical(a)] == a && ALL_TYPES[Canonical(b)] == b;
    forall p | 0 <= p < |ALL_TYPES| ensures Canonical(ALL_TYPES[p]) == p {}
  }

  lemma {:induction false} AheadExactly(a: Candidate, b: Candidate)
    requires a.kind == b.kind && (a.kind.FuzzyCandidate? || a.score == b.score)
    ensures Before(CandidateRank(a), CandidateRank(b)) <==> Ahead(a, b)
  {
    DeclaredOrder(a.productType, b.productType);
    CanonicalInjective(a.productType, b.productType);
  }

  /** Resolution is refused exactly for no types or a repeated one. */
  lemma {:induction false} RefusedExactly(entries: seq<Entry>, m: Mention, types: seq<ProductType>, sim: Similarity)
    ensures Resolve(entries, m, types, sim).Some? <==>
            |types| > 0 && forall i, j | 0 <= i < |types| && 0 <= j < |types| && types[i] == types[j] :: i == j
  {
  }

  /** An indexed product of a requested type. */
  predicate Offered(entries: seq<Entry>, types: seq<ProductType>, e: Entry) {
    e in entries && e.productType in types
  }

  /** The product that comes first in the requested order among those with a property. */
  ghost predicate Least(entries: seq<Entry>, types: seq<ProductType>, p: Entry -> bool, e: Entry) {
    && Offered(entries, types, e) && p(e)
    && forall x | Offered(entries, types, x) && p(x) :: x == e || Earlier(types, e, x)
  }

  lemma {:induction false} FirstMatch(p: Entry -> bool, q: Entry -> bool, s: seq<Entry>)
    requires forall e :: p(e) <==> q(e)
    ensures First(p, s) == First(q, s)
  {
    if s != [] {
      FirstMatch(p, q, s[1..]);
    }
  }

  lemma {:induction false} FirstIsLeast(entries: seq<Entry>, types: seq<ProductType>, p: Entry -> bool)
    requires Unique(entries) && Distinctive(types)
    ensures var r := First(p, Eligible(entries, types));
      && (r.None? <==> forall e | Offered(entries, types, e) :: !p(e))
      && (r.Some? ==> Least(entries, types, p, r.value))
  {
    EligibleOrdered(entries, types);
    forall x | Offered(entries, types, x) && p(x)
      ensures var r := First(p, Eligible(entries, types));
        r.Some? && (r.value == x || Earlier(types, r.value, x))
    {
      FirstLeast(RequestRank(types), p, Eligible(entries, types), x);
      EarlierExactly(types, First(p, Eligible(entries, types)).value, x);
    }
  }

  ghost predicate SomeOffered(entries: seq<Entry>, types: seq<ProductType>, p: Entry -> bool) {
    exists e :: Offered(entries, types, e) && p(e)
  }

  /** The searches of the resolver, by what matches. */
  lemma {:induction false} Searches(m: Mention, s: seq<Entry>)
    ensures First((x: Entry) => ProductIdMatch(m, x), s) == First((x: Entry) => HasProductId(m, x), s)
    ensures First((x: Entry) => OtherIdMatch(m, x), s) == First((x: Entry) => HasOtherId(m, x), s)
  {
    forall e ensures ProductIdMatch(m, e) <==> HasProductId(m, e)
      ensures OtherIdMatch(m, e) <==> HasOtherId(m, e)
    {
      MatchesExactly(m, e);
    }
    FirstMatch((x: Entry) => ProductIdMatch(m, x), (x: Entry) => HasProductId(m, x), s);
    FirstMatch((x: Entry) => OtherIdMatch(m, x), (x: Entry) => HasOtherId(m, x), s);
  }

  /** A product id wins, the first in the requested order. */
  lemma {:induction false} ProductIdWins(
    entries: seq<Entry>, m: Mention, types: seq<ProductType>, sim: Similarity, e: Entry)
    requires Unique(entries) && Distinctive(types)
    requires Least(entries, types, (x: Entry) => HasProductId(m, x), e)
    ensures Resolve(entries, m, types, sim) == Some(SelectedOnly(CandidateOf(e, ExactProductId, 10000)))
  {
    var p := (x: Entry) => HasProductId(m, x);
    FirstIsLeast(entries, types, p);
    Searches(m, Eligible(entries, types));
    LeastUnique(entries, types, p, e, First(p, Eligible(entries, types)).value);
  }

  lemma {:induction false} LeastUnique(entries: seq<Entry>, types: seq<ProductType>, p: Entry -> bool, a: Entry, b: Entry)
    requires Distinctive(types) && Least(entries, types, p, a) && Least(entries, types, p, b)
    ensures a == b
  {
    EarlierExactly(types, a, b);
    EarlierExactly(types, b, a);
    BeforeTotal(RequestRank(types)(a), RequestRank(types)(b));
  }

  /** Without a product id, another identifier wins, again the first. */
  lemma {:induction false} IdentifierWins(
    entries: seq<Entry>, m: Mention, types: seq<ProductType>, sim: Similarity, e: Entry)
    requires Unique(entries) && Distinctive(types)
    requires !SomeOffered(entries, types, (x: Entry) => HasProductId(m, x))
    requires Least(entries, types, (x: Entry) => HasOtherId(m, x), e)
    ensures Resolve(entries, m, types, sim) == Some(SelectedOnly(CandidateOf(e, ExactIdentifier, 9900)))
  {
    var p, q := (x: Entry) => HasProductId(m, x), (x: Entry) => HasOtherId(m, x);
    FirstIsLeast(entries, types, p);
    FirstIsLeast(entries, types, q);
    Searches(m, Eligible(entries, types));
    LeastUnique(entries, types, q, e, First(q, Eligible(entries, types)).value);
  }

  ghost predicate Identified(entries: seq<Entry>, m: Mention, types: seq<ProductType>) {
    || SomeOffered(entries, types, (x: Entry) => HasProductId(m, x))
    || SomeOffered(entries, types, (x: Entry) => HasOtherId(m, x))
  }

  /** Identified products are what the searches find. */
  lemma {:induction false} IdentifiedExactly(entries: seq<Entry>, m: Mention, types: seq<ProductType>)
    requires Unique(entries) && Distinctive(types)
    ensures Identified(entries, m, types) <==>
            || First((x: Entry) => ProductIdMatch(m, x), Eligible(entries, types)).Some?
            || First((x: Entry) => OtherIdMatch(m, x), Eligible(entries, types)).Some?
  {
    FirstIsLeast(entries, types, (x: Entry) => HasProductId(m, x));
    FirstIsLeast(entries, types, (x: Entry) => HasOtherId(m, x));
    Searches(m, Eligible(entries, types));
  }

  function NamedCount(entries: seq<Entry>, m: Mention, types: seq<ProductType>): nat {
    Count((e: Entry) => e.productType in types && Named(m, e), entries)
  }

  lemma {:induction false} CountSelected<T>(p: T -> bool, q: T -> bool, both: T -> bool, s: seq<T>)
    requires forall x | x in s :: both(x) == (p(x) && q(x))
    ensures Count(q, Select(p, s)) == Count(both, s)
  {
    if s != [] {
      CountSelected(p, q, both, s[1..]);
      CountConcat(q, if p(s[0]) then [s[0]] else [], Select(p, s[1..]));
      assert p(s[0]) ==> Count(q, [s[0]]) == if q(s[0]) then 1 else 0;
    }
  }

  lemma {:induction false} NamedCountEligible(entries: seq<Entry>, m: Mention, types: seq<ProductType>)
    ensures |NameMatches(Eligible(entries, types), m)| == NamedCount(entries, m, types)
  {
    var offered, named := (e: Entry) => e.productType in types, (e: Entry) => NameMatch(m, e);
    var both := (e: Entry) => e.productType in types && Named(m, e);
    forall e ensures NameMatch(m, e) <==> Named(m, e) { MatchesExactly(m, e); }
    var eligible := Eligible(entries, types);
    SelectCount(named, eligible);
    assert |NameMatches(eligible, m)| == Count(named, eligible);
    CountPermutation(named, eligible, Select(offered, entries));
    CountSelected(offered, named, both, entries);
    assert NamedCount(entries, m, types) == Count(both, entries);
  }

  /** A result is selected exactly when an identifier matches or exactly one offered product has the name;
      whatever is selected is an exact match and the only candidate. Nothing is offered for what cannot be a name. */
  lemma {:induction false} SelectedExactly(entries: seq<Entry>, m: Mention, types: seq<ProductType>, sim: Similarity)
    requires Unique(entries) && Distinctive(types)
    ensures var r := Resolve(entries, m, types, sim).value;
      && (r.selected.Some? <==> Identified(entries, m, types) || NamedCount(entries, m, types) == 1)
      && (r.selected.Some? ==> r.candidates == [r.selected.value] && !r.selected.value.kind.FuzzyCandidate?)
      && (r.selected.Some? && r.selected.value.kind.ExactName?
          <==> !Identified(entries, m, types) && NamedCount(entries, m, types) == 1)
      && (m.kind != Unknown && m.kind != Name && !Identified(entries, m, types) ==> r == Resolution(None, []))
  {
    IdentifiedExactly(entries, m, types);
    NamedCountEligible(entries, m, types);
    if m.kind != Unknown && m.kind != Name {
      CountNone((e: Entry) => e.productType in types && Named(m, e), entries);
    }
  }

  /** The selected product is offered and matches as its kind says. */
  lemma {:induction false} SelectedMatches(entries: seq<Entry>, m: Mention, types: seq<ProductType>, sim: Similarity)
    returns (e: Entry)
    requires Unique(entries) && Distinctive(types) && Resolve(entries, m, types, sim).value.selected.Some?
    ensures var c := Resolve(entries, m, types, sim).value.selected.value;
      && Offered(entries, types, e) && c == Candidate(e.productId, e.productType, e.name, c.kind, c.score)
      && (c.kind.ExactProductId? ==> HasProductId(m, e) && c.score == 10000)
      && (c.kind.ExactIdentifier? ==> HasOtherId(m, e) && c.score == 9900)
      && (c.kind.ExactName? ==> Named(m, e) && c.score == 9800)
  {
    EligibleOrdered(entries, types);
    var eligible := Eligible(entries, types);
    var primary := First((x: Entry) => ProductIdMatch(m, x), eligible);
    var secondary := First((x: Entry) => OtherIdMatch(m, x), eligible);
    if primary.Some? {
      e := primary.value;
    } else if secondary.Some? {
      e := secondary.value;
    } else {
      e := NameMatches(eligible, m)[0];
      assert e in NameMatches(eligible, m);
    }
    MatchesExactly(m, e);
  }

  // ---------- what is offered when nothing is selected ----------

  /** The candidates are the best matches of a kind, best first, at most five. */
  ghost predicate BestFive(candidates: seq<Candidate>, matches: Candidate -> bool) {
    && |candidates| <= 5
    && (forall i, j | 0 <= i < j < |candidates| :: Ahead(candidates[i], candidates[j]))
    && (forall c | c in candidates :: matches(c))
    && forall c: Candidate | matches(c) && c !in candidates ::
         |candidates| == 5 && forall d | d in candidates :: Ahead(d, c)
  }

  /** Candidates of one kind, compared by their scores or all with one score. */
  ghost predicate OneKind(matches: Candidate -> bool) {
    forall a: Candidate, b: Candidate | matches(a) && matches(b) ::
      a.kind == b.kind && (a.kind.FuzzyCandidate? || a.score == b.score)
  }

  lemma {:induction false} FirstFiveBest(s: seq<Candidate>, matches: Candidate -> bool)
    requires Ordered(CandidateRank, s) && OneKind(matches)
    requires forall c: Candidate :: c in s <==> matches(c)
    ensures BestFive(FirstFive(s), matches)
  {
    forall i, j | 0 <= i < j < |s| ensures Ahead(s[i], s[j]) {
      assert s[i] in s && s[j] in s;
      AheadExactly(s[i], s[j]);
    }
    forall c: Candidate | matches(c) && c !in FirstFive(s)
      ensures forall d | d in FirstFive(s) :: Ahead(d, c)
    {
      var i :| 0 <= i < |s| && s[i] == c;
    }
  }

  lemma {:induction false} SelectOrdered<T(!new)>(rank: T -> Rank, p: T -> bool, s: seq<T>)
    requires Ordered(rank, s)
    ensures Ordered(rank, Select(p, s))
  {
    if s != [] {
      assert s == [s[0]] + s[1..];
      assert Ordered(rank, s[1..]);
      SelectOrdered(rank, p, s[1..]);
      var rest := Select(p, s[1..]);
      forall x | x in rest ensures Before(rank(s[0]), rank(x)) {
        var i :| 0 <= i < |s[1..]| && s[1..][i] == x;
        assert s[i + 1] == x;
      }
    }
  }

  lemma {:induction false} CanonicalInjective(a: ProductType, b: ProductType)
    ensures Canonical(a) == Canonical(b) <==> a == b
  {
  }

  /** Candidates of distinct products have distinct places. */
  lemma {:induction false} CandidatesDiffer(f: Entry -> Candidate, s: seq<Entry>)
    requires Unique(s)
    requires forall e | e in s :: f(e).productId == e.productId && f(e).productType == e.productType
    ensures RanksDiffer(CandidateRank, Map(f, s))
  {
    var r := Map(f, s);
    forall i, j | 0 <= i < j < |r| ensures CandidateRank(r[i]) != CandidateRank(r[j]) {
      assert s[i] in s && s[j] in s;
      CanonicalInjective(s[i].productType, s[j].productType);
    }
  }

  lemma {:induction false} OrderedEntriesUnique(types: seq<ProductType>, s: seq<Entry>)
    requires Ordered(RequestRank(types), s)
    ensures Unique(s)
  {
    forall i, j | 0 <= i < j < |s| ensures !SameProduct(s[i], s[j]) {
      BeforeTotal(RequestRank(types)(s[i]), RequestRank(types)(s[j]));
    }
  }

  lemma {:induction false} CandidatesRanked(f: Entry -> Candidate, s: seq<Entry>)
    requires Unique(s)
    requires forall e | e in s :: f(e).productId == e.productId && f(e).productType == e.productType
    ensures Ordered(CandidateRank, SortBy(CandidateRank, Map(f, s)))
    ensures forall c: Candidate :: c in SortBy(CandidateRank, Map(f, s)) <==> exists e | e in s :: f(e) == c
  {
    CandidatesDiffer(f, s);
    SortByOrdered(CandidateRank, Map(f, s));
    InSort(CandidateRank, Map(f, s));
    InMapExactly(f, s);
  }

  /** A candidate for a product whose exact name is shared. */
  ghost predicate NameOffer(entries: seq<Entry>, m: Mention, types: seq<ProductType>, c: Candidate) {
    exists e :: Offered(entries, types, e) && Named(m, e) && c == Candidate(e.productId, e.productType, e.name, ExactName, 9800)
  }

  /** A candidate for a product with a name similar enough. */
  ghost predicate FuzzyOffer(entries: seq<Entry>, m: Mention, types: seq<ProductType>, sim: Similarity, c: Candidate) {
    exists e :: Offered(entries, types, e) && SimilarBy(m, sim, e, c.score) && c.score >= 4000
      && c == Candidate(e.productId, e.productType, e.name, FuzzyCandidate, c.score)
  }

  /** The score is the greatest similarity of the mention to one of the product's names. */
  ghost predicate SimilarBy(m: Mention, sim: Similarity, e: Entry, score: int) {
    && (exists n | n in e.names :: sim(m.query, n) == score)
    && forall n | n in e.names :: sim(m.query, n) <= score
  }

  lemma {:induction false} AmbiguousNames(entries: seq<Entry>, m: Mention, types: seq<ProductType>, sim: Similarity)
    requires Unique(entries) && Distinctive(types)
    requires !Identified(entries, m, types) && NamedCount(entries, m, types) > 1
    ensures BestFive(Resolve(entries, m, types, sim).value.candidates, c => NameOffer(entries, m, types, c))
  {
    IdentifiedExactly(entries, m, types);
    forall e ensures NameMatch(m, e) <==> Named(m, e) { MatchesExactly(m, e); }
    NamedCountEligible(entries, m, types);
    EligibleOrdered(entries, types);
    var eligible := Eligible(entries, types);
    var names := NameMatches(eligible, m);
    OrderedEntriesUnique(types, eligible);
    SelectUnique((e: Entry) => NameMatch(m, e), eligible);
    CandidatesRanked(NameCandidate, names);
    FirstFiveBest(SortBy(CandidateRank, Map(NameCandidate, names)), c => NameOffer(entries, m, types, c));
  }

  lemma {:induction false} FuzzyExactly(m: Mention, sim: Similarity, e: Entry, c: Candidate)
    ensures e.names != [] && Fuzzy(m, sim)(e) == c <==>
            SimilarBy(m, sim, e, c.score) && c == Candidate(e.productId, e.productType, e.name, FuzzyCandidate, c.score)
  {
  }

  lemma {:induction false} FuzzyChosen(entries: seq<Entry>, m: Mention, types: seq<ProductType>, sim: Similarity)
    requires Unique(entries) && Distinctive(types)
    ensures var chosen := Select((c: Candidate) => c.score >= 4000, FuzzyRanked(Eligible(entries, types), m, sim));
      Ordered(CandidateRank, chosen) && forall c: Candidate :: c in chosen <==> FuzzyOffer(entries, m, types, sim, c)
  {
    EligibleOrdered(entries, types);
    var eligible := Eligible(entries, types);
    var named := Select((e: Entry) => e.names != [], eligible);
    OrderedEntriesUnique(types, eligible);
    SelectUnique((e: Entry) => e.names != [], eligible);
    CandidatesRanked(Fuzzy(m, sim), named);
    var ranked := FuzzyRanked(eligible, m, sim);
    SelectOrdered(CandidateRank, (c: Candidate) => c.score >= 4000, ranked);
    forall c: Candidate ensures (exists e | e in named :: Fuzzy(m, sim)(e) == c) && c.score >= 4000 <==>
      FuzzyOffer(entries, m, types, sim, c)
    {
      forall e: Entry ensures e.names != [] && Fuzzy(m, sim)(e) == c <==>
        SimilarBy(m, sim, e, c.score) && c == Candidate(e.productId, e.productType, e.name, FuzzyCandidate, c.score)
      {
        FuzzyExactly(m, sim, e, c);
      }
    }
  }

  lemma {:induction false} FuzzyOffers(entries: seq<Entry>, m: Mention, types: seq<ProductType>, sim: Similarity)
    requires Unique(entries) && Distinctive(types) && (m.kind == Unknown || m.kind == Name)
    requires !Identified(entries, m, types) && NamedCount(entries, m, types) == 0
    ensures BestFive(Resolve(entries, m, types, sim).value.candidates, c => FuzzyOffer(entries, m, types, sim, c))
  {
    IdentifiedExactly(entries, m, types);
    NamedCountEligible(entries, m, types);
    FuzzyChosen(entries, m, types, sim);
    FirstFiveBest(Select((c: Candidate) => c.score >= 4000, FuzzyRanked(Eligible(entries, types), m, sim)),
                  c => FuzzyOffer(entries, m, types, sim, c));
  }
}
