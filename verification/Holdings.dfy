/** Holdings admission and flattening: validators and a join that keep counts, order and coverage consistent. */
module Holdings {
  import opened Wrappers
  import opened Sequences
  import opened Evidence
  import Sorting

  datatype Owner = Owner(productType: ProductType, productId: string)

  /** The source lineage every row of a generation shares. */
  datatype Lineage = Lineage(sourceOwner: string, sourceKind: string, url: string, fileSha: string, asOf: int, published: int)

  datatype Holding = Holding(
    generationId: string, owner: Owner, sourceId: string, idType: string, constituent: string,
    units: set<string>, lineage: Lineage, ordinal: nat)

  datatype Coverage = Coverage(
    owner: Owner, state: CoverageState, generationId: Option<string>, sourceId: Option<string>,
    idType: Option<string>, lineage: Option<Lineage>, observed: nat, limitation: string)

  datatype Generation = Generation(
    generationId: string, cutoff: int, lineage: Lineage, unitDictionary: set<string>, holdings: seq<Holding>,
    coverage: seq<Coverage>, declaredCount: nat, declaredQuarantine: nat, quarantined: seq<int>)

  predicate IsEtn(t: ProductType) {
    t == DomesticEtn || t == OverseasEtn
  }

  /** `require_state_shape` */
  predicate ShapeHolds(c: Coverage) {
    if c.state == Unavailable then
      c.generationId.None? && c.sourceId.None? && c.idType.None? && c.lineage.None? && c.observed == 0
      && c.limitation == "source_unavailable"
    else
      && c.generationId.Some? && c.sourceId.Some? && c.idType.Some? && c.lineage.Some?
      && !IsEtn(c.owner.productType)
      && c.limitation == (if c.state == Complete then "none" else "partial_top_10_only")
      && (c.state == PartialTop10 ==> c.observed <= 10)
  }

  function UnavailableFor(owner: Owner): (c: Coverage)
    ensures c.owner == owner && c.state == Unavailable && c.observed == 0 && c.limitation == "source_unavailable"
    ensures c.generationId.None? && c.sourceId.None? && c.idType.None? && c.lineage.None? && ShapeHolds(c)
  {
    Coverage(owner, Unavailable, None, None, None, None, 0, "source_unavailable")
  }

  function OwnedBy(holdings: seq<Holding>, owner: Owner): nat {
    Count((h: Holding) => h.owner == owner, holdings)
  }

  // ---------- admission ----------

  predicate StrictlyIncreasing(s: seq<int>) {
    forall i, j | 0 <= i < j < |s| :: s[i] < s[j]
  }

  function Ordinals(holdings: seq<Holding>): seq<int> {
    Map((h: Holding) => h.ordinal as int, holdings)
  }

  predicate CoverageOf(g: Generation, c: Coverage) {
    && ShapeHolds(c) && c.state != Unavailable
    && c.generationId == Some(g.generationId) && c.lineage == Some(g.lineage)
  }

  predicate HoldingOf(g: Generation, h: Holding, c: Coverage) {
    && h.generationId == g.generationId && c.sourceId == Some(h.sourceId) && c.idType == Some(h.idType)
    && h.lineage == g.lineage && h.units <= g.unitDictionary
  }

  predicate CoverageUnique(coverage: seq<Coverage>) {
    forall i, j | 0 <= i < j < |coverage| :: coverage[i].owner != coverage[j].owner
  }

  /** A coverage row of the generation: sourced, not of a note, and within its declared range. */
  predicate CoverageDeclared(g: Generation, c: Coverage) {
    && c.generationId == Some(g.generationId) && c.lineage == Some(g.lineage) && c.sourceId.Some? && c.idType.Some?
    && c.owner.productType != DomesticEtn && c.owner.productType != OverseasEtn
    && ((c.state == Complete && c.limitation == "none")
        || (c.state == PartialTop10 && c.limitation == "partial_top_10_only" && c.observed <= 10))
  }

  /** A holding row of the generation, identified as its owner's coverage row is. */
  predicate HoldingDeclared(g: Generation, h: Holding, c: Coverage) {
    && h.owner == c.owner && c.sourceId == Some(h.sourceId) && c.idType == Some(h.idType)
    && h.generationId == g.generationId && h.lineage == g.lineage && forall u | u in h.units :: u in g.unitDictionary
  }

  /** What `require_admitted_generation` demands, said without its dictionaries. */
  ghost predicate Admitted(g: Generation) {
    && g.lineage.asOf <= g.cutoff && g.lineage.published <= g.cutoff
    && g.unitDictionary != {}
    && g.declaredCount == |g.holdings| && g.declaredQuarantine == |g.quarantined|
    && (forall q | q in g.quarantined :: q > 0) && StrictlyIncreasing(g.quarantined)
    && (forall i, j | 0 <= i < j < |g.holdings| :: g.holdings[i].ordinal < g.holdings[j].ordinal)
    && (forall h | h in g.holdings :: h.ordinal as int !in g.quarantined)
    && CoverageUnique(g.coverage)
    && (forall c | c in g.coverage :: CoverageDeclared(g, c))
    && (forall h | h in g.holdings :: exists c | c in g.coverage :: HoldingDeclared(g, h, c))
    && (forall c | c in g.coverage :: c.observed == OwnedBy(g.holdings, c.owner))
  }

  lemma {:induction false} OwnerRepeats(a: seq<Coverage>, b: seq<Coverage>, c: Coverage, d: Coverage)
    requires c in a && d in b && c.owner == d.owner
    ensures !CoverageUnique(a + b)
  {
    var i :| 0 <= i < |a| && a[i] == c;
    var j :| 0 <= j < |b| && b[j] == d;
    assert (a + b)[i].owner == (a + b)[|a| + j].owner;
  }

  /** Rows indexed by owner. */
  ghost predicate Indexed(byOwner: map<Owner, Coverage>, rows: seq<Coverage>) {
    && (forall o | o in byOwner :: byOwner[o] in rows && byOwner[o].owner == o)
    && (forall c | c in rows :: c.owner in byOwner && byOwner[c.owner] == c)
  }

  /** `coverage_by_owner` after the rows. */
  function Table(rows: seq<Coverage>): map<Owner, Coverage> {
    if rows == [] then map[] else Table(rows[..|rows| - 1])[rows[|rows| - 1].owner := rows[|rows| - 1]]
  }

  /** No row met its owner in the dictionary. */
  predicate Unmet(rows: seq<Coverage>) {
    rows == [] || (Unmet(rows[..|rows| - 1]) && rows[|rows| - 1].owner !in Table(rows[..|rows| - 1]))
  }

  lemma {:induction false} UnmetPrefix(rows: seq<Coverage>, i: nat)
    requires i <= |rows| && Unmet(rows)
    ensures Unmet(rows[..i])
  {
    if i == |rows| {
      assert rows[..i] == rows;
    } else {
      UnmetPrefix(rows[..|rows| - 1], i);
      assert rows[..|rows| - 1][..i] == rows[..i];
    }
  }

  /** One more row: what it does to the dictionary, and that a met owner stays met. */
  lemma {:induction false} RowStep(earlier: seq<Coverage>, rows: seq<Coverage>, i: nat)
    requires i < |rows|
    ensures Table(earlier + rows[..i + 1]) == Table(earlier + rows[..i])[rows[i].owner := rows[i]]
    ensures Unmet(earlier + rows[..i + 1]) <==> Unmet(earlier + rows[..i]) && rows[i].owner !in Table(earlier + rows[..i])
    ensures Unmet(earlier + rows) ==> Unmet(earlier + rows[..i + 1])
  {
    var done, more, all := earlier + rows[..i], earlier + rows[..i + 1], earlier + rows;
    assert more[..|more| - 1] == done && more[|more| - 1] == rows[i];
    if Unmet(all) {
      UnmetPrefix(all, |more|);
      assert all[..|more|] == more;
    }
  }

  /** Never meeting an owner twice is uniqueness, and the dictionary then indexes the rows. */
  lemma {:induction false} TableIndexes(rows: seq<Coverage>)
    ensures Unmet(rows) <==> CoverageUnique(rows)
    ensures Unmet(rows) ==> Indexed(Table(rows), rows)
  {
    if rows != [] {
      var init, last := rows[..|rows| - 1], rows[|rows| - 1];
      TableIndexes(init);
      assert rows == init + [last];
      if Unmet(rows) {
        IndexedStep(Table(init), init, last);
      } else if Unmet(init) {
        OwnerRepeats(init, [last], Table(init)[last.owner], last);
      } else {
        assert !CoverageUnique(init);
      }
    }
  }

  lemma {:induction false} IndexedStep(byOwner: map<Owner, Coverage>, rows: seq<Coverage>, row: Coverage)
    requires Indexed(byOwner, rows) && CoverageUnique(rows) && row.owner !in byOwner
    ensures Indexed(byOwner[row.owner := row], rows + [row]) && CoverageUnique(rows + [row])
  {
    forall i | 0 <= i < |rows| ensures rows[i].owner != row.owner {
      assert rows[i] in rows;
    }
  }

  /** The first loop: a dictionary of coverage rows by owner, or a duplicate or foreign row. */
  method CollectCoverage(g: Generation) returns (ok: bool, byOwner: map<Owner, Coverage>)
    ensures ok <==> CoverageUnique(g.coverage) && forall c | c in g.coverage :: CoverageOf(g, c)
    ensures ok ==> Indexed(byOwner, g.coverage)
  {
    TableIndexes(g.coverage);
    ok, byOwner := CollectRows(g.coverage, map[], [], c => CoverageOf(g, c));
    assert [] + g.coverage == g.coverage;
  }

  /** A pass over rows that must have new owners and pass a test, from the dictionary of the earlier rows. */
  method CollectRows(rows: seq<Coverage>, before: map<Owner, Coverage>, ghost earlier: seq<Coverage>, test: Coverage -> bool)
    returns (ok: bool, byOwner: map<Owner, Coverage>)
    requires Unmet(earlier) && before == Table(earlier)
    ensures ok <==> Unmet(earlier + rows) && forall c | c in rows :: test(c)
    ensures ok ==> byOwner == Table(earlier + rows)
  {
    byOwner := before;
    assert earlier + rows[..0] == earlier;
    for i := 0 to |rows|
      invariant byOwner == Table(earlier + rows[..i]) && Unmet(earlier + rows[..i])
      invariant forall j | 0 <= j < i :: test(rows[j])
    {
      RowStep(earlier, rows, i);
      if rows[i].owner in byOwner { return false, byOwner; }
      if !test(rows[i]) {
        assert rows[i] in rows;
        return false, byOwner;
      }
      byOwner := byOwner[rows[i].owner := rows[i]];
    }
    assert rows[..|rows|] == rows;
    ok := true;
  }

  lemma {:induction false} OwnedStep(holdings: seq<Holding>, i: nat)
    requires i < |holdings|
    ensures forall o :: OwnedBy(holdings[..i + 1], o) == OwnedBy(holdings[..i], o) + if holdings[i].owner == o then 1 else 0
  {
    forall o ensures OwnedBy(holdings[..i + 1], o) == OwnedBy(holdings[..i], o) + if holdings[i].owner == o then 1 else 0 {
      assert holdings[..i + 1][..i] == holdings[..i];
      CountSnoc((h: Holding) => h.owner == o, holdings[..i + 1]);
    }
  }

  /** The second loop: every holding belongs to a coverage row, and the rows' counts are recounted. */
  method CountHoldings(g: Generation, byOwner: map<Owner, Coverage>) returns (ok: bool, observed: map<Owner, nat>)
    requires forall o | o in byOwner :: byOwner[o].owner == o
    ensures ok <==> forall h | h in g.holdings :: h.owner in byOwner && HoldingOf(g, h, byOwner[h.owner])
    ensures ok ==> observed.Keys == byOwner.Keys && forall o | o in observed :: observed[o] == OwnedBy(g.holdings, o)
  {
    observed := map o | o in byOwner :: 0;
    for i := 0 to |g.holdings|
      invariant forall j | 0 <= j < i :: g.holdings[j].owner in byOwner
                                          && HoldingOf(g, g.holdings[j], byOwner[g.holdings[j].owner])
      invariant observed.Keys == byOwner.Keys
      invariant forall o | o in observed :: observed[o] == OwnedBy(g.holdings[..i], o)
    {
      var row := g.holdings[i];
      assert row in g.holdings;
      if row.owner !in byOwner { return false, observed; }
      if !HoldingOf(g, row, byOwner[row.owner]) { return false, observed; }
      OwnedStep(g.holdings, i);
      observed := observed[row.owner := observed[row.owner] + 1];
    }
    assert g.holdings[..|g.holdings|] == g.holdings;
    ok := true;
  }

  predicate HeaderHolds(g: Generation) {
    && g.lineage.asOf <= g.cutoff && g.lineage.published <= g.cutoff && g.unitDictionary != {}
    && g.declaredCount == |g.holdings| && g.declaredQuarantine == |g.quarantined|
    && (forall q | q in g.quarantined :: q > 0) && StrictlyIncreasing(g.quarantined)
    && StrictlyIncreasing(Ordinals(g.holdings))
    && (forall h | h in g.holdings :: h.ordinal as int !in g.quarantined)
  }

  /** The checks as the validator groups them. */
  ghost predicate Checked(g: Generation) {
    && HeaderHolds(g) && CoverageUnique(g.coverage)
    && (forall c | c in g.coverage :: CoverageOf(g, c))
    && (forall h | h in g.holdings :: exists c | c in g.coverage :: c.owner == h.owner && HoldingOf(g, h, c))
    && (forall c | c in g.coverage :: c.observed == OwnedBy(g.holdings, c.owner))
  }

  lemma {:induction false} RowsDeclared(g: Generation)
    ensures forall c :: CoverageOf(g, c) <==> CoverageDeclared(g, c)
    ensures forall h: Holding, c: Coverage :: c.owner == h.owner && HoldingOf(g, h, c) <==> HoldingDeclared(g, h, c)
  {
  }

  lemma {:induction false} OrdinalsIncrease(holdings: seq<Holding>)
    ensures StrictlyIncreasing(Ordinals(holdings)) <==>
            forall i, j | 0 <= i < j < |holdings| :: holdings[i].ordinal < holdings[j].ordinal
  {
    if forall i, j | 0 <= i < j < |holdings| :: holdings[i].ordinal < holdings[j].ordinal {
      assert StrictlyIncreasing(Ordinals(holdings));
    } else {
      var i, j :| 0 <= i < j < |holdings| && holdings[i].ordinal >= holdings[j].ordinal;
      assert Ordinals(holdings)[i] >= Ordinals(holdings)[j];
    }
  }

  lemma {:induction false} CheckedExactly(g: Generation)
    ensures Checked(g) <==> Admitted(g)
  {
    OrdinalsIncrease(g.holdings);
    RowsDeclared(g);
    assert (forall h | h in g.holdings :: exists c | c in g.coverage :: c.owner == h.owner && HoldingOf(g, h, c))
      <==> (forall h | h in g.holdings :: exists c | c in g.coverage :: HoldingDeclared(g, h, c));
  }

  /** `HoldingGeneration.require_admitted_generation` */
  method Admit(g: Generation) returns (ok: bool)
    ensures ok <==> Admitted(g)
  {
    CheckedExactly(g);
    ok := Check(g);
  }

  method Check(g: Generation) returns (ok: bool)
    ensures ok <==> Checked(g)
  {
    if !HeaderHolds(g) { return false; }
    var covered, byOwner := CollectCoverage(g);
    if !covered { return false; }
    var counted, observed := CountHoldings(g, byOwner);
    if !counted {
      assert !(forall h | h in g.holdings :: exists c | c in g.coverage :: c.owner == h.owner && HoldingOf(g, h, c));
      return false;
    }
    forall h | h in g.holdings ensures exists c | c in g.coverage :: c.owner == h.owner && HoldingOf(g, h, c) {
      var c :| c in g.coverage && c.owner == h.owner;
      assert byOwner[c.owner] == c;
    }
    ok := forall c | c in g.coverage :: c.observed == observed[c.owner];
  }

  // ---------- flattening ----------

  datatype Approval = Approval(productType: ProductType, sourceId: string, productId: string)

  datatype Relations = Relations(holdings: seq<Holding>, coverage: seq<Coverage>)

  function AllCoverage(generations: seq<Generation>): seq<Coverage> {
    if generations == [] then []
    else AllCoverage(generations[..|generations| - 1]) + generations[|generations| - 1].coverage
  }

  function AllHoldings(generations: seq<Generation>): seq<Holding> {
    if generations == [] then []
    else AllHoldings(generations[..|generations| - 1]) + generations[|generations| - 1].holdings
  }

  predicate ValidEnabled(enabled: seq<Owner>) {
    && (forall o | o in enabled :: o.productType != DomesticBond && o.productId != "")
    && forall i, j | 0 <= i < j < |enabled| :: enabled[i] != enabled[j]
  }

  predicate ValidApprovals(approved: seq<Approval>) {
    && (forall a | a in approved ::
          a.productType in {DomesticEtf, OverseasEtf, PublicFund} && a.sourceId != "" && a.productId != "")
    && forall i, j | 0 <= i < j < |approved| :: approved[i] != approved[j]
  }

  /** The per-row checks of the join; `exact` is the product-specific identifier mapping. */
  predicate RowJoins(enabled: seq<Owner>, approved: seq<Approval>, exact: Coverage -> bool, c: Coverage) {
    && exact(c)
    && c.sourceId.Some?
    && Approval(c.owner.productType, c.sourceId.value, c.owner.productId) in approved
    && c.owner in enabled
  }

  ghost predicate Joinable(
    enabled: seq<Owner>, generations: seq<Generation>, approved: seq<Approval>, exact: Coverage -> bool)
  {
    && (forall i, j | 0 <= i < |enabled| && 0 <= j < |enabled| && enabled[i] == enabled[j] :: i == j)
    && (forall i, j | 0 <= i < |approved| && 0 <= j < |approved| && approved[i] == approved[j] :: i == j)
    && (forall o | o in enabled :: Coverable(o.productType) && |o.productId| > 0)
    && (forall a | a in approved ::
          Coverable(a.productType) && !IsEtn(a.productType) && |a.sourceId| > 0 && |a.productId| > 0)
    && (forall g | g in generations :: Admitted(g))
    && (forall c | c in AllCoverage(generations) ::
          exact(c) && Vouched(approved, c) && exists i | 0 <= i < |enabled| :: enabled[i] == c.owner)
    && CoverageUnique(AllCoverage(generations))
  }

  /** Funds and notes can be covered, bonds cannot. */
  predicate Coverable(t: ProductType) {
    t == DomesticEtf || t == DomesticEtn || t == OverseasEtf || t == OverseasEtn || t == PublicFund
  }

  lemma {:induction false} InputsExactly(enabled: seq<Owner>, approved: seq<Approval>)
    ensures ValidEnabled(enabled) <==>
      && (forall i, j | 0 <= i < |enabled| && 0 <= j < |enabled| && enabled[i] == enabled[j] :: i == j)
      && (forall o | o in enabled :: Coverable(o.productType) && |o.productId| > 0)
    ensures ValidApprovals(approved) <==>
      && (forall i, j | 0 <= i < |approved| && 0 <= j < |approved| && approved[i] == approved[j] :: i == j)
      && (forall a | a in approved ::
            Coverable(a.productType) && !IsEtn(a.productType) && |a.sourceId| > 0 && |a.productId| > 0)
  {
  }

  /** The owner's identification by the source is approved. */
  predicate Vouched(approved: seq<Approval>, c: Coverage) {
    c.sourceId.Some? && exists a | a in approved ::
      a.productType == c.owner.productType && a.sourceId == c.sourceId.value && a.productId == c.owner.productId
  }

  /** The sort key: `owner_order`, read off the given order, then the row ordinal. */
  predicate Precedes(enabled: seq<Owner>, a: Holding, b: Holding) {
    var p, q := IndexIn(enabled, a.owner), IndexIn(enabled, b.owner);
    p < q || (p == q && a.ordinal < b.ordinal)
  }

  /** One row stands before another: its owner comes first, or the owner is the same and its ordinal smaller. */
  ghost predicate Before(enabled: seq<Owner>, a: Holding, b: Holding) {
    || (a.owner == b.owner && a.ordinal < b.ordinal)
    || exists p, q | 0 <= p < q < |enabled| :: enabled[p] == a.owner && enabled[q] == b.owner
  }

  /** For different enabled owners the sort key says just that. */
  lemma {:induction false} PrecedesExactly(enabled: seq<Owner>, a: Holding, b: Holding)
    requires ValidEnabled(enabled) && a.owner in enabled && b.owner in enabled
    ensures Precedes(enabled, a, b) <==> Before(enabled, a, b)
  {
    var p, q := IndexIn(enabled, a.owner), IndexIn(enabled, b.owner);
    assert enabled[p] == a.owner && enabled[q] == b.owner;
  }

  /** The independent meaning of the two relations. */
  ghost predicate Flattened(enabled: seq<Owner>, generations: seq<Generation>, r: Relations) {
    // One coverage row per enabled product, in the given order: the admitted one, or unavailable.
    && |r.coverage| == |enabled|
    && (forall i | 0 <= i < |enabled| :: r.coverage[i].owner == enabled[i])
    && (forall c | c in AllCoverage(generations) :: c in r.coverage)
    && (forall i | 0 <= i < |enabled| :: r.coverage[i] in AllCoverage(generations)
                                          || r.coverage[i] == UnavailableFor(enabled[i]))
    // All admitted rows and no others, strictly by owner order and row ordinal.
    && multiset(r.holdings) == multiset(AllHoldings(generations))
    && (forall i, j | 0 <= i < j < |r.holdings| :: Before(enabled, r.holdings[i], r.holdings[j]))
    && (forall h | h in r.holdings :: h.owner in enabled)
    // Every coverage row counts exactly the emitted holdings of its owner.
    && (forall c | c in r.coverage :: c.observed == |RowsOf(r.holdings, c.owner)|)
  }

  /** The positions of an owner's rows. */
  ghost function RowsOf(holdings: seq<Holding>, owner: Owner): set<int> {
    set i | 0 <= i < |holdings| && holdings[i].owner == owner
  }

  lemma {:induction false} RowsCounted(holdings: seq<Holding>, owner: Owner)
    ensures OwnedBy(holdings, owner) == |RowsOf(holdings, owner)|
  {
    CountIndices((h: Holding) => h.owner == owner, holdings, RowsOf(holdings, owner));
  }

  /** Every row is vouched for: its identification is approved and exact, it stands for no note, a partial range has at
      most ten rows, and an unavailable owner has none. */
  ghost predicate Backed(approved: seq<Approval>, exact: Coverage -> bool, r: Relations) {
    && (forall c | c in r.coverage && c.state != Unavailable ::
          exact(c) && Vouched(approved, c) && c.owner.productType != DomesticEtn && c.owner.productType != OverseasEtn)
    && (forall c | c in r.coverage && c.state == PartialTop10 :: |RowsOf(r.holdings, c.owner)| <= 10)
    && (forall c | c in r.coverage && c.state == Unavailable :: RowsOf(r.holdings, c.owner) == {})
    && (forall h | h in r.holdings :: Approval(h.owner.productType, h.sourceId, h.owner.productId) in approved)
  }

  /** Each owner's rows stand together, in source order. */
  lemma {:induction false} OwnersContiguous(enabled: seq<Owner>, generations: seq<Generation>, r: Relations, i: nat, j: nat, k: nat)
    requires ValidEnabled(enabled) && Flattened(enabled, generations, r)
    requires i < j < k < |r.holdings| && r.holdings[i].owner == r.holdings[k].owner
    ensures r.holdings[j].owner == r.holdings[i].owner
    ensures r.holdings[i].ordinal < r.holdings[j].ordinal < r.holdings[k].ordinal
  {
    assert Before(enabled, r.holdings[i], r.holdings[j]) && Before(enabled, r.holdings[j], r.holdings[k]);
    assert Before(enabled, r.holdings[i], r.holdings[k]);
  }

  lemma {:induction false} CoverageFrom(generations: seq<Generation>, c: Coverage)
    ensures c in AllCoverage(generations) <==> exists g | g in generations :: c in g.coverage
  {
    if generations != [] {
      var init, last := generations[..|generations| - 1], generations[|generations| - 1];
      assert generations == init + [last];
      CoverageFrom(init, c);
    }
  }

  lemma {:induction false} HoldingsFrom(generations: seq<Generation>, h: Holding)
    ensures h in AllHoldings(generations) <==> exists g | g in generations :: h in g.holdings
  {
    if generations != [] {
      var init, last := generations[..|generations| - 1], generations[|generations| - 1];
      assert generations == init + [last];
      HoldingsFrom(init, h);
    }
  }

  /** A holding's owner is covered in the holding's own generation. */
  lemma {:induction false} HoldingCovered(generations: seq<Generation>, h: Holding)
    requires (forall g | g in generations :: Admitted(g)) && h in AllHoldings(generations)
    ensures exists c | c in AllCoverage(generations) :: c.owner == h.owner
  {
    HoldingsFrom(generations, h);
    var g :| g in generations && h in g.holdings;
    var c :| c in g.coverage && c.owner == h.owner && HoldingOf(g, h, c);
    CoverageFrom(generations, c);
  }

  lemma {:induction false} PrefixUnique(a: seq<Coverage>, b: seq<Coverage>)
    requires CoverageUnique(a + b)
    ensures CoverageUnique(a) && CoverageUnique(b)
    ensures forall c, d | c in a && d in b :: c.owner != d.owner
  {
    assert forall i | 0 <= i < |a| :: (a + b)[i] == a[i];
    assert forall i | 0 <= i < |b| :: (a + b)[|a| + i] == b[i];
  }

  /** No two admitted rows share an owner and an ordinal. */
  predicate DistinctRow(a: Holding, b: Holding) {
    a.owner != b.owner || a.ordinal != b.ordinal
  }

  lemma {:induction false} RowsDistinct(generations: seq<Generation>)
    requires (forall g | g in generations :: Admitted(g)) && CoverageUnique(AllCoverage(generations))
    ensures Sorting.Pairwise(DistinctRow, AllHoldings(generations))
  {
    if generations != [] {
      var init, last := generations[..|generations| - 1], generations[|generations| - 1];
      assert last in generations;
      PrefixUnique(AllCoverage(init), last.coverage);
      RowsDistinct(init);
      forall h, k | h in AllHoldings(init) && k in last.holdings ensures DistinctRow(h, k) {
        OwnersSeparate(init, last, h, k);
      }
      assert forall i, j | 0 <= i < j < |last.holdings| :: Ordinals(last.holdings)[i] < Ordinals(last.holdings)[j];
      Sorting.PairwiseConcat(DistinctRow, AllHoldings(init), last.holdings);
    }
  }

  lemma {:induction false} OwnersSeparate(init: seq<Generation>, last: Generation, h: Holding, k: Holding)
    requires (forall g | g in init :: Admitted(g)) && Admitted(last)
    requires forall c, d | c in AllCoverage(init) && d in last.coverage :: c.owner != d.owner
    requires h in AllHoldings(init) && k in last.holdings
    ensures h.owner != k.owner
  {
    HoldingCovered(init, h);
    var c :| c in AllCoverage(init) && c.owner == h.owner;
    var d :| d in last.coverage && d.owner == k.owner && HoldingOf(last, k, d);
  }

  /** Every admitted coverage row counts its owner's rows over all generations together. */
  lemma {:induction false} CountsAgree(generations: seq<Generation>, c: Coverage)
    requires (forall g | g in generations :: Admitted(g)) && CoverageUnique(AllCoverage(generations))
    requires c in AllCoverage(generations)
    ensures c.observed == OwnedBy(AllHoldings(generations), c.owner)
  {
    var init, last := generations[..|generations| - 1], generations[|generations| - 1];
    var mine := (h: Holding) => h.owner == c.owner;
    PrefixUnique(AllCoverage(init), last.coverage);
    CountConcat(mine, AllHoldings(init), last.holdings);
    assert last in generations;
    if c in AllCoverage(init) {
      CountsAgree(init, c);
      forall h | h in last.holdings ensures h.owner != c.owner {
        var d :| d in last.coverage && d.owner == h.owner && HoldingOf(last, h, d);
      }
      CountNone(mine, last.holdings);
    } else {
      forall h | h in AllHoldings(init) ensures h.owner != c.owner {
        HoldingCovered(init, h);
      }
      CountNone(mine, AllHoldings(init));
    }
  }

  /** The row loop of the join, for one generation. */
  method JoinRows(
    enabled: seq<Owner>, approved: seq<Approval>, exact: Coverage -> bool, rows: seq<Coverage>,
    before: map<Owner, Coverage>, ghost earlier: seq<Coverage>)
    returns (ok: bool, byOwner: map<Owner, Coverage>)
    requires CoverageUnique(earlier) && before == Table(earlier)
    ensures ok <==> CoverageUnique(earlier + rows) && forall c | c in rows :: RowJoins(enabled, approved, exact, c)
    ensures ok ==> byOwner == Table(earlier + rows)
  {
    TableIndexes(earlier);
    TableIndexes(earlier + rows);
    ok, byOwner := CollectRows(rows, before, earlier, c => RowJoins(enabled, approved, exact, c));
  }

  /** What the generation loop has established after the generations `done`. */
  ghost predicate Joined(
    enabled: seq<Owner>, approved: seq<Approval>, exact: Coverage -> bool, done: seq<Generation>,
    byOwner: map<Owner, Coverage>, holdings: seq<Holding>)
  {
    && (forall g | g in done :: Admitted(g))
    && (forall c | c in AllCoverage(done) :: RowJoins(enabled, approved, exact, c))
    && CoverageUnique(AllCoverage(done))
    && byOwner == Table(AllCoverage(done))
    && holdings == AllHoldings(done)
  }

  /** One rejected generation rejects every list that starts this way. */
  lemma {:induction false} RejectedStays(
    enabled: seq<Owner>, approved: seq<Approval>, exact: Coverage -> bool, generations: seq<Generation>, i: nat)
    requires i < |generations| && Joinable(enabled, generations, approved, exact)
    ensures Admitted(generations[i])
    ensures CoverageUnique(AllCoverage(generations[..i]) + generations[i].coverage)
    ensures forall c | c in generations[i].coverage :: RowJoins(enabled, approved, exact, c)
  {
    var init := generations[..|generations| - 1];
    if i == |generations| - 1 {
      assert generations[i] in generations;
    } else {
      PrefixUnique(AllCoverage(init), generations[|generations| - 1].coverage);
      RejectedStays(enabled, approved, exact, init, i);
      assert init[..i] == generations[..i];
    }
  }

  lemma {:induction false} JoinedStep(
    enabled: seq<Owner>, approved: seq<Approval>, exact: Coverage -> bool, done: seq<Generation>, g: Generation,
    before: map<Owner, Coverage>, byOwner: map<Owner, Coverage>, holdings: seq<Holding>)
    requires Joined(enabled, approved, exact, done, before, holdings) && Admitted(g)
    requires CoverageUnique(AllCoverage(done) + g.coverage) && byOwner == Table(AllCoverage(done) + g.coverage)
    requires forall c | c in g.coverage :: RowJoins(enabled, approved, exact, c)
    ensures Joined(enabled, approved, exact, done + [g], byOwner, holdings + g.holdings)
  {
    var all := done + [g];
    assert all[..|all| - 1] == done && all[|all| - 1] == g;
  }

  /** The generation loop: revalidate, join the rows, extend the holdings. */
  method JoinGenerations(
    enabled: seq<Owner>, generations: seq<Generation>, approved: seq<Approval>, exact: Coverage -> bool)
    returns (ok: bool, byOwner: map<Owner, Coverage>, holdings: seq<Holding>)
    requires ValidEnabled(enabled) && ValidApprovals(approved)
    ensures ok <==> Joinable(enabled, generations, approved, exact)
    ensures ok ==> Joined(enabled, approved, exact, generations, byOwner, holdings)
  {
    byOwner, holdings := map[], [];
    for i := 0 to |generations|
      invariant Joined(enabled, approved, exact, generations[..i], byOwner, holdings)
    {
      var g := generations[i];
      ghost var may := Joinable(enabled, generations, approved, exact);
      if may { RejectedStays(enabled, approved, exact, generations, i); }
      var admitted := Admit(g);
      if !admitted { return false, byOwner, holdings; }
      var joined, next := JoinRows(enabled, approved, exact, g.coverage, byOwner, AllCoverage(generations[..i]));
      if !joined { return false, byOwner, holdings; }
      JoinedStep(enabled, approved, exact, generations[..i], g, byOwner, next, holdings);
      assert generations[..i + 1] == generations[..i] + [g];
      byOwner, holdings := next, holdings + g.holdings;
    }
    assert generations[..|generations|] == generations;
    ok := true;
  }

  lemma {:induction false} PrecedesStrictWeak(enabled: seq<Owner>)
    ensures Sorting.StrictWeak((a: Holding, b: Holding) => Precedes(enabled, a, b))
  {
  }

  function CoverageRow(byOwner: map<Owner, Coverage>, owner: Owner): Coverage {
    if owner in byOwner then byOwner[owner] else UnavailableFor(owner)
  }

  /** Sorting by owner order and row ordinal puts all admitted rows in strict order. */
  lemma {:induction false} HoldingsStrict(enabled: seq<Owner>, generations: seq<Generation>)
    requires (forall g | g in generations :: Admitted(g)) && CoverageUnique(AllCoverage(generations))
    requires forall c | c in AllCoverage(generations) :: c.owner in enabled
    ensures var before := (a: Holding, b: Holding) => Precedes(enabled, a, b);
      var r := Sorting.Sort(before, AllHoldings(generations));
      Sorting.Pairwise(before, r) && forall h | h in r :: h.owner in enabled
  {
    var before := (a: Holding, b: Holding) => Precedes(enabled, a, b);
    var all := AllHoldings(generations);
    var r := Sorting.Sort(before, all);
    PrecedesStrictWeak(enabled);
    RowsDistinct(generations);
    Sorting.SortStable(before, DistinctRow, all);
    forall h | h in r ensures h.owner in enabled {
      assert h in multiset(r);
      HoldingCovered(generations, h);
    }
    forall i, j | 0 <= i < j < |r| ensures before(r[i], r[j]) {
      assert r[i] in r && r[j] in r;
    }
  }

  /** The emitted rows of an owner are counted by its coverage row, none for an uncovered owner. */
  lemma {:induction false} OwnerCounted(
    generations: seq<Generation>, byOwner: map<Owner, Coverage>, emitted: seq<Holding>, owner: Owner)
    requires (forall g | g in generations :: Admitted(g)) && CoverageUnique(AllCoverage(generations))
    requires Indexed(byOwner, AllCoverage(generations)) && multiset(emitted) == multiset(AllHoldings(generations))
    ensures CoverageRow(byOwner, owner).owner == owner
    ensures CoverageRow(byOwner, owner).observed == OwnedBy(emitted, owner)
  {
    var mine := (h: Holding) => h.owner == owner;
    CountPermutation(mine, emitted, AllHoldings(generations));
    if owner in byOwner {
      CountsAgree(generations, byOwner[owner]);
      CoverageFrom(generations, byOwner[owner]);
    } else {
      forall h | h in AllHoldings(generations) ensures h.owner != owner {
        HoldingCovered(generations, h);
      }
      CountNone(mine, AllHoldings(generations));
    }
  }

  lemma {:induction false} HoldingsInOrder(enabled: seq<Owner>, generations: seq<Generation>)
    requires (forall g | g in generations :: Admitted(g)) && CoverageUnique(AllCoverage(generations))
    requires ValidEnabled(enabled) && forall c | c in AllCoverage(generations) :: c.owner in enabled
    ensures var r := Sorting.Sort((a: Holding, b: Holding) => Precedes(enabled, a, b), AllHoldings(generations));
      && (forall i, j | 0 <= i < j < |r| :: Before(enabled, r[i], r[j])) && (forall h | h in r :: h.owner in enabled)
      && multiset(r) == multiset(AllHoldings(generations))
  {
    HoldingsStrict(enabled, generations);
    var before := (a: Holding, b: Holding) => Precedes(enabled, a, b);
    var r := Sorting.Sort(before, AllHoldings(generations));
    forall i, j | 0 <= i < j < |r| ensures Before(enabled, r[i], r[j]) {
      assert r[i] in r && r[j] in r && before(r[i], r[j]);
      PrecedesExactly(enabled, r[i], r[j]);
    }
  }

  lemma {:induction false} JoinedFlattens(
    enabled: seq<Owner>, approved: seq<Approval>, exact: Coverage -> bool, generations: seq<Generation>,
    byOwner: map<Owner, Coverage>, r: Relations)
    requires ValidEnabled(enabled) && Joined(enabled, approved, exact, generations, byOwner, AllHoldings(generations))
    requires r.coverage == Map((o: Owner) => CoverageRow(byOwner, o), enabled)
    requires r.holdings == Sorting.Sort((a: Holding, b: Holding) => Precedes(enabled, a, b), AllHoldings(generations))
    ensures Flattened(enabled, generations, r)
  {
    HoldingsInOrder(enabled, generations);
    CoverageRows(enabled, approved, exact, generations, byOwner, r);
  }

  lemma {:induction false} CoverageRows(
    enabled: seq<Owner>, approved: seq<Approval>, exact: Coverage -> bool, generations: seq<Generation>,
    byOwner: map<Owner, Coverage>, r: Relations)
    requires Joined(enabled, approved, exact, generations, byOwner, AllHoldings(generations))
    requires r.coverage == Map((o: Owner) => CoverageRow(byOwner, o), enabled)
    requires multiset(r.holdings) == multiset(AllHoldings(generations))
    ensures forall i | 0 <= i < |enabled| ::
              && r.coverage[i].owner == enabled[i]
              && (r.coverage[i] in AllCoverage(generations) || r.coverage[i] == UnavailableFor(enabled[i]))
    ensures forall c | c in AllCoverage(generations) :: c in r.coverage
    ensures forall c | c in r.coverage :: c.observed == |RowsOf(r.holdings, c.owner)|
  {
    TableIndexes(AllCoverage(generations));
    forall i | 0 <= i < |enabled|
      ensures r.coverage[i].owner == enabled[i]
      ensures r.coverage[i].observed == |RowsOf(r.holdings, r.coverage[i].owner)|
      ensures r.coverage[i] in AllCoverage(generations) || r.coverage[i] == UnavailableFor(enabled[i])
    {
      OwnerCounted(generations, byOwner, r.holdings, enabled[i]);
      RowsCounted(r.holdings, enabled[i]);
    }
    InMap((o: Owner) => CoverageRow(byOwner, o), enabled);
    forall c | c in AllCoverage(generations) ensures c in r.coverage {
      assert RowJoins(enabled, approved, exact, c);
    }
  }

  lemma {:induction false} AdmittedRow(generations: seq<Generation>, c: Coverage)
    requires (forall g | g in generations :: Admitted(g)) && c in AllCoverage(generations)
    ensures c.state != Unavailable && c.owner.productType != DomesticEtn && c.owner.productType != OverseasEtn
    ensures c.state == PartialTop10 ==> c.observed <= 10
  {
    CoverageFrom(generations, c);
    var g :| g in generations && c in g.coverage;
    assert CoverageDeclared(g, c);
  }

  lemma {:induction false} HoldingVouched(
    enabled: seq<Owner>, generations: seq<Generation>, approved: seq<Approval>, exact: Coverage -> bool, h: Holding)
    requires Joinable(enabled, generations, approved, exact) && h in AllHoldings(generations)
    ensures Approval(h.owner.productType, h.sourceId, h.owner.productId) in approved
  {
    HoldingsFrom(generations, h);
    var g :| g in generations && h in g.holdings;
    var c :| c in g.coverage && HoldingDeclared(g, h, c);
    CoverageFrom(generations, c);
    var a :| a in approved && a.productType == c.owner.productType && a.sourceId == c.sourceId.value
             && a.productId == c.owner.productId;
    assert a == Approval(h.owner.productType, h.sourceId, h.owner.productId);
  }

  /** What is emitted is vouched for. */
  lemma {:induction false} FlattenedBacked(
    enabled: seq<Owner>, generations: seq<Generation>, approved: seq<Approval>, exact: Coverage -> bool, r: Relations)
    requires Joinable(enabled, generations, approved, exact) && Flattened(enabled, generations, r)
    ensures Backed(approved, exact, r)
  {
    forall c | c in r.coverage
      ensures c.observed == |RowsOf(r.holdings, c.owner)|
      ensures c in AllCoverage(generations) || c.state == Unavailable
      ensures c in AllCoverage(generations) ==> c.state != Unavailable
      ensures c in AllCoverage(generations) ==> c.owner.productType != DomesticEtn && c.owner.productType != OverseasEtn
      ensures c in AllCoverage(generations) && c.state == PartialTop10 ==> c.observed <= 10
      ensures c.state == Unavailable ==> c.observed == 0
    {
      var i :| 0 <= i < |enabled| && r.coverage[i] == c;
      if c in AllCoverage(generations) {
        AdmittedRow(generations, c);
      }
    }
    forall h | h in r.holdings ensures Approval(h.owner.productType, h.sourceId, h.owner.productId) in approved {
      assert h in multiset(r.holdings);
      HoldingVouched(enabled, generations, approved, exact, h);
    }
  }

  /** `build_holding_relations` */
  method BuildRelations(
    enabled: seq<Owner>, generations: seq<Generation>, approved: seq<Approval>, exact: Coverage -> bool)
    returns (r: Option<Relations>)
    ensures r.Some? <==> Joinable(enabled, generations, approved, exact)
    ensures r.Some? ==> Flattened(enabled, generations, r.value) && Backed(approved, exact, r.value)
  {
    InputsExactly(enabled, approved);
    if !ValidEnabled(enabled) || !ValidApprovals(approved) { return None; }
    var ok, byOwner, holdings := JoinGenerations(enabled, generations, approved, exact);
    if !ok { return None; }
    var coverage := Map((o: Owner) => CoverageRow(byOwner, o), enabled);
    var ordered := Sorting.Sort((a: Holding, b: Holding) => Precedes(enabled, a, b), holdings);
    JoinedFlattens(enabled, approved, exact, generations, byOwner, Relations(ordered, coverage));
    FlattenedBacked(enabled, generations, approved, exact, Relations(ordered, coverage));
    return Some(Relations(ordered, coverage));
  }

  // ---------- the order of the generations does not matter ----------

  lemma {:induction false} AllHoldingsConcat(a: seq<Generation>, b: seq<Generation>)
    ensures AllHoldings(a + b) == AllHoldings(a) + AllHoldings(b)
  {
    if b == [] {
      assert a + b == a;
    } else {
      assert (a + b)[..|a + b| - 1] == a + b[..|b| - 1];
      AllHoldingsConcat(a, b[..|b| - 1]);
    }
  }

  lemma {:induction false} HoldingsReordered(a: seq<Generation>, b: seq<Generation>)
    requires multiset(a) == multiset(b)
    ensures multiset(AllHoldings(a)) == multiset(AllHoldings(b))
  {
    if a == [] {
      assert |b| == |multiset(b)| == |multiset(a)| == 0;
      assert b == [];
    } else {
      var k := PickOut(a, b);
      var rest := b[..k] + b[k + 1..];
      HoldingsReordered(a[1..], rest);
      HoldingsFirst(a);
      HoldingsWithout(b, k);
    }
  }

  lemma {:induction false} HoldingsFirst(s: seq<Generation>)
    requires s != []
    ensures multiset(AllHoldings(s)) == multiset(AllHoldings(s[1..])) + multiset(s[0].holdings)
  {
    HoldingsWithout(s, 0);
    assert s[..0] + s[1..] == s[1..];
  }

  lemma {:induction false} HoldingsWithout(s: seq<Generation>, k: nat)
    requires k < |s|
    ensures multiset(AllHoldings(s)) == multiset(AllHoldings(s[..k] + s[k + 1..])) + multiset(s[k].holdings)
  {
    assert s == s[..k] + ([s[k]] + s[k + 1..]);
    AllHoldingsConcat(s[..k], [s[k]] + s[k + 1..]);
    AllHoldingsConcat([s[k]], s[k + 1..]);
    AllHoldingsConcat(s[..k], s[k + 1..]);
    assert AllHoldings([s[k]]) == s[k].holdings;
  }

  /** The specification pins both relations down completely. */
  lemma {:induction false} FlattenedUnique(
    enabled: seq<Owner>, a: seq<Generation>, b: seq<Generation>, r: Relations, q: Relations)
    requires ValidEnabled(enabled) && multiset(a) == multiset(b)
    requires Flattened(enabled, a, r) && Flattened(enabled, b, q)
    ensures r == q
  {
    HoldingsReordered(a, b);
    Sorting.StrictOrderUnique((h: Holding, k: Holding) => Precedes(enabled, h, k), r.holdings, q.holdings);
    forall i | 0 <= i < |enabled| ensures r.coverage[i] == q.coverage[i] {
      CoverageReordered(a, b, r.coverage[i]);
      CoverageReordered(a, b, q.coverage[i]);
      if r.coverage[i] in AllCoverage(a) {
        SameRow(enabled, q.coverage, r.coverage[i], i);
      } else if q.coverage[i] in AllCoverage(b) {
        SameRow(enabled, r.coverage, q.coverage[i], i);
      }
    }
  }

  lemma {:induction false} CoverageReordered(a: seq<Generation>, b: seq<Generation>, c: Coverage)
    requires multiset(a) == multiset(b)
    ensures c in AllCoverage(a) <==> c in AllCoverage(b)
  {
    CoverageFrom(a, c);
    CoverageFrom(b, c);
    assert forall g :: g in a <==> g in multiset(a);
    assert forall g :: g in b <==> g in multiset(b);
  }

  lemma {:induction false} SameRow(enabled: seq<Owner>, rows: seq<Coverage>, c: Coverage, i: nat)
    requires ValidEnabled(enabled) && |rows| == |enabled| && i < |enabled|
    requires forall j | 0 <= j < |enabled| :: rows[j].owner == enabled[j]
    requires c in rows && c.owner == enabled[i]
    ensures rows[i] == c
  {
    var k :| 0 <= k < |rows| && rows[k] == c;
    assert enabled[k] == enabled[i];
  }
}
