/** Evidence and answer records shared by the renderer and the verifier. */
module Evidence {
  import opened Wrappers
  import opened Sequences

  datatype ProductType = DomesticBond | DomesticEtf | DomesticEtn | OverseasEtf | OverseasEtn | PublicFund

  function TypeText(t: ProductType): string {
    match t
    case DomesticBond => "domestic_bond"
    case DomesticEtf => "domestic_etf"
    case DomesticEtn => "domestic_etn"
    case OverseasEtf => "overseas_etf"
    case OverseasEtn => "overseas_etn"
    case PublicFund => "public_fund"
  }

  datatype ResultGrain = Product | Instrument | ListedProduct | FundItem | FundAttribute | FundFamilyCandidate

  datatype CoverageState = Complete | PartialTop10 | Unavailable

  function StateText(state: CoverageState): string {
    match state
    case Complete => "complete"
    case PartialTop10 => "partial_top_10"
    case Unavailable => "unavailable"
  }

  /** `Decimal | int | str | date | bool | None`; any other Python value is `Structured`. */
  datatype Scalar =
    | Missing
    | Dec(d: real)
    | Int(i: int)
    | Str(s: string)
    | Date(day: int)
    | Boolean(b: bool)
    | Structured(repr: string)

  predicate Numeric(v: Scalar) {
    v.Dec? || v.Int?
  }

  /** The number a value compares as under Python's `==`; booleans are integers there. */
  function AsNumber(v: Scalar): Option<real> {
    match v
    case Dec(d) => Some(d)
    case Int(i) => Some(i as real)
    case Boolean(b) => Some(if b then 1.0 else 0.0)
    case _ => None
  }

  predicate PythonEqual(a: Scalar, b: Scalar) {
    if AsNumber(a).Some? && AsNumber(b).Some? then AsNumber(a) == AsNumber(b) else a == b
  }

  datatype DirectEvidence = DirectEvidence(
    id: string, productType: ProductType, productId: Option<string>, fieldId: string, value: Scalar)

  datatype DerivedEvidence = DerivedEvidence(
    id: string, productType: ProductType, productId: Option<string>, fieldId: string, value: Scalar)

  datatype SummaryKind =
    CountSummary | ExclusionSummary | RankSummary | TieSummary | PartitionSummary
    | AggregateSummary | RecordedSummary | CoverageSummary

  datatype GroupValue = GroupValue(fieldId: string, value: Scalar)

  datatype EvidenceSummary = EvidenceSummary(
    id: string, kind: SummaryKind, includedCount: nat, excludedCount: nat,
    policyVersions: seq<string>, productTypes: seq<ProductType>, grains: seq<ResultGrain>,
    partitionKey: Option<string>, productId: Option<string>, metricId: Option<string>,
    rank: Option<nat>, tieCount: Option<nat>, value: Scalar, groupValues: seq<GroupValue>)

  datatype HoldingRecordRef = HoldingRecordRef(
    id: string, ownerType: ProductType, ownerId: string, constituent: string)

  datatype HoldingCoverageRef = HoldingCoverageRef(
    id: string, ownerType: ProductType, ownerId: string, state: CoverageState)

  datatype EvidenceBundle = EvidenceBundle(
    direct: seq<DirectEvidence>, derived: seq<DerivedEvidence>, summaries: seq<EvidenceSummary>,
    limitations: seq<string>, holdingRecords: seq<HoldingRecordRef>, holdingCoverage: seq<HoldingCoverageRef>)

  /** What one evidence identifier stands for when a claim cites it. */
  datatype Item = Item(
    id: string, productTypes: seq<ProductType>, grains: seq<ResultGrain>, partitionKey: Option<string>,
    productId: Option<string>, fieldId: Option<string>, value: Scalar, groupValues: seq<GroupValue>)

  function DirectItem(d: DirectEvidence): Item {
    Item(d.id, [d.productType], [], None, d.productId, Some(d.fieldId), d.value, [])
  }

  function DerivedItem(d: DerivedEvidence): Item {
    Item(d.id, [d.productType], [], None, d.productId, Some(d.fieldId), d.value, [])
  }

  function SummaryItem(s: EvidenceSummary): Item {
    Item(s.id, s.productTypes, s.grains, s.partitionKey, s.productId, s.metricId, s.value, s.groupValues)
  }

  function RecordItem(r: HoldingRecordRef): Item {
    Item(r.id, [r.ownerType], [], None, Some(r.ownerId), Some("holding_constituent"), Str(r.constituent), [])
  }

  function CoverageItem(c: HoldingCoverageRef): Item {
    Item(c.id, [c.ownerType], [], None, Some(c.ownerId), Some("holding_coverage"), Str(StateText(c.state)), [])
  }

  /** Every citable item, in the order the verifier's dictionary is filled. */
  function Items(e: EvidenceBundle): seq<Item> {
    Map(DirectItem, e.direct) + Map(DerivedItem, e.derived) + Map(SummaryItem, e.summaries)
    + Map(RecordItem, e.holdingRecords) + Map(CoverageItem, e.holdingCoverage)
  }

  /** The bundle's own validators: globally unique identifiers, nonempty policy versions. */
  ghost predicate ValidBundle(e: EvidenceBundle) {
    && (forall i, j | 0 <= i < j < |Items(e)| :: Items(e)[i].id != Items(e)[j].id)
    && (forall s | s in e.summaries :: s.policyVersions != [])
  }

  lemma {:induction false} ItemsMembership(e: EvidenceBundle)
    ensures forall d | d in e.direct :: DirectItem(d) in Items(e)
    ensures forall d | d in e.derived :: DerivedItem(d) in Items(e)
    ensures forall s | s in e.summaries :: SummaryItem(s) in Items(e)
    ensures forall r | r in e.holdingRecords :: RecordItem(r) in Items(e)
    ensures forall c | c in e.holdingCoverage :: CoverageItem(c) in Items(e)
  {
    InMap(DirectItem, e.direct);
    InMap(DerivedItem, e.derived);
    InMap(SummaryItem, e.summaries);
    InMap(RecordItem, e.holdingRecords);
    InMap(CoverageItem, e.holdingCoverage);
  }

  datatype ClaimKind = NumericClaim | TextClaim | LimitationClaim | CandidateClaim | RecommendationClaim

  datatype ValueSign = Positive | Negative | Zero

  function Sign(v: Scalar): Option<ValueSign> {
    match v
    case Int(i) => Some(if i > 0 then Positive else if i < 0 then Negative else Zero)
    case Dec(d) => Some(if d > 0.0 then Positive else if d < 0.0 then Negative else Zero)
    case _ => None
  }

  datatype AnswerClaim = AnswerClaim(
    id: string, kind: ClaimKind, text: string,
    productType: Option<ProductType>, productTypes: seq<ProductType>, grains: seq<ResultGrain>,
    partitionKey: Option<string>, productId: Option<string>, fieldId: Option<string>,
    value: Scalar, groupValues: seq<GroupValue>, evidenceIds: seq<string>, sign: Option<ValueSign>)

  datatype AnswerDraft = AnswerDraft(text: string, claims: seq<AnswerClaim>)
}
