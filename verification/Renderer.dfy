/** Deterministic answer rendering: an evidence bundle becomes display lines with structured claims. */
module Renderer {
  import opened Wrappers
  import opened Text
  import opened Sequences
  import opened Evidence

  datatype Intent = Lookup | Screen | ScreenRank | Compare | Aggregate | Explain | Clarify | Unsupported

  datatype AggregationFunction = CountOf | MinOf | MaxOf | SumOf | AvgOf

  datatype AggregationSpec = AggregationSpec(function_: AggregationFunction, field: Option<string>, groupBy: seq<string>)

  /** The parts of a query plan the renderer reads. */
  datatype QueryPlan = QueryPlan(
    intent: Intent, metrics: seq<string>, filterFields: seq<string>, sortFields: seq<string>,
    aggregation: Option<AggregationSpec>)

  predicate Executable(plan: QueryPlan) {
    plan.intent != Clarify && plan.intent != Unsupported
  }

  /** Which sentence a summary is shown as; `Silent` summaries are not shown. */
  datatype LineKind =
    SourceCount | StateValidated | StateDifference | Population | PartitionSize
    | RankLine | RecordedLine | AggregateLine | TieLine | Silent

  /** All display text, as a function of what it describes. */
  datatype Wording = Wording(
    snapshot: string, matchedCandidates: string, noResult: string,
    summaryLine: (LineKind, EvidenceSummary) -> string,
    limitationLine: string -> string,
    conclusionLine: (DerivedEvidence, seq<string>) -> string,
    candidateLine: (ProductType, string) -> string,
    valueLine: (ProductType, string, string, Scalar) -> string)

  /** One appended line with its claim, or an exception. */
  datatype Entry = Entry(line: string, claim: Option<AnswerClaim>) | Raise

  // ---------- what the question and the plan ask for ----------

  const COUNT_TOKENS := ["개수", " 수를", " 수도", " 수와", " 수,", "몇 개", "따로"]
  const ZERO_TOKENS := ["기록된 0", "0으로 기록", "0값", "0%", "0·", "0과", "0 공동"]

  predicate ContainsAny(text: string, tokens: seq<string>) {
    exists t | t in tokens :: Contains(text, t)
  }

  function RequestedPopulations(question: string): set<string> {
    if !ContainsAny(question, COUNT_TOKENS) then {}
    else
      (if Contains(question, "누락") || Contains(question, "결측") then {"missing"} else {})
      + (if ContainsAny(question, ZERO_TOKENS) then {"zero"} else {})
      + (if Contains(question, "포함 개수") || Contains(question, "포함 수") then {"included"} else {})
  }

  predicate RecommendationRequest(question: string) {
    Contains(question, "추천")
  }

  function RequestedFields(plan: QueryPlan): set<string> {
    (set f | f in plan.metrics) + (set f | f in plan.filterFields) + (set f | f in plan.sortFields)
    + (match plan.aggregation
       case None => {}
       case Some(spec) =>
         (set f | f in spec.groupBy) + (if spec.field.Some? then {spec.field.value} else {}))
  }

  // ---------- summary selection ----------

  predicate KeyStartsWith(s: EvidenceSummary, prefix: string) {
    s.partitionKey.Some? && StartsWith(s.partitionKey.value, prefix)
  }

  function FirstSummary(summaries: seq<EvidenceSummary>, wanted: EvidenceSummary -> bool): (r: Option<EvidenceSummary>)
    ensures r.Some? ==> r.value in summaries && wanted(r.value)
  {
    if summaries == [] then None
    else if wanted(summaries[0]) then Some(summaries[0])
    else FirstSummary(summaries[1..], wanted)
  }

  function CountSummaryOf(e: EvidenceBundle): Option<EvidenceSummary> {
    FirstSummary(e.summaries, (s: EvidenceSummary) => s.kind == CountSummary)
  }

  function ZeroResultSummary(e: EvidenceBundle): Option<EvidenceSummary> {
    FirstSummary(e.summaries, (s: EvidenceSummary) =>
      PythonEqual(s.value, Int(0))
      && (s.kind == PartitionSummary
          || (s.kind == CountSummary && s.partitionKey.Some? && EndsWith(s.partitionKey.value, ":included"))))
  }

  /** The overall count, shown only beside a state-validated count or a differing plain count aggregate. */
  function SourceCountOf(plan: QueryPlan, e: EvidenceBundle): Option<EvidenceSummary> {
    var count := CountSummaryOf(e);
    if count.None? || !count.value.value.Int? then None
    else if exists s | s in e.summaries :: s.kind == CountSummary && KeyStartsWith(s, "state-validated:") then count
    else if
      && plan.intent == Aggregate && plan.aggregation.Some?
      && plan.aggregation.value.function_ == CountOf && plan.aggregation.value.groupBy == []
      && exists s | s in e.summaries ::
           s.kind == AggregateSummary && s.policyVersions != [] && EndsWith(s.policyVersions[0], ":count")
           && !PythonEqual(s.value, count.value.value)
    then count
    else None
  }

  function RankedPartitions(e: EvidenceBundle): set<string> {
    set s | s in e.summaries && s.kind == RankSummary && s.partitionKey.Some? :: s.partitionKey.value
  }

  predicate RankedValue(e: EvidenceBundle, t: ProductType, product: string, field: string) {
    exists s | s in e.summaries ::
      s.kind == RankSummary && s.productTypes == [t] && s.productId == Some(product) && s.metricId == Some(field)
  }

  /** `key.rsplit(":", 1)[-1]` */
  function AfterLastColon(key: string): string {
    if key == "" then "" else if key[|key| - 1] == ':' then ""
    else AfterLastColon(key[..|key| - 1]) + [key[|key| - 1]]
  }

  function Classify(question: string, plan: QueryPlan, e: EvidenceBundle, s: EvidenceSummary): LineKind {
    if s.kind == CountSummary && SourceCountOf(plan, e) == Some(s) then SourceCount
    else if s.kind == CountSummary && !s.value.Missing? && KeyStartsWith(s, "state-validated:") then StateValidated
    else if s.kind == CountSummary && !s.value.Missing? && KeyStartsWith(s, "state-difference:") then StateDifference
    else if s.kind == CountSummary && !s.value.Missing? && KeyStartsWith(s, "policy:")
            && AfterLastColon(s.partitionKey.value) in RequestedPopulations(question) then Population
    else if s.kind == PartitionSummary && !s.value.Missing? && plan.intent != Aggregate
            && (PythonEqual(s.value, Int(0)) || s.partitionKey.None?
                || s.partitionKey.value !in RankedPartitions(e)) then PartitionSize
    else if s.kind == RankSummary && !s.value.Missing? then RankLine
    else if s.kind == RecordedSummary then RecordedLine
    else if s.kind == AggregateSummary && !s.value.Missing? then AggregateLine
    else if s.kind == TieSummary then TieLine
    else Silent
  }

  // ---------- claims ----------

  function PlainClaim(id: string, kind: ClaimKind, text: string, value: Scalar, evidenceIds: seq<string>): AnswerClaim {
    AnswerClaim(id, kind, text, None, [], [], None, None, None, value, [], evidenceIds, None)
  }

  /** `_summary_numeric_claim` */
  function SummaryNumericClaim(s: EvidenceSummary, text: string): AnswerClaim {
    AnswerClaim("claim:summary:" + s.id, NumericClaim, text, None, s.productTypes, s.grains, s.partitionKey,
                s.productId, s.metricId, s.value, [], [s.id], Sign(s.value))
  }

  function DirectIds(items: seq<DirectEvidence>): seq<string> {
    Map((d: DirectEvidence) => d.id, items)
  }

  function DerivedIds(items: seq<DerivedEvidence>): seq<string> {
    Map((d: DerivedEvidence) => d.id, items)
  }

  function OfProduct(items: seq<DirectEvidence>, t: ProductType, product: string): seq<DirectEvidence> {
    Select((d: DirectEvidence) => d.productType == t && d.productId == Some(product), items)
  }

  function DerivedOfProduct(items: seq<DerivedEvidence>, t: ProductType, product: string): seq<DerivedEvidence> {
    Select((d: DerivedEvidence) => d.productType == t && d.productId == Some(product), items)
  }

  /** `_holding_owner_evidence_ids` */
  function HoldingOwnerEvidenceIds(e: EvidenceBundle, t: ProductType, product: Option<string>): seq<string> {
    if product.None? then []
    else
      DirectIds(Select((d: DirectEvidence) =>
        d.productType == t && d.productId == product && d.fieldId == "product_id", e.direct))
      + Map((r: HoldingRecordRef) => r.id, Select((r: HoldingRecordRef) =>
          r.ownerType == t && r.ownerId == product.value, e.holdingRecords))
      + Map((c: HoldingCoverageRef) => c.id, Select((c: HoldingCoverageRef) =>
          c.ownerType == t && c.ownerId == product.value, e.holdingCoverage))
  }

  /** `_limitation_evidence_ids`, the renderer's own copy of the citation rule. */
  function LimitationEvidenceIds(limitation: string, e: EvidenceBundle): seq<string> {
    if StartsWith(limitation, "해외 ETF/ETN의 1년 수익률") then
      SummaryIds(Select((s: EvidenceSummary) => s.partitionKey == Some("limitation:overseas-return-1y"), e.summaries))
    else if Contains(limitation, "상위 10개 부분 자료") then
      Map((c: HoldingCoverageRef) => c.id,
          Select((c: HoldingCoverageRef) => StateText(c.state) == "partial_top_10", e.holdingCoverage))
    else if Contains(limitation, "구성종목 자료") then
      var state := if Contains(limitation, "제공되지 않아") then Some("unavailable")
                   else if Contains(limitation, "부분 범위") then Some("partial_top_10")
                   else None;
      SummaryIds(Select((s: EvidenceSummary) =>
        && s.kind == CoverageSummary && s.productTypes != []
        && StartsWith(limitation, TypeText(s.productTypes[0]))
        && (state.None? || (s.partitionKey.Some? && EndsWith(s.partitionKey.value, ":" + state.value))), e.summaries))
    else []
  }

  function SummaryIds(summaries: seq<EvidenceSummary>): seq<string> {
    Map((s: EvidenceSummary) => s.id, summaries)
  }

  /** Exactly one entry for a shown summary; reading the first product type of none is an exception. */
  function SummaryEntries(kind: LineKind, e: EvidenceBundle, w: Wording, s: EvidenceSummary): seq<Entry> {
    var text := w.summaryLine(kind, s);
    var id := "claim:summary:" + s.id;
    match kind
    case Silent => []
    case SourceCount =>
      [Entry(text, Some(AnswerClaim(id, NumericClaim, text, None, [], [], None, None, None, s.value, [], [s.id],
                                    Sign(s.value))))]
    case StateValidated => [Entry(text, Some(SummaryNumericClaim(s, text)))]
    case StateDifference => [Entry(text, Some(SummaryNumericClaim(s, text)))]
    case Population =>
      if s.productTypes == [] then [Raise] else [Entry(text, Some(SummaryNumericClaim(s, text)))]
    case PartitionSize =>
      [Entry(text, Some(AnswerClaim(id, NumericClaim, text, None, s.productTypes, s.grains, s.partitionKey, None, None,
                                    s.value, [], [s.id], Sign(s.value))))]
    case RankLine =>
      if s.productTypes == [] then [Raise]
      else
        [Entry(text, Some(AnswerClaim(id, NumericClaim, text, Some(s.productTypes[0]), s.productTypes, s.grains,
                                      s.partitionKey, s.productId, s.metricId, s.value, [],
                                      [s.id] + HoldingOwnerEvidenceIds(e, s.productTypes[0], s.productId),
                                      Sign(s.value))))]
    case RecordedLine =>
      if s.productTypes == [] then [Raise]
      else
        [Entry(text, Some(AnswerClaim(id, if Numeric(s.value) then NumericClaim else TextClaim, text,
                                      Some(s.productTypes[0]), s.productTypes, s.grains, s.partitionKey, s.productId,
                                      s.metricId, s.value, [], [s.id], Sign(s.value))))]
    case AggregateLine =>
      if s.productTypes == [] then [Raise]
      else
        [Entry(text, Some(AnswerClaim(id, NumericClaim, text, Some(s.productTypes[0]), s.productTypes, s.grains,
                                      s.partitionKey, None, s.metricId, s.value, s.groupValues, [s.id],
                                      Sign(s.value))))]
    case TieLine => [Entry(text, Some(PlainClaim(id, TextClaim, text, Missing, [s.id])))]
  }

  function SummarySection(
    question: string, plan: QueryPlan, e: EvidenceBundle, w: Wording, summaries: seq<EvidenceSummary>): seq<Entry>
  {
    if summaries == [] then []
    else
      var s := summaries[|summaries| - 1];
      SummarySection(question, plan, e, w, summaries[..|summaries| - 1])
      + SummaryEntries(Classify(question, plan, e, s), e, w, s)
  }

  function Digits(n: nat): string {
    if n < 10 then [('0' as int + n) as char] else Digits(n / 10) + [('0' as int + n % 10) as char]
  }

  function LimitationEntries(e: EvidenceBundle, w: Wording, index: nat, limitation: string): seq<Entry> {
    if limitation == w.snapshot then []
    else
      [Entry(w.limitationLine(limitation),
             Some(PlainClaim("claim:limitation:" + Digits(index), LimitationClaim, w.limitationLine(limitation),
                             Str(limitation), LimitationEvidenceIds(limitation, e))))]
  }

  function LimitationSection(e: EvidenceBundle, w: Wording, limitations: seq<string>): seq<Entry> {
    if limitations == [] then []
    else
      var last := |limitations| - 1;
      LimitationSection(e, w, limitations[..last]) + LimitationEntries(e, w, last, limitations[last])
  }

  function ProductIds(ids: seq<Option<string>>): seq<string> {
    if ids == [] then []
    else (if ids[0].Some? then [ids[0].value] else []) + ProductIds(ids[1..])
  }

  function ComparedMetric(difference: string): string {
    if difference == "remaining_days_difference" then "remaining_days_at_as_of"
    else if EndsWith(difference, "_difference") then difference[..|difference| - |"_difference"|]
    else difference
  }

  function ComparedIds(e: EvidenceBundle, metric: string, t: ProductType): seq<string> {
    Distinct(ProductIds(
      Map((d: DirectEvidence) => d.productId,
          Select((d: DirectEvidence) => d.fieldId == metric && d.productType == t, e.direct))
      + Map((d: DerivedEvidence) => d.productId,
            Select((d: DerivedEvidence) => d.fieldId == metric && d.productType == t, e.derived))))
  }

  /** One comparison conclusion, when exactly two products carry the compared metric. */
  function ConclusionEntries(e: EvidenceBundle, w: Wording, d: DerivedEvidence): seq<Entry> {
    if !EndsWith(d.fieldId, "_difference") || d.productId.None? || !Numeric(d.value) then []
    else
      var compared := ComparedIds(e, ComparedMetric(d.fieldId), d.productType);
      if |compared| != 2 || d.productId.value !in compared then []
      else
        var line := w.conclusionLine(d, compared);
        [Entry(line, Some(AnswerClaim("claim:value:" + d.id, NumericClaim, line, Some(d.productType), [], [], None,
                                      d.productId, Some(d.fieldId), d.value, [], [d.id], Sign(d.value))))]
  }

  function ConclusionSection(e: EvidenceBundle, w: Wording, derived: seq<DerivedEvidence>): seq<Entry> {
    if derived == [] then []
    else ConclusionSection(e, w, derived[..|derived| - 1]) + ConclusionEntries(e, w, derived[|derived| - 1])
  }

  /** `_append_value`: anything that is not an answer scalar is an exception. */
  function ValueEntry(
    w: Wording, t: ProductType, product: string, field: string, evidenceId: string, value: Scalar): Entry
  {
    var line := w.valueLine(t, product, field, value);
    if value.Structured? then Raise
    else Entry(line, Some(AnswerClaim("claim:value:" + evidenceId, if Numeric(value) then NumericClaim else TextClaim,
                                      line, Some(t), [], [], None, Some(product), Some(field), value, [],
                                      [evidenceId], Sign(value))))
  }

  predicate ShowsDirect(plan: QueryPlan, e: EvidenceBundle, t: ProductType, product: string, d: DirectEvidence) {
    && !((d.fieldId == "product_id" || d.fieldId == "product_name") && d.fieldId !in RequestedFields(plan))
    && !RankedValue(e, t, product, d.fieldId)
  }

  predicate ShowsDerived(e: EvidenceBundle, t: ProductType, product: string, d: DerivedEvidence) {
    && d.fieldId != "buy_yield_range"
    && !EndsWith(d.fieldId, "_difference")
    && !RankedValue(e, t, product, d.fieldId)
  }

  predicate SourceOnly(e: EvidenceBundle, t: ProductType, product: string) {
    exists s | s in e.summaries ::
      s.kind == RecordedSummary && KeyStartsWith(s, "source-recorded:") && s.productTypes == [t]
      && s.productId == Some(product)
  }

  function CandidateEntry(e: EvidenceBundle, w: Wording, t: ProductType, product: string): Entry {
    var line := w.candidateLine(t, product);
    Entry(line, Some(AnswerClaim("claim:candidate:" + TypeText(t) + ":" + product, CandidateClaim, line, Some(t), [],
                                 [], None, Some(product), None, Missing, [],
                                 Distinct(DirectIds(OfProduct(e.direct, t, product))
                                       + DerivedIds(DerivedOfProduct(e.derived, t, product))
                                       + HoldingOwnerEvidenceIds(e, t, Some(product))), None)))
  }

  function DirectEntries(plan: QueryPlan, e: EvidenceBundle, w: Wording, t: ProductType, product: string): seq<Entry> {
    Map((d: DirectEvidence) => ValueEntry(w, t, product, d.fieldId, d.id, d.value),
        Select((d: DirectEvidence) => ShowsDirect(plan, e, t, product, d), OfProduct(e.direct, t, product)))
  }

  function DerivedEntries(e: EvidenceBundle, w: Wording, t: ProductType, product: string): seq<Entry> {
    Map((d: DerivedEvidence) => ValueEntry(w, t, product, d.fieldId, d.id, d.value),
        Select((d: DerivedEvidence) => ShowsDerived(e, t, product, d), DerivedOfProduct(e.derived, t, product)))
  }

  function ProductEntries(
    question: string, plan: QueryPlan, e: EvidenceBundle, w: Wording, t: ProductType, product: string): seq<Entry>
  {
    if SourceOnly(e, t, product) then []
    else
      (if RecommendationRequest(question) then [CandidateEntry(e, w, t, product)] else [])
      + DirectEntries(plan, e, w, t, product)
      + DerivedEntries(e, w, t, product)
  }

  function Owners(e: EvidenceBundle): seq<(ProductType, Option<string>)> {
    Map((d: DirectEvidence) => (d.productType, d.productId), e.direct)
    + Map((d: DerivedEvidence) => (d.productType, d.productId), e.derived)
  }

  /** The products to list, in first-seen order; an aggregate answer lists none. */
  function Products(plan: QueryPlan, e: EvidenceBundle): seq<(ProductType, Option<string>)> {
    if plan.intent == Aggregate then []
    else Distinct(Select((p: (ProductType, Option<string>)) => p.1.Some?, Owners(e)))
  }

  function ProductSection(
    question: string, plan: QueryPlan, e: EvidenceBundle, w: Wording,
    products: seq<(ProductType, Option<string>)>): seq<Entry>
  {
    if products == [] then []
    else
      var p := products[|products| - 1];
      ProductSection(question, plan, e, w, products[..|products| - 1])
      + (if p.1.Some? then ProductEntries(question, plan, e, w, p.0, p.1.value) else [])
  }

  function EmptyCount(e: EvidenceBundle): Option<EvidenceSummary> {
    var count := CountSummaryOf(e);
    if count.Some? && count.value.includedCount == 0 then count else None
  }

  function NoResultSection(e: EvidenceBundle, w: Wording): seq<Entry> {
    var evidence := if ZeroResultSummary(e).Some? then ZeroResultSummary(e) else EmptyCount(e);
    if e.direct != [] || e.derived != [] || (e.summaries != [] && evidence.None?) then []
    else if evidence.None? then [Entry(w.noResult, None)]
    else [Entry(w.noResult, Some(PlainClaim("claim:no-result", TextClaim, w.noResult, Missing, [evidence.value.id])))]
  }

  function Opening(question: string, w: Wording): seq<Entry> {
    [Entry(w.snapshot, Some(PlainClaim("claim:snapshot", LimitationClaim, w.snapshot, Str(w.snapshot), [])))]
    + (if RecommendationRequest(question) then [Entry(w.matchedCandidates, None)] else [])
  }

  /** Everything an executable plan's answer consists of, in order. */
  function Entries(question: string, plan: QueryPlan, e: EvidenceBundle, w: Wording): seq<Entry> {
    Opening(question, w)
    + SummarySection(question, plan, e, w, e.summaries)
    + LimitationSection(e, w, e.limitations)
    + ConclusionSection(e, w, e.derived)
    + ProductSection(question, plan, e, w, Products(plan, e))
    + NoResultSection(e, w)
  }

  // ---------- assembling the draft ----------

  /** The claim model's length bounds. */
  predicate ClaimAdmitted(c: AnswerClaim) {
    1 <= |c.id| <= 200 && 1 <= |c.text| <= 2000 && |c.evidenceIds| <= 100
  }

  /** `lines` and `claims` so far, or an exception already raised. */
  datatype Partial = Open(lines: seq<string>, claims: seq<AnswerClaim>) | Raised

  function Extend(p: Partial, entry: Entry): Partial {
    if p.Raised? || entry.Raise? then Raised
    else if entry.claim.None? then Open(p.lines + [entry.line], p.claims)
    else if ClaimAdmitted(entry.claim.value) then Open(p.lines + [entry.line], p.claims + [entry.claim.value])
    else Raised
  }

  function ExtendAll(p: Partial, entries: seq<Entry>): Partial {
    if entries == [] then p else Extend(ExtendAll(p, entries[..|entries| - 1]), entries[|entries| - 1])
  }

  function Finish(p: Partial): Option<AnswerDraft> {
    if p.Raised? then None
    else
      var text := Join("\n", p.lines);
      if 1 <= |text| <= 12000 && |p.claims| <= 300 then Some(AnswerDraft(text, p.claims)) else None
  }

  /** The draft of an executable plan; `None` stands for an exception. */
  function Rendered(question: string, plan: QueryPlan, e: EvidenceBundle, w: Wording): Option<AnswerDraft> {
    Finish(ExtendAll(Open([], []), Entries(question, plan, e, w)))
  }
}
