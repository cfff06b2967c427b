/** What an answer shows: from the bundle and the plan alone, which evidence gets a claim and which gets none. */
module ShownEvidence {
  import opened Wrappers
  import opened Text
  import opened Sequences
  import opened Evidence
  import opened Renderer
  import opened RenderedAnswers

  // ---------- values ----------

  /** The plan asks for this field as a metric, in a filter, in a sort or in its aggregation. */
  predicate Names(plan: QueryPlan, field: string) {
    || field in plan.metrics || field in plan.filterFields || field in plan.sortFields
    || (plan.aggregation.Some?
        && (field in plan.aggregation.value.groupBy || plan.aggregation.value.field == Some(field)))
  }

  /** A rank sentence already states the field of this product. */
  predicate StatedByRank(e: EvidenceBundle, t: ProductType, product: string, field: string) {
    exists s | s in e.summaries ::
      s.kind == RankSummary && s.productTypes == [t] && s.productId == Some(product) && s.metricId == Some(field)
  }

  /** A source-recorded sentence stands for the whole product. */
  predicate StatedBySource(e: EvidenceBundle, t: ProductType, product: string) {
    exists s | s in e.summaries ::
      s.kind == RecordedSummary && s.productTypes == [t] && s.productId == Some(product)
      && s.partitionKey.Some? && "source-recorded:" <= s.partitionKey.value
  }

  /** The answer has lines for this product. */
  predicate Listed(plan: QueryPlan, e: EvidenceBundle, t: ProductType, product: Option<string>) {
    plan.intent != Aggregate && product.Some? && !StatedBySource(e, t, product.value)
  }

  predicate DirectDue(plan: QueryPlan, e: EvidenceBundle, d: DirectEvidence) {
    && Listed(plan, e, d.productType, d.productId)
    && (d.fieldId == "product_id" || d.fieldId == "product_name" ==> Names(plan, d.fieldId))
    && !StatedByRank(e, d.productType, d.productId.value, d.fieldId)
  }

  /** The field is a difference of this metric between two products. */
  predicate DifferenceOf(field: string, metric: string) {
    field == metric + "_difference"
  }

  ghost predicate IsDifference(field: string) {
    exists metric :: DifferenceOf(field, metric)
  }

  ghost predicate DerivedDue(plan: QueryPlan, e: EvidenceBundle, d: DerivedEvidence) {
    && Listed(plan, e, d.productType, d.productId)
    && d.fieldId != "buy_yield_range" && !IsDifference(d.fieldId)
    && !StatedByRank(e, d.productType, d.productId.value, d.fieldId)
  }

  /** The claim of one shown value. */
  function ValueClaim(text: string, t: ProductType, product: string, field: string, value: Scalar, id: string): AnswerClaim {
    AnswerClaim("claim:value:" + id, if value.Int? || value.Dec? then NumericClaim else TextClaim, text, Some(t), [], [],
                None, Some(product), Some(field), value, [], [id], Sign(value))
  }

  function DirectClaim(w: Wording, d: DirectEvidence): AnswerClaim
    requires d.productId.Some?
  {
    ValueClaim(w.valueLine(d.productType, d.productId.value, d.fieldId, d.value), d.productType, d.productId.value,
               d.fieldId, d.value, d.id)
  }

  function DerivedClaim(w: Wording, d: DerivedEvidence): AnswerClaim
    requires d.productId.Some?
  {
    ValueClaim(w.valueLine(d.productType, d.productId.value, d.fieldId, d.value), d.productType, d.productId.value,
               d.fieldId, d.value, d.id)
  }

  ghost predicate ClaimsDirect(plan: QueryPlan, e: EvidenceBundle, w: Wording, c: AnswerClaim) {
    exists d | d in e.direct :: DirectDue(plan, e, d) && c == DirectClaim(w, d)
  }

  ghost predicate ClaimsDerived(plan: QueryPlan, e: EvidenceBundle, w: Wording, c: AnswerClaim) {
    exists d | d in e.derived :: DerivedDue(plan, e, d) && c == DerivedClaim(w, d)
  }

  /** Some evidence is about this product. */
  predicate HasEvidence(e: EvidenceBundle, t: ProductType, product: string) {
    || (exists d | d in e.direct :: d.productType == t && d.productId == Some(product))
    || (exists d | d in e.derived :: d.productType == t && d.productId == Some(product))
  }

  /** A recommendation was asked for, and this product is one of its candidates. */
  predicate CandidateDue(question: string, plan: QueryPlan, e: EvidenceBundle, t: ProductType, product: string) {
    Contains(question, "추천") && Listed(plan, e, t, Some(product)) && HasEvidence(e, t, product)
  }

  ghost predicate ClaimsCandidate(question: string, plan: QueryPlan, e: EvidenceBundle, w: Wording, c: AnswerClaim) {
    exists t, product ::
      CandidateDue(question, plan, e, t, product) && c == CandidateEntry(e, w, t, product).claim.value
  }

  /** The claims of the product lines. */
  ghost predicate ProductClaim(question: string, plan: QueryPlan, e: EvidenceBundle, w: Wording, c: AnswerClaim) {
    ClaimsCandidate(question, plan, e, w, c) || ClaimsDirect(plan, e, w, c) || ClaimsDerived(plan, e, w, c)
  }

  lemma {:induction false} EndsWithExactly(s: string, suffix: string)
    ensures EndsWith(s, suffix) <==> exists head: string :: s == head + suffix
  {
    if EndsWith(s, suffix) {
      assert s == s[..|s| - |suffix|] + suffix;
    }
  }

  lemma {:induction false} DifferenceExactly(field: string)
    ensures IsDifference(field) <==> EndsWith(field, "_difference")
  {
    EndsWithExactly(field, "_difference");
    if EndsWith(field, "_difference") {
      var metric: string :| field == metric + "_difference";
      assert DifferenceOf(field, metric);
    }
  }

  lemma {:induction false} ProductsExactly(plan: QueryPlan, e: EvidenceBundle, t: ProductType, product: string)
    ensures (t, Some(product)) in Products(plan, e) <==> plan.intent != Aggregate && HasEvidence(e, t, product)
  {
    InMapExactly((d: DirectEvidence) => (d.productType, d.productId), e.direct);
    InMapExactly((d: DerivedEvidence) => (d.productType, d.productId), e.derived);
  }

  /** The renderer's own test of a direct item is the one stated here. */
  lemma {:induction false} DirectDueExactly(plan: QueryPlan, e: EvidenceBundle, d: DirectEvidence, product: string)
    requires d in e.direct && d.productId == Some(product)
    ensures DirectDue(plan, e, d) <==>
              && (d.productType, Some(product)) in Products(plan, e) && !SourceOnly(e, d.productType, product)
              && ShowsDirect(plan, e, d.productType, product, d)
  {
    ProductsExactly(plan, e, d.productType, product);
    SourceOnlyExactly(e, d.productType, product);
    assert HasEvidence(e, d.productType, product);
    assert d.fieldId in RequestedFields(plan) <==> Names(plan, d.fieldId);
  }

  lemma {:induction false} DerivedDueExactly(plan: QueryPlan, e: EvidenceBundle, d: DerivedEvidence, product: string)
    requires d in e.derived && d.productId == Some(product)
    ensures DerivedDue(plan, e, d) <==>
              && (d.productType, Some(product)) in Products(plan, e) && !SourceOnly(e, d.productType, product)
              && ShowsDerived(e, d.productType, product, d)
  {
    ProductsExactly(plan, e, d.productType, product);
    SourceOnlyExactly(e, d.productType, product);
    assert HasEvidence(e, d.productType, product);
    DifferenceExactly(d.fieldId);
  }

  lemma {:induction false} SourceOnlyExactly(e: EvidenceBundle, t: ProductType, product: string)
    ensures SourceOnly(e, t, product) <==> StatedBySource(e, t, product)
  {
  }

  // ---------- one product's entries ----------

  ghost predicate DirectEntryOf(plan: QueryPlan, e: EvidenceBundle, w: Wording, t: ProductType, product: string, x: Entry) {
    exists d | d in e.direct ::
      d.productType == t && d.productId == Some(product) && ShowsDirect(plan, e, t, product, d)
      && x == ValueEntry(w, t, product, d.fieldId, d.id, d.value)
  }

  ghost predicate DerivedEntryOf(e: EvidenceBundle, w: Wording, t: ProductType, product: string, x: Entry) {
    exists d | d in e.derived ::
      d.productType == t && d.productId == Some(product) && ShowsDerived(e, t, product, d)
      && x == ValueEntry(w, t, product, d.fieldId, d.id, d.value)
  }

  lemma {:induction false} InDirectEntries(
    plan: QueryPlan, e: EvidenceBundle, w: Wording, t: ProductType, product: string, x: Entry)
    ensures x in DirectEntries(plan, e, w, t, product) <==> DirectEntryOf(plan, e, w, t, product, x)
  {
    InMapExactly((d: DirectEvidence) => ValueEntry(w, t, product, d.fieldId, d.id, d.value),
      Select((d: DirectEvidence) => ShowsDirect(plan, e, t, product, d), OfProduct(e.direct, t, product)));
  }

  lemma {:induction false} InDerivedEntries(e: EvidenceBundle, w: Wording, t: ProductType, product: string, x: Entry)
    ensures x in DerivedEntries(e, w, t, product) <==> DerivedEntryOf(e, w, t, product, x)
  {
    InMapExactly((d: DerivedEvidence) => ValueEntry(w, t, product, d.fieldId, d.id, d.value),
      Select((d: DerivedEvidence) => ShowsDerived(e, t, product, d), DerivedOfProduct(e.derived, t, product)));
  }

  lemma {:induction false} InProductEntries(
    question: string, plan: QueryPlan, e: EvidenceBundle, w: Wording, t: ProductType, product: string, x: Entry)
    ensures x in ProductEntries(question, plan, e, w, t, product) <==>
      && !SourceOnly(e, t, product)
      && ((RecommendationRequest(question) && x == CandidateEntry(e, w, t, product))
          || x in DirectEntries(plan, e, w, t, product) || x in DerivedEntries(e, w, t, product))
  {
  }

  lemma {:induction false} DirectEntryDue(
    plan: QueryPlan, e: EvidenceBundle, w: Wording, t: ProductType, product: string, x: Entry)
    requires (t, Some(product)) in Products(plan, e) && !SourceOnly(e, t, product)
    requires x in DirectEntries(plan, e, w, t, product) && x.Entry? && x.claim.Some?
    ensures ClaimsDirect(plan, e, w, x.claim.value)
  {
    InDirectEntries(plan, e, w, t, product, x);
    var d :| d in e.direct && d.productType == t && d.productId == Some(product)
             && ShowsDirect(plan, e, t, product, d) && x == ValueEntry(w, t, product, d.fieldId, d.id, d.value);
    DirectDueExactly(plan, e, d, product);
    assert x.claim.value == DirectClaim(w, d);
  }

  lemma {:induction false} DerivedEntryDue(
    plan: QueryPlan, e: EvidenceBundle, w: Wording, t: ProductType, product: string, x: Entry)
    requires (t, Some(product)) in Products(plan, e) && !SourceOnly(e, t, product)
    requires x in DerivedEntries(e, w, t, product) && x.Entry? && x.claim.Some?
    ensures ClaimsDerived(plan, e, w, x.claim.value)
  {
    InDerivedEntries(e, w, t, product, x);
    var d :| d in e.derived && d.productType == t && d.productId == Some(product)
             && ShowsDerived(e, t, product, d) && x == ValueEntry(w, t, product, d.fieldId, d.id, d.value);
    DerivedDueExactly(plan, e, d, product);
    assert x.claim.value == DerivedClaim(w, d);
  }

  lemma {:induction false} CandidateEntryDue(
    question: string, plan: QueryPlan, e: EvidenceBundle, w: Wording, t: ProductType, product: string)
    requires (t, Some(product)) in Products(plan, e) && !SourceOnly(e, t, product) && RecommendationRequest(question)
    ensures ClaimsCandidate(question, plan, e, w, CandidateEntry(e, w, t, product).claim.value)
  {
    ProductsExactly(plan, e, t, product);
    SourceOnlyExactly(e, t, product);
    assert CandidateDue(question, plan, e, t, product);
  }

  /** Every claim of one product's lines is due. */
  lemma {:induction false} ProductClaimDue(
    question: string, plan: QueryPlan, e: EvidenceBundle, w: Wording, t: ProductType, product: string, x: Entry)
    requires (t, Some(product)) in Products(plan, e)
    requires x in ProductEntries(question, plan, e, w, t, product) && x.Entry? && x.claim.Some?
    ensures ProductClaim(question, plan, e, w, x.claim.value)
  {
    InProductEntries(question, plan, e, w, t, product, x);
    if x in DirectEntries(plan, e, w, t, product) {
      DirectEntryDue(plan, e, w, t, product, x);
    } else if x in DerivedEntries(e, w, t, product) {
      DerivedEntryDue(plan, e, w, t, product, x);
    } else {
      CandidateEntryDue(question, plan, e, w, t, product);
    }
  }

  lemma {:induction false} DirectStated(question: string, plan: QueryPlan, e: EvidenceBundle, w: Wording, d: DirectEvidence)
    requires d in e.direct && DirectDue(plan, e, d)
    ensures ValueEntry(w, d.productType, d.productId.value, d.fieldId, d.id, d.value)
            in ProductSection(question, plan, e, w, Products(plan, e))
  {
    var t, product := d.productType, d.productId.value;
    var x := ValueEntry(w, t, product, d.fieldId, d.id, d.value);
    DirectDueExactly(plan, e, d, product);
    assert DirectEntryOf(plan, e, w, t, product, x);
    InDirectEntries(plan, e, w, t, product, x);
    InProductEntries(question, plan, e, w, t, product, x);
    assert OfProductEntries(question, plan, e, w, (t, Some(product)), x);
    InProductSection(question, plan, e, w, Products(plan, e), x);
  }

  lemma {:induction false} DerivedStated(question: string, plan: QueryPlan, e: EvidenceBundle, w: Wording, d: DerivedEvidence)
    requires d in e.derived && DerivedDue(plan, e, d)
    ensures ValueEntry(w, d.productType, d.productId.value, d.fieldId, d.id, d.value)
            in ProductSection(question, plan, e, w, Products(plan, e))
  {
    var t, product := d.productType, d.productId.value;
    var x := ValueEntry(w, t, product, d.fieldId, d.id, d.value);
    DerivedDueExactly(plan, e, d, product);
    assert DerivedEntryOf(e, w, t, product, x);
    InDerivedEntries(e, w, t, product, x);
    InProductEntries(question, plan, e, w, t, product, x);
    assert OfProductEntries(question, plan, e, w, (t, Some(product)), x);
    InProductSection(question, plan, e, w, Products(plan, e), x);
  }

  lemma {:induction false} CandidateStated(
    question: string, plan: QueryPlan, e: EvidenceBundle, w: Wording, t: ProductType, product: string)
    requires CandidateDue(question, plan, e, t, product)
    ensures CandidateEntry(e, w, t, product) in ProductSection(question, plan, e, w, Products(plan, e))
  {
    var x := CandidateEntry(e, w, t, product);
    ProductsExactly(plan, e, t, product);
    SourceOnlyExactly(e, t, product);
    InProductEntries(question, plan, e, w, t, product, x);
    assert OfProductEntries(question, plan, e, w, (t, Some(product)), x);
    InProductSection(question, plan, e, w, Products(plan, e), x);
  }

  lemma {:induction false} StatedBy(entries: seq<Entry>, x: Entry, c: AnswerClaim)
    requires x in entries && x.Entry? && x.claim == Some(c)
    ensures Stated(entries, c)
  {
  }

  lemma {:induction false} ProductSectionDue(
    question: string, plan: QueryPlan, e: EvidenceBundle, w: Wording, c: AnswerClaim)
    requires Stated(ProductSection(question, plan, e, w, Products(plan, e)), c)
    ensures ProductClaim(question, plan, e, w, c)
  {
    var x :| x in ProductSection(question, plan, e, w, Products(plan, e)) && x.Entry? && x.claim == Some(c);
    InProductSection(question, plan, e, w, Products(plan, e), x);
    var p :| p in Products(plan, e) && OfProductEntries(question, plan, e, w, p, x);
    assert p == (p.0, Some(p.1.value));
    ProductClaimDue(question, plan, e, w, p.0, p.1.value, x);
  }

  lemma {:induction false} ProductSectionStates(
    question: string, plan: QueryPlan, e: EvidenceBundle, w: Wording, section: seq<Entry>, c: AnswerClaim)
    requires section == ProductSection(question, plan, e, w, Products(plan, e))
    requires (forall x | x in section :: x.Entry?) && ProductClaim(question, plan, e, w, c)
    ensures Stated(section, c)
  {
    if t, product :| CandidateDue(question, plan, e, t, product) && c == CandidateEntry(e, w, t, product).claim.value {
      CandidateStated(question, plan, e, w, t, product);
      StatedBy(section, CandidateEntry(e, w, t, product), c);
    } else if d :| d in e.direct && DirectDue(plan, e, d) && c == DirectClaim(w, d) {
      DirectStated(question, plan, e, w, d);
      StatedBy(section, ValueEntry(w, d.productType, d.productId.value, d.fieldId, d.id, d.value), c);
    } else {
      var d :| d in e.derived && DerivedDue(plan, e, d) && c == DerivedClaim(w, d);
      DerivedStated(question, plan, e, w, d);
      StatedBy(section, ValueEntry(w, d.productType, d.productId.value, d.fieldId, d.id, d.value), c);
    }
  }

  /** The product lines claim exactly what is due. */
  lemma {:induction false} ProductClaims(question: string, plan: QueryPlan, e: EvidenceBundle, w: Wording, c: AnswerClaim)
    requires forall x | x in ProductSection(question, plan, e, w, Products(plan, e)) :: x.Entry?
    ensures Stated(ProductSection(question, plan, e, w, Products(plan, e)), c) <==> ProductClaim(question, plan, e, w, c)
  {
    var section := ProductSection(question, plan, e, w, Products(plan, e));
    if Stated(section, c) {
      ProductSectionDue(question, plan, e, w, c);
    }
    if ProductClaim(question, plan, e, w, c) {
      ProductSectionStates(question, plan, e, w, section, c);
    }
  }

  // ---------- comparison conclusions ----------

  /** The metric whose difference a field states. */
  predicate Compares(field: string, metric: string) {
    if field == "remaining_days_difference" then metric == "remaining_days_at_as_of" else DifferenceOf(field, metric)
  }

  /** The products of a type with evidence of the metric. */
  function Carriers(e: EvidenceBundle, t: ProductType, metric: string): set<string> {
    (set d | d in e.direct && d.productType == t && d.fieldId == metric && d.productId.Some? :: d.productId.value)
    + (set d | d in e.derived && d.productType == t && d.fieldId == metric && d.productId.Some? :: d.productId.value)
  }

  /** A numeric difference between this product and exactly one other. */
  predicate DifferenceDue(e: EvidenceBundle, d: DerivedEvidence, metric: string) {
    && Compares(d.fieldId, metric) && d.productId.Some? && (d.value.Int? || d.value.Dec?)
    && |Carriers(e, d.productType, metric)| == 2 && d.productId.value in Carriers(e, d.productType, metric)
  }

  function DifferenceClaim(e: EvidenceBundle, w: Wording, d: DerivedEvidence, metric: string): AnswerClaim
    requires d.productId.Some?
  {
    ValueClaim(w.conclusionLine(d, ComparedIds(e, metric, d.productType)), d.productType, d.productId.value, d.fieldId,
               d.value, d.id)
  }

  ghost predicate ClaimsDifference(e: EvidenceBundle, w: Wording, c: AnswerClaim) {
    exists d, metric | d in e.derived && DifferenceDue(e, d, metric) :: c == DifferenceClaim(e, w, d, metric)
  }

  lemma {:induction false} InProductIds(ids: seq<Option<string>>, id: string)
    ensures id in ProductIds(ids) <==> Some(id) in ids
  {
    if ids != [] {
      assert ids == [ids[0]] + ids[1..];
      InProductIds(ids[1..], id);
    }
  }

  lemma {:induction false} DirectCarriers(e: EvidenceBundle, t: ProductType, metric: string, id: string)
    ensures Some(id) in Map((d: DirectEvidence) => d.productId,
              Select((d: DirectEvidence) => d.fieldId == metric && d.productType == t, e.direct)) <==>
            exists d | d in e.direct :: d.productType == t && d.fieldId == metric && d.productId == Some(id)
  {
    InMapExactly((d: DirectEvidence) => d.productId,
      Select((d: DirectEvidence) => d.fieldId == metric && d.productType == t, e.direct));
  }

  lemma {:induction false} DerivedCarriers(e: EvidenceBundle, t: ProductType, metric: string, id: string)
    ensures Some(id) in Map((d: DerivedEvidence) => d.productId,
              Select((d: DerivedEvidence) => d.fieldId == metric && d.productType == t, e.derived)) <==>
            exists d | d in e.derived :: d.productType == t && d.fieldId == metric && d.productId == Some(id)
  {
    InMapExactly((d: DerivedEvidence) => d.productId,
      Select((d: DerivedEvidence) => d.fieldId == metric && d.productType == t, e.derived));
  }

  lemma {:induction false} ComparedMember(e: EvidenceBundle, t: ProductType, metric: string, id: string)
    ensures id in ComparedIds(e, metric, t) <==> id in Carriers(e, t, metric)
  {
    var ids := Map((d: DirectEvidence) => d.productId,
                   Select((d: DirectEvidence) => d.fieldId == metric && d.productType == t, e.direct))
               + Map((d: DerivedEvidence) => d.productId,
                     Select((d: DerivedEvidence) => d.fieldId == metric && d.productType == t, e.derived));
    InProductIds(ids, id);
    DirectCarriers(e, t, metric, id);
    DerivedCarriers(e, t, metric, id);
  }

  /** The compared products are the carriers, each once. */
  lemma {:induction false} ComparedExactly(e: EvidenceBundle, t: ProductType, metric: string)
    ensures forall id :: id in ComparedIds(e, metric, t) <==> id in Carriers(e, t, metric)
    ensures |ComparedIds(e, metric, t)| == |Carriers(e, t, metric)|
  {
    forall id ensures id in ComparedIds(e, metric, t) <==> id in Carriers(e, t, metric) {
      ComparedMember(e, t, metric, id);
    }
    DistinctSize(ComparedIds(e, metric, t), Carriers(e, t, metric));
  }

  lemma {:induction false} ComparedMetricExactly(field: string, metric: string)
    ensures Compares(field, metric) <==> EndsWith(field, "_difference") && metric == ComparedMetric(field)
  {
    if field == "remaining_days_difference" {
      assert field == "remaining_days" + "_difference";
      EndsWithExactly(field, "_difference");
    } else if EndsWith(field, "_difference") {
      assert field == field[..|field| - |"_difference"|] + "_difference";
    } else if DifferenceOf(field, metric) {
      EndsWithExactly(field, "_difference");
      assert false;
    }
  }

  lemma {:induction false} DifferenceEntry(e: EvidenceBundle, w: Wording, d: DerivedEvidence, x: Entry)
    ensures x in ConclusionEntries(e, w, d) <==>
            exists metric | DifferenceDue(e, d, metric) ::
              var claim := DifferenceClaim(e, w, d, metric);
              x == Entry(claim.text, Some(claim))
  {
    var metric := ComparedMetric(d.fieldId);
    ComparedMetricExactly(d.fieldId, metric);
    ComparedExactly(e, d.productType, metric);
    forall other | DifferenceDue(e, d, other) ensures other == metric {
      ComparedMetricExactly(d.fieldId, other);
    }
    if x in ConclusionEntries(e, w, d) {
      assert DifferenceDue(e, d, metric);
    }
  }

  /** The conclusions claim exactly the due differences. */
  lemma {:induction false} ConclusionClaims(e: EvidenceBundle, w: Wording, c: AnswerClaim)
    ensures Stated(ConclusionSection(e, w, e.derived), c) <==> ClaimsDifference(e, w, c)
  {
    var section := ConclusionSection(e, w, e.derived);
    if x :| x in section && x.Entry? && x.claim == Some(c) {
      InConclusionSection(e, w, e.derived, x);
      var d :| d in e.derived && x in ConclusionEntries(e, w, d);
      DifferenceEntry(e, w, d, x);
    }
    if d, metric :| d in e.derived && DifferenceDue(e, d, metric) && c == DifferenceClaim(e, w, d, metric) {
      var x := Entry(c.text, Some(c));
      DifferenceEntry(e, w, d, x);
      InConclusionSection(e, w, e.derived, x);
      StatedBy(section, x, c);
    }
  }
}
