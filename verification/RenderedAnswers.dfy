/** Renderer and verifier agree: the exact bundles whose rendered answer the verifier accepts. */
module RenderedAnswers {
  import opened Wrappers
  import opened Text
  import opened Sequences
  import opened Evidence
  import opened Verifier
  import opened Renderer

  // ---------- the condition, in terms of the bundle alone ----------

  /** A product with holding records also has its own identity and a coverage row in evidence. */
  predicate HoldingBacked(e: EvidenceBundle, t: ProductType, product: string) {
    (exists r | r in e.holdingRecords :: r.ownerType == t && r.ownerId == product) ==>
      && (exists d | d in e.direct :: d.productType == t && d.productId == Some(product) && d.fieldId == "product_id")
      && (exists c | c in e.holdingCoverage :: c.ownerType == t && c.ownerId == product)
  }

  /** The ranked value is also stated by the owner evidence a rank claim cites beside its summary. */
  predicate OwnerRestates(e: EvidenceBundle, t: ProductType, s: EvidenceSummary) {
    && s.grains == [] && s.partitionKey.None? && s.productId.Some?
    && ((s.metricId == Some("product_id") && exists d | d in e.direct ::
           d.productType == t && d.productId == s.productId && d.fieldId == "product_id" && d.value == s.value)
        || (s.metricId == Some("holding_constituent") && exists r | r in e.holdingRecords ::
           r.ownerType == t && r.ownerId == s.productId.value && Str(r.constituent) == s.value)
        || (s.metricId == Some("holding_coverage") && exists c | c in e.holdingCoverage ::
           c.ownerType == t && c.ownerId == s.productId.value && Str(StateText(c.state)) == s.value))
  }

  predicate SummaryShaped(kind: LineKind, e: EvidenceBundle, s: EvidenceSummary) {
    match kind
    case SourceCount =>
      s.grains == [] && s.partitionKey.None? && s.productId.None? && s.metricId.None? && s.groupValues == []
    case StateValidated => s.groupValues == []
    case StateDifference => s.groupValues == []
    case Population => s.groupValues == []
    case PartitionSize => s.productId.None? && s.metricId.None? && s.groupValues == []
    case RankLine =>
      && |s.productTypes| == 1
      && (s.groupValues == [] || OwnerRestates(e, s.productTypes[0], s))
      && (s.productId.Some? ==> HoldingBacked(e, s.productTypes[0], s.productId.value))
    case RecordedLine =>
      Numeric(s.value) || s.metricId.Some? ==> |s.productTypes| == 1 && s.groupValues == []
    case AggregateLine => |s.productTypes| == 1 && s.productId.None?
    case TieLine => true
    case Silent => true
  }

  predicate LimitationShaped(e: EvidenceBundle, w: Wording, limitation: string) {
    limitation == w.snapshot
    || (RequiresLimitationEvidence(limitation) ==> RequiredLimitationEvidence(limitation, e) != {})
  }

  predicate Shaped(question: string, plan: QueryPlan, e: EvidenceBundle, w: Wording) {
    && !RequiresLimitationEvidence(w.snapshot)
    && (forall s | s in e.summaries :: SummaryShaped(Classify(question, plan, e, s), e, s))
    && (forall l | l in e.limitations :: LimitationShaped(e, w, l))
    && (RecommendationRequest(question) ==>
          forall p | p in Products(plan, e) && p.1.Some? ::
            SourceOnly(e, p.0, p.1.value) || HoldingBacked(e, p.0, p.1.value))
  }

  /** Wording is safe when no shown claim contains a forbidden pattern. */
  predicate SafeDraft(draft: AnswerDraft, forbidden: seq<string>) {
    forall c | c in draft.claims :: SafeText(c.text, forbidden)
  }

  // ---------- drafts and their entries ----------

  ghost predicate Labelled(entry: Entry) {
    entry.Entry? && entry.claim.Some? ==> entry.claim.value.text == entry.line
  }

  lemma {:induction false} DraftLines(entries: seq<Entry>)
    requires ExtendAll(Open([], []), entries).Open?
    ensures var p := ExtendAll(Open([], []), entries);
            && |p.lines| == |entries|
            && (forall i | 0 <= i < |entries| :: entries[i].Entry? && p.lines[i] == entries[i].line)
  {
    if entries != [] {
      DraftLines(entries[..|entries| - 1]);
    }
  }

  /** Some entry carries this claim. */
  ghost predicate Stated(entries: seq<Entry>, c: AnswerClaim) {
    exists x | x in entries :: x.Entry? && x.claim == Some(c)
  }

  lemma {:induction false} StatedSnoc(init: seq<Entry>, last: Entry, entries: seq<Entry>, c: AnswerClaim)
    requires entries == init + [last]
    ensures Stated(entries, c) <==> Stated(init, c) || (last.Entry? && last.claim == Some(c))
  {
    assert last in entries && forall x | x in init :: x in entries;
  }

  /** Appending entries adds exactly their claims. */
  lemma {:induction false} GrownClaims(p: Partial, entries: seq<Entry>)
    requires ExtendAll(p, entries).Open?
    ensures p.Open? && forall x | x in entries :: x.Entry?
    ensures forall c :: c in ExtendAll(p, entries).claims <==> c in p.claims || Stated(entries, c)
  {
    if entries != [] {
      var init, last := entries[..|entries| - 1], entries[|entries| - 1];
      assert entries == init + [last];
      GrownClaims(p, init);
      forall c ensures c in ExtendAll(p, entries).claims <==> c in p.claims || Stated(entries, c) {
        StatedSnoc(init, last, entries, c);
      }
    }
  }

  lemma DraftOfEntries(entries: seq<Entry>)
    requires ExtendAll(Open([], []), entries).Open?
    ensures var p := ExtendAll(Open([], []), entries);
            && |p.lines| == |entries|
            && (forall i | 0 <= i < |entries| :: entries[i].Entry? && p.lines[i] == entries[i].line)
            && (forall c :: c in p.claims <==> exists x | x in entries :: x.claim == Some(c))
  {
    DraftLines(entries);
    GrownClaims(Open([], []), entries);
  }

  // ---------- when a draft exists ----------

  /** No exception, and the claim is within the length bounds of its model. */
  predicate EntryAdmitted(x: Entry) {
    && x.Entry?
    && (x.claim.Some? ==>
          1 <= |x.claim.value.id| <= 200 && 1 <= |x.claim.value.text| <= 2000 && |x.claim.value.evidenceIds| <= 100)
  }

  function LineOf(x: Entry): string {
    if x.Entry? then x.line else ""
  }

  predicate Claims(x: Entry) {
    x.Entry? && x.claim.Some?
  }

  /** No entry raises, every claim and the draft stay within the length bounds of their models. */
  predicate Renderable(entries: seq<Entry>) {
    && (forall x | x in entries :: EntryAdmitted(x))
    && 1 <= |Join("\n", Map(LineOf, entries))| <= 12000
    && Count(Claims, entries) <= 300
  }

  lemma {:induction false} AdmittedSnoc(init: seq<Entry>, last: Entry, entries: seq<Entry>)
    requires entries == init + [last]
    ensures (forall x | x in entries :: EntryAdmitted(x)) <==> (forall x | x in init :: EntryAdmitted(x)) && EntryAdmitted(last)
  {
    assert last in entries && forall x | x in init :: x in entries;
  }

  lemma {:induction false} ExtendedEntries(entries: seq<Entry>)
    ensures var p := ExtendAll(Open([], []), entries);
      && (p.Open? <==> forall x | x in entries :: EntryAdmitted(x))
      && (p.Open? ==> p.lines == Map(LineOf, entries) && |p.claims| == Count(Claims, entries))
  {
    if entries != [] {
      var init, last := entries[..|entries| - 1], entries[|entries| - 1];
      ExtendedEntries(init);
      AdmittedSnoc(init, last, entries);
      LinesSnoc(init, last, entries);
      ExtendSnoc(ExtendAll(Open([], []), init), last);
    }
  }

  lemma {:induction false} LinesSnoc(init: seq<Entry>, last: Entry, entries: seq<Entry>)
    requires entries == init + [last]
    ensures Map(LineOf, entries) == Map(LineOf, init) + [LineOf(last)]
    ensures Count(Claims, entries) == Count(Claims, init) + Bit(Claims(last))
  {
    CountConcat(Claims, init, [last]);
  }

  lemma {:induction false} ExtendSnoc(p: Partial, last: Entry)
    ensures var q := Extend(p, last);
      && (q.Open? <==> p.Open? && EntryAdmitted(last))
      && (q.Open? ==> q.lines == p.lines + [LineOf(last)] && |q.claims| == |p.claims| + Bit(Claims(last)))
  {
  }

  /** A draft exists exactly when its entries are renderable. */
  lemma {:induction false} RenderedExactly(question: string, plan: QueryPlan, e: EvidenceBundle, w: Wording)
    ensures Rendered(question, plan, e, w).Some? <==> Renderable(Entries(question, plan, e, w))
  {
    FinishedExactly(Entries(question, plan, e, w));
  }

  lemma {:induction false} FinishedExactly(entries: seq<Entry>)
    ensures Finish(ExtendAll(Open([], []), entries)).Some? <==> Renderable(entries)
  {
    ExtendedEntries(entries);
  }

  lemma {:induction false} SummarySnoc(
    question: string, plan: QueryPlan, e: EvidenceBundle, w: Wording, summaries: seq<EvidenceSummary>, x: Entry)
    requires summaries != []
    ensures var init, s := summaries[..|summaries| - 1], summaries[|summaries| - 1];
      x in SummarySection(question, plan, e, w, summaries) <==>
        x in SummarySection(question, plan, e, w, init) || x in SummaryEntries(Classify(question, plan, e, s), e, w, s)
  {
  }

  /** The entry is one of this summary. */
  predicate OfSummary(question: string, plan: QueryPlan, e: EvidenceBundle, w: Wording, s: EvidenceSummary, x: Entry) {
    x in SummaryEntries(Classify(question, plan, e, s), e, w, s)
  }

  lemma {:induction false} InSummarySection(
    question: string, plan: QueryPlan, e: EvidenceBundle, w: Wording, summaries: seq<EvidenceSummary>, x: Entry)
    ensures x in SummarySection(question, plan, e, w, summaries) <==>
            exists s | s in summaries :: OfSummary(question, plan, e, w, s, x)
  {
    if summaries != [] {
      var init, last := summaries[..|summaries| - 1], summaries[|summaries| - 1];
      InSummarySection(question, plan, e, w, init, x);
      SummarySnoc(question, plan, e, w, summaries, x);
      InSnoc(init, last, summaries);
      if s :| s in init && OfSummary(question, plan, e, w, s, x) { assert s in summaries; }
      if OfSummary(question, plan, e, w, last, x) { assert last in summaries; }
    }
  }

  lemma {:induction false} InSnoc<T>(init: seq<T>, last: T, all: seq<T>)
    requires |all| > 0 && init == all[..|all| - 1] && last == all[|all| - 1]
    ensures forall x :: x in all <==> x in init || x == last
  {
    assert all == init + [last];
  }

  lemma {:induction false} InLimitationSection(e: EvidenceBundle, w: Wording, limitations: seq<string>, x: Entry)
    ensures x in LimitationSection(e, w, limitations) <==>
            exists i | 0 <= i < |limitations| :: x in LimitationEntries(e, w, i, limitations[i])
  {
    if limitations != [] {
      var last := |limitations| - 1;
      var init := limitations[..last];
      InLimitationSection(e, w, init, x);
      if i :| 0 <= i < |init| && x in LimitationEntries(e, w, i, init[i]) {
        assert x in LimitationEntries(e, w, i, limitations[i]);
      }
      if i :| 0 <= i < |limitations| && x in LimitationEntries(e, w, i, limitations[i]) {
        assert i == last || x in LimitationEntries(e, w, i, init[i]);
      }
    }
  }

  lemma {:induction false} InConclusionSection(e: EvidenceBundle, w: Wording, derived: seq<DerivedEvidence>, x: Entry)
    ensures x in ConclusionSection(e, w, derived) <==> exists d | d in derived :: x in ConclusionEntries(e, w, d)
  {
    if derived != [] {
      var init, last := derived[..|derived| - 1], derived[|derived| - 1];
      InConclusionSection(e, w, init, x);
      InSnoc(init, last, derived);
      if d :| d in init && x in ConclusionEntries(e, w, d) { assert d in derived; }
      if x in ConclusionEntries(e, w, last) { assert last in derived; }
    }
  }

  /** The entry is one of this product. */
  predicate OfProductEntries(
    question: string, plan: QueryPlan, e: EvidenceBundle, w: Wording, p: (ProductType, Option<string>), x: Entry)
  {
    p.1.Some? && x in ProductEntries(question, plan, e, w, p.0, p.1.value)
  }

  lemma {:induction false} ProductSnoc(
    question: string, plan: QueryPlan, e: EvidenceBundle, w: Wording,
    products: seq<(ProductType, Option<string>)>, x: Entry)
    requires products != []
    ensures var init, p := products[..|products| - 1], products[|products| - 1];
      x in ProductSection(question, plan, e, w, products) <==>
        x in ProductSection(question, plan, e, w, init) || OfProductEntries(question, plan, e, w, p, x)
  {
  }

  lemma {:induction false} InProductSection(
    question: string, plan: QueryPlan, e: EvidenceBundle, w: Wording,
    products: seq<(ProductType, Option<string>)>, x: Entry)
    ensures x in ProductSection(question, plan, e, w, products) <==>
            exists p | p in products :: OfProductEntries(question, plan, e, w, p, x)
  {
    if products != [] {
      var init, last := products[..|products| - 1], products[|products| - 1];
      InProductSection(question, plan, e, w, init, x);
      ProductSnoc(question, plan, e, w, products, x);
      InSnoc(init, last, products);
      if p :| p in init && OfProductEntries(question, plan, e, w, p, x) { assert p in products; }
      if OfProductEntries(question, plan, e, w, last, x) { assert last in products; }
    }
  }

  // ---------- one lemma per kind of claim ----------

  /** A claim that cites one summary, direct or derived item names exactly that item. */
  lemma {:induction false} SingleCitation(e: EvidenceBundle, item: Item, claim: AnswerClaim)
    requires ValidBundle(e) && item in Items(e) && claim.evidenceIds == [item.id]
    ensures MatchesValueClaim(claim, ValuesOf(Items(e))) <==>
            MatchesItem(claim, item) && SignHolds(claim.sign, claim.value)
  {
    CitedValue(e, item);
    OnlyCitation(ValuesOf(Items(e)), item, claim);
  }

  lemma {:induction false} OnlyCitation(values: map<string, Item>, item: Item, claim: AnswerClaim)
    requires item.id in values && values[item.id] == item && claim.evidenceIds == [item.id]
    ensures MatchesValueClaim(claim, values) <==> MatchesItem(claim, item) && SignHolds(claim.sign, claim.value)
  {
    assert item.id in claim.evidenceIds;
  }

  lemma {:induction false} NotRankCitation(e: EvidenceBundle, s: EvidenceSummary, claim: AnswerClaim)
    requires ValidBundle(e) && s in e.summaries && s.kind != RankSummary && claim.evidenceIds == [s.id]
    ensures !CitesRank(claim, e)
  {
    forall r | r in e.summaries && r.id in claim.evidenceIds ensures r.kind != RankSummary {
      SameSummary(e, r, s);
    }
  }

  lemma {:induction false} SameSummary(e: EvidenceBundle, r: EvidenceSummary, s: EvidenceSummary)
    requires ValidBundle(e) && r in e.summaries && s in e.summaries && r.id == s.id
    ensures r == s
  {
    var a :| 0 <= a < |e.summaries| && e.summaries[a] == r;
    var b :| 0 <= b < |e.summaries| && e.summaries[b] == s;
    var offset := |e.direct| + |e.derived|;
    assert Items(e)[offset + a] == SummaryItem(r);
    assert Items(e)[offset + b] == SummaryItem(s);
  }

  lemma {:induction false} RankKind(question: string, plan: QueryPlan, e: EvidenceBundle, s: EvidenceSummary)
    ensures Classify(question, plan, e, s) == RankLine ==> s.kind == RankSummary
    ensures s.kind == RankSummary ==> Classify(question, plan, e, s) in {RankLine, Silent}
  {
  }

  /** Every summary sentence but a rank is accepted exactly when the summary has its kind's shape. */
  lemma {:induction false} SummaryClaimFits(
    kind: LineKind, e: EvidenceBundle, w: Wording, s: EvidenceSummary, line: string, claim: AnswerClaim)
    requires ValidBundle(e) && s in e.summaries
    requires kind != RankLine && s.kind != RankSummary
    requires SummaryEntries(kind, e, w, s) == [Entry(line, Some(claim))]
    ensures ClaimFits(claim, e) <==> SummaryShaped(kind, e, s)
  {
    assert SummaryItem(s) in Items(e) by { ItemsMembership(e); }
    SummaryMatch(kind, e, w, s, line, claim);
    NotRankCitation(e, s, claim);
    OneCitationFits(e, SummaryItem(s), claim);
  }

  lemma {:induction false} SummaryMatch(
    kind: LineKind, e: EvidenceBundle, w: Wording, s: EvidenceSummary, line: string, claim: AnswerClaim)
    requires kind != RankLine
    requires SummaryEntries(kind, e, w, s) == [Entry(line, Some(claim))]
    ensures claim.evidenceIds == [s.id] && (claim.kind == NumericClaim || claim.kind == TextClaim)
    ensures claim.sign == Sign(claim.value) || claim.sign.None?
    ensures MatchesItem(claim, SummaryItem(s)) || (claim.kind == TextClaim && claim.fieldId.None?)
            <==> SummaryShaped(kind, e, s)
  {
    match kind
    case SourceCount =>
    case StateValidated =>
    case StateDifference =>
    case Population =>
    case PartitionSize =>
    case RankLine =>
    case RecordedLine =>
    case AggregateLine =>
    case TieLine =>
    case Silent =>
  }

  /** For a numeric or textual claim with one citation that is no rank, only the value match matters. */
  lemma {:induction false} OneCitationFits(e: EvidenceBundle, item: Item, claim: AnswerClaim)
    requires ValidBundle(e) && item in Items(e) && claim.evidenceIds == [item.id]
    requires claim.kind == NumericClaim || claim.kind == TextClaim
    requires claim.sign == Sign(claim.value) || claim.sign.None?
    requires !CitesRank(claim, e)
    ensures ClaimFits(claim, e) <==>
            MatchesItem(claim, item) || (claim.kind == TextClaim && claim.fieldId.None?)
  {
    CitedValue(e, item);
    SingleCitation(e, item, claim);
    FitsByValue(e, claim);
    SignAgrees(claim);
  }

  lemma {:induction false} SignAgrees(claim: AnswerClaim)
    requires claim.sign == Sign(claim.value) || claim.sign.None?
    ensures SignHolds(claim.sign, claim.value)
  {
  }

  lemma {:induction false} FitsByValue(e: EvidenceBundle, claim: AnswerClaim)
    requires claim.kind == NumericClaim || claim.kind == TextClaim
    requires claim.evidenceIds != [] && !CitesRank(claim, e)
    requires forall id | id in claim.evidenceIds :: id in ValuesOf(Items(e))
    ensures ClaimFits(claim, e) <==>
            (claim.kind == NumericClaim || claim.fieldId.Some? ==> MatchesValueClaim(claim, ValuesOf(Items(e))))
  {
  }

  lemma {:induction false} OwnerIds(e: EvidenceBundle, t: ProductType, product: string)
    ensures forall id :: id in HoldingOwnerEvidenceIds(e, t, Some(product)) <==>
              || id in IdentityIds(e.direct, t, product)
              || id in RecordIds(e.holdingRecords, t, product)
              || id in CoverageIds(e.holdingCoverage, t, product)
  {
    var direct := Select((d: DirectEvidence) =>
      d.productType == t && d.productId == Some(product) && d.fieldId == "product_id", e.direct);
    var records := Select((r: HoldingRecordRef) => r.ownerType == t && r.ownerId == product, e.holdingRecords);
    var coverage := Select((c: HoldingCoverageRef) => c.ownerType == t && c.ownerId == product, e.holdingCoverage);
    InMapExactly((d: DirectEvidence) => d.id, direct);
    InMapExactly((r: HoldingRecordRef) => r.id, records);
    InMapExactly((c: HoldingCoverageRef) => c.id, coverage);
  }

  /** Owner evidence is always citable, and each identifier means one of the owner's items. */
  lemma {:induction false} OwnerCitation(e: EvidenceBundle, t: ProductType, product: string, id: string)
    requires ValidBundle(e) && id in HoldingOwnerEvidenceIds(e, t, Some(product))
    ensures id in ValuesOf(Items(e))
    ensures var item := ValuesOf(Items(e))[id];
            && item.productTypes == [t] && item.grains == [] && item.partitionKey.None?
            && item.productId == Some(product) && item.groupValues == []
            && ((exists d | d in e.direct :: d.productType == t && d.productId == Some(product)
                   && d.fieldId == "product_id" && item == DirectItem(d))
                || (exists r | r in e.holdingRecords :: r.ownerType == t && r.ownerId == product && item == RecordItem(r))
                || (exists c | c in e.holdingCoverage :: c.ownerType == t && c.ownerId == product
                      && item == CoverageItem(c)))
  {
    OwnerIds(e, t, product);
    ItemsMembership(e);
    if id in IdentityIds(e.direct, t, product) {
      var d :| d in e.direct && d.productType == t && d.productId == Some(product) && d.fieldId == "product_id"
               && d.id == id;
      CitedValue(e, DirectItem(d));
    } else if id in RecordIds(e.holdingRecords, t, product) {
      var r :| r in e.holdingRecords && r.ownerType == t && r.ownerId == product && r.id == id;
      CitedValue(e, RecordItem(r));
    } else {
      var c :| c in e.holdingCoverage && c.ownerType == t && c.ownerId == product && c.id == id;
      CitedValue(e, CoverageItem(c));
    }
  }

  lemma {:induction false} OwnerSetsNonempty(e: EvidenceBundle, t: ProductType, product: string)
    ensures RecordIds(e.holdingRecords, t, product) != {} <==>
            exists r | r in e.holdingRecords :: r.ownerType == t && r.ownerId == product
    ensures CoverageIds(e.holdingCoverage, t, product) != {} <==>
            exists c | c in e.holdingCoverage :: c.ownerType == t && c.ownerId == product
    ensures IdentityIds(e.direct, t, product) != {} <==>
            exists d | d in e.direct :: d.productType == t && d.productId == Some(product) && d.fieldId == "product_id"
  {
    if r :| r in e.holdingRecords && r.ownerType == t && r.ownerId == product {
      assert r.id in RecordIds(e.holdingRecords, t, product);
    }
    if c :| c in e.holdingCoverage && c.ownerType == t && c.ownerId == product {
      assert c.id in CoverageIds(e.holdingCoverage, t, product);
    }
    if d :| d in e.direct && d.productType == t && d.productId == Some(product) && d.fieldId == "product_id" {
      assert d.id in IdentityIds(e.direct, t, product);
    }
  }

  /** Citing all owner evidence satisfies the holding check exactly when the owner is backed. */
  lemma {:induction false} HoldingCheck(e: EvidenceBundle, t: ProductType, product: string, claim: AnswerClaim)
    requires claim.productType == Some(t) && claim.productId == Some(product)
    requires forall id | id in HoldingOwnerEvidenceIds(e, t, Some(product)) :: id in claim.evidenceIds
    ensures HoldingEvidenceComplete(claim, e) <==> HoldingBacked(e, t, product)
  {
    OwnerSetsNonempty(e, t, product);
    var identity := IdentityIds(e.direct, t, product);
    var records := RecordIds(e.holdingRecords, t, product);
    var coverage := CoverageIds(e.holdingCoverage, t, product);
    assert forall id | id in identity + records + coverage :: id in claim.evidenceIds by { OwnerIds(e, t, product); }
    assert HoldingEvidenceComplete(claim, e) <==> (records != {} ==> identity != {} && coverage != {});
  }

  /** A rank claim carries its summary's own fields, typed by the first product type. */
  ghost predicate RankClaimOf(claim: AnswerClaim, s: EvidenceSummary, t: ProductType) {
    claim == AnswerClaim(claim.id, NumericClaim, claim.text, Some(t), s.productTypes, s.grains, s.partitionKey,
                         s.productId, s.metricId, s.value, [], claim.evidenceIds, Sign(s.value))
  }

  lemma {:induction false} RankOwnMatch(claim: AnswerClaim, s: EvidenceSummary, t: ProductType)
    requires s.productTypes != [] && t == s.productTypes[0] && RankClaimOf(claim, s, t)
    ensures MatchesItem(claim, SummaryItem(s)) <==> |s.productTypes| == 1 && s.groupValues == []
    ensures SignHolds(claim.sign, claim.value)
  {
    assert s.productTypes == [t] <==> |s.productTypes| == 1;
  }

  lemma {:induction false} RankCitations(e: EvidenceBundle, s: EvidenceSummary, t: ProductType, id: string)
    requires ValidBundle(e) && s in e.summaries
    requires id in [s.id] + HoldingOwnerEvidenceIds(e, t, s.productId)
    ensures id in ValuesOf(Items(e))
    ensures id == s.id ==> ValuesOf(Items(e))[id] == SummaryItem(s)
  {
    ItemsMembership(e);
    CitedValue(e, SummaryItem(s));
    if id != s.id { OwnerCitation(e, t, s.productId.value, id); }
  }

  /** The value check of a rank sentence: its own summary, or owner evidence stating the same value. */
  lemma {:induction false} RankValueCheck(e: EvidenceBundle, s: EvidenceSummary, claim: AnswerClaim, t: ProductType)
    requires ValidBundle(e) && s in e.summaries && s.productTypes != [] && t == s.productTypes[0]
    requires claim.evidenceIds == [s.id] + HoldingOwnerEvidenceIds(e, t, s.productId)
    requires RankClaimOf(claim, s, t)
    ensures forall id | id in claim.evidenceIds :: id in ValuesOf(Items(e))
    ensures MatchesValueClaim(claim, ValuesOf(Items(e))) <==>
            |s.productTypes| == 1 && (s.groupValues == [] || OwnerRestates(e, t, s))
  {
    var values := ValuesOf(Items(e));
    RankOwnMatch(claim, s, t);
    assert s.id in claim.evidenceIds;
    forall id | id in claim.evidenceIds
      ensures id in values && (id == s.id ==> values[id] == SummaryItem(s))
    {
      RankCitations(e, s, t, id);
    }
    if id :| id in claim.evidenceIds && MatchesItem(claim, values[id]) {
      if id != s.id { MatchingOwnerItem(e, s, t, claim, id); }
    }
    if |s.productTypes| == 1 && s.groupValues != [] && OwnerRestates(e, t, s) {
      var id := RestatingMatches(e, s, claim, t);
    }
  }

  lemma {:induction false} RestatingMatches(e: EvidenceBundle, s: EvidenceSummary, claim: AnswerClaim, t: ProductType)
    returns (id: string)
    requires ValidBundle(e) && |s.productTypes| == 1 && t == s.productTypes[0] && OwnerRestates(e, t, s)
    requires claim.evidenceIds == [s.id] + HoldingOwnerEvidenceIds(e, t, s.productId)
    requires RankClaimOf(claim, s, t)
    ensures id in claim.evidenceIds && id in ValuesOf(Items(e)) && MatchesItem(claim, ValuesOf(Items(e))[id])
  {
    id := RestatingOwnerItem(e, t, s);
    assert s.productTypes == [t];
  }

  lemma {:induction false} MatchingOwnerItem(
    e: EvidenceBundle, s: EvidenceSummary, t: ProductType, claim: AnswerClaim, id: string)
    requires ValidBundle(e) && s.productId.Some? && s.productTypes != []
    requires id in HoldingOwnerEvidenceIds(e, t, s.productId)
    requires RankClaimOf(claim, s, t)
    requires id in ValuesOf(Items(e)) && MatchesItem(claim, ValuesOf(Items(e))[id])
    ensures |s.productTypes| == 1 && OwnerRestates(e, t, s)
  {
    OwnerCitation(e, t, s.productId.value, id);
  }

  lemma {:induction false} RestatingOwnerItem(e: EvidenceBundle, t: ProductType, s: EvidenceSummary) returns (id: string)
    requires ValidBundle(e) && OwnerRestates(e, t, s)
    ensures id in HoldingOwnerEvidenceIds(e, t, s.productId) && id in ValuesOf(Items(e))
    ensures var item := ValuesOf(Items(e))[id];
            && item.productTypes == [t] && item.grains == [] && item.partitionKey.None? && item.groupValues == []
            && item.productId == s.productId && item.fieldId == s.metricId && item.value == s.value
  {
    OwnerIds(e, t, s.productId.value);
    ItemsMembership(e);
    if d :| d in e.direct && d.productType == t && d.productId == s.productId && d.fieldId == "product_id"
            && d.value == s.value && s.metricId == Some("product_id") {
      CitedValue(e, DirectItem(d));
      id := d.id;
    } else if r :| r in e.holdingRecords && r.ownerType == t && r.ownerId == s.productId.value
                   && Str(r.constituent) == s.value && s.metricId == Some("holding_constituent") {
      CitedValue(e, RecordItem(r));
      id := r.id;
    } else {
      var c :| c in e.holdingCoverage && c.ownerType == t && c.ownerId == s.productId.value
               && Str(StateText(c.state)) == s.value && s.metricId == Some("holding_coverage");
      CitedValue(e, CoverageItem(c));
      id := c.id;
    }
  }

  lemma {:induction false} RankClaimFits(e: EvidenceBundle, w: Wording, s: EvidenceSummary, line: string, claim: AnswerClaim)
    requires ValidBundle(e) && s in e.summaries && s.kind == RankSummary
    requires SummaryEntries(RankLine, e, w, s) == [Entry(line, Some(claim))]
    ensures ClaimFits(claim, e) <==> SummaryShaped(RankLine, e, s)
  {
    var t := s.productTypes[0];
    RankValueCheck(e, s, claim, t);
    assert CitesRank(claim, e) by { assert s.id in claim.evidenceIds; }
    if s.productId.Some? {
      HoldingCheck(e, t, s.productId.value, claim);
    }
  }

  /** Both components name the same evidence for a limitation. */
  lemma {:induction false} LimitationCitation(e: EvidenceBundle, limitation: string)
    ensures forall id :: id in LimitationEvidenceIds(limitation, e) <==> id in RequiredLimitationEvidence(limitation, e)
    ensures ValidBundle(e) ==> forall id | id in LimitationEvidenceIds(limitation, e) :: id in ValuesOf(Items(e))
  {
    if StartsWith(limitation, OVERSEAS_RETURN) {
      InMapExactly((s: EvidenceSummary) => s.id,
        Select((s: EvidenceSummary) => s.partitionKey == Some("limitation:overseas-return-1y"), e.summaries));
    } else if Contains(limitation, TOP_TEN) {
      InMapExactly((c: HoldingCoverageRef) => c.id,
        Select((c: HoldingCoverageRef) => StateText(c.state) == "partial_top_10", e.holdingCoverage));
    } else if Contains(limitation, CONSTITUENTS) {
      var state := if Contains(limitation, NOT_PROVIDED) then Some("unavailable")
                   else if Contains(limitation, PARTIAL_RANGE) then Some("partial_top_10")
                   else None;
      var backing := Select((s: EvidenceSummary) =>
        && s.kind == CoverageSummary && s.productTypes != []
        && StartsWith(limitation, TypeText(s.productTypes[0]))
        && (state.None? || (s.partitionKey.Some? && EndsWith(s.partitionKey.value, ":" + state.value))), e.summaries);
      InMapExactly((s: EvidenceSummary) => s.id, backing);
      forall s | s in e.summaries ensures s in backing <==> CoverageSummaryBacks(limitation, s) {}
    }
    ItemsMembership(e);
  }

  lemma {:induction false} LimitationClaimFits(e: EvidenceBundle, w: Wording, index: nat, limitation: string)
    requires ValidBundle(e) && limitation != w.snapshot
    ensures ClaimFits(LimitationEntries(e, w, index, limitation)[0].claim.value, e) <==> LimitationShaped(e, w, limitation)
  {
    LimitationCitation(e, limitation);
  }

  /** Values and comparison conclusions always match the one item they cite. */
  lemma {:induction false} ItemClaimFits(e: EvidenceBundle, item: Item, claim: AnswerClaim, t: ProductType)
    requires ValidBundle(e) && item in Items(e)
    requires item == Item(item.id, [t], [], None, claim.productId, claim.fieldId, claim.value, [])
    requires forall s | s in e.summaries :: s.id != item.id
    requires claim.kind == NumericClaim || claim.kind == TextClaim
    requires claim.productType == Some(t) && claim.productTypes == [] && claim.grains == []
    requires claim.partitionKey.None? && claim.groupValues == [] && claim.evidenceIds == [item.id]
    requires claim.sign == Sign(claim.value)
    ensures ClaimFits(claim, e)
  {
    CitedValue(e, item);
    SingleCitation(e, item, claim);
    assert MatchesItem(claim, item);
  }

  lemma {:induction false} NotASummary(e: EvidenceBundle, k: nat)
    requires ValidBundle(e) && k < |e.direct| + |e.derived|
    ensures forall s | s in e.summaries :: s.id != Items(e)[k].id
  {
    forall s | s in e.summaries ensures s.id != Items(e)[k].id {
      var b :| 0 <= b < |e.summaries| && e.summaries[b] == s;
      assert Items(e)[|e.direct| + |e.derived| + b] == SummaryItem(s);
    }
  }

  lemma {:induction false} DirectClaimFits(e: EvidenceBundle, w: Wording, d: DirectEvidence, product: string)
    requires ValidBundle(e) && d in e.direct && d.productId == Some(product) && !d.value.Structured?
    ensures ClaimFits(ValueEntry(w, d.productType, product, d.fieldId, d.id, d.value).claim.value, e)
  {
    var k :| 0 <= k < |e.direct| && e.direct[k] == d;
    assert Items(e)[k] == DirectItem(d);
    NotASummary(e, k);
    ItemClaimFits(e, DirectItem(d), ValueEntry(w, d.productType, product, d.fieldId, d.id, d.value).claim.value,
                  d.productType);
  }

  lemma {:induction false} DerivedClaimFits(e: EvidenceBundle, d: DerivedEvidence, claim: AnswerClaim)
    requires ValidBundle(e) && d in e.derived
    requires claim.kind == NumericClaim || claim.kind == TextClaim
    requires claim == AnswerClaim(claim.id, claim.kind, claim.text, Some(d.productType), [], [], None, d.productId,
                                  Some(d.fieldId), d.value, [], [d.id], Sign(d.value))
    ensures ClaimFits(claim, e)
  {
    var k :| 0 <= k < |e.derived| && e.derived[k] == d;
    assert Items(e)[|e.direct| + k] == DerivedItem(d);
    NotASummary(e, |e.direct| + k);
    ItemClaimFits(e, DerivedItem(d), claim, d.productType);
  }

  lemma {:induction false} CandidateCitation(
    e: EvidenceBundle, w: Wording, t: ProductType, product: string, id: string)
    requires ValidBundle(e) && id in CandidateEntry(e, w, t, product).claim.value.evidenceIds
    ensures id in ValuesOf(Items(e))
    ensures ValuesOf(Items(e))[id].productTypes == [t] && ValuesOf(Items(e))[id].productId == Some(product)
  {
    ItemsMembership(e);
    if id in DirectIds(OfProduct(e.direct, t, product)) {
      InMapExactly((d: DirectEvidence) => d.id, OfProduct(e.direct, t, product));
      var d :| d in OfProduct(e.direct, t, product) && d.id == id;
      CitedValue(e, DirectItem(d));
    } else if id in DerivedIds(DerivedOfProduct(e.derived, t, product)) {
      InMapExactly((d: DerivedEvidence) => d.id, DerivedOfProduct(e.derived, t, product));
      var d :| d in DerivedOfProduct(e.derived, t, product) && d.id == id;
      CitedValue(e, DerivedItem(d));
    } else {
      OwnerCitation(e, t, product, id);
    }
  }

  lemma {:induction false} ListedProductHasEvidence(plan: QueryPlan, e: EvidenceBundle, t: ProductType, product: string)
    requires (t, Some(product)) in Products(plan, e)
    ensures OfProduct(e.direct, t, product) != [] || DerivedOfProduct(e.derived, t, product) != []
  {
    assert (t, Some(product)) in Owners(e);
    InMapExactly((d: DirectEvidence) => (d.productType, d.productId), e.direct);
    InMapExactly((d: DerivedEvidence) => (d.productType, d.productId), e.derived);
    if d :| d in e.direct && (d.productType, d.productId) == (t, Some(product)) {
      assert d in OfProduct(e.direct, t, product);
    } else {
      var d :| d in e.derived && (d.productType, d.productId) == (t, Some(product));
      assert d in DerivedOfProduct(e.derived, t, product);
    }
  }

  /** A candidate cites only its own product's evidence; only the holding check can fail. */
  lemma {:induction false} CandidateClaimFits(
    plan: QueryPlan, e: EvidenceBundle, w: Wording, t: ProductType, product: string)
    requires ValidBundle(e) && (t, Some(product)) in Products(plan, e)
    ensures ClaimFits(CandidateEntry(e, w, t, product).claim.value, e) <==> HoldingBacked(e, t, product)
  {
    var claim := CandidateEntry(e, w, t, product).claim.value;
    var cited := DirectIds(OfProduct(e.direct, t, product)) + DerivedIds(DerivedOfProduct(e.derived, t, product))
                 + HoldingOwnerEvidenceIds(e, t, Some(product));
    ListedProductHasEvidence(plan, e, t, product);
    assert cited[0] in claim.evidenceIds;
    CandidateMatches(e, w, t, product);
    HoldingCheck(e, t, product, claim);
    FitsByHoldings(e, claim);
  }

  lemma {:induction false} CandidateMatches(e: EvidenceBundle, w: Wording, t: ProductType, product: string)
    requires ValidBundle(e) && CandidateEntry(e, w, t, product).claim.value.evidenceIds != []
    ensures MatchesCandidateClaim(CandidateEntry(e, w, t, product).claim.value, ValuesOf(Items(e)))
  {
    var claim := CandidateEntry(e, w, t, product).claim.value;
    forall id | id in claim.evidenceIds
      ensures id in ValuesOf(Items(e)) && ValuesOf(Items(e))[id].productTypes == [t]
              && ValuesOf(Items(e))[id].productId == Some(product)
    {
      CandidateCitation(e, w, t, product, id);
    }
  }

  /** A candidate claim without a field fits when its evidence is the product's and the holding check holds. */
  lemma {:induction false} FitsByHoldings(e: EvidenceBundle, claim: AnswerClaim)
    requires claim.kind == CandidateClaim && claim.fieldId.None? && MatchesCandidateClaim(claim, ValuesOf(Items(e)))
    ensures ClaimFits(claim, e) <==> HoldingEvidenceComplete(claim, e)
  {
  }

  // ---------- every section ----------

  /** What the theorem needs of one entry: a claim carries its own line, and it fits exactly under `fits`. */
  ghost predicate EntryFits(entry: Entry, e: EvidenceBundle, fits: bool) {
    && Labelled(entry)
    && (entry.Entry? && entry.claim.Some? ==> (ClaimFits(entry.claim.value, e) <==> fits))
  }

  lemma {:induction false} SummaryEntryFits(
    question: string, plan: QueryPlan, e: EvidenceBundle, w: Wording, s: EvidenceSummary)
    requires ValidBundle(e) && s in e.summaries
    ensures var kind := Classify(question, plan, e, s);
            forall x | x in SummaryEntries(kind, e, w, s) :: EntryFits(x, e, SummaryShaped(kind, e, s))
  {
    var kind := Classify(question, plan, e, s);
    var shown := SummaryEntries(kind, e, w, s);
    RankKind(question, plan, e, s);
    if shown != [] && shown[0].Entry? {
      assert shown == [Entry(shown[0].line, Some(shown[0].claim.value))];
      if kind == RankLine {
        RankClaimFits(e, w, s, shown[0].line, shown[0].claim.value);
      } else {
        SummaryClaimFits(kind, e, w, s, shown[0].line, shown[0].claim.value);
      }
    }
  }

  lemma {:induction false} ConclusionEntryFits(e: EvidenceBundle, w: Wording, x: Entry)
    requires ValidBundle(e) && x in ConclusionSection(e, w, e.derived)
    ensures EntryFits(x, e, true)
  {
    InConclusionSection(e, w, e.derived, x);
    var d :| d in e.derived && x in ConclusionEntries(e, w, d);
    DerivedClaimFits(e, d, x.claim.value);
  }

  lemma {:induction false} DirectEntriesFit(
    plan: QueryPlan, e: EvidenceBundle, w: Wording, t: ProductType, product: string, x: Entry)
    requires ValidBundle(e) && x in DirectEntries(plan, e, w, t, product)
    ensures EntryFits(x, e, true)
  {
    var shown := Select((d: DirectEvidence) => ShowsDirect(plan, e, t, product, d), OfProduct(e.direct, t, product));
    var entry := (d: DirectEvidence) => ValueEntry(w, t, product, d.fieldId, d.id, d.value);
    InMapExactly(entry, shown);
    var d :| d in shown && entry(d) == x;
    if x.Entry? { DirectClaimFits(e, w, d, product); }
  }

  lemma {:induction false} DerivedEntriesFit(e: EvidenceBundle, w: Wording, t: ProductType, product: string, x: Entry)
    requires ValidBundle(e) && x in DerivedEntries(e, w, t, product)
    ensures EntryFits(x, e, true)
  {
    var shown := Select((d: DerivedEvidence) => ShowsDerived(e, t, product, d), DerivedOfProduct(e.derived, t, product));
    var entry := (d: DerivedEvidence) => ValueEntry(w, t, product, d.fieldId, d.id, d.value);
    InMapExactly(entry, shown);
    var d :| d in shown && entry(d) == x;
    if x.Entry? { DerivedClaimFits(e, d, x.claim.value); }
  }

  lemma {:induction false} NoResultEntryFits(e: EvidenceBundle, w: Wording, x: Entry)
    requires ValidBundle(e) && x in NoResultSection(e, w)
    ensures EntryFits(x, e, true)
  {
    if x.claim.Some? {
      var s := if ZeroResultSummary(e).Some? then ZeroResultSummary(e).value else EmptyCount(e).value;
      assert SummaryItem(s) in Items(e) by { ItemsMembership(e); }
      NotRankCitation(e, s, x.claim.value);
      OneCitationFits(e, SummaryItem(s), x.claim.value);
    }
  }

  lemma {:induction false} OpeningEntryFits(question: string, e: EvidenceBundle, w: Wording, x: Entry)
    requires x in Opening(question, w)
    ensures EntryFits(x, e, !RequiresLimitationEvidence(w.snapshot))
  {
  }

  ghost predicate SummariesShaped(question: string, plan: QueryPlan, e: EvidenceBundle) {
    forall s | s in e.summaries :: SummaryShaped(Classify(question, plan, e, s), e, s)
  }

  ghost predicate CandidatesBacked(question: string, plan: QueryPlan, e: EvidenceBundle) {
    RecommendationRequest(question) ==>
      forall p | p in Products(plan, e) && p.1.Some? ::
        SourceOnly(e, p.0, p.1.value) || HoldingBacked(e, p.0, p.1.value)
  }

  ghost predicate AllFit(entries: seq<Entry>, e: EvidenceBundle) {
    forall x | x in entries :: x.Entry? && (x.claim.Some? ==> ClaimFits(x.claim.value, e))
  }

  lemma {:induction false} SummarySectionFits(
    question: string, plan: QueryPlan, e: EvidenceBundle, w: Wording, x: Entry)
    requires ValidBundle(e) && x in SummarySection(question, plan, e, w, e.summaries)
    ensures Labelled(x)
    ensures SummariesShaped(question, plan, e) ==> EntryFits(x, e, true)
  {
    InSummarySection(question, plan, e, w, e.summaries, x);
    var s :| s in e.summaries && x in SummaryEntries(Classify(question, plan, e, s), e, w, s);
    SummaryEntryFits(question, plan, e, w, s);
  }

  lemma {:induction false} LimitationSectionFits(e: EvidenceBundle, w: Wording, x: Entry)
    requires ValidBundle(e) && x in LimitationSection(e, w, e.limitations)
    ensures Labelled(x)
    ensures (forall l | l in e.limitations :: LimitationShaped(e, w, l)) ==> EntryFits(x, e, true)
  {
    InLimitationSection(e, w, e.limitations, x);
    var i :| 0 <= i < |e.limitations| && x in LimitationEntries(e, w, i, e.limitations[i]);
    LimitationClaimFits(e, w, i, e.limitations[i]);
  }

  lemma {:induction false} ProductEntryFits(
    question: string, plan: QueryPlan, e: EvidenceBundle, w: Wording, t: ProductType, product: string, x: Entry)
    requires ValidBundle(e) && (t, Some(product)) in Products(plan, e)
    requires x in ProductEntries(question, plan, e, w, t, product)
    ensures Labelled(x)
    ensures !RecommendationRequest(question) || HoldingBacked(e, t, product) ==> EntryFits(x, e, true)
    ensures !SourceOnly(e, t, product)
  {
    if x in DirectEntries(plan, e, w, t, product) {
      DirectEntriesFit(plan, e, w, t, product, x);
    } else if x in DerivedEntries(e, w, t, product) {
      DerivedEntriesFit(e, w, t, product, x);
    } else {
      assert x == CandidateEntry(e, w, t, product);
      CandidateClaimFits(plan, e, w, t, product);
    }
  }

  lemma {:induction false} ProductSectionFits(
    question: string, plan: QueryPlan, e: EvidenceBundle, w: Wording, x: Entry)
    requires ValidBundle(e) && x in ProductSection(question, plan, e, w, Products(plan, e))
    ensures Labelled(x)
    ensures CandidatesBacked(question, plan, e) ==> EntryFits(x, e, true)
  {
    InProductSection(question, plan, e, w, Products(plan, e), x);
    var p :| p in Products(plan, e) && p.1.Some? && x in ProductEntries(question, plan, e, w, p.0, p.1.value);
    assert p == (p.0, Some(p.1.value));
    ProductEntryFits(question, plan, e, w, p.0, p.1.value, x);
  }

  /** In a shaped bundle every entry fits. */
  lemma {:induction false} ShapedEntries(question: string, plan: QueryPlan, e: EvidenceBundle, w: Wording, x: Entry)
    requires ValidBundle(e) && x in Entries(question, plan, e, w)
    ensures Labelled(x)
    ensures Shaped(question, plan, e, w) ==> EntryFits(x, e, true)
  {
    if x in Opening(question, w) {
      OpeningEntryFits(question, e, w, x);
    } else if x in SummarySection(question, plan, e, w, e.summaries) {
      SummarySectionFits(question, plan, e, w, x);
    } else if x in LimitationSection(e, w, e.limitations) {
      LimitationSectionFits(e, w, x);
    } else if x in ConclusionSection(e, w, e.derived) {
      ConclusionEntryFits(e, w, x);
    } else if x in ProductSection(question, plan, e, w, Products(plan, e)) {
      ProductSectionFits(question, plan, e, w, x);
    } else {
      NoResultEntryFits(e, w, x);
    }
  }

  lemma {:induction false} FittingSummary(
    question: string, plan: QueryPlan, e: EvidenceBundle, w: Wording, s: EvidenceSummary)
    requires ValidBundle(e) && AllFit(SummarySection(question, plan, e, w, e.summaries), e) && s in e.summaries
    ensures SummaryShaped(Classify(question, plan, e, s), e, s)
  {
    var kind := Classify(question, plan, e, s);
    if kind != Silent && kind != TieLine {
      var x := SummaryEntries(kind, e, w, s)[0];
      assert x in SummaryEntries(kind, e, w, s);
      InSummarySection(question, plan, e, w, e.summaries, x);
      SummaryEntryFits(question, plan, e, w, s);
      assert EntryFits(x, e, SummaryShaped(kind, e, s));
    }
  }

  lemma {:induction false} FittingSummaries(question: string, plan: QueryPlan, e: EvidenceBundle, w: Wording)
    requires ValidBundle(e) && AllFit(SummarySection(question, plan, e, w, e.summaries), e)
    ensures SummariesShaped(question, plan, e)
  {
    forall s | s in e.summaries ensures SummaryShaped(Classify(question, plan, e, s), e, s) {
      FittingSummary(question, plan, e, w, s);
    }
  }

  lemma {:induction false} FittingLimitations(e: EvidenceBundle, w: Wording)
    requires ValidBundle(e) && AllFit(LimitationSection(e, w, e.limitations), e)
    ensures forall l | l in e.limitations :: LimitationShaped(e, w, l)
  {
    forall l | l in e.limitations ensures LimitationShaped(e, w, l) {
      var i :| 0 <= i < |e.limitations| && e.limitations[i] == l;
      if l != w.snapshot {
        InLimitationSection(e, w, e.limitations, LimitationEntries(e, w, i, l)[0]);
        LimitationClaimFits(e, w, i, l);
      }
    }
  }

  lemma {:induction false} FittingCandidates(question: string, plan: QueryPlan, e: EvidenceBundle, w: Wording)
    requires ValidBundle(e) && AllFit(ProductSection(question, plan, e, w, Products(plan, e)), e)
    ensures CandidatesBacked(question, plan, e)
  {
    if RecommendationRequest(question) {
      forall p | p in Products(plan, e) && p.1.Some?
        ensures SourceOnly(e, p.0, p.1.value) || HoldingBacked(e, p.0, p.1.value)
      {
        if !SourceOnly(e, p.0, p.1.value) {
          var x := CandidateEntry(e, w, p.0, p.1.value);
          assert ProductEntries(question, plan, e, w, p.0, p.1.value)[0] == x;
          InProductSection(question, plan, e, w, Products(plan, e), x);
          CandidateClaimFits(plan, e, w, p.0, p.1.value);
        }
      }
    }
  }

  /** If every shown claim fits, the bundle is shaped. */
  lemma {:induction false} FittingBundle(question: string, plan: QueryPlan, e: EvidenceBundle, w: Wording)
    requires ValidBundle(e) && AllFit(Entries(question, plan, e, w), e)
    ensures Shaped(question, plan, e, w)
  {
    assert Opening(question, w)[0] in Entries(question, plan, e, w);
    OpeningEntryFits(question, e, w, Opening(question, w)[0]);
    FittingSummaries(question, plan, e, w);
    FittingLimitations(e, w);
    FittingCandidates(question, plan, e, w);
  }

  /** Whatever is rendered claims every material limitation. */
  lemma {:induction false} LimitationsClaimed(
    question: string, plan: QueryPlan, e: EvidenceBundle, w: Wording, draft: AnswerDraft)
    ensures Rendered(question, plan, e, w) == Some(draft) ==>
              forall l | l in e.limitations :: ClaimsLimitation(draft.claims, l)
  {
    if Rendered(question, plan, e, w) == Some(draft) {
      DraftOfEntries(Entries(question, plan, e, w));
      forall l | l in e.limitations ensures ClaimsLimitation(draft.claims, l) {
        var x := LimitationEntry(question, plan, e, w, l);
        assert x.claim.value in draft.claims;
      }
    }
  }

  /** The entry that claims a limitation. */
  lemma {:induction false} LimitationEntry(question: string, plan: QueryPlan, e: EvidenceBundle, w: Wording, l: string)
    returns (x: Entry)
    requires l in e.limitations
    ensures x in Entries(question, plan, e, w) && x.Entry? && x.claim.Some?
    ensures x.claim.value.kind == LimitationClaim && x.claim.value.value == Str(l)
  {
    if l == w.snapshot {
      x := Opening(question, w)[0];
      assert x in Opening(question, w);
    } else {
      var i :| 0 <= i < |e.limitations| && e.limitations[i] == l;
      x := LimitationEntries(e, w, i, l)[0];
      InLimitationSection(e, w, e.limitations, x);
    }
  }

  /** Main theorem. A rendered draft is accepted exactly when its wording is safe and the bundle is shaped;
      with a shaped bundle the verifier never rejects what the renderer wrote. */
  lemma {:induction false} RenderedVerifies(
    question: string, plan: QueryPlan, e: EvidenceBundle, w: Wording, forbidden: seq<string>, draft: AnswerDraft)
    requires ValidBundle(e) && Executable(plan)
    ensures Rendered(question, plan, e, w) == Some(draft) ==>
              (Accepts(draft, e, forbidden) <==> SafeDraft(draft, forbidden) && Shaped(question, plan, e, w))
  {
    if Rendered(question, plan, e, w) == Some(draft) {
      DraftAccepted(question, plan, e, w, forbidden, draft);
    }
  }

  lemma {:induction false} DraftAccepted(
    question: string, plan: QueryPlan, e: EvidenceBundle, w: Wording, forbidden: seq<string>, draft: AnswerDraft)
    requires ValidBundle(e) && Executable(plan)
    requires Rendered(question, plan, e, w) == Some(draft)
    ensures Accepts(draft, e, forbidden) <==> SafeDraft(draft, forbidden) && Shaped(question, plan, e, w)
  {
    var entries := Entries(question, plan, e, w);
    var p := ExtendAll(Open([], []), entries);
    DraftOfEntries(entries);
    LimitationsClaimed(question, plan, e, w, draft);
    forall c | c in draft.claims
      ensures Contains(draft.text, c.text)
      ensures Shaped(question, plan, e, w) ==> ClaimFits(c, e)
    {
      var x :| x in entries && x.claim == Some(c);
      var k :| 0 <= k < |entries| && entries[k] == x;
      ShapedEntries(question, plan, e, w, x);
      JoinContains("\n", p.lines, k);
    }
    if Accepts(draft, e, forbidden) {
      FittingBundle(question, plan, e, w);
    }
  }

  /** The shapes the evidence builder emits: an unscoped overall count first, single-type ranks, recorded values
      and aggregates, group values on aggregates only, owners of holdings in evidence, limitations backed. */
  ghost predicate BuilderShaped(e: EvidenceBundle, w: Wording) {
    && !RequiresLimitationEvidence(w.snapshot)
    && (CountSummaryOf(e).Some? ==>
          var count := CountSummaryOf(e).value;
          count.grains == [] && count.partitionKey.None? && count.productId.None? && count.metricId.None?)
    && (forall s | s in e.summaries ::
          && (s.kind != AggregateSummary ==> s.groupValues == [])
          && (s.kind in {RankSummary, RecordedSummary, AggregateSummary} ==> |s.productTypes| == 1)
          && (s.kind in {PartitionSummary, AggregateSummary} ==> s.productId.None?)
          && (s.kind == PartitionSummary ==> s.metricId.None?))
    && (forall t, product :: HoldingBacked(e, t, product))
    && (forall l | l in e.limitations :: LimitationShaped(e, w, l))
  }

  lemma {:induction false} BuilderSummaryShaped(
    question: string, plan: QueryPlan, e: EvidenceBundle, w: Wording, s: EvidenceSummary)
    requires BuilderShaped(e, w) && s in e.summaries
    ensures SummaryShaped(Classify(question, plan, e, s), e, s)
  {
    if s.productTypes != [] && s.productId.Some? {
      assert HoldingBacked(e, s.productTypes[0], s.productId.value);
    }
  }

  /** Every safely worded answer rendered from a builder-shaped bundle is accepted, for any question and plan. */
  lemma {:induction false} BuilderBundlesVerify(
    question: string, plan: QueryPlan, e: EvidenceBundle, w: Wording, forbidden: seq<string>, draft: AnswerDraft)
    requires ValidBundle(e) && Executable(plan) && BuilderShaped(e, w)
    ensures Rendered(question, plan, e, w) == Some(draft) && SafeDraft(draft, forbidden) ==> Accepts(draft, e, forbidden)
  {
    forall s | s in e.summaries ensures SummaryShaped(Classify(question, plan, e, s), e, s) {
      BuilderSummaryShaped(question, plan, e, w, s);
    }
    RenderedVerifies(question, plan, e, w, forbidden, draft);
  }

  /** So a builder-shaped bundle with renderable, safely worded entries always yields an accepted answer. */
  lemma {:induction false} BuilderAnswers(
    question: string, plan: QueryPlan, e: EvidenceBundle, w: Wording, forbidden: seq<string>) returns (draft: AnswerDraft)
    requires ValidBundle(e) && Executable(plan) && BuilderShaped(e, w)
    requires Renderable(Entries(question, plan, e, w))
    ensures Rendered(question, plan, e, w) == Some(draft)
    ensures SafeDraft(draft, forbidden) ==> Accepts(draft, e, forbidden)
  {
    RenderedExactly(question, plan, e, w);
    draft := Rendered(question, plan, e, w).value;
    BuilderBundlesVerify(question, plan, e, w, forbidden, draft);
  }
}
