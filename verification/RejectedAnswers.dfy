/** A rendered answer that the verifier rejects: the renderer types a rank by the first product type of its summary. */
module RejectedAnswers {
  import opened Wrappers
  import opened Text
  import opened Sequences
  import opened Evidence
  import opened Verifier
  import opened Renderer
  import opened RenderedAnswers

  function OnlySummary(s: EvidenceSummary): EvidenceBundle {
    EvidenceBundle([], [], [s], [], [], [])
  }

  /** A rank over two product types, which the evidence models admit. */
  predicate TwoTypeRank(s: EvidenceSummary) {
    s.kind == RankSummary && s.value.Int? && |s.productTypes| == 2 && s.policyVersions != [] && 1 <= |s.id| <= 186
  }

  /** Short texts for the two lines of the answer. */
  predicate ShortWording(w: Wording, s: EvidenceSummary) {
    1 <= |w.snapshot| <= 2000 && 1 <= |w.summaryLine(RankLine, s)| <= 2000
  }

  lemma {:induction false} OnlySummaryValid(s: EvidenceSummary)
    requires TwoTypeRank(s)
    ensures ValidBundle(OnlySummary(s))
  {
    assert |Items(OnlySummary(s))| == 1;
  }

  /** The two entries of the answer. */
  function SnapshotEntry(w: Wording): Entry {
    Entry(w.snapshot, Some(PlainClaim("claim:snapshot", LimitationClaim, w.snapshot, Str(w.snapshot), [])))
  }

  function RankEntry(w: Wording, s: EvidenceSummary): Entry
    requires s.productTypes != []
  {
    var text := w.summaryLine(RankLine, s);
    Entry(text, Some(AnswerClaim("claim:summary:" + s.id, NumericClaim, text, Some(s.productTypes[0]), s.productTypes,
                                 s.grains, s.partitionKey, s.productId, s.metricId, s.value, [], [s.id], Sign(s.value))))
  }

  lemma {:induction false} NoOwnerEvidence(s: EvidenceSummary, t: ProductType)
    ensures HoldingOwnerEvidenceIds(OnlySummary(s), t, s.productId) == []
  {
  }

  lemma {:induction false} RankSection(question: string, plan: QueryPlan, s: EvidenceSummary, w: Wording)
    requires TwoTypeRank(s)
    ensures SummarySection(question, plan, OnlySummary(s), w, [s]) == [RankEntry(w, s)]
  {
    var e := OnlySummary(s);
    NoOwnerEvidence(s, s.productTypes[0]);
    assert [s.id] + [] == [s.id];
    assert Classify(question, plan, e, s) == RankLine;
    assert [s][..0] == [];
    assert SummarySection(question, plan, e, w, [s][..0]) == [];
  }

  lemma {:induction false} NothingElse(question: string, plan: QueryPlan, s: EvidenceSummary, w: Wording)
    requires TwoTypeRank(s)
    ensures ProductSection(question, plan, OnlySummary(s), w, Products(plan, OnlySummary(s))) == []
    ensures NoResultSection(OnlySummary(s), w) == []
  {
    var e := OnlySummary(s);
    assert Owners(e) == [];
    assert [s][1..] == [];
    assert ZeroResultSummary(e).None? && CountSummaryOf(e).None?;
  }

  lemma {:induction false} TwoEntries(question: string, plan: QueryPlan, s: EvidenceSummary, w: Wording)
    requires TwoTypeRank(s) && !RecommendationRequest(question)
    ensures Entries(question, plan, OnlySummary(s), w) == [SnapshotEntry(w), RankEntry(w, s)]
  {
    RankSection(question, plan, s, w);
    NothingElse(question, plan, s, w);
  }

  lemma {:induction false} TwoRenderable(s: EvidenceSummary, w: Wording)
    requires TwoTypeRank(s) && ShortWording(w, s)
    ensures Renderable([SnapshotEntry(w), RankEntry(w, s)])
  {
    var entries := [SnapshotEntry(w), RankEntry(w, s)];
    var a, b := w.snapshot, w.summaryLine(RankLine, s);
    assert Map(LineOf, entries) == [a, b];
    assert [a, b][1..] == [b];
    assert Join("\n", [a, b]) == a + "\n" + Join("\n", [b]);
  }

  /** The failure shown: such a bundle is valid and renders, and its answer is rejected, whatever the wording. */
  lemma {:induction false} TwoTypeRankRejected(
    question: string, plan: QueryPlan, s: EvidenceSummary, w: Wording, forbidden: seq<string>) returns (draft: AnswerDraft)
    requires TwoTypeRank(s) && ShortWording(w, s) && Executable(plan) && !RecommendationRequest(question)
    ensures ValidBundle(OnlySummary(s)) && Rendered(question, plan, OnlySummary(s), w) == Some(draft)
    ensures !Accepts(draft, OnlySummary(s), forbidden)
  {
    OnlySummaryValid(s);
    TwoTypesRender(question, plan, s, w);
    draft := Rendered(question, plan, OnlySummary(s), w).value;
    TwoTypesUnshaped(question, plan, s, w);
    RenderedVerifies(question, plan, OnlySummary(s), w, forbidden, draft);
  }

  lemma {:induction false} TwoTypesRender(question: string, plan: QueryPlan, s: EvidenceSummary, w: Wording)
    requires TwoTypeRank(s) && ShortWording(w, s) && !RecommendationRequest(question)
    ensures Rendered(question, plan, OnlySummary(s), w).Some?
  {
    TwoEntries(question, plan, s, w);
    TwoRenderable(s, w);
    RenderedExactly(question, plan, OnlySummary(s), w);
  }

  lemma {:induction false} TwoTypesUnshaped(question: string, plan: QueryPlan, s: EvidenceSummary, w: Wording)
    requires TwoTypeRank(s)
    ensures !Shaped(question, plan, OnlySummary(s), w)
  {
    var e := OnlySummary(s);
    assert s in e.summaries && !SummaryShaped(Classify(question, plan, e, s), e, s);
  }
}
