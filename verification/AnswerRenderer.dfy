/** The renderer's loops, and the pipeline that renders and then verifies. */
module AnswerRenderer {
  import opened Wrappers
  import opened Text
  import opened Sequences
  import opened Evidence
  import opened Verifier
  import opened Renderer
  import opened RenderedAnswers
  import opened ShownEvidence
  import opened ShownSummaries
  import opened AnswerContents

  lemma {:induction false} ExtendAllConcat(p: Partial, a: seq<Entry>, b: seq<Entry>)
    ensures ExtendAll(p, a + b) == ExtendAll(ExtendAll(p, a), b)
  {
    if b == [] {
      assert a + b == a;
    } else {
      ExtendAllConcat(p, a, b[..|b| - 1]);
      assert (a + b)[..|a + b| - 1] == a + b[..|b| - 1];
    }
  }

  method AppendAll(p: Partial, entries: seq<Entry>) returns (r: Partial)
    ensures r == ExtendAll(p, entries)
  {
    r := p;
    for i := 0 to |entries|
      invariant r == ExtendAll(p, entries[..i])
    {
      assert entries[..i + 1][..i] == entries[..i];
      r := Extend(r, entries[i]);
    }
    assert entries[..|entries|] == entries;
  }

  lemma {:induction false} SummaryStep(p: Partial, question: string, plan: QueryPlan, e: EvidenceBundle, w: Wording, i: nat)
    requires i < |e.summaries|
    ensures ExtendAll(p, SummarySection(question, plan, e, w, e.summaries[..i + 1]))
         == ExtendAll(ExtendAll(p, SummarySection(question, plan, e, w, e.summaries[..i])),
                      SummaryEntries(Classify(question, plan, e, e.summaries[i]), e, w, e.summaries[i]))
  {
    assert e.summaries[..i + 1][..i] == e.summaries[..i];
    ExtendAllConcat(p, SummarySection(question, plan, e, w, e.summaries[..i]),
                    SummaryEntries(Classify(question, plan, e, e.summaries[i]), e, w, e.summaries[i]));
  }

  lemma {:induction false} LimitationStep(p: Partial, e: EvidenceBundle, w: Wording, i: nat)
    requires i < |e.limitations|
    ensures ExtendAll(p, LimitationSection(e, w, e.limitations[..i + 1]))
         == ExtendAll(ExtendAll(p, LimitationSection(e, w, e.limitations[..i])),
                      LimitationEntries(e, w, i, e.limitations[i]))
  {
    assert e.limitations[..i + 1][..i] == e.limitations[..i];
    ExtendAllConcat(p, LimitationSection(e, w, e.limitations[..i]), LimitationEntries(e, w, i, e.limitations[i]));
  }

  lemma {:induction false} ConclusionStep(p: Partial, e: EvidenceBundle, w: Wording, i: nat)
    requires i < |e.derived|
    ensures ExtendAll(p, ConclusionSection(e, w, e.derived[..i + 1]))
         == ExtendAll(ExtendAll(p, ConclusionSection(e, w, e.derived[..i])), ConclusionEntries(e, w, e.derived[i]))
  {
    assert e.derived[..i + 1][..i] == e.derived[..i];
    ExtendAllConcat(p, ConclusionSection(e, w, e.derived[..i]), ConclusionEntries(e, w, e.derived[i]));
  }

  /** Every due summary is claimed, and only due summaries are added. */
  ghost predicate SummariesAdded(
    question: string, plan: QueryPlan, e: EvidenceBundle, w: Wording, before: seq<AnswerClaim>, after: seq<AnswerClaim>)
  {
    && (forall s, kind | s in e.summaries && StatedAs(question, plan, e, s, kind) ::
          exists c | c in after :: SummaryClaimOf(w, s, kind, c))
    && (forall c | c in after ::
          c in before
          || exists s, kind | s in e.summaries && StatedAs(question, plan, e, s, kind) :: SummaryClaimOf(w, s, kind, c))
  }

  lemma {:induction false} SummariesGrow(p: Partial, question: string, plan: QueryPlan, e: EvidenceBundle, w: Wording)
    requires ExtendAll(p, SummarySection(question, plan, e, w, e.summaries)).Open?
    ensures var r := ExtendAll(p, SummarySection(question, plan, e, w, e.summaries));
            p.Open? && SummariesAdded(question, plan, e, w, p.claims, r.claims)
  {
    var section := SummarySection(question, plan, e, w, e.summaries);
    var after := ExtendAll(p, section).claims;
    GrownClaims(p, section);
    forall s, kind | s in e.summaries && StatedAs(question, plan, e, s, kind)
      ensures exists c | c in after :: SummaryClaimOf(w, s, kind, c)
    {
      var c := SummaryStated(question, plan, e, w, s, kind);
      assert c in after;
    }
    forall c | c in after && c !in p.claims
      ensures exists s, kind | s in e.summaries && StatedAs(question, plan, e, s, kind) :: SummaryClaimOf(w, s, kind, c)
    {
      var s, kind := SummaryDue(question, plan, e, w, c);
    }
  }

  lemma {:induction false} ConclusionsGrow(p: Partial, e: EvidenceBundle, w: Wording)
    requires ExtendAll(p, ConclusionSection(e, w, e.derived)).Open?
    ensures p.Open?
    ensures forall c :: c in ExtendAll(p, ConclusionSection(e, w, e.derived)).claims <==>
                        c in p.claims || ClaimsDifference(e, w, c)
  {
    GrownClaims(p, ConclusionSection(e, w, e.derived));
    forall c ensures Stated(ConclusionSection(e, w, e.derived), c) <==> ClaimsDifference(e, w, c) {
      ConclusionClaims(e, w, c);
    }
  }

  lemma {:induction false} ProductsGrow(p: Partial, question: string, plan: QueryPlan, e: EvidenceBundle, w: Wording)
    requires ExtendAll(p, ProductSection(question, plan, e, w, Products(plan, e))).Open?
    ensures p.Open?
    ensures forall c :: c in ExtendAll(p, ProductSection(question, plan, e, w, Products(plan, e))).claims <==>
                        c in p.claims || ProductClaim(question, plan, e, w, c)
  {
    var section := ProductSection(question, plan, e, w, Products(plan, e));
    GrownClaims(p, section);
    forall c ensures Stated(section, c) <==> ProductClaim(question, plan, e, w, c) {
      ProductClaims(question, plan, e, w, c);
    }
  }

  method AppendSummaries(p: Partial, question: string, plan: QueryPlan, e: EvidenceBundle, w: Wording)
    returns (r: Partial)
    ensures r == ExtendAll(p, SummarySection(question, plan, e, w, e.summaries))
    ensures r.Open? ==> p.Open? && SummariesAdded(question, plan, e, w, p.claims, r.claims)
  {
    r := p;
    for i := 0 to |e.summaries|
      invariant r == ExtendAll(p, SummarySection(question, plan, e, w, e.summaries[..i]))
    {
      var s := e.summaries[i];
      SummaryStep(p, question, plan, e, w, i);
      r := AppendAll(r, SummaryEntries(Classify(question, plan, e, s), e, w, s));
    }
    assert e.summaries[..|e.summaries|] == e.summaries;
    if r.Open? {
      SummariesGrow(p, question, plan, e, w);
    }
  }

  method AppendLimitations(p: Partial, e: EvidenceBundle, w: Wording) returns (r: Partial)
    ensures r == ExtendAll(p, LimitationSection(e, w, e.limitations))
  {
    r := p;
    for i := 0 to |e.limitations|
      invariant r == ExtendAll(p, LimitationSection(e, w, e.limitations[..i]))
    {
      LimitationStep(p, e, w, i);
      r := AppendAll(r, LimitationEntries(e, w, i, e.limitations[i]));
    }
    assert e.limitations[..|e.limitations|] == e.limitations;
  }

  /** `_append_comparison_conclusions` */
  method AppendConclusions(p: Partial, e: EvidenceBundle, w: Wording) returns (r: Partial)
    ensures r == ExtendAll(p, ConclusionSection(e, w, e.derived))
    ensures r.Open? ==> p.Open? && forall c :: c in r.claims <==> c in p.claims || ClaimsDifference(e, w, c)
  {
    r := p;
    for i := 0 to |e.derived|
      invariant r == ExtendAll(p, ConclusionSection(e, w, e.derived[..i]))
    {
      ConclusionStep(p, e, w, i);
      r := AppendAll(r, ConclusionEntries(e, w, e.derived[i]));
    }
    assert e.derived[..|e.derived|] == e.derived;
    if r.Open? {
      ConclusionsGrow(p, e, w);
    }
  }

  method AppendProducts(p: Partial, question: string, plan: QueryPlan, e: EvidenceBundle, w: Wording)
    returns (r: Partial)
    ensures r == ExtendAll(p, ProductSection(question, plan, e, w, Products(plan, e)))
    ensures r.Open? ==> p.Open? && forall c :: c in r.claims <==> c in p.claims || ProductClaim(question, plan, e, w, c)
  {
    r := p;
    var products := Products(plan, e);
    for i := 0 to |products|
      invariant r == ExtendAll(p, ProductSection(question, plan, e, w, products[..i]))
    {
      var product := products[i];
      var shown := if product.1.Some? then ProductEntries(question, plan, e, w, product.0, product.1.value) else [];
      assert products[..i + 1][..i] == products[..i];
      ExtendAllConcat(p, ProductSection(question, plan, e, w, products[..i]), shown);
      r := AppendAll(r, shown);
    }
    assert products[..|products|] == products;
    if r.Open? {
      ProductsGrow(p, question, plan, e, w);
    }
  }

  /** `AnswerRenderer.render` for an executable plan: lines and claims grow section by section. */
  method Render(question: string, plan: QueryPlan, e: EvidenceBundle, w: Wording) returns (draft: Option<AnswerDraft>)
    requires Executable(plan)
    ensures draft == Rendered(question, plan, e, w)
    ensures draft.Some? <==> Renderable(Entries(question, plan, e, w))
    ensures draft.Some? && ValidBundle(e) ==> ShowsExactly(question, plan, e, w, draft.value.claims)
  {
    var start := Open([], []);
    var p := AppendAll(start, Opening(question, w));
    p := AppendSummaries(p, question, plan, e, w);
    p := AppendLimitations(p, e, w);
    p := AppendConclusions(p, e, w);
    p := AppendProducts(p, question, plan, e, w);
    p := AppendAll(p, NoResultSection(e, w));
    SectionsConcat(start, Opening(question, w), SummarySection(question, plan, e, w, e.summaries),
                   LimitationSection(e, w, e.limitations), ConclusionSection(e, w, e.derived),
                   ProductSection(question, plan, e, w, Products(plan, e)), NoResultSection(e, w));
    draft := Finish(p);
    RenderedExactly(question, plan, e, w);
    if draft.Some? && ValidBundle(e) {
      RenderedShows(question, plan, e, w, draft.value);
    }
  }

  lemma SectionsConcat(
    p: Partial, a: seq<Entry>, b: seq<Entry>, c: seq<Entry>, d: seq<Entry>, f: seq<Entry>, g: seq<Entry>)
    ensures ExtendAll(p, a + b + c + d + f + g)
         == ExtendAll(ExtendAll(ExtendAll(ExtendAll(ExtendAll(ExtendAll(p, a), b), c), d), f), g)
  {
    ExtendAllConcat(p, a, b);
    ExtendAllConcat(p, a + b, c);
    ExtendAllConcat(p, a + b + c, d);
    ExtendAllConcat(p, a + b + c + d, f);
    ExtendAllConcat(p, a + b + c + d + f, g);
  }

  /** The pipeline: render, then verify. */
  method RenderAndVerify(
    question: string, plan: QueryPlan, e: EvidenceBundle, w: Wording, forbidden: seq<string>)
    returns (draft: Option<AnswerDraft>, accepted: bool)
    requires ValidBundle(e) && Executable(plan)
    ensures draft == Rendered(question, plan, e, w)
    ensures draft.Some? <==> Renderable(Entries(question, plan, e, w))
    ensures draft.Some? ==> ShowsExactly(question, plan, e, w, draft.value.claims)
    ensures draft.Some? ==> (accepted <==> SafeDraft(draft.value, forbidden) && Shaped(question, plan, e, w))
  {
    draft := Render(question, plan, e, w);
    accepted := false;
    if draft.Some? {
      accepted := Verify(draft.value, e, forbidden);
      RenderedVerifies(question, plan, e, w, forbidden, draft.value);
    }
  }
}
