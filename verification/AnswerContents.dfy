/** The contents of a rendered answer: every due item is claimed, and nothing else is. */
module AnswerContents {
  import opened Wrappers
  import opened Text
  import opened Sequences
  import opened Evidence
  import opened Verifier
  import opened Renderer
  import opened RenderedAnswers
  import opened ShownEvidence
  import opened ShownSummaries

  /** The claim states the value of this item: it bears the item's name, or cites it alone as a number or text. */
  predicate AboutValue(c: AnswerClaim, id: string) {
    c.id == "claim:value:" + id || ((c.kind == NumericClaim || c.kind == TextClaim) && c.evidenceIds == [id])
  }

  ghost predicate DirectShown(plan: QueryPlan, e: EvidenceBundle, w: Wording, claims: seq<AnswerClaim>, d: DirectEvidence) {
    && (DirectDue(plan, e, d) ==> DirectClaim(w, d) in claims)
    && ((exists c | c in claims :: AboutValue(c, d.id)) ==> DirectDue(plan, e, d))
  }

  ghost predicate DerivedShown(plan: QueryPlan, e: EvidenceBundle, w: Wording, claims: seq<AnswerClaim>, d: DerivedEvidence) {
    && (DerivedDue(plan, e, d) ==> DerivedClaim(w, d) in claims)
    && (forall metric | DifferenceDue(e, d, metric) :: DifferenceClaim(e, w, d, metric) in claims)
    && ((exists c | c in claims :: AboutValue(c, d.id)) ==>
          DerivedDue(plan, e, d) || exists metric :: DifferenceDue(e, d, metric))
  }

  ghost predicate SummaryShown(
    question: string, plan: QueryPlan, e: EvidenceBundle, w: Wording, claims: seq<AnswerClaim>, s: EvidenceSummary)
  {
    && (forall kind | StatedAs(question, plan, e, s, kind) :: exists c | c in claims :: SummaryClaimOf(w, s, kind, c))
    && ((exists c | c in claims :: c.id == "claim:summary:" + s.id) ==>
          exists kind :: StatedAs(question, plan, e, s, kind))
  }

  function DigitOf(c: char): int {
    c as int - '0' as int
  }

  /** The number a decimal numeral stands for. */
  function NumberOf(numeral: string): int {
    if numeral == "" then 0 else 10 * NumberOf(numeral[..|numeral| - 1]) + DigitOf(numeral[|numeral| - 1])
  }

  /** The renderer writes decimal numerals, so limitations are told apart by their position. */
  lemma {:induction false} DigitsRoundTrip(n: nat)
    ensures NumberOf(Digits(n)) == n
    ensures forall c | c in Digits(n) :: '0' <= c <= '9'
    ensures n > 0 ==> Digits(n)[0] != '0'
  {
    if n < 10 {
      assert Digits(n)[..0] == "";
    } else {
      DigitsRoundTrip(n / 10);
      assert Digits(n)[..|Digits(n)| - 1] == Digits(n / 10);
    }
  }

  /** The claim of the limitation at a position, in its own words and numbered by that position. */
  predicate NumberedClaim(w: Wording, position: nat, limitation: string, c: AnswerClaim) {
    && c.kind == LimitationClaim && c.value == Str(limitation) && c.text == w.limitationLine(limitation)
    && |c.id| > 17 && c.id[..17] == "claim:limitation:" && NumberOf(c.id[17..]) == position
  }

  /** Exactly the bundle's limitations and the snapshot notice are claimed as limitations. */
  ghost predicate LimitationsShown(e: EvidenceBundle, w: Wording, claims: seq<AnswerClaim>) {
    && (forall l | l in e.limitations :: ClaimsLimitation(claims, l)) && ClaimsLimitation(claims, w.snapshot)
    && (forall i | 0 <= i < |e.limitations| && e.limitations[i] != w.snapshot ::
          exists c | c in claims :: NumberedClaim(w, i, e.limitations[i], c))
    && forall c | c in claims && c.kind == LimitationClaim ::
         c.value.Str? && (c.value.s == w.snapshot || c.value.s in e.limitations)
  }

  ghost predicate CandidateShown(
    question: string, plan: QueryPlan, e: EvidenceBundle, claims: seq<AnswerClaim>, t: ProductType, product: string)
  {
    CandidateDue(question, plan, e, t, product) <==>
      exists c | c in claims :: c.kind == CandidateClaim && c.productType == Some(t) && c.productId == Some(product)
  }

  ghost predicate NoResultShown(e: EvidenceBundle, w: Wording, claims: seq<AnswerClaim>) {
    && (NothingFound(e) ==> exists c | c in claims :: NoResultClaim(e, w, c))
    && ((exists c | c in claims :: c.id == "claim:no-result") ==> NothingFound(e))
  }

  /** The claim bears the name of an item, of a limitation, of a candidate or of the empty answer. */
  ghost predicate Accounted(e: EvidenceBundle, c: AnswerClaim) {
    || c.kind == LimitationClaim || c.kind == CandidateClaim || c.id == "claim:no-result"
    || (exists s | s in e.summaries :: c.id == "claim:summary:" + s.id)
    || (exists d | d in e.direct :: c.id == "claim:value:" + d.id)
    || (exists d | d in e.derived :: c.id == "claim:value:" + d.id)
  }

  /** The answer claims what is due, item by item, and nothing else. */
  ghost predicate ShowsExactly(
    question: string, plan: QueryPlan, e: EvidenceBundle, w: Wording, claims: seq<AnswerClaim>)
  {
    && (forall d | d in e.direct :: DirectShown(plan, e, w, claims, d))
    && (forall d | d in e.derived :: DerivedShown(plan, e, w, claims, d))
    && (forall s | s in e.summaries :: SummaryShown(question, plan, e, w, claims, s))
    && (forall t, product :: CandidateShown(question, plan, e, claims, t, product))
    && LimitationsShown(e, w, claims) && NoResultShown(e, w, claims)
    && (forall c | c in claims :: Accounted(e, c))
  }

  // ---------- the claims, section by section ----------

  lemma {:induction false} StatedConcat(a: seq<Entry>, b: seq<Entry>, c: AnswerClaim)
    ensures Stated(a + b, c) <==> Stated(a, c) || Stated(b, c)
  {
    forall x ensures x in a + b <==> x in a || x in b {}
  }

  lemma {:induction false} StatedSections(
    o: seq<Entry>, s: seq<Entry>, l: seq<Entry>, d: seq<Entry>, p: seq<Entry>, n: seq<Entry>, c: AnswerClaim)
    ensures Stated(o + s + l + d + p + n, c) <==>
            Stated(o, c) || Stated(s, c) || Stated(l, c) || Stated(d, c) || Stated(p, c) || Stated(n, c)
  {
    StatedConcat(o, s, c);
    StatedConcat(o + s, l, c);
    StatedConcat(o + s + l, d, c);
    StatedConcat(o + s + l + d, p, c);
    StatedConcat(o + s + l + d + p, n, c);
  }

  /** Some section of the answer states the claim. */
  ghost predicate InSections(question: string, plan: QueryPlan, e: EvidenceBundle, w: Wording, c: AnswerClaim) {
    || Stated(Opening(question, w), c) || Stated(SummarySection(question, plan, e, w, e.summaries), c)
    || Stated(LimitationSection(e, w, e.limitations), c) || ClaimsDifference(e, w, c)
    || ProductClaim(question, plan, e, w, c) || Stated(NoResultSection(e, w), c)
  }

  ghost predicate FromSections(question: string, plan: QueryPlan, e: EvidenceBundle, w: Wording, claims: seq<AnswerClaim>) {
    && (forall x | x in SummarySection(question, plan, e, w, e.summaries) :: x.Entry?)
    && forall c :: c in claims <==> InSections(question, plan, e, w, c)
  }

  lemma {:induction false} DraftSections(question: string, plan: QueryPlan, e: EvidenceBundle, w: Wording, draft: AnswerDraft)
    requires Rendered(question, plan, e, w) == Some(draft)
    ensures FromSections(question, plan, e, w, draft.claims)
  {
    var entries := Entries(question, plan, e, w);
    GrownClaims(Open([], []), entries);
    assert forall x | x in ProductSection(question, plan, e, w, Products(plan, e)) :: x in entries;
    forall c ensures c in draft.claims <==> InSections(question, plan, e, w, c) {
      StatedSections(Opening(question, w), SummarySection(question, plan, e, w, e.summaries),
                     LimitationSection(e, w, e.limitations), ConclusionSection(e, w, e.derived),
                     ProductSection(question, plan, e, w, Products(plan, e)), NoResultSection(e, w), c);
      ConclusionClaims(e, w, c);
      ProductClaims(question, plan, e, w, c);
    }
  }

  // ---------- sections apart from values and candidates ----------

  /** A claim that states no value of direct or derived evidence and no candidate. */
  ghost predicate Aside(e: EvidenceBundle, c: AnswerClaim) {
    && |c.id| > 6 && c.id[6] != 'v' && c.kind != CandidateClaim
    && (c.kind == LimitationClaim || (c.evidenceIds != [] && exists s | s in e.summaries :: s.id == c.evidenceIds[0]))
  }

  lemma {:induction false} OpeningAside(question: string, e: EvidenceBundle, w: Wording, c: AnswerClaim)
    requires Stated(Opening(question, w), c)
    ensures Aside(e, c) && c.kind == LimitationClaim && c.value == Str(w.snapshot)
  {
  }

  lemma {:induction false} SummaryAside(question: string, plan: QueryPlan, e: EvidenceBundle, w: Wording, c: AnswerClaim)
    requires Stated(SummarySection(question, plan, e, w, e.summaries), c)
    ensures Aside(e, c) && c.kind != LimitationClaim && c.id[6] == 's'
  {
    var s, kind := SummaryDue(question, plan, e, w, c);
    SummaryClaimAside(e, w, s, kind, c);
  }

  lemma {:induction false} SummaryClaimAside(e: EvidenceBundle, w: Wording, s: EvidenceSummary, kind: LineKind, c: AnswerClaim)
    requires s in e.summaries && SummaryClaimOf(w, s, kind, c)
    ensures Aside(e, c) && c.kind != LimitationClaim && c.id[6] == 's'
  {
  }

  lemma {:induction false} LimitationAside(e: EvidenceBundle, w: Wording, c: AnswerClaim)
    requires Stated(LimitationSection(e, w, e.limitations), c)
    ensures Aside(e, c) && c.kind == LimitationClaim && c.value.Str? && c.value.s in e.limitations && c.id[6] == 'l'
  {
    var l := LimitationClaimOf(e, w, c);
    LimitationInitial(c.id);
  }

  lemma {:induction false} LimitationInitial(id: string)
    requires "claim:limitation:" <= id
    ensures |id| > 6 && id[6] == 'l'
  {
    assert id[6] == "claim:limitation:"[6];
  }

  lemma {:induction false} NoResultAside(e: EvidenceBundle, w: Wording, c: AnswerClaim)
    requires Stated(NoResultSection(e, w), c)
    ensures Aside(e, c) && c.kind != LimitationClaim
  {
    NoResultDue(e, w, c);
  }

  lemma {:induction false} AsideSections(question: string, plan: QueryPlan, e: EvidenceBundle, w: Wording, c: AnswerClaim)
    requires InSections(question, plan, e, w, c)
    ensures Aside(e, c) || ClaimsDifference(e, w, c) || ProductClaim(question, plan, e, w, c)
  {
    if Stated(Opening(question, w), c) {
      OpeningAside(question, e, w, c);
    } else if Stated(SummarySection(question, plan, e, w, e.summaries), c) {
      SummaryAside(question, plan, e, w, c);
    } else if Stated(LimitationSection(e, w, e.limitations), c) {
      LimitationAside(e, w, c);
    } else if Stated(NoResultSection(e, w), c) {
      NoResultAside(e, w, c);
    }
  }

  lemma {:induction false} LimitationClaimOf(e: EvidenceBundle, w: Wording, c: AnswerClaim) returns (l: string)
    requires Stated(LimitationSection(e, w, e.limitations), c)
    ensures l in e.limitations && c.kind == LimitationClaim && c.value == Str(l)
    ensures "claim:limitation:" <= c.id
  {
    var x :| x in LimitationSection(e, w, e.limitations) && x.Entry? && x.claim == Some(c);
    InLimitationSection(e, w, e.limitations, x);
    var i :| 0 <= i < |e.limitations| && x in LimitationEntries(e, w, i, e.limitations[i]);
    l := e.limitations[i];
  }

  /** The identifier belongs to no summary. */
  predicate NoSummary(e: EvidenceBundle, id: string) {
    forall s | s in e.summaries :: s.id != id
  }

  lemma {:induction false} AsideNotValue(e: EvidenceBundle, c: AnswerClaim, id: string)
    requires Aside(e, c) && NoSummary(e, id)
    ensures !AboutValue(c, id)
  {
    assert ("claim:value:" + id)[6] == 'v';
  }

  lemma {:induction false} CandidateNotValue(
    question: string, plan: QueryPlan, e: EvidenceBundle, w: Wording, c: AnswerClaim, id: string)
    requires ClaimsCandidate(question, plan, e, w, c)
    ensures !AboutValue(c, id)
  {
    CandidateNamed(question, plan, e, w, c);
    OtherInitial(c, id);
  }

  lemma {:induction false} OtherInitial(c: AnswerClaim, id: string)
    requires |c.id| > 6 && c.id[6] != 'v' && c.kind == CandidateClaim
    ensures !AboutValue(c, id)
  {
    assert ("claim:value:" + id)[6] == 'v';
  }

  lemma {:induction false} SameNames(a: string, b: string)
    requires "claim:value:" + a == "claim:value:" + b
    ensures a == b
  {
    assert ("claim:value:" + a)[12..] == a;
    assert ("claim:value:" + b)[12..] == b;
  }

  /** A value claim is about its own item only. */
  lemma {:induction false} OwnValue(text: string, t: ProductType, product: string, field: string, value: Scalar, id: string, other: string)
    requires AboutValue(ValueClaim(text, t, product, field, value, id), other)
    ensures id == other
  {
    if "claim:value:" + id == "claim:value:" + other {
      SameNames(id, other);
    }
  }

  lemma {:induction false} SameIndex(e: EvidenceBundle, i: nat, j: nat)
    requires ValidBundle(e) && i < |Items(e)| && j < |Items(e)| && Items(e)[i].id == Items(e)[j].id
    ensures i == j
  {
  }

  lemma {:induction false} SameDirect(e: EvidenceBundle, a: DirectEvidence, b: DirectEvidence)
    requires ValidBundle(e) && a in e.direct && b in e.direct && a.id == b.id
    ensures a == b
  {
    var i :| 0 <= i < |e.direct| && e.direct[i] == a;
    var j :| 0 <= j < |e.direct| && e.direct[j] == b;
    assert Items(e)[i] == DirectItem(a) && Items(e)[j] == DirectItem(b);
    SameIndex(e, i, j);
  }

  lemma {:induction false} SameDerived(e: EvidenceBundle, a: DerivedEvidence, b: DerivedEvidence)
    requires ValidBundle(e) && a in e.derived && b in e.derived && a.id == b.id
    ensures a == b
  {
    var i :| 0 <= i < |e.derived| && e.derived[i] == a;
    var j :| 0 <= j < |e.derived| && e.derived[j] == b;
    assert Items(e)[|e.direct| + i] == DerivedItem(a) && Items(e)[|e.direct| + j] == DerivedItem(b);
    SameIndex(e, |e.direct| + i, |e.direct| + j);
  }

  lemma {:induction false} DirectNotDerived(e: EvidenceBundle, a: DirectEvidence, b: DerivedEvidence)
    requires ValidBundle(e) && a in e.direct && b in e.derived
    ensures a.id != b.id
  {
    var i :| 0 <= i < |e.direct| && e.direct[i] == a;
    var j :| 0 <= j < |e.derived| && e.derived[j] == b;
    assert Items(e)[i] == DirectItem(a) && Items(e)[|e.direct| + j] == DerivedItem(b);
  }

  /** Whatever is said about a value is said by a value claim. */
  lemma {:induction false} ValueOrigin(
    question: string, plan: QueryPlan, e: EvidenceBundle, w: Wording, c: AnswerClaim, id: string)
    requires InSections(question, plan, e, w, c) && NoSummary(e, id) && AboutValue(c, id)
    ensures ClaimsDirect(plan, e, w, c) || ClaimsDerived(plan, e, w, c) || ClaimsDifference(e, w, c)
  {
    AsideSections(question, plan, e, w, c);
    if Aside(e, c) {
      AsideNotValue(e, c, id);
    } else if ClaimsCandidate(question, plan, e, w, c) {
      CandidateNotValue(question, plan, e, w, c, id);
    }
  }

  lemma {:induction false} DirectNoSummary(e: EvidenceBundle, d: DirectEvidence)
    requires ValidBundle(e) && d in e.direct
    ensures NoSummary(e, d.id)
  {
    var k :| 0 <= k < |e.direct| && e.direct[k] == d;
    assert Items(e)[k] == DirectItem(d);
    NotASummary(e, k);
  }

  lemma {:induction false} DerivedNoSummary(e: EvidenceBundle, d: DerivedEvidence)
    requires ValidBundle(e) && d in e.derived
    ensures NoSummary(e, d.id)
  {
    var k :| 0 <= k < |e.derived| && e.derived[k] == d;
    assert Items(e)[|e.direct| + k] == DerivedItem(d);
    NotASummary(e, |e.direct| + k);
  }

  /** The item a value claim is about. */
  lemma {:induction false} DirectOrigin(plan: QueryPlan, e: EvidenceBundle, w: Wording, c: AnswerClaim, id: string)
    returns (d: DirectEvidence)
    requires ClaimsDirect(plan, e, w, c) && AboutValue(c, id)
    ensures d in e.direct && d.id == id && DirectDue(plan, e, d)
  {
    d :| d in e.direct && DirectDue(plan, e, d) && c == DirectClaim(w, d);
    OwnValue(c.text, d.productType, d.productId.value, d.fieldId, d.value, d.id, id);
  }

  lemma {:induction false} DerivedOrigin(plan: QueryPlan, e: EvidenceBundle, w: Wording, c: AnswerClaim, id: string)
    returns (d: DerivedEvidence)
    requires ClaimsDerived(plan, e, w, c) && AboutValue(c, id)
    ensures d in e.derived && d.id == id && DerivedDue(plan, e, d)
  {
    d :| d in e.derived && DerivedDue(plan, e, d) && c == DerivedClaim(w, d);
    OwnValue(c.text, d.productType, d.productId.value, d.fieldId, d.value, d.id, id);
  }

  lemma {:induction false} DifferenceOrigin(e: EvidenceBundle, w: Wording, c: AnswerClaim, id: string)
    returns (d: DerivedEvidence, metric: string)
    requires ClaimsDifference(e, w, c) && AboutValue(c, id)
    ensures d in e.derived && d.id == id && DifferenceDue(e, d, metric)
  {
    d, metric :| d in e.derived && DifferenceDue(e, d, metric) && c == DifferenceClaim(e, w, d, metric);
    OwnValue(c.text, d.productType, d.productId.value, d.fieldId, d.value, d.id, id);
  }

  lemma {:induction false} DirectOnlyDue(
    question: string, plan: QueryPlan, e: EvidenceBundle, w: Wording, d: DirectEvidence, c: AnswerClaim)
    requires ValidBundle(e) && InSections(question, plan, e, w, c) && d in e.direct && AboutValue(c, d.id)
    ensures DirectDue(plan, e, d)
  {
    DirectNoSummary(e, d);
    ValueOrigin(question, plan, e, w, c, d.id);
    if ClaimsDirect(plan, e, w, c) {
      var own := DirectOrigin(plan, e, w, c, d.id);
      SameDirect(e, d, own);
    } else if ClaimsDerived(plan, e, w, c) {
      var other := DerivedOrigin(plan, e, w, c, d.id);
      DirectNotDerived(e, d, other);
    } else {
      var other, metric := DifferenceOrigin(e, w, c, d.id);
      DirectNotDerived(e, d, other);
    }
  }

  lemma {:induction false} DerivedOnlyDue(
    question: string, plan: QueryPlan, e: EvidenceBundle, w: Wording, d: DerivedEvidence, c: AnswerClaim)
    requires ValidBundle(e) && InSections(question, plan, e, w, c) && d in e.derived && AboutValue(c, d.id)
    ensures DerivedDue(plan, e, d) || exists metric :: DifferenceDue(e, d, metric)
  {
    DerivedNoSummary(e, d);
    ValueOrigin(question, plan, e, w, c, d.id);
    if ClaimsDirect(plan, e, w, c) {
      var other := DirectOrigin(plan, e, w, c, d.id);
      DirectNotDerived(e, other, d);
    } else if ClaimsDerived(plan, e, w, c) {
      var own := DerivedOrigin(plan, e, w, c, d.id);
      SameDerived(e, d, own);
    } else {
      var own, metric := DifferenceOrigin(e, w, c, d.id);
      SameDerived(e, d, own);
    }
  }

  /** Direct evidence is claimed exactly when it is due. */
  lemma {:induction false} DirectValues(
    question: string, plan: QueryPlan, e: EvidenceBundle, w: Wording, claims: seq<AnswerClaim>, d: DirectEvidence)
    requires ValidBundle(e) && FromSections(question, plan, e, w, claims) && d in e.direct
    ensures DirectShown(plan, e, w, claims, d)
  {
    if DirectDue(plan, e, d) {
      assert ClaimsDirect(plan, e, w, DirectClaim(w, d));
    }
    if c :| c in claims && AboutValue(c, d.id) {
      DirectOnlyDue(question, plan, e, w, d, c);
    }
  }

  /** Derived evidence is claimed exactly when it is due, as a value or as a difference. */
  lemma {:induction false} DerivedValues(
    question: string, plan: QueryPlan, e: EvidenceBundle, w: Wording, claims: seq<AnswerClaim>, d: DerivedEvidence)
    requires ValidBundle(e) && FromSections(question, plan, e, w, claims) && d in e.derived
    ensures DerivedShown(plan, e, w, claims, d)
  {
    if DerivedDue(plan, e, d) {
      assert ClaimsDerived(plan, e, w, DerivedClaim(w, d));
    }
    forall metric | DifferenceDue(e, d, metric) ensures DifferenceClaim(e, w, d, metric) in claims {
      assert ClaimsDifference(e, w, DifferenceClaim(e, w, d, metric));
    }
    if c :| c in claims && AboutValue(c, d.id) {
      DerivedOnlyDue(question, plan, e, w, d, c);
    }
  }

  // ---------- summaries, limitations, candidates and empty answers ----------

  lemma {:induction false} ValueNamed(text: string, t: ProductType, product: string, field: string, value: Scalar, id: string)
    ensures var c := ValueClaim(text, t, product, field, value, id);
            |c.id| > 6 && c.id[6] == 'v' && (c.kind == NumericClaim || c.kind == TextClaim)
  {
  }

  lemma {:induction false} ValueClaimNamed(plan: QueryPlan, e: EvidenceBundle, w: Wording, c: AnswerClaim)
    requires ClaimsDirect(plan, e, w, c) || ClaimsDerived(plan, e, w, c) || ClaimsDifference(e, w, c)
    ensures |c.id| > 6 && c.id[6] == 'v' && (c.kind == NumericClaim || c.kind == TextClaim)
  {
    if d :| d in e.direct && DirectDue(plan, e, d) && c == DirectClaim(w, d) {
      ValueNamed(c.text, d.productType, d.productId.value, d.fieldId, d.value, d.id);
    } else if d :| d in e.derived && DerivedDue(plan, e, d) && c == DerivedClaim(w, d) {
      ValueNamed(c.text, d.productType, d.productId.value, d.fieldId, d.value, d.id);
    } else {
      var d, metric :| d in e.derived && DifferenceDue(e, d, metric) && c == DifferenceClaim(e, w, d, metric);
      ValueNamed(c.text, d.productType, d.productId.value, d.fieldId, d.value, d.id);
    }
  }

  lemma {:induction false} CandidateInitial(name: string)
    ensures var id := "claim:candidate:" + name; |id| > 6 && id[6] == 'c'
  {
  }

  lemma {:induction false} CandidateNamed(question: string, plan: QueryPlan, e: EvidenceBundle, w: Wording, c: AnswerClaim)
    requires ClaimsCandidate(question, plan, e, w, c)
    ensures |c.id| > 6 && c.id[6] == 'c' && c.kind == CandidateClaim
  {
    var t, product :| CandidateDue(question, plan, e, t, product) && c == CandidateEntry(e, w, t, product).claim.value;
    CandidateInitial(TypeText(t) + ":" + product);
    CandidateIdentifier(e, w, t, product);
  }

  lemma {:induction false} CandidateIdentifier(e: EvidenceBundle, w: Wording, t: ProductType, product: string)
    ensures CandidateEntry(e, w, t, product).claim.value.id == "claim:candidate:" + (TypeText(t) + ":" + product)
  {
    assert "claim:candidate:" + TypeText(t) + ":" + product == "claim:candidate:" + (TypeText(t) + ":" + product);
  }

  lemma {:induction false} OpeningNamed(question: string, w: Wording, c: AnswerClaim)
    requires Stated(Opening(question, w), c)
    ensures c.id == "claim:snapshot"
  {
  }

  /** Only the summary section uses the names of summaries, each for its own summary. */
  lemma {:induction false} NamedSummary(question: string, plan: QueryPlan, e: EvidenceBundle, w: Wording, c: AnswerClaim, id: string)
    requires InSections(question, plan, e, w, c) && c.id == "claim:summary:" + id
    ensures Stated(SummarySection(question, plan, e, w, e.summaries), c)
  {
    assert c.id[6] == 's' && c.id[7] == 'u';
    if Stated(Opening(question, w), c) {
      OpeningNamed(question, w, c);
    } else if Stated(LimitationSection(e, w, e.limitations), c) {
      LimitationAside(e, w, c);
    } else if ClaimsCandidate(question, plan, e, w, c) {
      CandidateNamed(question, plan, e, w, c);
    } else if ClaimsDifference(e, w, c) || ProductClaim(question, plan, e, w, c) {
      ValueClaimNamed(plan, e, w, c);
    } else if Stated(NoResultSection(e, w), c) {
      NoResultDue(e, w, c);
    }
  }

  lemma {:induction false} SummaryNames(a: string, b: string)
    requires "claim:summary:" + a == "claim:summary:" + b
    ensures a == b
  {
    assert ("claim:summary:" + a)[14..] == a;
    assert ("claim:summary:" + b)[14..] == b;
  }

  lemma {:induction false} SummaryOnlyDue(
    question: string, plan: QueryPlan, e: EvidenceBundle, w: Wording, s: EvidenceSummary, c: AnswerClaim)
    returns (kind: LineKind)
    requires ValidBundle(e) && InSections(question, plan, e, w, c) && s in e.summaries
    requires c.id == "claim:summary:" + s.id
    ensures StatedAs(question, plan, e, s, kind)
  {
    NamedSummary(question, plan, e, w, c, s.id);
    var own;
    own, kind := SummaryDue(question, plan, e, w, c);
    SummaryNames(s.id, own.id);
    SameSummary(e, s, own);
  }

  /** A summary is claimed exactly when it is due, as the sentence it is due as. */
  lemma {:induction false} SummaryValues(
    question: string, plan: QueryPlan, e: EvidenceBundle, w: Wording, claims: seq<AnswerClaim>, s: EvidenceSummary)
    requires ValidBundle(e) && FromSections(question, plan, e, w, claims) && s in e.summaries
    ensures SummaryShown(question, plan, e, w, claims, s)
  {
    forall kind | StatedAs(question, plan, e, s, kind) ensures exists c | c in claims :: SummaryClaimOf(w, s, kind, c) {
      var c := SummaryStated(question, plan, e, w, s, kind);
      assert InSections(question, plan, e, w, c);
    }
    if c :| c in claims && c.id == "claim:summary:" + s.id {
      var kind := SummaryOnlyDue(question, plan, e, w, s, c);
    }
  }

  lemma {:induction false} LimitationOnlyDue(
    question: string, plan: QueryPlan, e: EvidenceBundle, w: Wording, c: AnswerClaim)
    requires InSections(question, plan, e, w, c) && c.kind == LimitationClaim
    ensures c.value.Str? && (c.value.s == w.snapshot || c.value.s in e.limitations)
  {
    if Stated(Opening(question, w), c) {
      OpeningAside(question, e, w, c);
    } else if Stated(LimitationSection(e, w, e.limitations), c) {
      LimitationAside(e, w, c);
    } else if Stated(SummarySection(question, plan, e, w, e.summaries), c) {
      SummaryAside(question, plan, e, w, c);
    } else if ClaimsCandidate(question, plan, e, w, c) {
      CandidateNamed(question, plan, e, w, c);
    } else if ClaimsDifference(e, w, c) || ProductClaim(question, plan, e, w, c) {
      ValueClaimNamed(plan, e, w, c);
    } else {
      NoResultAside(e, w, c);
    }
  }

  lemma {:induction false} SnapshotStated(question: string, w: Wording) returns (c: AnswerClaim)
    ensures Stated(Opening(question, w), c) && c.kind == LimitationClaim && c.value == Str(w.snapshot)
  {
    var x := Opening(question, w)[0];
    c := x.claim.value;
    assert x in Opening(question, w);
  }

  lemma {:induction false} LimitationStated(e: EvidenceBundle, w: Wording, i: nat) returns (c: AnswerClaim)
    requires i < |e.limitations| && e.limitations[i] != w.snapshot
    ensures Stated(LimitationSection(e, w, e.limitations), c) && NumberedClaim(w, i, e.limitations[i], c)
  {
    var x := LimitationEntries(e, w, i, e.limitations[i])[0];
    InLimitationSection(e, w, e.limitations, x);
    c := x.claim.value;
    StatedBy(LimitationSection(e, w, e.limitations), x, c);
    Numbered(i, c.id);
  }

  lemma {:induction false} Numbered(i: nat, id: string)
    requires id == "claim:limitation:" + Digits(i)
    ensures |id| > 17 && id[..17] == "claim:limitation:" && NumberOf(id[17..]) == i
  {
    DigitsRoundTrip(i);
    assert id[17..] == Digits(i);
  }

  lemma {:induction false} LimitationValues(
    question: string, plan: QueryPlan, e: EvidenceBundle, w: Wording, claims: seq<AnswerClaim>)
    requires FromSections(question, plan, e, w, claims)
    ensures LimitationsShown(e, w, claims)
  {
    var snapshot := SnapshotStated(question, w);
    assert InSections(question, plan, e, w, snapshot);
    forall i | 0 <= i < |e.limitations| && e.limitations[i] != w.snapshot
      ensures exists c | c in claims :: NumberedClaim(w, i, e.limitations[i], c)
    {
      var c := LimitationStated(e, w, i);
      assert InSections(question, plan, e, w, c);
    }
    forall l | l in e.limitations ensures ClaimsLimitation(claims, l) {
      var i :| 0 <= i < |e.limitations| && e.limitations[i] == l;
    }
    forall c | c in claims && c.kind == LimitationClaim
      ensures c.value.Str? && (c.value.s == w.snapshot || c.value.s in e.limitations)
    {
      LimitationOnlyDue(question, plan, e, w, c);
    }
  }

  lemma {:induction false} CandidateOnlyDue(
    question: string, plan: QueryPlan, e: EvidenceBundle, w: Wording, c: AnswerClaim)
    requires InSections(question, plan, e, w, c) && c.kind == CandidateClaim
    ensures c.productType.Some? && c.productId.Some?
    ensures CandidateDue(question, plan, e, c.productType.value, c.productId.value)
  {
    AsideSections(question, plan, e, w, c);
    if ClaimsDifference(e, w, c) || ClaimsDirect(plan, e, w, c) || ClaimsDerived(plan, e, w, c) {
      ValueClaimNamed(plan, e, w, c);
    }
  }

  lemma {:induction false} CandidateValues(
    question: string, plan: QueryPlan, e: EvidenceBundle, w: Wording, claims: seq<AnswerClaim>, t: ProductType, product: string)
    requires FromSections(question, plan, e, w, claims)
    ensures CandidateShown(question, plan, e, claims, t, product)
  {
    if CandidateDue(question, plan, e, t, product) {
      var c := CandidateEntry(e, w, t, product).claim.value;
      assert ClaimsCandidate(question, plan, e, w, c);
      assert c in claims;
    }
    if c :| c in claims && c.kind == CandidateClaim && c.productType == Some(t) && c.productId == Some(product) {
      CandidateOnlyDue(question, plan, e, w, c);
    }
  }

  lemma {:induction false} OpeningInitial(question: string, w: Wording, c: AnswerClaim)
    requires Stated(Opening(question, w), c)
    ensures |c.id| > 6 && c.id[6] == 's'
  {
    OpeningNamed(question, w, c);
    assert "claim:snapshot"[6] == 's';
  }

  /** Only the closing section uses the name of an empty answer. */
  lemma {:induction false} NamedNoResult(question: string, plan: QueryPlan, e: EvidenceBundle, w: Wording, c: AnswerClaim)
    requires InSections(question, plan, e, w, c) && |c.id| > 6 && c.id[6] == 'n'
    ensures Stated(NoResultSection(e, w), c)
  {
    if Stated(Opening(question, w), c) {
      OpeningInitial(question, w, c);
    } else if Stated(LimitationSection(e, w, e.limitations), c) {
      LimitationAside(e, w, c);
    } else if Stated(SummarySection(question, plan, e, w, e.summaries), c) {
      SummaryAside(question, plan, e, w, c);
    } else if ClaimsCandidate(question, plan, e, w, c) {
      CandidateNamed(question, plan, e, w, c);
    } else if ClaimsDifference(e, w, c) || ProductClaim(question, plan, e, w, c) {
      ValueClaimNamed(plan, e, w, c);
    }
  }

  lemma {:induction false} NoResultInitial(id: string)
    requires id == "claim:no-result"
    ensures |id| > 6 && id[6] == 'n'
  {
  }

  lemma {:induction false} NoResultOnlyDue(
    question: string, plan: QueryPlan, e: EvidenceBundle, w: Wording, c: AnswerClaim)
    requires InSections(question, plan, e, w, c) && c.id == "claim:no-result"
    ensures NothingFound(e)
  {
    NoResultInitial(c.id);
    NamedNoResult(question, plan, e, w, c);
    NoResultDue(e, w, c);
  }

  lemma {:induction false} NoResultValues(
    question: string, plan: QueryPlan, e: EvidenceBundle, w: Wording, claims: seq<AnswerClaim>)
    requires FromSections(question, plan, e, w, claims)
    ensures NoResultShown(e, w, claims)
  {
    if NothingFound(e) {
      var c := NoResultStated(e, w);
      assert InSections(question, plan, e, w, c);
    }
    if c :| c in claims && c.id == "claim:no-result" {
      NoResultOnlyDue(question, plan, e, w, c);
    }
  }

  lemma {:induction false} AllAccounted(question: string, plan: QueryPlan, e: EvidenceBundle, w: Wording, c: AnswerClaim)
    requires InSections(question, plan, e, w, c)
    ensures Accounted(e, c)
  {
    if Stated(Opening(question, w), c) {
      OpeningAside(question, e, w, c);
    } else if Stated(LimitationSection(e, w, e.limitations), c) {
      LimitationAside(e, w, c);
    } else if Stated(SummarySection(question, plan, e, w, e.summaries), c) {
      var s, kind := SummaryDue(question, plan, e, w, c);
    } else if ClaimsCandidate(question, plan, e, w, c) {
      CandidateNamed(question, plan, e, w, c);
    } else if Stated(NoResultSection(e, w), c) {
      NoResultDue(e, w, c);
    }
  }

  /** Main theorem: a rendered answer shows exactly what is due. */
  lemma {:induction false} RenderedShows(
    question: string, plan: QueryPlan, e: EvidenceBundle, w: Wording, draft: AnswerDraft)
    requires ValidBundle(e) && Rendered(question, plan, e, w) == Some(draft)
    ensures ShowsExactly(question, plan, e, w, draft.claims)
  {
    DraftSections(question, plan, e, w, draft);
    SectionsShow(question, plan, e, w, draft.claims);
  }

  lemma {:induction false} SectionsShow(question: string, plan: QueryPlan, e: EvidenceBundle, w: Wording, claims: seq<AnswerClaim>)
    requires ValidBundle(e) && FromSections(question, plan, e, w, claims)
    ensures ShowsExactly(question, plan, e, w, claims)
  {
    forall d | d in e.direct ensures DirectShown(plan, e, w, claims, d) {
      DirectValues(question, plan, e, w, claims, d);
    }
    forall d | d in e.derived ensures DerivedShown(plan, e, w, claims, d) {
      DerivedValues(question, plan, e, w, claims, d);
    }
    forall s | s in e.summaries ensures SummaryShown(question, plan, e, w, claims, s) {
      SummaryValues(question, plan, e, w, claims, s);
    }
    forall t, product ensures CandidateShown(question, plan, e, claims, t, product) {
      CandidateValues(question, plan, e, w, claims, t, product);
    }
    LimitationValues(question, plan, e, w, claims);
    NoResultValues(question, plan, e, w, claims);
    forall c | c in claims ensures Accounted(e, c) {
      AllAccounted(question, plan, e, w, c);
    }
  }

  // ---------- exceptions ----------

  /** Sentences that read the first product type of their summary. */
  predicate ReadsType(kind: LineKind) {
    kind == Population || kind == RankLine || kind == RecordedLine || kind == AggregateLine
  }

  /** No due value is structured, and no due sentence lacks the product type it reads. */
  ghost predicate NothingRaises(question: string, plan: QueryPlan, e: EvidenceBundle) {
    && (forall d | d in e.direct && DirectDue(plan, e, d) :: !d.value.Structured?)
    && (forall d | d in e.derived && DerivedDue(plan, e, d) :: !d.value.Structured?)
    && (forall s, kind | s in e.summaries && StatedAs(question, plan, e, s, kind) && ReadsType(kind) ::
          s.productTypes != [])
  }

  lemma {:induction false} SummaryRaises(question: string, plan: QueryPlan, e: EvidenceBundle, w: Wording)
    ensures Raise in SummarySection(question, plan, e, w, e.summaries) <==>
            exists s, kind | s in e.summaries && StatedAs(question, plan, e, s, kind) && ReadsType(kind) ::
              s.productTypes == []
  {
    InSummarySection(question, plan, e, w, e.summaries, Raise);
    if s :| s in e.summaries && OfSummary(question, plan, e, w, s, Raise) {
      ClassifiedExactly(question, plan, e, s, Classify(question, plan, e, s));
    }
    if s, kind :| s in e.summaries && StatedAs(question, plan, e, s, kind) && ReadsType(kind) && s.productTypes == [] {
      ClassifiedExactly(question, plan, e, s, kind);
      assert OfSummary(question, plan, e, w, s, Raise);
    }
  }

  lemma {:induction false} RaisingValue(
    question: string, plan: QueryPlan, e: EvidenceBundle, w: Wording, t: ProductType, product: string)
    requires (t, Some(product)) in Products(plan, e) && Raise in ProductEntries(question, plan, e, w, t, product)
    ensures (exists d | d in e.direct && DirectDue(plan, e, d) :: d.value.Structured?)
            || (exists d | d in e.derived && DerivedDue(plan, e, d) :: d.value.Structured?)
  {
    InProductEntries(question, plan, e, w, t, product, Raise);
    InDirectEntries(plan, e, w, t, product, Raise);
    InDerivedEntries(e, w, t, product, Raise);
    if DirectEntryOf(plan, e, w, t, product, Raise) {
      var d :| d in e.direct && d.productType == t && d.productId == Some(product)
               && ShowsDirect(plan, e, t, product, d) && ValueEntry(w, t, product, d.fieldId, d.id, d.value) == Raise;
      DirectDueExactly(plan, e, d, product);
    } else {
      var d :| d in e.derived && d.productType == t && d.productId == Some(product)
               && ShowsDerived(e, t, product, d) && ValueEntry(w, t, product, d.fieldId, d.id, d.value) == Raise;
      DerivedDueExactly(plan, e, d, product);
    }
  }

  lemma {:induction false} ProductRaises(question: string, plan: QueryPlan, e: EvidenceBundle, w: Wording)
    ensures Raise in ProductSection(question, plan, e, w, Products(plan, e)) <==>
              || (exists d | d in e.direct && DirectDue(plan, e, d) :: d.value.Structured?)
              || (exists d | d in e.derived && DerivedDue(plan, e, d) :: d.value.Structured?)
  {
    InProductSection(question, plan, e, w, Products(plan, e), Raise);
    if p :| p in Products(plan, e) && OfProductEntries(question, plan, e, w, p, Raise) {
      assert p == (p.0, Some(p.1.value));
      RaisingValue(question, plan, e, w, p.0, p.1.value);
    }
    if d :| d in e.direct && DirectDue(plan, e, d) && d.value.Structured? {
      DirectStated(question, plan, e, w, d);
    }
    if d :| d in e.derived && DerivedDue(plan, e, d) && d.value.Structured? {
      DerivedStated(question, plan, e, w, d);
    }
  }

  lemma {:induction false} ElsewhereNoRaise(question: string, e: EvidenceBundle, w: Wording)
    ensures Raise !in Opening(question, w) && Raise !in NoResultSection(e, w)
    ensures Raise !in LimitationSection(e, w, e.limitations) && Raise !in ConclusionSection(e, w, e.derived)
  {
    InLimitationSection(e, w, e.limitations, Raise);
    InConclusionSection(e, w, e.derived, Raise);
  }

  /** Rendering meets an exception exactly when a due value is structured or a due sentence lacks its product type. */
  lemma {:induction false} RaisesExactly(question: string, plan: QueryPlan, e: EvidenceBundle, w: Wording)
    ensures Raise !in Entries(question, plan, e, w) <==> NothingRaises(question, plan, e)
  {
    SummaryRaises(question, plan, e, w);
    ProductRaises(question, plan, e, w);
    ElsewhereNoRaise(question, e, w);
    InAll(Raise, Opening(question, w), SummarySection(question, plan, e, w, e.summaries),
          LimitationSection(e, w, e.limitations), ConclusionSection(e, w, e.derived),
          ProductSection(question, plan, e, w, Products(plan, e)), NoResultSection(e, w));
  }

  lemma {:induction false} InAll(
    x: Entry, o: seq<Entry>, s: seq<Entry>, l: seq<Entry>, d: seq<Entry>, p: seq<Entry>, n: seq<Entry>)
    ensures x in o + s + l + d + p + n <==> x in o || x in s || x in l || x in d || x in p || x in n
  {
  }

  // ---------- an example ----------

  /** A product with its identifier, its name and one metric in evidence. */
  predicate OneProduct(id: DirectEvidence, name: DirectEvidence, metric: DirectEvidence) {
    && id.productId.Some? && id.productId == name.productId == metric.productId
    && id.productType == name.productType == metric.productType
    && id.fieldId == "product_id" && name.fieldId == "product_name" && metric.fieldId == "nav"
    && id.id != name.id && id.id != metric.id && name.id != metric.id
  }

  function OnlyDirect(direct: seq<DirectEvidence>): EvidenceBundle {
    EvidenceBundle(direct, [], [], [], [], [])
  }

  lemma {:induction false} OnlyDirectValid(id: DirectEvidence, name: DirectEvidence, metric: DirectEvidence)
    requires OneProduct(id, name, metric)
    ensures ValidBundle(OnlyDirect([id, name, metric]))
  {
    assert |Items(OnlyDirect([id, name, metric]))| == 3;
  }

  lemma {:induction false} OnlyMetricDue(id: DirectEvidence, name: DirectEvidence, metric: DirectEvidence)
    requires OneProduct(id, name, metric)
    ensures var plan, e := QueryPlan(Lookup, ["nav"], [], [], None), OnlyDirect([id, name, metric]);
            DirectDue(plan, e, metric) && !DirectDue(plan, e, id) && !DirectDue(plan, e, name)
  {
  }

  /** A lookup of one metric shows its value, and neither the identifier nor the name of the product. */
  lemma {:induction false} LookupShowsMetric(
    question: string, w: Wording, id: DirectEvidence, name: DirectEvidence, metric: DirectEvidence, draft: AnswerDraft)
    requires OneProduct(id, name, metric)
    requires Rendered(question, QueryPlan(Lookup, ["nav"], [], [], None), OnlyDirect([id, name, metric]), w) == Some(draft)
    ensures DirectClaim(w, metric) in draft.claims
    ensures forall c | c in draft.claims :: !AboutValue(c, id.id) && !AboutValue(c, name.id)
  {
    var plan, e := QueryPlan(Lookup, ["nav"], [], [], None), OnlyDirect([id, name, metric]);
    OnlyDirectValid(id, name, metric);
    OnlyMetricDue(id, name, metric);
    DraftSections(question, plan, e, w, draft);
    DirectValues(question, plan, e, w, draft.claims, id);
    DirectValues(question, plan, e, w, draft.claims, name);
    DirectValues(question, plan, e, w, draft.claims, metric);
  }
}
