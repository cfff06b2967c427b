/** Claim verification: every claim of a draft is checked against the evidence it cites. */
module Verifier {
  import opened Wrappers
  import opened Text
  import opened Evidence

  /** The verifier's dictionary; a later item replaces an earlier one with the same identifier. */
  function ValuesOf(items: seq<Item>): (values: map<string, Item>)
    ensures forall id | id in values :: values[id] in items && values[id].id == id
    ensures forall item | item in items :: item.id in values
  {
    if items == [] then map[]
    else ValuesOf(items[..|items| - 1])[items[|items| - 1].id := items[|items| - 1]]
  }

  predicate MatchesItem(claim: AnswerClaim, item: Item) {
    && (claim.productTypes != [] ==> item.productTypes == claim.productTypes)
    && (item.grains != [] ==> item.productTypes == claim.productTypes)
    && (claim.grains != [] ==> item.grains == claim.grains)
    && (item.grains != [] ==> item.grains == claim.grains)
    && (claim.partitionKey.Some? ==> item.partitionKey == claim.partitionKey)
    && (item.partitionKey.Some? ==> item.partitionKey == claim.partitionKey)
    && (claim.productType.Some? ==> item.productTypes == [claim.productType.value])
    && item.productId == claim.productId
    && item.fieldId == claim.fieldId
    && item.value == claim.value
    && (claim.groupValues != [] ==> item.groupValues == claim.groupValues)
    && (item.groupValues != [] ==> item.groupValues == claim.groupValues)
  }

  /** The sign comparison, after a match has made the claimed and the cited value equal. */
  predicate SignHolds(sign: Option<ValueSign>, value: Scalar) {
    match sign
    case None => true
    case Some(claimed) =>
      match value
      case Int(i) => claimed == (if i > 0 then Positive else if i < 0 then Negative else Zero)
      case Dec(d) => claimed == (if d > 0.0 then Positive else if d < 0.0 then Negative else Zero)
      case _ => false
  }

  predicate MatchesValueClaim(claim: AnswerClaim, values: map<string, Item>) {
    && (forall id | id in claim.evidenceIds :: id in values)
    && (exists id | id in claim.evidenceIds :: MatchesItem(claim, values[id]))
    && SignHolds(claim.sign, claim.value)
  }

  predicate MatchesCandidateClaim(claim: AnswerClaim, values: map<string, Item>) {
    && claim.evidenceIds != []
    && forall id | id in claim.evidenceIds ::
         id in values && claim.productType.Some?
         && values[id].productTypes == [claim.productType.value] && values[id].productId == claim.productId
  }

  function RecordIds(records: seq<HoldingRecordRef>, t: ProductType, owner: string): set<string> {
    set r | r in records && r.ownerType == t && r.ownerId == owner :: r.id
  }

  function CoverageIds(coverage: seq<HoldingCoverageRef>, t: ProductType, owner: string): set<string> {
    set c | c in coverage && c.ownerType == t && c.ownerId == owner :: c.id
  }

  function IdentityIds(direct: seq<DirectEvidence>, t: ProductType, owner: string): set<string> {
    set d | d in direct && d.productType == t && d.productId == Some(owner) && d.fieldId == "product_id" :: d.id
  }

  predicate HoldingEvidenceComplete(claim: AnswerClaim, e: EvidenceBundle) {
    if claim.productType.None? || claim.productId.None? then true
    else
      var records := RecordIds(e.holdingRecords, claim.productType.value, claim.productId.value);
      var coverage := CoverageIds(e.holdingCoverage, claim.productType.value, claim.productId.value);
      var identity := IdentityIds(e.direct, claim.productType.value, claim.productId.value);
      records == {} || (
        && identity != {} && coverage != {}
        && (exists id | id in claim.evidenceIds :: id in identity)
        && (exists id | id in claim.evidenceIds :: id in records)
        && (exists id | id in claim.evidenceIds :: id in coverage))
  }

  const OVERSEAS_RETURN := "해외 ETF/ETN의 1년 수익률"
  const TOP_TEN := "상위 10개 부분 자료"
  const CONSTITUENTS := "구성종목 자료"
  const NOT_PROVIDED := "제공되지 않아"
  const PARTIAL_RANGE := "부분 범위"
  const OVERSEAS_KEY := "limitation:overseas-return-1y"

  predicate RequiresLimitationEvidence(limitation: string) {
    || StartsWith(limitation, OVERSEAS_RETURN)
    || Contains(limitation, TOP_TEN)
    || Contains(limitation, CONSTITUENTS)
  }

  predicate CoverageSummaryBacks(limitation: string, s: EvidenceSummary) {
    && s.kind == CoverageSummary
    && s.productTypes != []
    && StartsWith(limitation, TypeText(s.productTypes[0]))
    && (if Contains(limitation, NOT_PROVIDED) then
          s.partitionKey.Some? && EndsWith(s.partitionKey.value, ":" + StateText(Unavailable))
        else if Contains(limitation, PARTIAL_RANGE) then
          s.partitionKey.Some? && EndsWith(s.partitionKey.value, ":" + StateText(PartialTop10))
        else true)
  }

  /** The evidence a limitation of this wording must cite. */
  function RequiredLimitationEvidence(limitation: string, e: EvidenceBundle): set<string> {
    if StartsWith(limitation, OVERSEAS_RETURN) then
      set s | s in e.summaries && s.partitionKey == Some(OVERSEAS_KEY) :: s.id
    else if Contains(limitation, TOP_TEN) then
      set c | c in e.holdingCoverage && c.state == PartialTop10 :: c.id
    else if Contains(limitation, CONSTITUENTS) then
      set s | s in e.summaries && CoverageSummaryBacks(limitation, s) :: s.id
    else {}
  }

  predicate LimitationBacked(claim: AnswerClaim, e: EvidenceBundle) {
    match claim.value
    case Str(limitation) =>
      RequiresLimitationEvidence(limitation) ==>
        var required := RequiredLimitationEvidence(limitation, e);
        required != {} && forall id | id in required :: id in claim.evidenceIds
    case _ => true
  }

  predicate SafeText(text: string, forbidden: seq<string>) {
    forall pattern | pattern in forbidden :: !Contains(text, pattern)
  }

  predicate CitesRank(claim: AnswerClaim, e: EvidenceBundle) {
    exists s | s in e.summaries :: s.kind == RankSummary && s.id in claim.evidenceIds
  }

  /** Everything `verify` checks of one claim apart from its wording. */
  predicate ClaimFits(claim: AnswerClaim, e: EvidenceBundle) {
    var values := ValuesOf(Items(e));
    && claim.kind != RecommendationClaim
    && (claim.kind == NumericClaim ==> claim.evidenceIds != [])
    && (forall id | id in claim.evidenceIds :: id in values)
    && (claim.kind == CandidateClaim ==> MatchesCandidateClaim(claim, values))
    && (claim.kind == CandidateClaim || CitesRank(claim, e) ==> HoldingEvidenceComplete(claim, e))
    && (claim.kind == LimitationClaim ==> LimitationBacked(claim, e))
    && (claim.kind == NumericClaim || claim.fieldId.Some? ==> MatchesValueClaim(claim, values))
  }

  predicate ClaimsLimitation(claims: seq<AnswerClaim>, limitation: string) {
    exists c | c in claims :: c.kind == LimitationClaim && c.value == Str(limitation)
  }

  /** What an accepted draft means. */
  predicate Accepts(draft: AnswerDraft, e: EvidenceBundle, forbidden: seq<string>) {
    && (forall l | l in e.limitations :: ClaimsLimitation(draft.claims, l))
    && (forall c | c in draft.claims :: ClaimAccepted(c, draft.text, e, forbidden))
  }

  /** One claim passes every check. */
  predicate ClaimAccepted(claim: AnswerClaim, text: string, e: EvidenceBundle, forbidden: seq<string>) {
    SafeText(claim.text, forbidden) && Contains(text, claim.text) && ClaimFits(claim, e)
  }

  /** The limitation check. */
  method CheckLimitations(limitations: seq<string>, claims: seq<AnswerClaim>) returns (ok: bool)
    ensures ok <==> forall l | l in limitations :: ClaimsLimitation(claims, l)
  {
    for i := 0 to |limitations|
      invariant forall j | 0 <= j < i :: ClaimsLimitation(claims, limitations[j])
    {
      if !ClaimsLimitation(claims, limitations[i]) {
        assert limitations[i] in limitations;
        return false;
      }
    }
    return true;
  }

  /** The claim loop. */
  method CheckClaims(claims: seq<AnswerClaim>, text: string, e: EvidenceBundle, forbidden: seq<string>) returns (ok: bool)
    ensures ok <==> forall c | c in claims :: ClaimAccepted(c, text, e, forbidden)
  {
    for i := 0 to |claims|
      invariant forall j | 0 <= j < i :: ClaimAccepted(claims[j], text, e, forbidden)
    {
      if !ClaimAccepted(claims[i], text, e, forbidden) {
        assert claims[i] in claims;
        return false;
      }
    }
    return true;
  }

  /** `ClaimVerifier.verify`: false stands for every `ValueError` it raises. */
  method Verify(draft: AnswerDraft, e: EvidenceBundle, forbidden: seq<string>) returns (accepted: bool)
    ensures accepted <==> Accepts(draft, e, forbidden)
  {
    accepted := CheckLimitations(e.limitations, draft.claims);
    if accepted {
      accepted := CheckClaims(draft.claims, draft.text, e, forbidden);
    }
  }

  /** With unique identifiers a cited identifier means exactly one item. */
  lemma {:induction false} CitedValue(e: EvidenceBundle, item: Item)
    requires ValidBundle(e)
    requires item in Items(e)
    ensures item.id in ValuesOf(Items(e)) && ValuesOf(Items(e))[item.id] == item
  {
    var items := Items(e);
    var found := ValuesOf(items)[item.id];
    var i :| 0 <= i < |items| && items[i] == item;
    var j :| 0 <= j < |items| && items[j] == found;
    assert i == j;
  }

  /** A claim cites evidence that states this value. */
  predicate CitesValue(claim: AnswerClaim, value: Scalar, e: EvidenceBundle) {
    exists id | id in claim.evidenceIds :: id in ValuesOf(Items(e)) && ValuesOf(Items(e))[id].value == value
  }

  /** A numeric claim with a forged value is caught, whatever else it says, unless evidence it cites states that value. */
  lemma {:induction false} TamperedValueRejected(
    claim: AnswerClaim, forged: Scalar, sign: Option<ValueSign>, e: EvidenceBundle)
    requires claim.kind == NumericClaim && !CitesValue(claim, forged, e)
    ensures !ClaimFits(claim.(value := forged, sign := sign), e)
  {
    var tampered, values := claim.(value := forged, sign := sign), ValuesOf(Items(e));
    forall id | id in claim.evidenceIds && id in values ensures !MatchesItem(tampered, values[id]) {
    }
  }

  /** So an accepted claim with one citation cannot carry any other value. */
  lemma {:induction false} SingleCitationTampered(
    claim: AnswerClaim, forged: Scalar, sign: Option<ValueSign>, e: EvidenceBundle)
    requires claim.kind == NumericClaim && |claim.evidenceIds| == 1 && ClaimFits(claim, e) && forged != claim.value
    ensures !ClaimFits(claim.(value := forged, sign := sign), e)
  {
    FittingCitation(claim, e);
    TamperedValueRejected(claim, forged, sign, e);
  }

  lemma {:induction false} FittingCitation(claim: AnswerClaim, e: EvidenceBundle)
    requires claim.kind == NumericClaim && |claim.evidenceIds| == 1 && ClaimFits(claim, e)
    ensures forall id | id in claim.evidenceIds :: id in ValuesOf(Items(e)) && ValuesOf(Items(e))[id].value == claim.value
  {
    OnlyMatch(claim, ValuesOf(Items(e)));
  }

  lemma {:induction false} OnlyMatch(claim: AnswerClaim, values: map<string, Item>)
    requires |claim.evidenceIds| == 1 && MatchesValueClaim(claim, values)
    ensures forall id | id in claim.evidenceIds :: id in values && values[id].value == claim.value
  {
    var only := claim.evidenceIds[0];
    forall id | id in claim.evidenceIds ensures id == only {
    }
  }

  // ---------- what is never accepted ----------

  /** The sign of a number, said of the number itself; anything else has none. */
  predicate HasSign(value: Scalar, sign: ValueSign) {
    || (sign == Positive && ((value.Int? && value.i > 0) || (value.Dec? && value.d > 0.0)))
    || (sign == Negative && ((value.Int? && value.i < 0) || (value.Dec? && value.d < 0.0)))
    || (sign == Zero && ((value.Int? && value.i == 0) || (value.Dec? && value.d == 0.0)))
  }

  /** Evidence this limitation must cite, by its wording. */
  ghost predicate MustCite(limitation: string, e: EvidenceBundle, id: string) {
    if OVERSEAS_RETURN <= limitation then
      exists s | s in e.summaries :: s.partitionKey == Some("limitation:overseas-return-1y") && s.id == id
    else if Contains(limitation, TOP_TEN) then
      exists c | c in e.holdingCoverage :: c.state == PartialTop10 && c.id == id
    else if Contains(limitation, CONSTITUENTS) then
      exists s | s in e.summaries :: CoverageSummaryBacks(limitation, s) && s.id == id
    else false
  }

  /** A limitation about returns, partial or missing constituents that leaves out such evidence, or has none. */
  ghost predicate Uncited(claim: AnswerClaim, e: EvidenceBundle) {
    && claim.kind == LimitationClaim && claim.value.Str?
    && var l := claim.value.s;
       && (OVERSEAS_RETURN <= l || Contains(l, TOP_TEN) || Contains(l, CONSTITUENTS))
       && ((exists id :: MustCite(l, e, id) && id !in claim.evidenceIds) || forall id :: !MustCite(l, e, id))
  }

  /** No cited item states this value of this field of this product. */
  ghost predicate Unmatched(claim: AnswerClaim, e: EvidenceBundle) {
    forall item | item in Items(e) && item.id in claim.evidenceIds ::
      item.value != claim.value || item.productId != claim.productId || item.fieldId != claim.fieldId
  }

  /** Some cited item is about another product. */
  ghost predicate CitesOthers(claim: AnswerClaim, e: EvidenceBundle) {
    exists item | item in Items(e) && item.id in claim.evidenceIds ::
      item.productId != claim.productId || claim.productType.None? || item.productTypes != [claim.productType.value]
  }

  /** The claim is about a product with holdings, and leaves out its identity, its holdings or its coverage. */
  ghost predicate HoldingsUncited(claim: AnswerClaim, e: EvidenceBundle) {
    && claim.productType.Some? && claim.productId.Some?
    && (exists r | r in e.holdingRecords ::
          r.ownerType == claim.productType.value && r.ownerId == claim.productId.value)
    && ((forall r | r in e.holdingRecords && r.id in claim.evidenceIds ::
           r.ownerType != claim.productType.value || r.ownerId != claim.productId.value)
        || (forall c | c in e.holdingCoverage && c.id in claim.evidenceIds ::
              c.ownerType != claim.productType.value || c.ownerId != claim.productId.value)
        || (forall d | d in e.direct && d.id in claim.evidenceIds ::
              d.productType != claim.productType.value || d.productId != claim.productId || d.fieldId != "product_id"))
  }

  /** The faults a claim can have, each said without the verifier's checks. */
  ghost predicate Faulty(claim: AnswerClaim, text: string, e: EvidenceBundle, forbidden: seq<string>) {
    || claim.kind == RecommendationClaim
    || (exists pattern | pattern in forbidden :: Contains(claim.text, pattern))
    || !Contains(text, claim.text)
    || (claim.kind == NumericClaim && claim.evidenceIds == [])
    || (exists id | id in claim.evidenceIds :: forall item | item in Items(e) :: item.id != id)
    || ((claim.kind == NumericClaim || claim.fieldId.Some?) && Unmatched(claim, e))
    || ((claim.kind == NumericClaim || claim.fieldId.Some?)
        && claim.sign.Some? && !HasSign(claim.value, claim.sign.value))
    || (claim.kind == CandidateClaim && CitesOthers(claim, e))
    || ((claim.kind == CandidateClaim || exists s | s in e.summaries :: s.kind == RankSummary && s.id in claim.evidenceIds)
        && HoldingsUncited(claim, e))
    || Uncited(claim, e)
  }

  lemma {:induction false} SignOnly(sign: Option<ValueSign>, value: Scalar)
    ensures SignHolds(sign, value) <==> sign.None? || HasSign(value, sign.value)
  {
  }

  lemma {:induction false} MustCiteExactly(limitation: string, e: EvidenceBundle)
    ensures forall id :: id in RequiredLimitationEvidence(limitation, e) <==> MustCite(limitation, e, id)
  {
  }

  lemma {:induction false} UncitedRejected(claim: AnswerClaim, e: EvidenceBundle)
    requires Uncited(claim, e)
    ensures !ClaimFits(claim, e)
  {
    MustCiteExactly(claim.value.s, e);
    if forall id :: !MustCite(claim.value.s, e, id) {
      assert RequiredLimitationEvidence(claim.value.s, e) == {};
    }
  }

  lemma {:induction false} ForeignCandidateRejected(claim: AnswerClaim, e: EvidenceBundle)
    requires ValidBundle(e) && claim.kind == CandidateClaim && CitesOthers(claim, e)
    ensures !ClaimFits(claim, e)
  {
    forall item | item in Items(e) && item.id in claim.evidenceIds
      ensures item.id in ValuesOf(Items(e)) && ValuesOf(Items(e))[item.id] == item
    {
      CitedValue(e, item);
    }
  }

  lemma {:induction false} HoldingsUncitedRejected(claim: AnswerClaim, e: EvidenceBundle)
    requires HoldingsUncited(claim, e)
    ensures !HoldingEvidenceComplete(claim, e)
  {
    var t, owner := claim.productType.value, claim.productId.value;
    var r :| r in e.holdingRecords && r.ownerType == t && r.ownerId == owner;
    assert r.id in RecordIds(e.holdingRecords, t, owner);
  }

  lemma {:induction false} UnmatchedRejected(claim: AnswerClaim, e: EvidenceBundle)
    requires (claim.kind == NumericClaim || claim.fieldId.Some?) && Unmatched(claim, e)
    ensures !ClaimFits(claim, e)
  {
    var values := ValuesOf(Items(e));
    forall id | id in claim.evidenceIds && id in values ensures !MatchesItem(claim, values[id]) {
      assert values[id] in Items(e) && values[id].id in claim.evidenceIds;
    }
  }

  /** One faulty claim has the whole draft rejected. */
  lemma {:induction false} FaultRejected(draft: AnswerDraft, e: EvidenceBundle, forbidden: seq<string>, claim: AnswerClaim)
    requires ValidBundle(e) && claim in draft.claims && Faulty(claim, draft.text, e, forbidden)
    ensures !Accepts(draft, e, forbidden)
  {
    SignOnly(claim.sign, claim.value);
    if HoldingsUncited(claim, e) {
      HoldingsUncitedRejected(claim, e);
    }
    if Uncited(claim, e) {
      UncitedRejected(claim, e);
    } else if claim.kind == CandidateClaim && CitesOthers(claim, e) {
      ForeignCandidateRejected(claim, e);
    } else if (claim.kind == NumericClaim || claim.fieldId.Some?) && Unmatched(claim, e) {
      UnmatchedRejected(claim, e);
    }
  }

  /** So is a draft that leaves out a material limitation. */
  lemma {:induction false} MissingLimitationRejected(draft: AnswerDraft, e: EvidenceBundle, forbidden: seq<string>, limitation: string)
    requires limitation in e.limitations
    requires forall c | c in draft.claims :: c.kind != LimitationClaim || c.value != Str(limitation)
    ensures !Accepts(draft, e, forbidden)
  {
    assert !ClaimsLimitation(draft.claims, limitation);
  }
}
