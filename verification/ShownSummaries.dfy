/** Which summaries an answer states, as which sentence, from the question, the plan and the bundle alone. */
module ShownSummaries {
  import opened Wrappers
  import opened Text
  import opened Sequences
  import opened Evidence
  import opened Renderer
  import opened RenderedAnswers

  // ---------- what is due ----------

  predicate Keyed(s: EvidenceSummary, prefix: string) {
    s.partitionKey.Some? && prefix <= s.partitionKey.value
  }

  /** The first count of the bundle. */
  predicate FirstCount(e: EvidenceBundle, s: EvidenceSummary) {
    exists k | 0 <= k < |e.summaries| ::
      && e.summaries[k] == s && s.kind == CountSummary
      && forall j | 0 <= j < k :: e.summaries[j].kind != CountSummary
  }

  /** The plan counts without groups, and the count it aggregates differs from the overall one. */
  predicate CountsDiffer(plan: QueryPlan, e: EvidenceBundle, count: Scalar) {
    && plan.intent == Aggregate && plan.aggregation.Some?
    && plan.aggregation.value.function_ == CountOf && plan.aggregation.value.groupBy == []
    && exists s | s in e.summaries ::
         s.kind == AggregateSummary && s.policyVersions != [] && EndsWith(s.policyVersions[0], ":count")
         && !PythonEqual(s.value, count)
  }

  /** The overall count stands beside a state-validated or a differing aggregated count. */
  predicate OverallCount(plan: QueryPlan, e: EvidenceBundle, s: EvidenceSummary) {
    && FirstCount(e, s) && s.value.Int?
    && ((exists r | r in e.summaries :: r.kind == CountSummary && Keyed(r, "state-validated:"))
        || CountsDiffer(plan, e, s.value))
  }

  predicate OtherCount(plan: QueryPlan, e: EvidenceBundle, s: EvidenceSummary) {
    s.kind == CountSummary && s.value != Missing && !OverallCount(plan, e, s)
  }

  /** The question asks for the size of a metric's population. */
  predicate AsksFor(question: string, population: string) {
    && (exists t | t in ["개수", " 수를", " 수도", " 수와", " 수,", "몇 개", "따로"] :: Contains(question, t))
    && ((population == "missing" && (Contains(question, "누락") || Contains(question, "결측")))
        || (population == "zero"
            && exists t | t in ["기록된 0", "0으로 기록", "0값", "0%", "0·", "0과", "0 공동"] :: Contains(question, t))
        || (population == "included" && (Contains(question, "포함 개수") || Contains(question, "포함 수"))))
  }

  /** The key's population is one the question asks for. */
  predicate PopulationAsked(question: string, s: EvidenceSummary) {
    s.partitionKey.Some? && exists population | population in ["missing", "zero", "included"] ::
      AsksFor(question, population) && EndsWith(s.partitionKey.value, ":" + population)
  }

  /** Rank sentences already stand for this partition. */
  predicate RankedPartition(e: EvidenceBundle, s: EvidenceSummary) {
    s.partitionKey.Some? && exists r | r in e.summaries :: r.kind == RankSummary && r.partitionKey == s.partitionKey
  }

  /** The summary is stated as a sentence of this kind. */
  predicate StatedAs(question: string, plan: QueryPlan, e: EvidenceBundle, s: EvidenceSummary, kind: LineKind) {
    match kind
    case SourceCount => OverallCount(plan, e, s)
    case StateValidated => OtherCount(plan, e, s) && Keyed(s, "state-validated:")
    case StateDifference => OtherCount(plan, e, s) && Keyed(s, "state-difference:")
    case Population => OtherCount(plan, e, s) && Keyed(s, "policy:") && PopulationAsked(question, s)
    case PartitionSize =>
      && s.kind == PartitionSummary && s.value != Missing && plan.intent != Aggregate
      && (PythonEqual(s.value, Int(0)) || !RankedPartition(e, s))
    case RankLine => s.kind == RankSummary && s.value != Missing
    case RecordedLine => s.kind == RecordedSummary
    case AggregateLine => s.kind == AggregateSummary && s.value != Missing
    case TieLine => s.kind == TieSummary
    case Silent => false
  }

  // ---------- the renderer's choice is this one ----------

  lemma {:induction false} FirstSummaryAt(summaries: seq<EvidenceSummary>, wanted: EvidenceSummary -> bool, k: nat)
    requires k < |summaries| && wanted(summaries[k]) && forall j | 0 <= j < k :: !wanted(summaries[j])
    ensures FirstSummary(summaries, wanted) == Some(summaries[k])
  {
    if k > 0 {
      FirstSummaryAt(summaries[1..], wanted, k - 1);
    }
  }

  lemma {:induction false} FirstSummaryFound(summaries: seq<EvidenceSummary>, wanted: EvidenceSummary -> bool)
    returns (k: nat)
    requires exists s | s in summaries :: wanted(s)
    ensures k < |summaries| && wanted(summaries[k]) && forall j | 0 <= j < k :: !wanted(summaries[j])
    ensures FirstSummary(summaries, wanted) == Some(summaries[k])
  {
    if wanted(summaries[0]) {
      k := 0;
    } else {
      assert summaries == [summaries[0]] + summaries[1..];
      k := FirstSummaryFound(summaries[1..], wanted);
      k := k + 1;
    }
  }

  lemma {:induction false} FirstCountExactly(e: EvidenceBundle, s: EvidenceSummary)
    ensures FirstCount(e, s) <==> CountSummaryOf(e) == Some(s)
  {
    var wanted := (s: EvidenceSummary) => s.kind == CountSummary;
    if k :| 0 <= k < |e.summaries| && e.summaries[k] == s && s.kind == CountSummary
            && forall j | 0 <= j < k :: e.summaries[j].kind != CountSummary {
      FirstSummaryAt(e.summaries, wanted, k);
    }
    if CountSummaryOf(e) == Some(s) {
      var k := FirstSummaryFound(e.summaries, wanted);
    }
  }

  lemma {:induction false} OverallExactly(plan: QueryPlan, e: EvidenceBundle, s: EvidenceSummary)
    ensures OverallCount(plan, e, s) <==> SourceCountOf(plan, e) == Some(s)
  {
    FirstCountExactly(e, s);
  }

  lemma {:induction false} RequestedExactly(question: string, population: string)
    ensures population in RequestedPopulations(question) <==> AsksFor(question, population)
  {
  }

  lemma {:induction false} LastPart(key: string)
    ensures ':' !in AfterLastColon(key) && |AfterLastColon(key)| <= |key|
    ensures key[|key| - |AfterLastColon(key)|..] == AfterLastColon(key)
    ensures ':' in key ==> |AfterLastColon(key)| < |key| && key[|key| - |AfterLastColon(key)| - 1] == ':'
  {
    if key != "" && key[|key| - 1] != ':' {
      assert key == key[..|key| - 1] + [key[|key| - 1]];
      LastPart(key[..|key| - 1]);
    }
  }

  lemma {:induction false} LastPartOf(head: string, population: string)
    requires ':' !in population
    ensures AfterLastColon(head + ":" + population) == population
  {
    var key := head + ":" + population;
    if population != "" {
      var init := population[..|population| - 1];
      assert population == init + [population[|population| - 1]];
      LastPartOf(head, init);
      assert key[..|key| - 1] == head + ":" + init;
    }
  }

  /** With a colon in the key, its last part is what follows the last colon. */
  lemma {:induction false} LastPartExactly(key: string, population: string)
    requires ':' in key && ':' !in population
    ensures AfterLastColon(key) == population <==> EndsWith(key, ":" + population)
  {
    LastPart(key);
    if AfterLastColon(key) == population {
      assert key[|key| - |population| - 1..] == ":" + population;
    }
    if EndsWith(key, ":" + population) {
      var head := key[..|key| - |population| - 1];
      assert key == head + ":" + population;
      LastPartOf(head, population);
    }
  }

  lemma {:induction false} PopulationExactly(question: string, s: EvidenceSummary)
    requires Keyed(s, "policy:")
    ensures AfterLastColon(s.partitionKey.value) in RequestedPopulations(question) <==> PopulationAsked(question, s)
  {
    var key := s.partitionKey.value;
    assert key[6] == ':';
    RequestedExactly(question, AfterLastColon(key));
    forall population | population in ["missing", "zero", "included"]
      ensures AfterLastColon(key) == population <==> EndsWith(key, ":" + population)
    {
      LastPartExactly(key, population);
    }
  }

  lemma {:induction false} PrefixesExclude(s: EvidenceSummary)
    ensures Keyed(s, "state-validated:") ==> !Keyed(s, "state-difference:") && !Keyed(s, "policy:")
    ensures Keyed(s, "state-difference:") ==> !Keyed(s, "policy:")
  {
    if Keyed(s, "state-validated:") {
      assert s.partitionKey.value[0] == 's' && s.partitionKey.value[6] == 'v';
    }
    if Keyed(s, "state-difference:") {
      assert s.partitionKey.value[0] == 's' && s.partitionKey.value[6] == 'd';
    }
  }

  /** A summary is classified as one kind of sentence exactly when it is due as that sentence. */
  lemma {:induction false} ClassifiedExactly(
    question: string, plan: QueryPlan, e: EvidenceBundle, s: EvidenceSummary, kind: LineKind)
    requires kind != Silent
    ensures Classify(question, plan, e, s) == kind <==> StatedAs(question, plan, e, s, kind)
  {
    OverallExactly(plan, e, s);
    PrefixesExclude(s);
    if Keyed(s, "policy:") {
      PopulationExactly(question, s);
    }
  }

  // ---------- the claims ----------

  function ClaimKindOf(s: EvidenceSummary, kind: LineKind): ClaimKind {
    if kind == TieLine || (kind == RecordedLine && !s.value.Int? && !s.value.Dec?) then TextClaim else NumericClaim
  }

  /** The claim of a summary's sentence: its own text and value, citing the summary first. */
  predicate SummaryClaimOf(w: Wording, s: EvidenceSummary, kind: LineKind, c: AnswerClaim) {
    && c.id == "claim:summary:" + s.id && c.kind == ClaimKindOf(s, kind) && c.text == w.summaryLine(kind, s)
    && c.value == (if kind == TieLine then Missing else s.value) && c.sign == Sign(c.value)
    && c.evidenceIds != [] && c.evidenceIds[0] == s.id && (kind != RankLine ==> |c.evidenceIds| == 1)
  }

  lemma {:induction false} SummaryEntryClaims(kind: LineKind, e: EvidenceBundle, w: Wording, s: EvidenceSummary, x: Entry)
    requires x in SummaryEntries(kind, e, w, s) && x.Entry?
    ensures kind != Silent && x.claim.Some? && SummaryClaimOf(w, s, kind, x.claim.value)
  {
  }

  /** Every due summary is claimed. */
  lemma {:induction false} SummaryStated(
    question: string, plan: QueryPlan, e: EvidenceBundle, w: Wording, s: EvidenceSummary, kind: LineKind)
    returns (c: AnswerClaim)
    requires forall x | x in SummarySection(question, plan, e, w, e.summaries) :: x.Entry?
    requires s in e.summaries && StatedAs(question, plan, e, s, kind)
    ensures Stated(SummarySection(question, plan, e, w, e.summaries), c) && SummaryClaimOf(w, s, kind, c)
  {
    ClassifiedExactly(question, plan, e, s, kind);
    var x := SummaryEntries(kind, e, w, s)[0];
    assert OfSummary(question, plan, e, w, s, x);
    InSummarySection(question, plan, e, w, e.summaries, x);
    SummaryEntryClaims(kind, e, w, s, x);
    c := x.claim.value;
  }

  /** Every claim of the summary section is that of a due summary. */
  lemma {:induction false} SummaryDue(question: string, plan: QueryPlan, e: EvidenceBundle, w: Wording, c: AnswerClaim)
    returns (s: EvidenceSummary, kind: LineKind)
    requires Stated(SummarySection(question, plan, e, w, e.summaries), c)
    ensures s in e.summaries && StatedAs(question, plan, e, s, kind) && SummaryClaimOf(w, s, kind, c)
  {
    var x :| x in SummarySection(question, plan, e, w, e.summaries) && x.Entry? && x.claim == Some(c);
    InSummarySection(question, plan, e, w, e.summaries, x);
    s :| s in e.summaries && OfSummary(question, plan, e, w, s, x);
    kind := Classify(question, plan, e, s);
    SummaryEntryClaims(kind, e, w, s, x);
    ClassifiedExactly(question, plan, e, s, kind);
  }

  // ---------- no result ----------

  /** A partition or a population without members. */
  predicate EmptyPopulation(s: EvidenceSummary) {
    && AsNumber(s.value) == Some(0.0)
    && (s.kind == PartitionSummary
        || (s.kind == CountSummary && s.partitionKey.Some? && EndsWith(s.partitionKey.value, ":included")))
  }

  /** The answer says that nothing was found and cites a summary for it. */
  predicate NothingFound(e: EvidenceBundle) {
    && e.direct == [] && e.derived == []
    && ((exists s | s in e.summaries :: EmptyPopulation(s))
        || exists s | s in e.summaries :: FirstCount(e, s) && s.includedCount == 0)
  }

  lemma {:induction false} EmptyPopulationExactly(e: EvidenceBundle)
    ensures ZeroResultSummary(e).Some? <==> exists s | s in e.summaries :: EmptyPopulation(s)
  {
    var wanted := (s: EvidenceSummary) =>
      PythonEqual(s.value, Int(0))
      && (s.kind == PartitionSummary
          || (s.kind == CountSummary && s.partitionKey.Some? && EndsWith(s.partitionKey.value, ":included")));
    forall s: EvidenceSummary ensures wanted(s) <==> EmptyPopulation(s) {}
    if s :| s in e.summaries && EmptyPopulation(s) {
      assert wanted(s);
      var k := FirstSummaryFound(e.summaries, wanted);
    }
  }

  lemma {:induction false} EmptyCountExactly(e: EvidenceBundle)
    ensures EmptyCount(e).Some? <==> exists s | s in e.summaries :: FirstCount(e, s) && s.includedCount == 0
  {
    if CountSummaryOf(e).Some? {
      FirstCountExactly(e, CountSummaryOf(e).value);
    }
    if s :| s in e.summaries && FirstCount(e, s) && s.includedCount == 0 {
      FirstCountExactly(e, s);
    }
  }

  /** The claim of an empty answer, citing one summary. */
  predicate NoResultClaim(e: EvidenceBundle, w: Wording, c: AnswerClaim) {
    && c.id == "claim:no-result" && c.kind == TextClaim && c.text == w.noResult && |c.evidenceIds| == 1
    && exists s | s in e.summaries :: s.id == c.evidenceIds[0]
  }

  lemma {:induction false} NoResultDue(e: EvidenceBundle, w: Wording, c: AnswerClaim)
    requires Stated(NoResultSection(e, w), c)
    ensures NothingFound(e) && NoResultClaim(e, w, c)
  {
    EmptyPopulationExactly(e);
    EmptyCountExactly(e);
  }

  lemma {:induction false} NoResultStated(e: EvidenceBundle, w: Wording) returns (c: AnswerClaim)
    requires NothingFound(e)
    ensures Stated(NoResultSection(e, w), c) && NoResultClaim(e, w, c)
  {
    EmptyPopulationExactly(e);
    EmptyCountExactly(e);
    var x := NoResultSection(e, w)[0];
    c := x.claim.value;
    assert x in NoResultSection(e, w);
    NoResultDue(e, w, c);
  }
}
