/** When an evidence context is emitted, in which format, and why it is refused. */
module ContextBounds {
  import opened Wrappers
  import opened Text
  import opened Sequences
  import Sorting
  import opened Serializer

  // ---------- the texts of a dump ----------

  /** `s` is a text somewhere inside the value. */
  predicate TextIn(value: Json, s: string) {
    match value
    case JText(text) => text == s
    case JList(items) => exists i | 0 <= i < |items| :: TextIn(items[i], s)
    case JObject(fields) => exists k | k in fields :: TextIn(fields[k], s)
    case _ => false
  }

  predicate TextAmong(values: seq<Json>, s: string) {
    exists v | v in values :: TextIn(v, s)
  }

  /** The texts that name the source of a locator. */
  predicate SourceText(l: Locator, s: string) {
    s == l.table || s == l.file || s == l.sheet || s == l.checksum || s == l.snapshotDate
  }

  /** The place inside the source. */
  function Place(l: Locator): seq<Json> {
    [l.rowNumber, l.columnName, l.columnNumber, l.columnLetter, l.applicableDate]
  }

  predicate LocatorText(l: Locator, s: string) {
    SourceText(l, s) || TextAmong(Place(l), s)
  }

  function DirectValues(d: DirectDump): seq<Json> {
    [d.evidenceId, d.productType, d.productId, d.fieldId, d.rawValue, d.normalizedValue, d.qualityStatus, d.ruleId,
     d.ruleVersion]
  }

  predicate DirectText(d: DirectDump, s: string) {
    TextAmong(DirectValues(d), s) || LocatorText(d.source, s)
  }

  function DerivedValues(d: DerivedDump): seq<Json> {
    [d.evidenceId, d.productType, d.productId, d.fieldId, d.value, d.qualityStatus, d.ruleId, d.ruleVersion, d.asOfDate]
  }

  predicate DerivedText(d: DerivedDump, s: string) {
    TextAmong(DerivedValues(d), s) || exists l | l in d.inputs :: LocatorText(l, s)
  }

  function SummaryLeads(d: SummaryDump): seq<Json> {
    [d.summaryId, d.kind, d.includedCount, d.excludedCount, d.evidenceIds, d.context.planSha, d.context.versionSha,
     d.context.artifactHash]
  }

  function SummaryTrails(d: SummaryDump): seq<Json> {
    [d.productTypes, d.grains, d.partitionKey, d.productId, d.metricId, d.rank, d.tieCount, d.value, d.groupValues]
  }

  predicate SummaryText(d: SummaryDump, s: string) {
    TextAmong(SummaryLeads(d), s) || TextAmong(SummaryTrails(d), s) || TextAmong(d.policyVersions, s)
  }

  /** `s` is a text of the dumped bundle. */
  predicate DumpText(b: BundleDump, s: string) {
    || (exists d | d in b.direct :: DirectText(d, s))
    || (exists d | d in b.derived :: DerivedText(d, s))
    || (exists d | d in b.summaries :: SummaryText(d, s))
    || TextAmong(b.limitations, s) || TextAmong(b.holdingRecords, s) || TextAmong(b.holdingCoverage, s)
  }

  // ---------- the compact form has the same texts ----------

  lemma {:induction false} InList(items: seq<Json>, s: string)
    ensures TextIn(JList(items), s) <==> TextAmong(items, s)
  {
    if v :| v in items && TextIn(v, s) {
      var i :| 0 <= i < |items| && items[i] == v;
      assert TextIn(items[i], s);
    }
  }

  lemma {:induction false} NoTextInNames(keys: seq<Key>, s: string)
    ensures !TextIn(Names(keys), s)
  {
  }

  lemma {:induction false} AmongConcat(a: seq<Json>, b: seq<Json>, s: string)
    ensures TextAmong(a + b, s) <==> TextAmong(a, s) || TextAmong(b, s)
  {
    forall v ensures v in a + b <==> v in a || v in b {}
  }

  lemma {:induction false} AmongMap<T>(f: T -> Json, xs: seq<T>, s: string)
    ensures TextAmong(Map(f, xs), s) <==> exists x | x in xs :: TextIn(f(x), s)
  {
    InMap(f, xs);
    if v :| v in Map(f, xs) && TextIn(v, s) {
      var i :| 0 <= i < |xs| && Map(f, xs)[i] == v;
      assert xs[i] in xs;
    }
  }

  lemma {:induction false} LocatorRowText(keys: seq<SourceKeyRow>, l: Locator, s: string)
    ensures TextAmong(LocatorRow(keys, l), s) <==> TextAmong(Place(l), s)
  {
    assert LocatorRow(keys, l) == [JInt(IndexIn(keys, SourceKey(l)))] + Place(l);
    AmongConcat([JInt(IndexIn(keys, SourceKey(l)))], Place(l), s);
  }

  lemma {:induction false} DirectRowText(keys: seq<SourceKeyRow>, d: DirectDump, s: string)
    ensures TextIn(DirectRow(keys, d), s) <==> TextAmong(DirectValues(d), s) || TextAmong(Place(d.source), s)
  {
    InList(DirectValues(d) + LocatorRow(keys, d.source), s);
    AmongConcat(DirectValues(d), LocatorRow(keys, d.source), s);
    LocatorRowText(keys, d.source, s);
  }

  lemma {:induction false} InputRowsText(keys: seq<SourceKeyRow>, inputs: seq<Locator>, s: string)
    ensures TextIn(JList(Map((l: Locator) => JList(LocatorRow(keys, l)), inputs)), s) <==>
            exists l | l in inputs :: TextAmong(Place(l), s)
  {
    var row := (l: Locator) => JList(LocatorRow(keys, l));
    InList(Map(row, inputs), s);
    AmongMap(row, inputs, s);
    forall l ensures TextIn(row(l), s) <==> TextAmong(Place(l), s) {
      InList(LocatorRow(keys, l), s);
      LocatorRowText(keys, l, s);
    }
  }

  lemma {:induction false} AmongOne(v: Json, s: string)
    ensures TextAmong([v], s) <==> TextIn(v, s)
  {
    assert v in [v];
  }

  lemma {:induction false} DerivedRowText(keys: seq<SourceKeyRow>, d: DerivedDump, s: string)
    ensures TextIn(DerivedRow(keys, d), s) <==>
            TextAmong(DerivedValues(d), s) || exists l | l in d.inputs :: TextAmong(Place(l), s)
  {
    var inputs := JList(Map((l: Locator) => JList(LocatorRow(keys, l)), d.inputs));
    assert DerivedRow(keys, d) == JList(DerivedValues(d) + [inputs]);
    InList(DerivedValues(d) + [inputs], s);
    AmongConcat(DerivedValues(d), [inputs], s);
    AmongOne(inputs, s);
    InputRowsText(keys, d.inputs, s);
  }

  lemma {:induction false} SourceObjectText(key: SourceKeyRow, s: string)
    requires |key| == 5
    ensures TextIn(SourceObject(key), s) <==> s in key
  {
    var f := SourceObject(key).fields;
    assert f[SourceTable] == JText(key[0]) && f[SourceFile] == JText(key[1]) && f[SourceSheet] == JText(key[2]);
    assert f[SourceChecksum] == JText(key[3]) && f[SourceSnapshotDate] == JText(key[4]);
    if s in key {
      assert TextIn(f[SourceTable], s) || TextIn(f[SourceFile], s) || TextIn(f[SourceSheet], s)
          || TextIn(f[SourceChecksum], s) || TextIn(f[SourceSnapshotDate], s);
    }
  }

  lemma {:induction false} SourceObjectsText(keys: seq<SourceKeyRow>, s: string)
    requires forall k | k in keys :: |k| == 5
    ensures TextAmong(SourceObjects(keys), s) <==> exists k | k in keys :: s in k
  {
    if v :| v in SourceObjects(keys) && TextIn(v, s) {
      var i :| 0 <= i < |keys| && SourceObjects(keys)[i] == v;
      SourceObjectText(keys[i], s);
    }
    if k :| k in keys && s in k {
      var i :| 0 <= i < |keys| && keys[i] == k;
      SourceObjectText(k, s);
      assert SourceObjects(keys)[i] in SourceObjects(keys);
    }
  }

  lemma {:induction false} SourceRowText(l: Locator, s: string)
    ensures s in SourceKey(l) <==> SourceText(l, s)
  {
  }

  lemma {:induction false} InputLocatorsExactly(derived: seq<DerivedDump>, l: Locator)
    ensures l in InputLocators(derived) <==> exists d | d in derived :: l in d.inputs
  {
    if derived != [] {
      assert derived == [derived[0]] + derived[1..];
      InputLocatorsExactly(derived[1..], l);
    }
  }

  /** The locators of the bundle. */
  ghost predicate LocatorOf(b: BundleDump, l: Locator) {
    (exists d | d in b.direct :: d.source == l) || (exists d | d in b.derived :: l in d.inputs)
  }

  lemma {:induction false} LocatorsExactly(b: BundleDump, l: Locator)
    ensures l in Locators(b) <==> LocatorOf(b, l)
  {
    InMapExactly((d: DirectDump) => d.source, b.direct);
    InputLocatorsExactly(b.derived, l);
  }

  lemma {:induction false} SourceTableText(b: BundleDump, s: string)
    ensures forall k | k in SourceKeys(b) :: |k| == 5
    ensures TextAmong(SourceObjects(SourceKeys(b)), s) <==> exists l :: LocatorOf(b, l) && SourceText(l, s)
  {
    SourceKeyShape(b);
    SourceObjectsText(SourceKeys(b), s);
    InMapExactly(SourceKey, Locators(b));
    if k :| k in SourceKeys(b) && s in k {
      var l :| l in Locators(b) && SourceKey(l) == k;
      LocatorsExactly(b, l);
      SourceRowText(l, s);
    }
    if l :| LocatorOf(b, l) && SourceText(l, s) {
      LocatorsExactly(b, l);
      SourceRowText(l, s);
      SourcesCover(Map(SourceKey, Locators(b)), SourceKey(l));
    }
  }

  lemma {:induction false} FieldIsValue(d: SummaryDump, k: Key)
    requires k in SUMMARY_KEYS && k != PolicyVersions
    ensures SummaryField(d, k) in SummaryLeads(d) || SummaryField(d, k) in SummaryTrails(d)
  {
  }

  lemma {:induction false} SummaryTextDue(d: SummaryDump, s: string)
    requires TextIn(SummaryObject(d), s)
    ensures SummaryText(d, s)
  {
    var k :| k in SummaryObject(d).fields && TextIn(SummaryObject(d).fields[k], s);
    if k == PolicyVersions {
      InList(d.policyVersions, s);
    } else {
      FieldIsValue(d, k);
    }
  }

  lemma {:induction false} SummaryTextStated(d: SummaryDump, s: string)
    requires SummaryText(d, s)
    ensures TextIn(SummaryObject(d), s)
  {
    if TextAmong(d.policyVersions, s) {
      InList(d.policyVersions, s);
      SummaryFieldText(d, PolicyVersions, s);
    } else if v :| v in SummaryLeads(d) && TextIn(v, s) {
      SummaryFieldText(d, LeadKey(d, v), s);
    } else {
      var v :| v in SummaryTrails(d) && TextIn(v, s);
      SummaryFieldText(d, TrailKey(d, v), s);
    }
  }

  lemma {:induction false} SummaryObjectText(d: SummaryDump, s: string)
    ensures TextIn(SummaryObject(d), s) <==> SummaryText(d, s)
  {
    if TextIn(SummaryObject(d), s) {
      SummaryTextDue(d, s);
    }
    if SummaryText(d, s) {
      SummaryTextStated(d, s);
    }
  }

  lemma {:induction false} SummaryFieldText(d: SummaryDump, k: Key, s: string)
    requires k in SUMMARY_KEYS && TextIn(SummaryField(d, k), s)
    ensures TextIn(SummaryObject(d), s)
  {
    assert SummaryObject(d).fields[k] == SummaryField(d, k);
  }

  ghost function LeadKey(d: SummaryDump, v: Json): (k: Key)
    requires v in SummaryLeads(d)
    ensures k in SUMMARY_KEYS && SummaryField(d, k) == v
  {
    [SummaryId, Kind, IncludedCount, ExcludedCount, EvidenceIds, ValidatedPlanSha, VersionBundleSha,
     ArtifactManifestHash][IndexIn(SummaryLeads(d), v)]
  }

  ghost function TrailKey(d: SummaryDump, v: Json): (k: Key)
    requires v in SummaryTrails(d)
    ensures k in SUMMARY_KEYS && SummaryField(d, k) == v
  {
    [ProductTypes, NativeResultGrains, PartitionKey, ProductId, MetricId, Rank, TieCount, Value,
     GroupValues][IndexIn(SummaryTrails(d), v)]
  }

  /** The texts of a payload are those of its tables. */
  lemma {:induction false} PlainText(
    format: Json, sources: Json, directFields: Json, direct: Json, derivedFields: Json, derived: Json,
    locatorFields: Json, summaries: Json, limitations: Json, s: string)
    requires !TextIn(format, s) && !TextIn(directFields, s) && !TextIn(derivedFields, s) && !TextIn(locatorFields, s)
    ensures var f := PlainPayload(format, sources, directFields, direct, derivedFields, derived, locatorFields, summaries,
                                  limitations);
            TextIn(JObject(f), s) <==>
              TextIn(sources, s) || TextIn(direct, s) || TextIn(derived, s) || TextIn(summaries, s) || TextIn(limitations, s)
  {
    var f := PlainPayload(format, sources, directFields, direct, derivedFields, derived, locatorFields, summaries, limitations);
    assert f[Sources] == sources && f[Direct] == direct && f[Derived] == derived && f[Summaries] == summaries
        && f[Limitations] == limitations;
    forall k | k in f && TextIn(f[k], s)
      ensures TextIn(sources, s) || TextIn(direct, s) || TextIn(derived, s) || TextIn(summaries, s) || TextIn(limitations, s)
    {
    }
    assert forall k | k in {Sources, Direct, Derived, Summaries, Limitations} :: TextIn(f[k], s) ==> TextIn(JObject(f), s);
  }

  lemma {:induction false} WithHoldingsText(f: map<Key, Json>, records: Json, coverage: Json, s: string)
    requires HoldingRecords !in f && HoldingCoverage !in f
    ensures TextIn(JObject(f + map[HoldingRecords := records, HoldingCoverage := coverage]), s) <==>
            TextIn(JObject(f), s) || TextIn(records, s) || TextIn(coverage, s)
  {
    var g := f + map[HoldingRecords := records, HoldingCoverage := coverage];
    assert g[HoldingRecords] == records && g[HoldingCoverage] == coverage;
    assert forall k | k in f :: k in g && g[k] == f[k];
    if k :| k in g && TextIn(g[k], s) {
      assert k in f || k == HoldingRecords || k == HoldingCoverage;
    }
    if k :| k in f && TextIn(f[k], s) {
      assert TextIn(g[k], s);
    }
  }

  lemma {:induction false} DirectTableText(keys: seq<SourceKeyRow>, direct: seq<DirectDump>, s: string)
    ensures TextIn(JList(DirectTable(keys, direct)), s) <==>
            exists d | d in direct :: TextAmong(DirectValues(d), s) || TextAmong(Place(d.source), s)
  {
    var row := (d: DirectDump) => DirectRow(keys, d);
    InList(Map(row, direct), s);
    AmongMap(row, direct, s);
    forall d ensures TextIn(row(d), s) <==> TextAmong(DirectValues(d), s) || TextAmong(Place(d.source), s) {
      DirectRowText(keys, d, s);
    }
  }

  lemma {:induction false} DerivedTableText(keys: seq<SourceKeyRow>, derived: seq<DerivedDump>, s: string)
    ensures TextIn(JList(DerivedTable(keys, derived)), s) <==>
            exists d | d in derived :: TextAmong(DerivedValues(d), s) || exists l | l in d.inputs :: TextAmong(Place(l), s)
  {
    var row := (d: DerivedDump) => DerivedRow(keys, d);
    InList(Map(row, derived), s);
    AmongMap(row, derived, s);
    forall d ensures TextIn(row(d), s) <==>
      TextAmong(DerivedValues(d), s) || exists l | l in d.inputs :: TextAmong(Place(l), s)
    {
      DerivedRowText(keys, d, s);
    }
  }

  lemma {:induction false} SummaryTableText(summaries: seq<SummaryDump>, s: string)
    ensures TextIn(JList(Map(SummaryObject, summaries)), s) <==> exists d | d in summaries :: SummaryText(d, s)
  {
    InList(Map(SummaryObject, summaries), s);
    AmongMap(SummaryObject, summaries, s);
    forall d ensures TextIn(SummaryObject(d), s) <==> SummaryText(d, s) {
      SummaryObjectText(d, s);
    }
  }

  /** The texts of the tables of evidence are those of the evidence and its sources. */
  ghost predicate TableText(b: BundleDump, s: string) {
    || (exists l :: LocatorOf(b, l) && SourceText(l, s))
    || (exists d | d in b.direct :: TextAmong(DirectValues(d), s) || TextAmong(Place(d.source), s))
    || (exists d | d in b.derived :: TextAmong(DerivedValues(d), s) || exists l | l in d.inputs :: TextAmong(Place(l), s))
  }

  lemma {:induction false} TableTextExactly(b: BundleDump, s: string)
    ensures TableText(b, s) <==>
            (exists d | d in b.direct :: DirectText(d, s)) || (exists d | d in b.derived :: DerivedText(d, s))
  {
    if d :| d in b.direct && SourceText(d.source, s) {
      assert LocatorOf(b, d.source);
    }
    if d, l :| d in b.derived && l in d.inputs && SourceText(l, s) {
      assert LocatorOf(b, l);
    }
  }

  lemma {:induction false} TablesText(b: BundleDump, keys: seq<SourceKeyRow>, s: string)
    requires keys == SourceKeys(b) && forall k | k in keys :: |k| == 5
    ensures TableText(b, s) <==>
            TextIn(JList(SourceObjects(keys)), s) || TextIn(JList(DirectTable(keys, b.direct)), s)
            || TextIn(JList(DerivedTable(keys, b.derived)), s)
  {
    SourceTableText(b, s);
    InList(SourceObjects(keys), s);
    DirectTableText(keys, b.direct, s);
    DerivedTableText(keys, b.derived, s);
  }

  lemma {:induction false} PayloadText(
    format: Json, sources: Json, directFields: Json, direct: Json, derivedFields: Json, derived: Json,
    locatorFields: Json, summaries: Json, limitations: Json, holdings: Option<(Json, Json)>, s: string)
    requires !TextIn(format, s) && !TextIn(directFields, s) && !TextIn(derivedFields, s) && !TextIn(locatorFields, s)
    ensures var f := Payload(format, sources, directFields, direct, derivedFields, derived, locatorFields, summaries,
                             limitations, holdings);
            TextIn(JObject(f), s) <==>
              TextIn(sources, s) || TextIn(direct, s) || TextIn(derived, s) || TextIn(summaries, s) || TextIn(limitations, s)
              || (holdings.Some? && (TextIn(holdings.value.0, s) || TextIn(holdings.value.1, s)))
  {
    var plain := PlainPayload(format, sources, directFields, direct, derivedFields, derived, locatorFields, summaries,
                              limitations);
    PlainText(format, sources, directFields, direct, derivedFields, derived, locatorFields, summaries, limitations, s);
    if holdings.Some? {
      WithHoldingsText(plain, holdings.value.0, holdings.value.1, s);
    } else {
      assert plain + map[] == plain;
    }
  }

  lemma {:induction false} NoHoldingsText(b: BundleDump, s: string)
    ensures TextAmong(b.holdingRecords, s) || TextAmong(b.holdingCoverage, s) ==> HasHoldings(b)
  {
  }

  /** The texts of the parts are those of the dump. */
  lemma {:induction false} PartTexts(b: BundleDump, keys: seq<SourceKeyRow>, s: string)
    requires keys == SourceKeys(b) && forall k | k in keys :: |k| == 5
    ensures DumpText(b, s) <==>
            || TextIn(JList(SourceObjects(keys)), s) || TextIn(JList(DirectTable(keys, b.direct)), s)
            || TextIn(JList(DerivedTable(keys, b.derived)), s) || TextIn(JList(Map(SummaryObject, b.summaries)), s)
            || TextIn(JList(b.limitations), s)
            || (HasHoldings(b) && (TextIn(JList(b.holdingRecords), s) || TextIn(JList(b.holdingCoverage), s)))
  {
    TablesText(b, keys, s);
    TableTextExactly(b, s);
    SummaryTableText(b.summaries, s);
    ListTexts(b, s);
  }

  lemma {:induction false} ListTexts(b: BundleDump, s: string)
    ensures TextIn(JList(b.limitations), s) <==> TextAmong(b.limitations, s)
    ensures HasHoldings(b) && (TextIn(JList(b.holdingRecords), s) || TextIn(JList(b.holdingCoverage), s)) <==>
            TextAmong(b.holdingRecords, s) || TextAmong(b.holdingCoverage, s)
  {
    InList(b.limitations, s);
    InList(b.holdingRecords, s);
    InList(b.holdingCoverage, s);
    NoHoldingsText(b, s);
  }

  /** Whatever the headers, the tables hold exactly the texts of the dump. */
  lemma {:induction false} ContentText(
    b: BundleDump, keys: seq<SourceKeyRow>, format: Json, directFields: Json, derivedFields: Json, locatorFields: Json, s: string)
    requires keys == SourceKeys(b) && forall k | k in keys :: |k| == 5
    requires !TextIn(format, s) && !TextIn(directFields, s) && !TextIn(derivedFields, s) && !TextIn(locatorFields, s)
    ensures var f := Payload(format, JList(SourceObjects(keys)), directFields, JList(DirectTable(keys, b.direct)),
              derivedFields, JList(DerivedTable(keys, b.derived)), locatorFields, JList(Map(SummaryObject, b.summaries)),
              JList(b.limitations),
              if HasHoldings(b) then Some((JList(b.holdingRecords), JList(b.holdingCoverage))) else None);
            TextIn(JObject(f), s) <==> DumpText(b, s)
  {
    PartTexts(b, keys, s);
    PayloadText(format, JList(SourceObjects(keys)), directFields, JList(DirectTable(keys, b.direct)), derivedFields,
                JList(DerivedTable(keys, b.derived)), locatorFields, JList(Map(SummaryObject, b.summaries)),
                JList(b.limitations),
                if HasHoldings(b) then Some((JList(b.holdingRecords), JList(b.holdingCoverage))) else None, s);
  }

  /** The compact form holds exactly the texts of the dump. */
  lemma {:induction false} CompactText(b: BundleDump, s: string)
    ensures TextIn(JObject(Compact(b)), s) <==> DumpText(b, s)
  {
    SourceKeyShape(b);
    NoTextInNames(DIRECT_FIELDS, s);
    NoTextInNames(DERIVED_FIELDS, s);
    NoTextInNames(LOCATOR_TAIL, s);
    ContentText(b, SourceKeys(b), JName(if HasHoldings(b) then V3 else V2), Names(DIRECT_FIELDS), Names(DERIVED_FIELDS),
                Names(LOCATOR_TAIL), s);
  }

  lemma {:induction false} LocalPathExactly(absolute: string -> bool, value: Json)
    ensures ContainsLocalPath(absolute, value) <==> exists s :: TextIn(value, s) && absolute(s)
    decreases value
  {
    match value
    case JText(text) =>
      assert TextIn(value, text);
    case JList(items) =>
      forall i | 0 <= i < |items| ensures ContainsLocalPath(absolute, items[i]) <==> exists s :: TextIn(items[i], s) && absolute(s) {
        LocalPathExactly(absolute, items[i]);
      }
      if i, s :| 0 <= i < |items| && TextIn(items[i], s) && absolute(s) { assert TextIn(value, s); }
    case JObject(fields) =>
      forall k | k in fields ensures ContainsLocalPath(absolute, fields[k]) <==> exists s :: TextIn(fields[k], s) && absolute(s) {
        LocalPathExactly(absolute, fields[k]);
      }
      if k, s :| k in fields && TextIn(fields[k], s) && absolute(s) { assert TextIn(value, s); }
    case _ =>
  }

  // ---------- the exact contract ----------

  /** Some text of the dump is an absolute path. */
  ghost predicate HasLocalPath(b: BundleDump, absolute: string -> bool) {
    exists s :: DumpText(b, s) && absolute(s)
  }

  /** All summaries come from one plan, version bundle and artifact. */
  predicate OneContext(b: BundleDump) {
    forall x, y | x in b.summaries && y in b.summaries :: x.context == y.context
  }

  /** The form in format v4, for summaries of one context. */
  function Overflow(b: BundleDump): Json
    requires b.summaries != [] && OneContext(b)
  {
    JObject(CompactOverflow(Compact(b), b).value)
  }

  predicate HasFormat(value: Json, format: Key) {
    value.JObject? && Property(value.fields, Format) == JName(format)
  }

  lemma {:induction false} CompactFormat(b: BundleDump)
    ensures HasFormat(JObject(Compact(b)), if b.holdingRecords != [] || b.holdingCoverage != [] then V3 else V2)
  {
    CompactHasBody(b);
  }

  lemma {:induction false} OverflowFormat(b: BundleDump)
    requires b.summaries != [] && OneContext(b)
    ensures HasFormat(Overflow(b), V4)
  {
    OverflowFormatOf(Compact(b), b);
  }

  lemma {:induction false} OverflowFormatOf(payload: map<Key, Json>, b: BundleDump)
    requires b.summaries != [] && OneContext(b)
    ensures CompactOverflow(payload, b).Some? && Property(CompactOverflow(payload, b).value, Format) == JName(V4)
  {
  }

  /** Each verdict with its cause. */
  ghost predicate Decided(b: BundleDump, absolute: string -> bool, size: Json -> nat, limit: nat, r: Result<Json, Rejection>) {
    var compact := JObject(Compact(b));
    && (r == Err(LocalPath) <==> HasLocalPath(b, absolute))
    && (r == Ok(compact) <==> !HasLocalPath(b, absolute) && size(compact) <= limit)
    && (r == Err(ContextDiffers) <==> !HasLocalPath(b, absolute) && size(compact) > limit && !OneContext(b))
    && (b.summaries != [] && OneContext(b) ==>
          (r == Ok(Overflow(b)) <==>
             !HasLocalPath(b, absolute) && size(compact) > limit && size(Overflow(b)) <= limit))
    && (r == Err(TooLarge) <==>
          && !HasLocalPath(b, absolute) && size(compact) > limit && OneContext(b)
          && (b.summaries != [] ==> size(Overflow(b)) > limit))
  }

  lemma {:induction false} PathExactly(b: BundleDump, absolute: string -> bool)
    ensures ContainsLocalPath(absolute, JObject(Compact(b))) <==> HasLocalPath(b, absolute)
  {
    var compact := JObject(Compact(b));
    LocalPathExactly(absolute, compact);
    forall s ensures TextIn(compact, s) <==> DumpText(b, s) {
      CompactText(b, s);
    }
  }

  lemma {:induction false} DecidedExactly(b: BundleDump, absolute: string -> bool, size: Json -> nat, limit: nat)
    ensures Decided(b, absolute, size, limit, Serialize(b, absolute, size, limit))
  {
    PathExactly(b, absolute);
    CompactFormat(b);
    if b.summaries != [] && OneContext(b) {
      OverflowFormat(b);
    }
  }

  /** The format is that of the smallest sufficient form. */
  ghost predicate Formatted(b: BundleDump, size: Json -> nat, limit: nat, value: Json) {
    var fits, holdings := size(JObject(Compact(b))) <= limit, b.holdingRecords != [] || b.holdingCoverage != [];
    && (HasFormat(value, V2) <==> fits && !holdings)
    && (HasFormat(value, V3) <==> fits && holdings)
    && (HasFormat(value, V4) <==> !fits)
  }

  lemma {:induction false} FormattedExactly(b: BundleDump, absolute: string -> bool, size: Json -> nat, limit: nat)
    requires Serialize(b, absolute, size, limit).Ok?
    ensures size(Serialize(b, absolute, size, limit).value) <= limit
    ensures Formatted(b, size, limit, Serialize(b, absolute, size, limit).value)
  {
    CompactFormat(b);
    if b.summaries != [] && OneContext(b) {
      OverflowFormat(b);
    }
  }

  /** The serializer emits and refuses exactly as decided; what it emits is within the limit and decodes to the dump. */
  lemma {:induction false} SerializedExactly(b: BundleDump, absolute: string -> bool, size: Json -> nat, limit: nat)
    ensures var r := Serialize(b, absolute, size, limit);
      && Decided(b, absolute, size, limit, r)
      && (r.Ok? ==> size(r.value) <= limit && Decode(r.value) == Some(b) && Formatted(b, size, limit, r.value))
  {
    DecidedExactly(b, absolute, size, limit);
    SerializationLossless(b, absolute, size, limit);
    if Serialize(b, absolute, size, limit).Ok? {
      FormattedExactly(b, absolute, size, limit);
    }
  }
}
