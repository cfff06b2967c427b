/** Evidence context serialization: a columnar, dictionary-encoded form of the bundle's JSON dump,
    and the decoder its losslessness calls for. */
module Serializer {
  import opened Wrappers
  import opened Text
  import opened Sequences
  import Sorting

  /** Every property, column and format name, as a numbered token. */
  type Key = int

  const Format: Key := 0
  const V2: Key := 1
  const V3: Key := 2
  const V4: Key := 3
  const Sources: Key := 4
  const DirectFields: Key := 5
  const Direct: Key := 6
  const DerivedFields: Key := 7
  const Derived: Key := 8
  const LocatorFields: Key := 9
  const Summaries: Key := 10
  const Limitations: Key := 11
  const HoldingRecords: Key := 12
  const HoldingCoverage: Key := 13
  const SummaryContextFields: Key := 14
  const SummaryContext: Key := 15
  const SummaryPolicyVersions: Key := 16
  const SummaryFields: Key := 17
  const SourceTable: Key := 18
  const SourceFile: Key := 19
  const SourceSheet: Key := 20
  const SourceChecksum: Key := 21
  const SourceSnapshotDate: Key := 22
  const SourceIndex: Key := 23
  const SourceRowNumber: Key := 24
  const SourceColumnName: Key := 25
  const SourceColumnNumber: Key := 26
  const SourceColumnLetter: Key := 27
  const SourceApplicableDate: Key := 28
  const EvidenceId: Key := 29
  const ProductType: Key := 30
  const ProductId: Key := 31
  const FieldId: Key := 32
  const RawValue: Key := 33
  const NormalizedValue: Key := 34
  const QualityStatus: Key := 35
  const RuleId: Key := 36
  const RuleVersion: Key := 37
  const Value: Key := 38
  const AsOfDate: Key := 39
  const Inputs: Key := 40
  const SummaryId: Key := 41
  const Kind: Key := 42
  const IncludedCount: Key := 43
  const ExcludedCount: Key := 44
  const EvidenceIds: Key := 45
  const Policy: Key := 46
  const PolicyVersions: Key := 47
  const ValidatedPlanSha: Key := 48
  const VersionBundleSha: Key := 49
  const ArtifactManifestHash: Key := 50
  const ProductTypes: Key := 51
  const NativeResultGrains: Key := 52
  const PartitionKey: Key := 53
  const MetricId: Key := 54
  const Rank: Key := 55
  const TieCount: Key := 56
  const GroupValues: Key := 57
  datatype Json =
    | JNull
    | JBool(b: bool)
    | JInt(n: int)
    | JText(s: string)
    | JName(k: Key)
    | JList(items: seq<Json>)
    | JObject(fields: map<Key, Json>)

  // ---------- the bundle's JSON dump ----------

  datatype Locator = Locator(
    table: string, file: string, sheet: string, checksum: string, snapshotDate: string,
    rowNumber: Json, columnName: Json, columnNumber: Json, columnLetter: Json, applicableDate: Json)

  datatype DirectDump = DirectDump(
    evidenceId: Json, productType: Json, productId: Json, fieldId: Json, rawValue: Json, normalizedValue: Json,
    qualityStatus: Json, ruleId: Json, ruleVersion: Json, source: Locator)

  datatype DerivedDump = DerivedDump(
    evidenceId: Json, productType: Json, productId: Json, fieldId: Json, value: Json,
    qualityStatus: Json, ruleId: Json, ruleVersion: Json, asOfDate: Json, inputs: seq<Locator>)

  datatype Context = Context(planSha: Json, versionSha: Json, artifactHash: Json)

  datatype SummaryDump = SummaryDump(
    summaryId: Json, kind: Json, includedCount: Json, excludedCount: Json, evidenceIds: Json,
    policyVersions: seq<Json>, context: Context, productTypes: Json, grains: Json, partitionKey: Json,
    productId: Json, metricId: Json, rank: Json, tieCount: Json, value: Json, groupValues: Json)

  datatype BundleDump = BundleDump(
    direct: seq<DirectDump>, derived: seq<DerivedDump>, summaries: seq<SummaryDump>, limitations: seq<Json>,
    holdingRecords: seq<Json>, holdingCoverage: seq<Json>)

  // ---------- column headers ----------

  const LOCATOR_TAIL: seq<Key> :=
    [SourceIndex, SourceRowNumber, SourceColumnName, SourceColumnNumber, SourceColumnLetter, SourceApplicableDate]
  const DIRECT_FIELDS: seq<Key> :=
    [EvidenceId, ProductType, ProductId, FieldId, RawValue, NormalizedValue, QualityStatus, RuleId, RuleVersion,
     SourceIndex, SourceRowNumber, SourceColumnName, SourceColumnNumber, SourceColumnLetter, SourceApplicableDate]
  const DERIVED_FIELDS: seq<Key> :=
    [EvidenceId, ProductType, ProductId, FieldId, Value, QualityStatus, RuleId, RuleVersion, AsOfDate, Inputs]
  const CONTEXT_FIELDS: seq<Key> := [ValidatedPlanSha, VersionBundleSha, ArtifactManifestHash]
  const SUMMARY_FIELDS: seq<Key> :=
    [SummaryId, Kind, IncludedCount, ExcludedCount, EvidenceIds, Policy, ProductTypes, NativeResultGrains,
     PartitionKey, ProductId, MetricId, Rank, TieCount, Value, GroupValues]

  // ---------- encoding ----------

  function Names(keys: seq<Key>): Json {
    JList(Map((k: Key) => JName(k), keys))
  }

  type SourceKeyRow = seq<string>

  /** `_source_key` */
  function SourceKey(l: Locator): SourceKeyRow {
    [l.table, l.file, l.sheet, l.checksum, l.snapshotDate]
  }

  function InputLocators(derived: seq<DerivedDump>): seq<Locator> {
    if derived == [] then [] else derived[0].inputs + InputLocators(derived[1..])
  }

  function Locators(b: BundleDump): seq<Locator> {
    Map((d: DirectDump) => d.source, b.direct) + InputLocators(b.derived)
  }

  /** `sorted({...})` over the locators' source keys. */
  function SourceKeys(b: BundleDump): seq<SourceKeyRow> {
    Sorting.Sort(RowLt, Distinct(Map(SourceKey, Locators(b))))
  }

  /** `_source_value` */
  function SourceObject(key: SourceKeyRow): Json
    requires |key| == 5
  {
    JObject(map[SourceTable := JText(key[0]), SourceFile := JText(key[1]), SourceSheet := JText(key[2]),
                SourceChecksum := JText(key[3]), SourceSnapshotDate := JText(key[4])])
  }

  function SourceObjects(keys: seq<SourceKeyRow>): seq<Json>
    requires forall k | k in keys :: |k| == 5
  {
    seq(|keys|, i requires 0 <= i < |keys| => SourceObject(keys[i]))
  }

  /** `_locator_value` */
  function LocatorRow(keys: seq<SourceKeyRow>, l: Locator): seq<Json> {
    [JInt(IndexIn(keys, SourceKey(l))), l.rowNumber, l.columnName, l.columnNumber, l.columnLetter, l.applicableDate]
  }

  /** `_direct_value` */
  function DirectRow(keys: seq<SourceKeyRow>, d: DirectDump): Json {
    JList([d.evidenceId, d.productType, d.productId, d.fieldId, d.rawValue, d.normalizedValue,
           d.qualityStatus, d.ruleId, d.ruleVersion] + LocatorRow(keys, d.source))
  }

  /** `_derived_value` */
  function DerivedRow(keys: seq<SourceKeyRow>, d: DerivedDump): Json {
    JList([d.evidenceId, d.productType, d.productId, d.fieldId, d.value, d.qualityStatus, d.ruleId, d.ruleVersion,
           d.asOfDate, JList(Map((l: Locator) => JList(LocatorRow(keys, l)), d.inputs))])
  }

  const SUMMARY_KEYS: set<Key> :=
    {SummaryId, Kind, IncludedCount, ExcludedCount, EvidenceIds, PolicyVersions, ValidatedPlanSha, VersionBundleSha,
     ArtifactManifestHash, ProductTypes, NativeResultGrains, PartitionKey, ProductId, MetricId, Rank, TieCount, Value,
     GroupValues}

  function SummaryField(s: SummaryDump, k: Key): Json {
    if k == SummaryId then s.summaryId
    else if k == Kind then s.kind
    else if k == IncludedCount then s.includedCount
    else if k == ExcludedCount then s.excludedCount
    else if k == EvidenceIds then s.evidenceIds
    else if k == PolicyVersions then JList(s.policyVersions)
    else if k == ValidatedPlanSha then s.context.planSha
    else if k == VersionBundleSha then s.context.versionSha
    else if k == ArtifactManifestHash then s.context.artifactHash
    else if k == ProductTypes then s.productTypes
    else if k == NativeResultGrains then s.grains
    else if k == PartitionKey then s.partitionKey
    else if k == ProductId then s.productId
    else if k == MetricId then s.metricId
    else if k == Rank then s.rank
    else if k == TieCount then s.tieCount
    else if k == Value then s.value
    else if k == GroupValues then s.groupValues
    else JNull
  }

  /** `summary.model_dump(mode="json")` */
  function SummaryObject(s: SummaryDump): Json {
    JObject(map k | k in SUMMARY_KEYS :: SummaryField(s, k))
  }

  predicate HasHoldings(b: BundleDump) {
    b.holdingRecords != [] || b.holdingCoverage != []
  }

  lemma SourceKeyShape(b: BundleDump)
    ensures forall k | k in SourceKeys(b) :: |k| == 5 && k in Map(SourceKey, Locators(b))
  {
    forall k | k in SourceKeys(b) ensures k in Map(SourceKey, Locators(b)) {
      assert k in multiset(SourceKeys(b));
    }
  }

  function DirectTable(keys: seq<SourceKeyRow>, direct: seq<DirectDump>): seq<Json> {
    Map((d: DirectDump) => DirectRow(keys, d), direct)
  }

  function DerivedTable(keys: seq<SourceKeyRow>, derived: seq<DerivedDump>): seq<Json> {
    Map((d: DerivedDump) => DerivedRow(keys, d), derived)
  }

  function PlainPayload(
    format: Json, sources: Json, directFields: Json, direct: Json, derivedFields: Json, derived: Json,
    locatorFields: Json, summaries: Json, limitations: Json): map<Key, Json>
  {
    map[Format := format, Sources := sources, DirectFields := directFields, Direct := direct,
        DerivedFields := derivedFields, Derived := derived, LocatorFields := locatorFields,
        Summaries := summaries, Limitations := limitations]
  }

  /** The payload dictionary; the holdings keys are present only when there are holdings. */
  function Payload(
    format: Json, sources: Json, directFields: Json, direct: Json, derivedFields: Json, derived: Json,
    locatorFields: Json, summaries: Json, limitations: Json, holdings: Option<(Json, Json)>): map<Key, Json>
  {
    PlainPayload(format, sources, directFields, direct, derivedFields, derived, locatorFields, summaries, limitations)
    + (if holdings.Some? then map[HoldingRecords := holdings.value.0, HoldingCoverage := holdings.value.1] else map[])
  }

  /** `_compact` */
  function Compact(b: BundleDump): map<Key, Json> {
    SourceKeyShape(b);
    var keys := SourceKeys(b);
    Payload(JName(if HasHoldings(b) then V3 else V2), JList(SourceObjects(keys)),
            Names(DIRECT_FIELDS), JList(DirectTable(keys, b.direct)),
            Names(DERIVED_FIELDS), JList(DerivedTable(keys, b.derived)), Names(LOCATOR_TAIL),
            JList(Map(SummaryObject, b.summaries)), JList(b.limitations),
            if HasHoldings(b) then Some((JList(b.holdingRecords), JList(b.holdingCoverage))) else None)
  }

  function Policies(summaries: seq<SummaryDump>): seq<seq<Json>> {
    Distinct(Map((s: SummaryDump) => s.policyVersions, summaries))
  }

  /** A summary's columns, the policy versions replaced by their table index. */
  function SummaryRow(policies: seq<seq<Json>>, s: SummaryDump): Json {
    JList(Map((k: Key) =>
      if k == Policy then JInt(IndexIn(policies, s.policyVersions)) else SummaryField(s, k), SUMMARY_FIELDS))
  }

  /** `_compact_overflow_summaries`: `None` when the summaries do not share one context. */
  function CompactOverflow(payload: map<Key, Json>, b: BundleDump): Option<map<Key, Json>>
    requires b.summaries != []
  {
    var shared := b.summaries[0].context;
    var policies := Policies(b.summaries);
    if exists s | s in b.summaries :: s.context != shared then None
    else Some(Overflowed(payload, Names(CONTEXT_FIELDS),
                         JList(Map((k: Key) => SummaryField(b.summaries[0], k), CONTEXT_FIELDS)),
                         JList(Map((p: seq<Json>) => JList(p), policies)), Names(SUMMARY_FIELDS),
                         JList(Map((s: SummaryDump) => SummaryRow(policies, s), b.summaries))))
  }

  /** The dictionary update that turns a payload into format v4. */
  function Overflowed(
    payload: map<Key, Json>, contextFields: Json, context: Json, policies: Json, fields: Json, rows: Json): map<Key, Json>
  {
    payload + map[Format := JName(V4), SummaryContextFields := contextFields, SummaryContext := context,
                  SummaryPolicyVersions := policies, SummaryFields := fields, Summaries := rows]
  }

  /** `_contains_local_path`: `absolute` is the POSIX or Windows absolute-path test. */
  predicate ContainsLocalPath(absolute: string -> bool, value: Json) {
    match value
    case JText(s) => absolute(s)
    case JList(items) => exists i | 0 <= i < |items| :: ContainsLocalPath(absolute, items[i])
    case JObject(fields) => exists k | k in fields :: ContainsLocalPath(absolute, fields[k])
    case _ => false
  }

  datatype Rejection = LocalPath | ContextDiffers | TooLarge

  /** `serialize_evidence_context`; `size` is the encoded length of a JSON value. */
  function Serialize(b: BundleDump, absolute: string -> bool, size: Json -> nat, limit: nat): Result<Json, Rejection> {
    var payload := Compact(b);
    if ContainsLocalPath(absolute, JObject(payload)) then Err(LocalPath)
    else if size(JObject(payload)) <= limit then Ok(JObject(payload))
    else if b.summaries == [] then Err(TooLarge)
    else match CompactOverflow(payload, b)
      case None => Err(ContextDiffers)
      case Some(compacted) => if size(JObject(compacted)) <= limit then Ok(JObject(compacted)) else Err(TooLarge)
  }

  // ---------- decoding ----------

  function DecodeAll<T>(decode: Json -> Option<T>, items: seq<Json>): Option<seq<T>> {
    if items == [] then Some([])
    else
      var first := decode(items[0]);
      var rest := DecodeAll(decode, items[1..]);
      if first.Some? && rest.Some? then Some([first.value] + rest.value) else None
  }

  function ListOf(j: Json): Option<seq<Json>> {
    if j.JList? then Some(j.items) else None
  }

  function NameOf(j: Json): Option<Key> {
    if j.JName? then Some(j.k) else None
  }

  /** The cell of a row under a named column. */
  function Cell(header: seq<Key>, row: seq<Json>, column: Key): Json {
    var i := IndexIn(header, column);
    if i < |header| && i < |row| then row[i] else JNull
  }

  function DecodeSource(j: Json): Option<SourceKeyRow> {
    if j.JObject? && {SourceTable, SourceFile, SourceSheet, SourceChecksum, SourceSnapshotDate} <= j.fields.Keys then
      var f := j.fields;
      if f[SourceTable].JText? && f[SourceFile].JText? && f[SourceSheet].JText? && f[SourceChecksum].JText?
         && f[SourceSnapshotDate].JText?
      then Some([f[SourceTable].s, f[SourceFile].s, f[SourceSheet].s, f[SourceChecksum].s, f[SourceSnapshotDate].s])
      else None
    else None
  }

  function DecodeLocator(header: seq<Key>, keys: seq<SourceKeyRow>, row: seq<Json>): Option<Locator> {
    var index := Cell(header, row, SourceIndex);
    if index.JInt? && 0 <= index.n < |keys| && |keys[index.n]| == 5 then
      var key := keys[index.n];
      Some(Locator(key[0], key[1], key[2], key[3], key[4],
                   Cell(header, row, SourceRowNumber), Cell(header, row, SourceColumnName),
                   Cell(header, row, SourceColumnNumber), Cell(header, row, SourceColumnLetter),
                   Cell(header, row, SourceApplicableDate)))
    else None
  }

  function DecodeDirect(header: seq<Key>, keys: seq<SourceKeyRow>, j: Json): Option<DirectDump> {
    if !j.JList? then None
    else
      var row := j.items;
      match DecodeLocator(header, keys, row)
      case None => None
      case Some(source) =>
        Some(DirectDump(Cell(header, row, EvidenceId), Cell(header, row, ProductType), Cell(header, row, ProductId),
                        Cell(header, row, FieldId), Cell(header, row, RawValue), Cell(header, row, NormalizedValue),
                        Cell(header, row, QualityStatus), Cell(header, row, RuleId), Cell(header, row, RuleVersion),
                        source))
  }

  function DecodeInput(header: seq<Key>, keys: seq<SourceKeyRow>, j: Json): Option<Locator> {
    if j.JList? then DecodeLocator(header, keys, j.items) else None
  }

  function DecodeDerived(
    header: seq<Key>, locatorHeader: seq<Key>, keys: seq<SourceKeyRow>, j: Json): Option<DerivedDump>
  {
    if !j.JList? || !Cell(header, j.items, Inputs).JList? then None
    else
      var row := j.items;
      match DecodeAll((x: Json) => DecodeInput(locatorHeader, keys, x), Cell(header, row, Inputs).items)
      case None => None
      case Some(inputs) =>
        Some(DerivedDump(Cell(header, row, EvidenceId), Cell(header, row, ProductType), Cell(header, row, ProductId),
                         Cell(header, row, FieldId), Cell(header, row, Value), Cell(header, row, QualityStatus),
                         Cell(header, row, RuleId), Cell(header, row, RuleVersion), Cell(header, row, AsOfDate),
                         inputs))
  }

  function Property(fields: map<Key, Json>, k: Key): Json {
    if k in fields then fields[k] else JNull
  }

  function DecodeSummaryObject(j: Json): Option<SummaryDump> {
    if !j.JObject? || !Property(j.fields, PolicyVersions).JList? then None
    else
      var f := j.fields;
      Some(SummaryDump(Property(f, SummaryId), Property(f, Kind), Property(f, IncludedCount),
                       Property(f, ExcludedCount), Property(f, EvidenceIds), Property(f, PolicyVersions).items,
                       Context(Property(f, ValidatedPlanSha), Property(f, VersionBundleSha),
                               Property(f, ArtifactManifestHash)),
                       Property(f, ProductTypes), Property(f, NativeResultGrains), Property(f, PartitionKey),
                       Property(f, ProductId), Property(f, MetricId), Property(f, Rank), Property(f, TieCount),
                       Property(f, Value), Property(f, GroupValues)))
  }

  function DecodeSummaryRow(
    header: seq<Key>, context: Context, policies: seq<seq<Json>>, j: Json): Option<SummaryDump>
  {
    if !j.JList? then None
    else
      var row := j.items;
      var policy := Cell(header, row, Policy);
      if !policy.JInt? || !(0 <= policy.n < |policies|) then None
      else
        Some(SummaryDump(Cell(header, row, SummaryId), Cell(header, row, Kind), Cell(header, row, IncludedCount),
                         Cell(header, row, ExcludedCount), Cell(header, row, EvidenceIds), policies[policy.n], context,
                         Cell(header, row, ProductTypes), Cell(header, row, NativeResultGrains),
                         Cell(header, row, PartitionKey), Cell(header, row, ProductId), Cell(header, row, MetricId),
                         Cell(header, row, Rank), Cell(header, row, TieCount), Cell(header, row, Value),
                         Cell(header, row, GroupValues)))
  }

  function HeaderOf(f: map<Key, Json>, k: Key): Option<seq<Key>> {
    if Property(f, k).JList? then DecodeAll(NameOf, Property(f, k).items) else None
  }

  function DecodeSummaries(f: map<Key, Json>): Option<seq<SummaryDump>> {
    if !Property(f, Summaries).JList? then None
    else if Property(f, Format) != JName(V4) then DecodeAll(DecodeSummaryObject, f[Summaries].items)
    else
      var header, contextHeader := HeaderOf(f, SummaryFields), HeaderOf(f, SummaryContextFields);
      var context, policyLists := Property(f, SummaryContext), Property(f, SummaryPolicyVersions);
      if header.None? || contextHeader.None? || !context.JList? || !policyLists.JList? then None
      else match DecodeAll(ListOf, policyLists.items)
        case None => None
        case Some(policies) =>
          var shared := Context(Cell(contextHeader.value, context.items, ValidatedPlanSha),
                                Cell(contextHeader.value, context.items, VersionBundleSha),
                                Cell(contextHeader.value, context.items, ArtifactManifestHash));
          DecodeAll((j: Json) => DecodeSummaryRow(header.value, shared, policies, j), f[Summaries].items)
  }

  function OptionalList(f: map<Key, Json>, k: Key): Option<seq<Json>> {
    if k !in f then Some([]) else ListOf(f[k])
  }

  /** Reads any of the three formats from its tag, its headers and the keys that are present. */
  function Decode(j: Json): Option<BundleDump> {
    if !j.JObject? then None
    else
      var f := j.fields;
      var directHeader, derivedHeader := HeaderOf(f, DirectFields), HeaderOf(f, DerivedFields);
      var locatorHeader := HeaderOf(f, LocatorFields);
      if directHeader.None? || derivedHeader.None? || locatorHeader.None? || !Property(f, Sources).JList?
         || !Property(f, Direct).JList? || !Property(f, Derived).JList? || !Property(f, Limitations).JList? then None
      else match DecodeAll(DecodeSource, f[Sources].items)
        case None => None
        case Some(keys) =>
          var direct := DecodeAll((x: Json) => DecodeDirect(directHeader.value, keys, x), f[Direct].items);
          var derived := DecodeAll((x: Json) => DecodeDerived(derivedHeader.value, locatorHeader.value, keys, x),
                                   f[Derived].items);
          var summaries := DecodeSummaries(f);
          var records, coverage := OptionalList(f, HoldingRecords), OptionalList(f, HoldingCoverage);
          if direct.Some? && derived.Some? && summaries.Some? && records.Some? && coverage.Some?
          then Some(BundleDump(direct.value, derived.value, summaries.value, f[Limitations].items, records.value,
                               coverage.value))
          else None
  }

  // ---------- the source table ----------

  lemma {:induction false} RowOrder()
    ensures Sorting.StrictWeak(RowLt)
  {
    forall x: seq<string> ensures !RowLt(x, x) { RowLtTrichotomy(x, x); }
    forall x, y, z | RowLt(x, y) && RowLt(y, z) ensures RowLt(x, z) { RowLtTransitive(x, y, z); }
    forall x, y, z | RowLt(x, z) ensures RowLt(x, y) || RowLt(y, z) {
      RowLtTrichotomy(x, y);
      RowLtTrichotomy(y, z);
      if RowLt(z, y) && !RowLt(x, y) {
        RowLtTransitive(x, z, y);
      }
    }
  }

  lemma {:induction false} SourcesSorted(used: seq<SourceKeyRow>)
    ensures Sorting.Pairwise(RowLt, Sorting.Sort(RowLt, Distinct(used)))
  {
    var keys := Sorting.Sort(RowLt, Distinct(used));
    var different := (x: SourceKeyRow, y: SourceKeyRow) => x != y;
    RowOrder();
    Sorting.SortStable(RowLt, different, Distinct(used));
    forall i, j | 0 <= i < j < |keys| ensures RowLt(keys[i], keys[j]) {
      RowLtTrichotomy(keys[i], keys[j]);
    }
  }

  lemma {:induction false} SourcesCover(used: seq<SourceKeyRow>, k: SourceKeyRow)
    ensures k in Sorting.Sort(RowLt, Distinct(used)) <==> k in used
  {
    var unsorted := Distinct(used);
    var keys := Sorting.Sort(RowLt, unsorted);
    assert multiset(unsorted) == multiset(keys);
    assert k in keys <==> k in multiset(keys);
    assert k in unsorted <==> k in multiset(unsorted);
  }

  /** The source table is strictly sorted, every entry is used by some locator, and every locator's key is in it. */
  lemma {:induction false} SourceTableExact(b: BundleDump)
    ensures Sorting.Pairwise(RowLt, SourceKeys(b))
    ensures forall k | k in SourceKeys(b) :: |k| == 5 && exists l | l in Locators(b) :: SourceKey(l) == k
    ensures forall l | l in Locators(b) :: SourceKey(l) in SourceKeys(b)
  {
    var used := Map(SourceKey, Locators(b));
    SourcesSorted(used);
    forall k | k in SourceKeys(b) ensures |k| == 5 && exists l | l in Locators(b) :: SourceKey(l) == k {
      SourcesCover(used, k);
      var i :| 0 <= i < |used| && used[i] == k;
      assert Locators(b)[i] in Locators(b);
    }
    forall l | l in Locators(b) ensures SourceKey(l) in SourceKeys(b) {
      var i :| 0 <= i < |used| && Locators(b)[i] == l;
      assert used[i] == SourceKey(l);
      SourcesCover(used, SourceKey(l));
    }
  }

  // ---------- round trips, from cells up ----------

  lemma {:induction false} DecodeAllOf<T(!new)>(encode: T -> Json, decode: Json -> Option<T>, xs: seq<T>)
    requires forall x | x in xs :: decode(encode(x)) == Some(x)
    ensures DecodeAll(decode, Map(encode, xs)) == Some(xs)
  {
    if xs != [] {
      assert Map(encode, xs)[1..] == Map(encode, xs[1..]);
      DecodeAllOf(encode, decode, xs[1..]);
      assert xs == [xs[0]] + xs[1..];
    }
  }

  lemma {:induction false} HeaderRoundTrip(keys: seq<Key>)
    ensures DecodeAll(NameOf, Names(keys).items) == Some(keys)
  {
    DecodeAllOf((k: Key) => JName(k), NameOf, keys);
  }

  /** A row laid out by its header gives every named column back. */
  lemma {:induction false} CellOf(header: seq<Key>, f: Key -> Json, k: Key)
    requires k in header
    ensures Cell(header, Map(f, header), k) == f(k)
  {
  }

  ghost predicate DistinctKeys(header: seq<Key>) {
    forall a, b | 0 <= a < b < |header| :: header[a] != header[b]
  }

  /** With distinct columns, a column's cell is the value written at its position. */
  lemma {:induction false} CellAt(header: seq<Key>, row: seq<Json>, i: nat, k: Key)
    requires i < |header| == |row| && header[i] == k && DistinctKeys(header)
    ensures Cell(header, row, k) == row[i]
  {
  }

  /** The locator columns stand at `offset`. */
  ghost predicate LocatorColumns(header: seq<Key>, offset: nat) {
    && |header| == offset + 6 && DistinctKeys(header)
    && header[offset] == SourceIndex && header[offset + 1] == SourceRowNumber
    && header[offset + 2] == SourceColumnName && header[offset + 3] == SourceColumnNumber
    && header[offset + 4] == SourceColumnLetter && header[offset + 5] == SourceApplicableDate
  }

  lemma {:induction false} LocatorRoundTrip(
    header: seq<Key>, offset: nat, prefix: seq<Json>, keys: seq<SourceKeyRow>, l: Locator)
    requires LocatorColumns(header, offset) && |prefix| == offset
    requires SourceKey(l) in keys
    ensures DecodeLocator(header, keys, prefix + LocatorRow(keys, l)) == Some(l)
  {
    var row := prefix + LocatorRow(keys, l);
    CellAt(header, row, offset, SourceIndex);
    CellAt(header, row, offset + 1, SourceRowNumber);
    CellAt(header, row, offset + 2, SourceColumnName);
    CellAt(header, row, offset + 3, SourceColumnNumber);
    CellAt(header, row, offset + 4, SourceColumnLetter);
    CellAt(header, row, offset + 5, SourceApplicableDate);
  }

  ghost predicate DirectColumns(header: seq<Key>) {
    && LocatorColumns(header, 9)
    && header[0] == EvidenceId && header[1] == ProductType && header[2] == ProductId && header[3] == FieldId
    && header[4] == RawValue && header[5] == NormalizedValue && header[6] == QualityStatus
    && header[7] == RuleId && header[8] == RuleVersion
  }

  lemma {:induction false} DirectRoundTrip(header: seq<Key>, keys: seq<SourceKeyRow>, d: DirectDump)
    requires DirectColumns(header) && SourceKey(d.source) in keys
    ensures DecodeDirect(header, keys, DirectRow(keys, d)) == Some(d)
  {
    var prefix := [d.evidenceId, d.productType, d.productId, d.fieldId, d.rawValue, d.normalizedValue,
                   d.qualityStatus, d.ruleId, d.ruleVersion];
    var row := prefix + LocatorRow(keys, d.source);
    LocatorRoundTrip(header, 9, prefix, keys, d.source);
    CellAt(header, row, 0, EvidenceId);
    CellAt(header, row, 1, ProductType);
    CellAt(header, row, 2, ProductId);
    CellAt(header, row, 3, FieldId);
    CellAt(header, row, 4, RawValue);
    CellAt(header, row, 5, NormalizedValue);
    CellAt(header, row, 6, QualityStatus);
    CellAt(header, row, 7, RuleId);
    CellAt(header, row, 8, RuleVersion);
  }

  lemma {:induction false} InputsRoundTrip(header: seq<Key>, keys: seq<SourceKeyRow>, inputs: seq<Locator>)
    requires LocatorColumns(header, 0)
    requires forall l | l in inputs :: SourceKey(l) in keys
    ensures DecodeAll((x: Json) => DecodeInput(header, keys, x),
                      Map((l: Locator) => JList(LocatorRow(keys, l)), inputs)) == Some(inputs)
  {
    var encode := (l: Locator) => JList(LocatorRow(keys, l));
    var decode := (x: Json) => DecodeInput(header, keys, x);
    forall l | l in inputs ensures decode(encode(l)) == Some(l) {
      LocatorRoundTrip(header, 0, [], keys, l);
      assert [] + LocatorRow(keys, l) == LocatorRow(keys, l);
    }
    DecodeAllOf(encode, decode, inputs);
  }

  ghost predicate DerivedColumns(header: seq<Key>) {
    && |header| == 10 && DistinctKeys(header)
    && header[0] == EvidenceId && header[1] == ProductType && header[2] == ProductId && header[3] == FieldId
    && header[4] == Value && header[5] == QualityStatus && header[6] == RuleId && header[7] == RuleVersion
    && header[8] == AsOfDate && header[9] == Inputs
  }

  lemma {:induction false} DerivedRoundTrip(
    header: seq<Key>, locatorHeader: seq<Key>, keys: seq<SourceKeyRow>, d: DerivedDump)
    requires DerivedColumns(header) && LocatorColumns(locatorHeader, 0)
    requires forall l | l in d.inputs :: SourceKey(l) in keys
    ensures DecodeDerived(header, locatorHeader, keys, DerivedRow(keys, d)) == Some(d)
  {
    var row := DerivedRow(keys, d).items;
    InputsRoundTrip(locatorHeader, keys, d.inputs);
    CellAt(header, row, 0, EvidenceId);
    CellAt(header, row, 1, ProductType);
    CellAt(header, row, 2, ProductId);
    CellAt(header, row, 3, FieldId);
    CellAt(header, row, 4, Value);
    CellAt(header, row, 5, QualityStatus);
    CellAt(header, row, 6, RuleId);
    CellAt(header, row, 7, RuleVersion);
    CellAt(header, row, 8, AsOfDate);
    CellAt(header, row, 9, Inputs);
  }

  /** The declared headers name each column once, in row order. */
  lemma {:induction false} HeadersNameColumns()
    ensures DirectColumns(DIRECT_FIELDS) && DerivedColumns(DERIVED_FIELDS) && LocatorColumns(LOCATOR_TAIL, 0)
  {
  }

  ghost predicate SummaryColumns(header: seq<Key>) {
    && |header| == 15
    && header[0] == SummaryId && header[1] == Kind && header[2] == IncludedCount && header[3] == ExcludedCount
    && header[4] == EvidenceIds && header[5] == Policy && header[6] == ProductTypes
    && header[7] == NativeResultGrains && header[8] == PartitionKey && header[9] == ProductId && header[10] == MetricId
    && header[11] == Rank && header[12] == TieCount && header[13] == Value && header[14] == GroupValues
  }

  lemma {:induction false} CellsOf(header: seq<Key>, f: Key -> Json)
    ensures forall k | k in header :: Cell(header, Map(f, header), k) == f(k)
  {
    forall k | k in header ensures Cell(header, Map(f, header), k) == f(k) {
      CellOf(header, f, k);
    }
  }

  /** All columns are named. */
  lemma {:induction false} SummaryColumnsNamed(header: seq<Key>)
    requires SummaryColumns(header)
    ensures forall k | k in [SummaryId, Kind, IncludedCount, ExcludedCount, EvidenceIds, Policy, ProductTypes,
                             NativeResultGrains, PartitionKey, ProductId, MetricId, Rank, TieCount, Value, GroupValues]
              :: k in header
  {
  }

  /** A row function writes a summary's own fields. */
  ghost predicate WritesFields(f: Key -> Json, s: SummaryDump) {
    && f(SummaryId) == s.summaryId && f(Kind) == s.kind && f(IncludedCount) == s.includedCount
    && f(ExcludedCount) == s.excludedCount && f(EvidenceIds) == s.evidenceIds && f(ProductTypes) == s.productTypes
    && f(NativeResultGrains) == s.grains && f(PartitionKey) == s.partitionKey && f(ProductId) == s.productId
    && f(MetricId) == s.metricId && f(Rank) == s.rank && f(TieCount) == s.tieCount && f(Value) == s.value
    && f(GroupValues) == s.groupValues
  }

  lemma {:induction false} SummaryRowRoundTrip(
    header: seq<Key>, f: Key -> Json, policies: seq<seq<Json>>, s: SummaryDump)
    requires SummaryColumns(header) && s.policyVersions in policies
    requires f(Policy) == JInt(IndexIn(policies, s.policyVersions)) && WritesFields(f, s)
    ensures DecodeSummaryRow(header, s.context, policies, JList(Map(f, header))) == Some(s)
  {
    CellsOf(header, f);
    SummaryColumnsNamed(header);
  }

  // ---------- whole tables ----------

  lemma {:induction false} SourceObjectRoundTrip(key: SourceKeyRow)
    requires |key| == 5
    ensures DecodeSource(SourceObject(key)) == Some(key)
  {
    assert [key[0], key[1], key[2], key[3], key[4]] == key;
  }

  lemma {:induction false} SourcesRoundTrip(keys: seq<SourceKeyRow>)
    requires forall k | k in keys :: |k| == 5
    ensures DecodeAll(DecodeSource, SourceObjects(keys)) == Some(keys)
  {
    if keys != [] {
      SourcesRoundTrip(keys[1..]);
      SourceObjectRoundTrip(keys[0]);
      DecodeCons(DecodeSource, SourceObjects(keys), SourceObjects(keys[1..]), keys);
    }
  }

  lemma {:induction false} DecodeCons<T>(decode: Json -> Option<T>, items: seq<Json>, rest: seq<Json>, xs: seq<T>)
    requires xs != [] && items != [] && items[1..] == rest
    requires decode(items[0]) == Some(xs[0]) && DecodeAll(decode, rest) == Some(xs[1..])
    ensures DecodeAll(decode, items) == Some(xs)
  {
    assert xs == [xs[0]] + xs[1..];
  }

  lemma {:induction false} InputIsLocator(derived: seq<DerivedDump>, d: DerivedDump, l: Locator)
    requires d in derived && l in d.inputs
    ensures l in InputLocators(derived)
  {
    if derived[0] != d {
      InputIsLocator(derived[1..], d, l);
    }
  }

  lemma {:induction false} DirectSourceListed(b: BundleDump, d: DirectDump)
    requires d in b.direct
    ensures SourceKey(d.source) in SourceKeys(b)
  {
    var i :| 0 <= i < |b.direct| && b.direct[i] == d;
    assert Locators(b)[i] == d.source;
    SourceTableExact(b);
  }

  lemma {:induction false} InputSourcesListed(b: BundleDump, d: DerivedDump)
    requires d in b.derived
    ensures forall l | l in d.inputs :: SourceKey(l) in SourceKeys(b)
  {
    SourceTableExact(b);
    forall l | l in d.inputs ensures SourceKey(l) in SourceKeys(b) {
      InputIsLocator(b.derived, d, l);
      assert l in Locators(b);
    }
  }

  lemma {:induction false} DirectTableRoundTrip(keys: seq<SourceKeyRow>, direct: seq<DirectDump>)
    requires forall d | d in direct :: SourceKey(d.source) in keys
    ensures DecodeAll((x: Json) => DecodeDirect(DIRECT_FIELDS, keys, x), DirectTable(keys, direct)) == Some(direct)
  {
    HeadersNameColumns();
    var encode := (d: DirectDump) => DirectRow(keys, d);
    var decode := (x: Json) => DecodeDirect(DIRECT_FIELDS, keys, x);
    forall d | d in direct ensures decode(encode(d)) == Some(d) {
      DirectRoundTrip(DIRECT_FIELDS, keys, d);
    }
    DecodeAllOf(encode, decode, direct);
  }

  lemma {:induction false} DerivedTableRoundTrip(keys: seq<SourceKeyRow>, derived: seq<DerivedDump>)
    requires forall d, l | d in derived && l in d.inputs :: SourceKey(l) in keys
    ensures DecodeAll((x: Json) => DecodeDerived(DERIVED_FIELDS, LOCATOR_TAIL, keys, x), DerivedTable(keys, derived))
         == Some(derived)
  {
    HeadersNameColumns();
    var encode := (d: DerivedDump) => DerivedRow(keys, d);
    var decode := (x: Json) => DecodeDerived(DERIVED_FIELDS, LOCATOR_TAIL, keys, x);
    forall d | d in derived ensures decode(encode(d)) == Some(d) {
      DerivedRoundTrip(DERIVED_FIELDS, LOCATOR_TAIL, keys, d);
    }
    DecodeAllOf(encode, decode, derived);
  }

  ghost predicate LeadingProperties(f: map<Key, Json>, s: SummaryDump) {
    && Property(f, SummaryId) == s.summaryId && Property(f, Kind) == s.kind
    && Property(f, IncludedCount) == s.includedCount && Property(f, ExcludedCount) == s.excludedCount
    && Property(f, EvidenceIds) == s.evidenceIds && Property(f, PolicyVersions) == JList(s.policyVersions)
    && Property(f, ValidatedPlanSha) == s.context.planSha && Property(f, VersionBundleSha) == s.context.versionSha
    && Property(f, ArtifactManifestHash) == s.context.artifactHash
  }

  ghost predicate TrailingProperties(f: map<Key, Json>, s: SummaryDump) {
    && Property(f, ProductTypes) == s.productTypes && Property(f, NativeResultGrains) == s.grains
    && Property(f, PartitionKey) == s.partitionKey && Property(f, ProductId) == s.productId
    && Property(f, MetricId) == s.metricId && Property(f, Rank) == s.rank && Property(f, TieCount) == s.tieCount
    && Property(f, Value) == s.value && Property(f, GroupValues) == s.groupValues
  }

  lemma {:induction false} SummaryObjectLeads(s: SummaryDump)
    ensures LeadingProperties(SummaryObject(s).fields, s)
  {
  }

  lemma {:induction false} SummaryObjectTrails(s: SummaryDump)
    ensures TrailingProperties(SummaryObject(s).fields, s)
  {
  }

  lemma {:induction false} SummaryPropertiesRoundTrip(f: map<Key, Json>, s: SummaryDump)
    requires LeadingProperties(f, s) && TrailingProperties(f, s)
    ensures DecodeSummaryObject(JObject(f)) == Some(s)
  {
  }

  lemma {:induction false} SummaryObjectRoundTrip(s: SummaryDump)
    ensures DecodeSummaryObject(SummaryObject(s)) == Some(s)
  {
    SummaryObjectLeads(s);
    SummaryObjectTrails(s);
    SummaryPropertiesRoundTrip(SummaryObject(s).fields, s);
  }

  lemma {:induction false} SummaryObjectsRoundTrip(summaries: seq<SummaryDump>)
    ensures DecodeAll(DecodeSummaryObject, Map(SummaryObject, summaries)) == Some(summaries)
  {
    forall s | s in summaries ensures DecodeSummaryObject(SummaryObject(s)) == Some(s) {
      SummaryObjectRoundTrip(s);
    }
    DecodeAllOf(SummaryObject, DecodeSummaryObject, summaries);
  }

  /** Format v4: one shared context and a policy table recover every summary. */
  lemma {:induction false} SummaryRowDecodes(policies: seq<seq<Json>>, s: SummaryDump)
    requires s.policyVersions in policies
    ensures DecodeSummaryRow(SUMMARY_FIELDS, s.context, policies, SummaryRow(policies, s)) == Some(s)
  {
    var f := (k: Key) => if k == Policy then JInt(IndexIn(policies, s.policyVersions)) else SummaryField(s, k);
    assert WritesFields(f, s);
    SummaryHeader();
    SummaryRowRoundTrip(SUMMARY_FIELDS, f, policies, s);
  }

  lemma {:induction false} SummaryHeader()
    ensures SummaryColumns(SUMMARY_FIELDS)
  {
  }

  lemma {:induction false} SummaryRowsRoundTrip(summaries: seq<SummaryDump>, shared: Context)
    requires forall s | s in summaries :: s.context == shared
    ensures var policies := Policies(summaries);
            DecodeAll((j: Json) => DecodeSummaryRow(SUMMARY_FIELDS, shared, policies, j),
                      Map((s: SummaryDump) => SummaryRow(policies, s), summaries)) == Some(summaries)
  {
    var policies := Policies(summaries);
    var encode := (s: SummaryDump) => SummaryRow(policies, s);
    var decode := (j: Json) => DecodeSummaryRow(SUMMARY_FIELDS, shared, policies, j);
    forall s | s in summaries ensures decode(encode(s)) == Some(s) {
      InMap((x: SummaryDump) => x.policyVersions, summaries);
      SummaryRowDecodes(policies, s);
    }
    DecodeAllOf(encode, decode, summaries);
  }

  /** The v4 summary part of a payload. */
  ghost predicate HasOverflowSummaries(f: map<Key, Json>, summaries: seq<SummaryDump>) {
    && summaries != []
    && Property(f, Format) == JName(V4)
    && Property(f, SummaryContextFields) == Names(CONTEXT_FIELDS)
    && Property(f, SummaryContext) == JList(Map((k: Key) => SummaryField(summaries[0], k), CONTEXT_FIELDS))
    && Property(f, SummaryPolicyVersions) == JList(Map((p: seq<Json>) => JList(p), Policies(summaries)))
    && Property(f, SummaryFields) == Names(SUMMARY_FIELDS)
    && Property(f, Summaries) == JList(Map((s: SummaryDump) => SummaryRow(Policies(summaries), s), summaries))
  }

  lemma {:induction false} OverflowSummariesRoundTrip(f: map<Key, Json>, summaries: seq<SummaryDump>)
    requires HasOverflowSummaries(f, summaries)
    requires forall s | s in summaries :: s.context == summaries[0].context
    ensures DecodeSummaries(f) == Some(summaries)
  {
    var policies := Policies(summaries);
    HeaderRoundTrip(SUMMARY_FIELDS);
    HeaderRoundTrip(CONTEXT_FIELDS);
    ContextRoundTrip(CONTEXT_FIELDS, summaries[0]);
    DecodeAllOf((p: seq<Json>) => JList(p), ListOf, policies);
    SummaryRowsRoundTrip(summaries, summaries[0].context);
  }

  lemma {:induction false} ContextRoundTrip(header: seq<Key>, s: SummaryDump)
    requires header == [ValidatedPlanSha, VersionBundleSha, ArtifactManifestHash]
    ensures var row := Map((k: Key) => SummaryField(s, k), header);
            Context(Cell(header, row, ValidatedPlanSha), Cell(header, row, VersionBundleSha),
                    Cell(header, row, ArtifactManifestHash)) == s.context
  {
    var field := (k: Key) => SummaryField(s, k);
    CellOf(header, field, ValidatedPlanSha);
    CellOf(header, field, VersionBundleSha);
    CellOf(header, field, ArtifactManifestHash);
  }

  /** Everything a payload says outside the summaries. */
  ghost predicate BodyIs(
    f: map<Key, Json>, sources: Json, directFields: Json, direct: Json, derivedFields: Json, derived: Json,
    locatorFields: Json, limitations: Json, holdings: Option<(Json, Json)>)
  {
    && Property(f, Sources) == sources
    && Property(f, DirectFields) == directFields
    && Property(f, Direct) == direct
    && Property(f, DerivedFields) == derivedFields
    && Property(f, Derived) == derived
    && Property(f, LocatorFields) == locatorFields
    && Property(f, Limitations) == limitations
    && (holdings.Some? ==> HoldingRecords in f && f[HoldingRecords] == holdings.value.0
                           && HoldingCoverage in f && f[HoldingCoverage] == holdings.value.1)
    && (holdings.None? ==> HoldingRecords !in f && HoldingCoverage !in f)
  }

  lemma {:induction false} PayloadBody(
    format: Json, sources: Json, directFields: Json, direct: Json, derivedFields: Json, derived: Json,
    locatorFields: Json, summaries: Json, limitations: Json, holdings: Option<(Json, Json)>)
    ensures var f := Payload(format, sources, directFields, direct, derivedFields, derived, locatorFields, summaries,
                             limitations, holdings);
            && BodyIs(f, sources, directFields, direct, derivedFields, derived, locatorFields, limitations, holdings)
            && Property(f, Format) == format && Property(f, Summaries) == summaries
  {
    var plain := PlainPayload(format, sources, directFields, direct, derivedFields, derived, locatorFields, summaries, limitations);
    PlainBody(format, sources, directFields, direct, derivedFields, derived, locatorFields, summaries, limitations);
    if holdings.Some? {
      WithHoldings(plain, holdings.value.0, holdings.value.1);
    } else {
      assert plain + map[] == plain;
    }
  }

  lemma {:induction false} PlainBody(
    format: Json, sources: Json, directFields: Json, direct: Json, derivedFields: Json, derived: Json,
    locatorFields: Json, summaries: Json, limitations: Json)
    ensures var f := PlainPayload(format, sources, directFields, direct, derivedFields, derived, locatorFields, summaries, limitations);
            && BodyIs(f, sources, directFields, direct, derivedFields, derived, locatorFields, limitations, None)
            && Property(f, Format) == format && Property(f, Summaries) == summaries
  {
  }

  /** Adding the two holding tables changes no other property. */
  lemma {:induction false} WithHoldings(f: map<Key, Json>, records: Json, coverage: Json)
    ensures var g := f + map[HoldingRecords := records, HoldingCoverage := coverage];
            && HoldingRecords in g && g[HoldingRecords] == records && HoldingCoverage in g && g[HoldingCoverage] == coverage
            && forall k | k != HoldingRecords && k != HoldingCoverage :: Property(g, k) == Property(f, k)
  {
  }

  lemma {:induction false} OverflowedKeeps(
    f: map<Key, Json>, contextFields: Json, context: Json, policies: Json, fields: Json, rows: Json, k: Key)
    requires k !in {Format, SummaryContextFields, SummaryContext, SummaryPolicyVersions, SummaryFields, Summaries}
    ensures var g := Overflowed(f, contextFields, context, policies, fields, rows);
            (k in g <==> k in f) && (k in f ==> g[k] == f[k]) && Property(g, k) == Property(f, k)
  {
  }

  lemma {:induction false} OverflowedBody(
    f: map<Key, Json>, contextFields: Json, context: Json, policies: Json, fields: Json, rows: Json,
    sources: Json, directFields: Json, direct: Json, derivedFields: Json, derived: Json,
    locatorFields: Json, limitations: Json, holdings: Option<(Json, Json)>)
    requires BodyIs(f, sources, directFields, direct, derivedFields, derived, locatorFields, limitations, holdings)
    ensures var g := Overflowed(f, contextFields, context, policies, fields, rows);
            BodyIs(g, sources, directFields, direct, derivedFields, derived, locatorFields, limitations, holdings)
  {
    OverflowedKeeps(f, contextFields, context, policies, fields, rows, Sources);
    OverflowedKeeps(f, contextFields, context, policies, fields, rows, DirectFields);
    OverflowedKeeps(f, contextFields, context, policies, fields, rows, Direct);
    OverflowedKeeps(f, contextFields, context, policies, fields, rows, DerivedFields);
    OverflowedKeeps(f, contextFields, context, policies, fields, rows, Derived);
    OverflowedKeeps(f, contextFields, context, policies, fields, rows, LocatorFields);
    OverflowedKeeps(f, contextFields, context, policies, fields, rows, Limitations);
    OverflowedKeeps(f, contextFields, context, policies, fields, rows, HoldingRecords);
    OverflowedKeeps(f, contextFields, context, policies, fields, rows, HoldingCoverage);
  }

  lemma {:induction false} OverflowedAdds(
    f: map<Key, Json>, contextFields: Json, context: Json, policies: Json, fields: Json, rows: Json)
    ensures var g := Overflowed(f, contextFields, context, policies, fields, rows);
            && Property(g, Format) == JName(V4) && Property(g, SummaryContextFields) == contextFields
            && Property(g, SummaryContext) == context && Property(g, SummaryPolicyVersions) == policies
            && Property(g, SummaryFields) == fields && Property(g, Summaries) == rows
  {
  }

  ghost predicate HasBody(f: map<Key, Json>, b: BundleDump, keys: seq<SourceKeyRow>)
    requires forall k | k in keys :: |k| == 5
  {
    BodyIs(f, JList(SourceObjects(keys)), Names(DIRECT_FIELDS), JList(DirectTable(keys, b.direct)),
           Names(DERIVED_FIELDS), JList(DerivedTable(keys, b.derived)), Names(LOCATOR_TAIL), JList(b.limitations),
           if HasHoldings(b) then Some((JList(b.holdingRecords), JList(b.holdingCoverage))) else None)
  }

  lemma {:induction false} BodyRoundTrip(f: map<Key, Json>, b: BundleDump, keys: seq<SourceKeyRow>)
    requires forall k | k in keys :: |k| == 5
    requires forall d | d in b.direct :: SourceKey(d.source) in keys
    requires forall d, l | d in b.derived && l in d.inputs :: SourceKey(l) in keys
    requires HasBody(f, b, keys)
    requires DecodeSummaries(f) == Some(b.summaries)
    ensures Decode(JObject(f)) == Some(b)
  {
    assert HeaderOf(f, DirectFields) == Some(DIRECT_FIELDS) by { HeaderRoundTrip(DIRECT_FIELDS); }
    assert HeaderOf(f, DerivedFields) == Some(DERIVED_FIELDS) by { HeaderRoundTrip(DERIVED_FIELDS); }
    assert HeaderOf(f, LocatorFields) == Some(LOCATOR_TAIL) by { HeaderRoundTrip(LOCATOR_TAIL); }
    assert OptionalList(f, HoldingRecords) == Some(b.holdingRecords);
    assert OptionalList(f, HoldingCoverage) == Some(b.holdingCoverage);
    SourcesRoundTrip(keys);
    DirectTableRoundTrip(keys, b.direct);
    DerivedTableRoundTrip(keys, b.derived);
    TablesDecode(f, b, keys, DIRECT_FIELDS, DERIVED_FIELDS, LOCATOR_TAIL);
  }

  /** Decoding only combines what the headers and tables decode to. */
  lemma {:induction false} TablesDecode(
    f: map<Key, Json>, b: BundleDump, keys: seq<SourceKeyRow>,
    directHeader: seq<Key>, derivedHeader: seq<Key>, locatorHeader: seq<Key>)
    requires HeaderOf(f, DirectFields) == Some(directHeader)
    requires HeaderOf(f, DerivedFields) == Some(derivedHeader)
    requires HeaderOf(f, LocatorFields) == Some(locatorHeader)
    requires Property(f, Sources).JList? && DecodeAll(DecodeSource, f[Sources].items) == Some(keys)
    requires Property(f, Direct) == JList(DirectTable(keys, b.direct))
    requires DecodeAll((x: Json) => DecodeDirect(directHeader, keys, x), DirectTable(keys, b.direct)) == Some(b.direct)
    requires Property(f, Derived) == JList(DerivedTable(keys, b.derived))
    requires DecodeAll((x: Json) => DecodeDerived(derivedHeader, locatorHeader, keys, x), DerivedTable(keys, b.derived))
          == Some(b.derived)
    requires DecodeSummaries(f) == Some(b.summaries)
    requires Property(f, Limitations) == JList(b.limitations)
    requires OptionalList(f, HoldingRecords) == Some(b.holdingRecords)
    requires OptionalList(f, HoldingCoverage) == Some(b.holdingCoverage)
    ensures Decode(JObject(f)) == Some(b)
  {
  }

  lemma {:induction false} CompactHasBody(b: BundleDump)
    ensures forall k | k in SourceKeys(b) :: |k| == 5
    ensures HasBody(Compact(b), b, SourceKeys(b))
    ensures Property(Compact(b), Summaries) == JList(Map(SummaryObject, b.summaries))
    ensures Property(Compact(b), Format) == JName(if HasHoldings(b) then V3 else V2)
  {
    SourceKeyShape(b);
    var keys := SourceKeys(b);
    PayloadBody(JName(if HasHoldings(b) then V3 else V2), JList(SourceObjects(keys)),
                Names(DIRECT_FIELDS), JList(DirectTable(keys, b.direct)),
                Names(DERIVED_FIELDS), JList(DerivedTable(keys, b.derived)), Names(LOCATOR_TAIL),
                JList(Map(SummaryObject, b.summaries)), JList(b.limitations),
                if HasHoldings(b) then Some((JList(b.holdingRecords), JList(b.holdingCoverage))) else None);
  }

  lemma {:induction false} OverflowHasBody(b: BundleDump, f: map<Key, Json>)
    requires b.summaries != [] && CompactOverflow(f, b).Some?
    requires forall k | k in SourceKeys(b) :: |k| == 5
    requires HasBody(f, b, SourceKeys(b))
    ensures HasBody(CompactOverflow(f, b).value, b, SourceKeys(b))
    ensures HasOverflowSummaries(CompactOverflow(f, b).value, b.summaries)
    ensures forall s | s in b.summaries :: s.context == b.summaries[0].context
  {
    var keys, policies := SourceKeys(b), Policies(b.summaries);
    OverflowedBody(f, Names(CONTEXT_FIELDS),
                   JList(Map((k: Key) => SummaryField(b.summaries[0], k), CONTEXT_FIELDS)),
                   JList(Map((p: seq<Json>) => JList(p), policies)), Names(SUMMARY_FIELDS),
                   JList(Map((s: SummaryDump) => SummaryRow(policies, s), b.summaries)),
                   JList(SourceObjects(keys)), Names(DIRECT_FIELDS), JList(DirectTable(keys, b.direct)),
                   Names(DERIVED_FIELDS), JList(DerivedTable(keys, b.derived)), Names(LOCATOR_TAIL),
                   JList(b.limitations),
                   if HasHoldings(b) then Some((JList(b.holdingRecords), JList(b.holdingCoverage))) else None);
    OverflowedAdds(f, Names(CONTEXT_FIELDS),
                   JList(Map((k: Key) => SummaryField(b.summaries[0], k), CONTEXT_FIELDS)),
                   JList(Map((p: seq<Json>) => JList(p), policies)), Names(SUMMARY_FIELDS),
                   JList(Map((s: SummaryDump) => SummaryRow(policies, s), b.summaries)));
  }

  lemma {:induction false} PayloadDecodes(b: BundleDump, f: map<Key, Json>)
    requires forall k | k in SourceKeys(b) :: |k| == 5
    requires HasBody(f, b, SourceKeys(b)) && DecodeSummaries(f) == Some(b.summaries)
    ensures Decode(JObject(f)) == Some(b)
  {
    forall d | d in b.direct ensures SourceKey(d.source) in SourceKeys(b) {
      DirectSourceListed(b, d);
    }
    forall d, l | d in b.derived && l in d.inputs ensures SourceKey(l) in SourceKeys(b) {
      InputSourcesListed(b, d);
    }
    BodyRoundTrip(f, b, SourceKeys(b));
  }

  /** Formats v2 and v3. */
  lemma {:induction false} CompactRoundTrip(b: BundleDump)
    ensures Decode(JObject(Compact(b))) == Some(b)
  {
    CompactHasBody(b);
    SummaryObjectsRoundTrip(b.summaries);
    PayloadDecodes(b, Compact(b));
  }

  /** Format v4. */
  lemma {:induction false} OverflowRoundTrip(b: BundleDump)
    requires b.summaries != [] && CompactOverflow(Compact(b), b).Some?
    ensures Decode(JObject(CompactOverflow(Compact(b), b).value)) == Some(b)
  {
    CompactHasBody(b);
    OverflowHasBody(b, Compact(b));
    OverflowSummariesRoundTrip(CompactOverflow(Compact(b), b).value, b.summaries);
    PayloadDecodes(b, CompactOverflow(Compact(b), b).value);
  }

  /** Main theorem. Whatever the serializer emits, in any of its three formats, decodes to exactly the dumped bundle. */
  lemma {:induction false} SerializationLossless(b: BundleDump, absolute: string -> bool, size: Json -> nat, limit: nat)
    ensures var r := Serialize(b, absolute, size, limit);
            r.Ok? ==> Decode(r.value) == Some(b)
  {
    var r := Serialize(b, absolute, size, limit);
    if r.Ok? {
      if r.value == JObject(Compact(b)) {
        CompactRoundTrip(b);
      } else {
        OverflowRoundTrip(b);
      }
    }
  }

  /** So two bundles with one serialized context have one dump, even under different size limits. */
  lemma {:induction false} SerializationInjective(
    a: BundleDump, b: BundleDump, absolute: string -> bool, size: Json -> nat, limitA: nat, limitB: nat)
    requires Serialize(a, absolute, size, limitA).Ok?
    requires Serialize(a, absolute, size, limitA) == Serialize(b, absolute, size, limitB)
    ensures a == b
  {
    SerializationLossless(a, absolute, size, limitA);
    SerializationLossless(b, absolute, size, limitB);
  }
}
