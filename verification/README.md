# FinProof: verified model of the deterministic evidence pipeline

FinProof answers questions about Korean financial products from checked evidence only. A planner proposes a query; everything after it is deterministic and makes strong promises. This project models those deterministic parts in Dafny and proves the promises, for every input, every run or every reachable state.

| file | what it models |
|---|---|
| `Wrappers.dfy`, `Sequences.dfy`, `Text.dfy`, `Sorting.dfy` | options, sequences and counting, string operations, Python's stable sort |
| `Evidence.dfy`, `Verifier.dfy`, `Renderer.dfy`, `RenderedAnswers.dfy`, `RejectedAnswers.dfy` | evidence bundles, claim verification, answer rendering, the theorem that joins the two, and a rejected answer |
| `ShownEvidence.dfy`, `ShownSummaries.dfy`, `AnswerContents.dfy`, `AnswerRenderer.dfy` | which evidence an answer must show, that it shows exactly that, and the renderer's loops |
| `Serializer.dfy`, `ContextBounds.dfy` | the columnar evidence context in formats v2, v3 and v4, with a decoder, and when which format is emitted or refused |
| `Publication.dfy` | rollback-guarded publication with a fault possible at every file operation |
| `Pacing.dfy`, `LoadRunner.dfy`, `Soak.dfy` | the concurrent load runner under any schedule, and the resumable soak over any stops and restarts |
| `Ranking.dfy`, `TopK.dfy`, `Partitioning.dfy`, `Stages.dfy` | tie-aware ranking, rank selection and streaming bound, compatibility partitions and their key texts, population counts, and the ranking stage over all partitions |
| `Holdings.dfy` | admission of holding generations and their flattening into two relations |
| `XlsxStream.dfy` | the streaming declaration scan and cell references |
| `Scoring.dfy` | case scores, suite aggregates |
| `Planner.dfy` | planner retries and their accounting |
| `SuiteCollisions.dfy`, `Resolver.dfy`, `JsonPointer.dfy` | cross-suite duplicates, entity resolution, JSON Pointers |

Main results, hardest first:

- `RenderedAnswers.RenderedVerifies`: the verifier accepts what the renderer wrote exactly when the wording is safe and the bundle has a stated shape; `BuilderBundlesVerify` shows that builder-shaped bundles have it.
- `AnswerContents.RenderedShows`: from bundle, question and plan alone, every direct and derived value, difference, summary, limitation and candidate is claimed exactly when it is due, and nothing else is claimed.
- `ContextBounds.SerializedExactly`: refused for a local path exactly when a text of the dump is one; otherwise the smallest sufficient format is emitted exactly when it fits, and whatever is emitted decodes to the dumped bundle.
- `Publication.Repository.Publish`: outcome, number of operations and lost groups as a function of the faults; all-or-nothing for one fault at any step, and a group is lost exactly when its own removal or restoration raises during rollback.
- `LoadRunner.Run`: claims, rate, deadline, samples and report, for every interleaving.
- `Soak.RunSessions`: any stops and resumes leave the report of one uninterrupted run.
- `Stages.StageTopK` and `Stages.PerTypeTopK`: partition, rank, select and bound is the brute-force top k of every partition if and only if no counter of the bound is asked for more than k, and truncation is disclosed exactly when a tie straddles a bound or a counter is asked for more.
- `Holdings.BuildRelations`: accepted exactly when the rows join, and then a complete and unique description of both relations.
- `Scoring.RunSuite`: every aggregate is perfect exactly when every observation is right.

Places where the code does not do what its documentation or surroundings suggest, kept as they are and given an exact condition:

- A rollback that fails deletes the backups with the temporary directory, so the groups whose own removal or restoration raised are lost, exactly those (`FateLost`); two faults lose the first of four groups (`LoseGroup`). An error while leaving that directory hides the verdict.
- Rendered answers are rejected outside the shape: `RenderedVerifies` is an equivalence, and a rank over two product types, which the evidence models admit, renders and is rejected (`TwoTypeRankRejected`).
- Population counts add up exactly when no missing or rejected value shares its identity with a valid one (`PopulationConserved`, `SharedIdentityBreaksCounts`).
- Partitions of one product type whose key texts coincide are bounded together and lose results (`StageTopK`, `NoneCurrencyCollides`). A group's text is its own exactly when its parts hold no colon and its currency and period are present and not named "None" (`KeyTextOwn`); colon-free texts coincide exactly for equal parts (`KeyTextExact`).
- The cross-suite check never lets a duplicate through, but a destination whose name holds a colon turns away incoming cases that only repeat each other (`AcceptPromotion`, `ColonRejectsItself`).
- The pointer of the empty path reads as one empty token (`PointerRoundTrip`, `PointerCollisions`).

`dafny verify dfyconfig.toml` checks the whole project.

## Model

| member | source | states |
|---|---|---|
| `Verifier.Verify` | src/finproof/evidence/verifier.py:39-138 | the checking loops accept exactly the drafts whose limitations are all claimed and whose claims are all safe, present in the text and matched by their evidence |
| `Verifier.CitedValue` | src/finproof/evidence/verifier.py:42-104 | with unique identifiers a cited identifier denotes exactly one evidence item |
| `Verifier.TamperedValueRejected` | src/finproof/evidence/verifier.py:163-204 | a numeric claim with a forged value and any sign is rejected unless evidence it cites states that value |
| `Verifier.SingleCitationTampered` | src/finproof/evidence/verifier.py:163-204 | an accepted numeric claim with one citation is rejected with any other value |
| `Verifier.FaultRejected` | src/finproof/evidence/verifier.py:106-138 | a recommendation, a forbidden or absent text, a missing or unknown citation, a value, field or product no cited item states, a wrong sign, a candidate citing another product, a candidate or rank that leaves out its holdings' identity, rows or coverage, and an uncited required limitation each reject the draft |
| `Verifier.MissingLimitationRejected` | src/finproof/evidence/verifier.py:106-112 | a draft that leaves out a material limitation is rejected |
| `AnswerRenderer.AppendSummaries` | src/finproof/answer/renderer.py:144-364 | the summary loop appends, for every summary in order, the line and claim of its kind: every due summary is claimed as the sentence it is due as, and only due ones are added |
| `AnswerRenderer.AppendLimitations` | src/finproof/answer/renderer.py:365-378 | the limitation loop appends one claimed line per limitation other than the snapshot notice, numbered by position |
| `AnswerRenderer.AppendConclusions` | src/finproof/answer/renderer.py:553-632 | the claims added are exactly those of the numeric differences between a product and exactly one other that carries the metric |
| `AnswerRenderer.AppendProducts` | src/finproof/answer/renderer.py:423-503 | the claims added are exactly the candidates of a recommendation and the due values of listed products, each with its product, field, value and evidence |
| `AnswerRenderer.Render` | src/finproof/answer/renderer.py:35-532 | the draft is the sections in order and shows exactly what is due; it exists exactly when no entry raises and claims and draft are within their bounds |
| `ShownEvidence.ProductClaims` | src/finproof/answer/renderer.py:379-503 | a direct value is claimed exactly when its product is listed, it is no unrequested identifier or name and no rank states it; a derived value exactly when its product is listed, it is no yield range or difference and no rank states it |
| `ShownEvidence.ConclusionClaims` | src/finproof/answer/renderer.py:553-632 | a difference is claimed exactly when it is numeric and its product is one of exactly two of its type with evidence of the compared metric |
| `ShownEvidence.ComparedExactly` | src/finproof/answer/renderer.py:575-583 | the compared products are those with evidence of the metric, each once |
| `ShownSummaries.ClassifiedExactly` | src/finproof/answer/renderer.py:76-364 | a summary is shown as one kind of sentence exactly under that kind's condition, stated without the order of the branches |
| `ShownSummaries.SummaryStated` | src/finproof/answer/renderer.py:144-364 | every due summary has a claim with its own text, value and sign that cites it first |
| `ShownSummaries.SummaryDue` | src/finproof/answer/renderer.py:144-364 | every claim of the summary loop is that of a due summary |
| `ShownSummaries.NoResultStated` | src/finproof/answer/renderer.py:504-528 | without evidence, an empty population or an empty first count is claimed as no result |
| `ShownSummaries.NoResultDue` | src/finproof/answer/renderer.py:504-528 | no result is claimed only then, citing a summary |
| `AnswerContents.RenderedShows` | src/finproof/answer/renderer.py:35-532 | in every rendered draft each direct value, derived value, difference, summary, limitation, candidate and empty answer is claimed if and only if it is due by bundle, question and plan, and every claim is one of these |
| `AnswerContents.DigitsRoundTrip` | src/finproof/answer/renderer.py:365-372 | limitations are numbered by decimal numerals of their positions |
| `AnswerContents.RaisesExactly` | src/finproof/answer/renderer.py:144-503 | rendering meets an exception exactly when a due value is structured or a due sentence has no product type to read |
| `AnswerContents.LookupShowsMetric` | src/finproof/answer/renderer.py:465-485 | a lookup of one metric shows its value, and neither the identifier nor the name of the product |
| `RenderedAnswers.SummaryClaimFits` | src/finproof/answer/renderer.py:144-364 | a summary claim passes every check exactly when the summary has the shape its kind needs |
| `RenderedAnswers.RankClaimFits` | src/finproof/answer/renderer.py:222-247 | a rank claim, which also cites the owner's holding evidence, passes exactly when its summary has one product type and no group values (or owner evidence restates it) and the owner is backed |
| `RenderedAnswers.HoldingCheck` | src/finproof/evidence/verifier.py:218-246 | citing all owner evidence meets the holding requirement exactly when the owner has identity and coverage evidence whenever it has records |
| `RenderedAnswers.CandidateClaimFits` | src/finproof/answer/renderer.py:436-464 | a candidate claim passes exactly when its owner's holdings are backed |
| `RenderedAnswers.LimitationCitation` | src/finproof/answer/renderer.py:727-762 | the renderer cites, for every limitation, the evidence the verifier requires for it |
| `RenderedAnswers.LimitationClaimFits` | src/finproof/evidence/verifier.py:249-284 | a limitation claim passes exactly when evidence for it exists or none is required |
| `RenderedAnswers.LimitationsClaimed` | src/finproof/evidence/verifier.py:106-112 | every rendered draft claims every material limitation |
| `RenderedAnswers.RenderedVerifies` | src/finproof/evidence/verifier.py:39-138 | for every valid bundle and executable plan the rendered draft is accepted if and only if its wording is safe and the bundle is shaped |
| `RenderedAnswers.BuilderBundlesVerify` | src/finproof/answer/renderer.py:35-532 | every safely worded answer from a builder-shaped bundle is accepted |
| `RenderedAnswers.RenderedExactly` | src/finproof/answer/renderer.py:35-532 | a draft exists exactly when no entry raises and claims and text stay within their length bounds |
| `RenderedAnswers.BuilderAnswers` | src/finproof/answer/renderer.py:35-532 | a builder-shaped bundle with renderable entries yields a draft, accepted when safely worded |
| `AnswerRenderer.RenderAndVerify` | src/finproof/answer/renderer.py:35-532 | rendering succeeds exactly for renderable entries, the draft shows exactly what is due, and verifying accepts exactly when the wording is safe and the bundle is shaped |
| `RejectedAnswers.TwoTypeRankRejected` | src/finproof/answer/renderer.py:222-247 | a valid bundle with one rank over two product types renders, with any texts within the length bounds, and its answer is rejected |
| `Serializer.SourceTableExact` | src/finproof/evidence/serializer.py:98-128 | the source table is strictly sorted, has no unused entry and lists every locator's source |
| `Serializer.LocatorRoundTrip` | src/finproof/evidence/serializer.py:219-229 | a locator row with its table index decodes to the locator |
| `Serializer.DirectRoundTrip` | src/finproof/evidence/serializer.py:183-198 | a direct-evidence row decodes to the dumped item |
| `Serializer.DerivedRoundTrip` | src/finproof/evidence/serializer.py:201-216 | a derived-evidence row with nested locator rows decodes to the dumped item |
| `Serializer.SummaryRowsRoundTrip` | src/finproof/evidence/serializer.py:131-159 | summary rows with shared context and policy indices decode to the summaries |
| `Serializer.CompactRoundTrip` | src/finproof/evidence/serializer.py:98-128 | formats v2 and v3 decode to the dumped bundle |
| `Serializer.OverflowRoundTrip` | src/finproof/evidence/serializer.py:131-159 | format v4 decodes to the dumped bundle |
| `Serializer.SerializationLossless` | src/finproof/evidence/serializer.py:98-159 | whatever is emitted, in whichever format the size forces, decodes to exactly the dumped bundle |
| `Serializer.SerializationInjective` | src/finproof/evidence/serializer.py:98-159 | one serialized context belongs to one bundle, even under different size limits |
| `ContextBounds.CompactText` | src/finproof/evidence/serializer.py:98-128 | the compact form holds exactly the texts of the dumped bundle |
| `ContextBounds.LocalPathExactly` | src/finproof/evidence/serializer.py:252-259 | the search finds a local path exactly when some text inside the value is one |
| `ContextBounds.SerializedExactly` | src/finproof/evidence/serializer.py:82-95 | refused for a local path if and only if a text of the dump is one; otherwise v2 or v3 exactly when that fits, v4 exactly when only it fits and the summaries share a context, and the two other refusals exactly in the remaining cases; every emitted context is within the limit and decodes to the dump |
| `Publication.Repository.SwapGroup` | tools/admit_official_archive.py:370-380 | a swap step keeps every old group recoverable whether it works or raises, in the stated number of operations of which only the last may have raised |
| `Publication.Repository.SwapGroups` | tools/admit_official_archive.py:370-380 | the loop swaps all groups, or stops at its first fault with the touched groups backed up, the others untouched, and the last one absent exactly when it was being moved in |
| `Publication.Repository.SealPermissions` | tools/admit_official_archive.py:381-387 | sealing ends with candidate content and the final modes, or leaves everything recoverable |
| `Publication.Repository.RollBackGroups` | tools/admit_official_archive.py:390-396 | the reverse loop takes the operations and suffers the losses its faults dictate, restores every other group and loses no backup |
| `Publication.Repository.RollBack` | tools/admit_official_archive.py:388-403 | clean exactly when no group is lost and restoring the modes does not raise, and then all four groups and both directory modes are restored |
| `Publication.FateDecided` | tools/admit_official_archive.py:342-409 | rejected exactly when validation raises, published exactly when every operation of a full run works, and nothing is lost unless the rollback fails |
| `Publication.LostExactly` | tools/admit_official_archive.py:390-396 | in the reverse loop a group is lost exactly when its own removal or its own restoration raises |
| `Publication.FateLost` | tools/admit_official_archive.py:342-409 | over a whole run a group is lost exactly when the guarded block raises and then that group's own removal or restoration |
| `Publication.RollbackNeedsTwo` | tools/admit_official_archive.py:388-408 | a failed rollback takes two faults, one in the guarded block and one after it, so a single fault never loses a group |
| `Publication.TwoFaultsFate` | tools/admit_official_archive.py:370-408 | with four groups present, faults at moving the first one in and at restoring it end in a failed rollback that loses exactly that group |
| `Publication.LoseGroup` | tools/admit_official_archive.py:342-409 | after those two faults the first group is neither active nor in a backup, and the others are as before |
| `Publication.Repository.Guarded` | tools/admit_official_archive.py:359-387 | the guarded block ends with candidate content and final modes after its full number of operations, or stops at its first fault with everything recoverable and the groups in `states` that this operation implies |
| `Publication.Repository.Publish` | tools/admit_official_archive.py:342-409 | outcome, verdict, number of operations and lost groups are the stated function of the faults; the repository then holds the candidate, the initial state, or all but the lost groups; before the final cleanup every old group is active or in its backup, and after it no backup is left |
| `LoadRunner.LoadRun.NextRequest` | src/finproof/evaluation/load.py:110-119 | a claim takes the next index and its weighted case, within the request limit and before the deadline, and keeps the ledger |
| `LoadRunner.LoadRun.Throttle` | src/finproof/evaluation/load.py:121-134 | a scheduled start keeps its distance to the previous one and the deadline |
| `LoadRunner.LoadRun.Respond` | src/finproof/evaluation/load.py:143-148 | a response adds one sample, for the index the worker held and its case |
| `LoadRunner.LoadRun.Step` | src/finproof/evaluation/load.py:100-150 | every atomic section of every worker keeps the invariant and follows the protocol |
| `Pacing.StartsBounded` | src/finproof/evaluation/load.py:121-134 | the number of starts is at most rate times duration plus one |
| `Pacing.RateKept` | src/finproof/evaluation/load.py:121-134 | any two starts are at least as far apart as their distance in turns over the rate |
| `LoadRunner.AlmostAllSampled` | src/finproof/evaluation/load.py:143-150 | at most one claimed index per worker is left without a sample |
| `LoadRunner.ReportOrdered` | src/finproof/evaluation/load.py:152-169 | the report is strictly ordered by request index, is a permutation of the samples, and counts those that succeeded and those that did not |
| `LoadRunner.Run` | src/finproof/evaluation/load.py:100-169 | for every schedule: claims are 0 to index-1 with case i mod n, bounded; starts keep rate and deadline; samples are of distinct claimed indices, all but one per worker; the report exists exactly when there are samples and counts the successful and the failed ones |
| `Soak.BaselineKeyInjective` | src/finproof/evaluation/soak.py:132-139 | the joined key of case and version hash is unambiguous |
| `Soak.SoakFaithful` | src/finproof/evaluation/soak.py:113-172 | after any cycles an observation drifts exactly when it qualifies and differs from the earliest qualifying answer of its case and version, baselines are those earliest answers, and the two counters are the numbers of failed and of drifting observations |
| `Soak.HistoryKept` | src/finproof/evaluation/soak.py:113-172 | a baseline never changes once set and no observation is rewritten |
| `Soak.AfterCyclesConcat` | src/finproof/evaluation/soak.py:113-172 | running cycles in two parts is running them in one |
| `Soak.SoakRunner.Resume` | src/finproof/evaluation/soak.py:193-210 | resuming continues the stored report, starts afresh without one, and refuses another configuration |
| `Soak.SoakRunner.Collect` | src/finproof/evaluation/soak.py:127-160 | the sample loop computes the observations and baselines of the cycle |
| `Soak.SoakRunner.RunCycles` | src/finproof/evaluation/soak.py:113-191 | cycles run until the bound and the stored report is the report after them |
| `Soak.SessionExtends` | src/finproof/evaluation/soak.py:99-210 | a session that resumes extends the stored report by its completed cycles |
| `Soak.RunSessions` | src/finproof/evaluation/soak.py:99-210 | over any stops and resumes the stored report equals that of one uninterrupted run on the completed cycles, and is faithful |
| `Ranking.OrderedIsBestFirst` | src/finproof/quality/ties.py:20-43 | the two-pass stable sort is a permutation, best first, ties in ascending product id for both directions |
| `Ranking.FirstRanks` | src/finproof/quality/ties.py:20-43 | the rank of a key is one more than the number of strictly better values |
| `Ranking.Rank` | src/finproof/quality/ties.py:20-43 | values get a ranking exactly when none is missing and numbers do not meet texts: sorted permutation, rank by counting, tie count by multiplicity |
| `Ranking.RanksAddUp` | src/finproof/evidence/builder.py:752-756 | ascending rank, descending rank and tie count add up to the population plus two |
| `Ranking.DistinctReverse` | src/finproof/evaluation/metamorphic.py:62-65 | with distinct values the two directions are exact reversals |
| `Ranking.RankingUnique` | src/finproof/quality/ties.py:20-43 | with distinct product ids there is exactly one ranking |
| `TopK.BoundedRanks` | src/finproof/evidence/builder.py:1198-1215 | the streaming bound keeps a result exactly when fewer than top k of its group precede it |
| `TopK.BoundedConcat` | src/finproof/evidence/builder.py:1198-1215 | groups do not interfere: results of separate groups are bounded separately |
| `TopK.WithinRankIsPrefix` | src/finproof/quality/ties.py:20-43 | selecting by rank keeps a prefix that reaches at least the bound, ties included |
| `TopK.PartitionTopK` | src/finproof/evidence/builder.py:1198-1215 | ranking, selecting and bounding keeps exactly the first top k, and something is dropped exactly when a tie straddles the bound |
| `Partitioning.PartitionValues` | src/finproof/quality/comparability.py:24-64 | the one-pass dictionary yields, in first-seen order, one partition per group with all its values in order keyed by the metric's group and policy and the value's own currency and period before the metric's, and a caveat exactly for several product types under shared semantics; it asks for a period exactly when only returns are given without one |
| `Partitioning.PartitionsConserve` | src/finproof/quality/comparability.py:24-64 | partitioning conserves the multiset of values, and no partition mixes groups or repeats a key |
| `Partitioning.KeyTextExact` | src/finproof/quality/comparability.py:43-54 | with colon-free parts two groups have one key text exactly when their four parts, with an absent entry read as None, agree |
| `Partitioning.KeyTextOwn` | src/finproof/quality/comparability.py:43-54 | no other group has a group's key text if and only if its parts hold no colon and its currency and period are present and not named None |
| `Partitioning.ColonShifted` | src/finproof/quality/comparability.py:43-54 | every group with a colon in some part has a different group with the same key text |
| `Partitioning.KeyTextInjective` | src/finproof/quality/comparability.py:43-54 | among plain groups key texts are distinct |
| `Partitioning.KeyTextCollides` | src/finproof/quality/comparability.py:43-54 | an absent currency and one named None share a key text, whatever the rest |
| `Stages.BoundedCounts` | src/finproof/evidence/builder.py:1198-1215 | after the bound every counter's group has its size, capped |
| `Stages.StageTopK` | src/finproof/evidence/builder.py:660-667 | over any ranked partitions the bound keeps the first top k of each if and only if no counter is asked for more than top k, and something is dropped exactly when a tie straddles a bound or a counter is asked for more |
| `Stages.RankPartitions` | src/finproof/quality/pipeline.py:271-316 | the ranking loop succeeds exactly when every partition is comparable and ranks each in its own direction |
| `Stages.PerTypeTopK` | src/finproof/quality/pipeline.py:240-316 | from the values of all segments: succeeds exactly when periods are known and values comparable, and then keeps the first top k of every partition exactly when counters fit, with the exact disclosure |
| `Stages.PlainGroupsFit` | src/finproof/quality/pipeline.py:240-253 | distinct segments and plain group keys give every partition its own counter, so counters fit |
| `Stages.OverDemandLoses` | src/finproof/evidence/builder.py:1198-1215 | a counter asked for more than top k loses results of some partition and the loss is disclosed |
| `Stages.NoneCurrencyCollides` | src/finproof/evidence/builder.py:1198-1215 | two products of one type, one without a currency and one with the currency None, share a counter, and at bound one a result is lost without any tie |
| `Stages.GlobalTopK` | src/finproof/quality/pipeline.py:254-316 | the global path succeeds exactly for one comparable partition and then returns the first top k of its ranking, disclosing exactly the straddling ties |
| `Partitioning.PopulationConserved` | src/finproof/evidence/builder.py:1043-1148 | included, zero, missing and rejected add up to the population if and only if no missing or rejected value shares its identity with a valid one |
| `Partitioning.PolicyExactly` | src/finproof/quality/metric_policy.py:45-85 | a value takes part exactly when it is present and no comparison meets an untrusted status, an unverified zero or a zero among positive rankings |
| `Partitioning.UniqueIdentitiesConserve` | src/finproof/quality/metric_policy.py:45-85 | unique identities are enough for the counts to add up |
| `Partitioning.SharedIdentityBreaksCounts` | src/finproof/evidence/builder.py:1043-1148 | a value listed once valid and once missing is counted twice |
| `Holdings.UnavailableFor` | src/finproof/data/holdings.py:266-289 | the filler row is the given owner's, unavailable, with no holdings and the shape of such a row |
| `Holdings.CollectCoverage` | src/finproof/data/holdings.py:388-404 | the coverage loop accepts exactly unique rows of the generation's lineage and indexes them |
| `Holdings.CountHoldings` | src/finproof/data/holdings.py:406-446 | the holding loop accepts exactly covered rows of the same lineage and units, and recounts every owner |
| `Holdings.Admit` | src/finproof/data/holdings.py:341-452 | a generation is admitted exactly when it meets the declared conditions, stated without dictionaries |
| `Holdings.CountsAgree` | src/finproof/data/holdings.py:447-451 | an admitted row's count is its owner's rows over all generations together |
| `Holdings.RowsDistinct` | src/finproof/data/holdings.py:382-384 | no two admitted rows share owner and ordinal |
| `Holdings.JoinRows` | src/finproof/data/holdings.py:577-591 | the row loop accepts exactly approved, enabled and not yet covered owners |
| `Holdings.JoinGenerations` | src/finproof/data/holdings.py:569-592 | the generation loop accepts exactly when all generations are admitted and join |
| `Holdings.BuildRelations` | src/finproof/data/holdings.py:518-608 | accepted exactly when joinable; then one coverage row per enabled product in order, all admitted holdings by the owner's place in the enabled list and then by ordinal, every observed count equal to the emitted holdings, and every row approved, with at most ten holdings for a partial range and none for an unavailable owner |
| `Holdings.OwnersContiguous` | src/finproof/data/holdings.py:602-607 | each owner's holdings stand together, in source order |
| `Holdings.FlattenedBacked` | src/finproof/data/holdings.py:577-589 | every emitted row's identification is approved and exact, and ranges keep their bounds |
| `Holdings.FlattenedUnique` | src/finproof/data/holdings.py:518-608 | the result is unique and does not depend on the order of the generations |
| `XlsxStream.TailSuffices` | src/finproof/data/xlsx_stream.py:67-76 | the retained tail is enough to see every marker that crosses a chunk boundary |
| `XlsxStream.Scan` | src/finproof/data/xlsx_stream.py:67-76 | for every split into nonempty chunks the scan rejects exactly when a marker occurs in the whole upper-cased stream, and it retains the end of the stream, never more than the overlap |
| `XlsxStream.CaseOnly` | src/finproof/data/xlsx_stream.py:72-75 | upper case identifies exactly the two cases of an ASCII letter |
| `XlsxStream.MarkersOverlap` | src/finproof/data/xlsx_stream.py:34-38 | the ten markers need an overlap of 35 bytes |
| `XlsxStream.EncodedBytes` | src/finproof/data/xlsx_stream.py:34-38 | an encoded marker has every character at its place and zero bytes around it |
| `XlsxStream.DeclarationFound` | src/finproof/data/xlsx_stream.py:34-38 | a declaration in any letter case and any of the five encodings is found, whatever surrounds it |
| `XlsxStream.NumberOfLetters` | src/finproof/data/xlsx_stream.py:316-322 | the number of a column's letters is the column |
| `XlsxStream.LettersOfNumber` | src/finproof/data/xlsx_stream.py:299-313 | the letters of a name's number are the name |
| `XlsxStream.LongerIsLater` | src/finproof/data/xlsx_stream.py:299-313 | longer names are later columns |
| `XlsxStream.AlphabeticIsLater` | src/finproof/data/xlsx_stream.py:299-313 | names of one length are numbered alphabetically |
| `XlsxStream.BoundedNumber` | src/finproof/data/xlsx_stream.py:308-313 | checking the bound at every letter is bounding the final number |
| `XlsxStream.NameLength` | src/finproof/data/xlsx_stream.py:300-301 | the ten-character guard never rejects a reference within bounds |
| `XlsxStream.ColumnNumber` | src/finproof/data/xlsx_stream.py:299-313 | accepts exactly the canonical references of cells within bounds and in the given row, and returns their column |
| `XlsxStream.ColumnLetter` | src/finproof/data/xlsx_stream.py:316-322 | the loop yields the name whose number is the input |
| `XlsxStream.ColumnIndex` | tools/xlsx_stream.py:29-36 | the independent reader's index is one less than the column of every cell reference |
| `Scoring.ScoreProducts` | src/finproof/evaluation/scoring.py:73-93 | the set score is twice the common products over both sizes and whole exactly for equal sets, the order score counts equal places and is whole exactly for equal lists |
| `Scoring.ScoreFilters` | src/finproof/evaluation/scoring.py:100-108 | twice the common filters over both sizes, whole exactly for equal filter sets |
| `Scoring.ScoreValues` | src/finproof/evaluation/scoring.py:111-133 | counts the expectations met by the last observation of their key, one failure for each other |
| `Scoring.ScoreAggregates` | src/finproof/evaluation/scoring.py:136-166 | whole exactly when every expectation has one equal observation and nothing else was observed; the denominator is the expectations and all observations beyond one for each expected key seen |
| `Scoring.CorrespondsIsPermutation` | src/finproof/evaluation/scoring.py:136-166 | with unique expected keys that means the same aggregates in some order |
| `Scoring.ScoreEvidence` | src/finproof/evaluation/scoring.py:169-172 | whole exactly when all required evidence was observed |
| `Scoring.ScoreStability` | src/finproof/evaluation/scoring.py:175-181 | whole exactly when all repeated signatures agree |
| `Scoring.PlanFields` | src/finproof/evaluation/scoring.py:197-254 | whole exactly when there is a plan with the expected heading and every expected detail |
| `Scoring.AnswerChecks` | src/finproof/evaluation/scoring.py:327-349 | one check per concept and per stated flag, and all pass exactly when required concepts occur, forbidden ones do not, and the two flags agree |
| `Scoring.ScoreCase` | src/finproof/evaluation/scoring.py:196-389 | each dimension is a proper fraction with failures exactly when not whole, and the case has no failure exactly when the observation is right |
| `Scoring.PlanOnlyScored` | src/finproof/evaluation/runner.py:263-287 | planning mode keeps the score sound and clean exactly when the plan is right |
| `Scoring.AggregateWhole` | src/finproof/evaluation/runner.py:247-260 | a suite aggregate is a proper fraction with reasons and is whole exactly when every case is |
| `Scoring.AggregateOfOne` | src/finproof/evaluation/runner.py:247-260 | the aggregate of one case is its own score |
| `Scoring.AggregatesAdd` | src/finproof/evaluation/runner.py:247-260 | numerators and denominators of two suites add up |
| `Scoring.CaseReasons` | src/finproof/evaluation/runner.py:247-260 | an aggregate's failures are exactly those of its cases, each under its case |
| `Scoring.RunSuite` | src/finproof/evaluation/runner.py:210-244 | every case is scored in order and every dimension aggregated over all cases; all aggregates are whole exactly when every observation is right for the mode; exactly empty suites and repeated case ids are refused |
| `Planner.RunBounds` | src/finproof/planner/service.py:41-47 | counters stay within the summary's bounds and recorded calls bound provider calls |
| `Planner.RunAccounts` | src/finproof/planner/service.py:223-369 | success owes calls minus one failures, terminal failure as many as calls, one more only after a timed-out wait |
| `Planner.RunPaths` | src/finproof/planner/service.py:223-369 | the path is structured, structured and repair, or structured and retry, with as many entries as calls, repair exactly with a repair call |
| `Planner.PlannerService.Within` | src/finproof/planner/service.py:371-379 | past the cutoff the operation times out without a provider call |
| `Planner.PlannerService.NeverRetried` | src/finproof/planner/service.py:381-393 | client errors, resets not before the cutoff and runs past the cutoff are never retried |
| `Planner.PlannerService.SecondExactly` | src/finproof/planner/service.py:223-393 | a second call is allowed exactly for broken output, transport errors and statuses of 500 or more with time left, and for rate limits whose reset lies before the cutoff once the wait has ended with time left |
| `Planner.PlannerService.MayRetry` | src/finproof/planner/service.py:381-393 | a retry is allowed exactly under the stated clock readings, and the wait may time out |
| `Planner.PlannerService.Plan` | src/finproof/planner/service.py:223-369 | the events of a run are those the clock, the provider and the wait dictate; every run ends with counters that recount them, the path and terminal category they name, and a second call exactly when one is due by the clock; the summary stays in bounds, records every provider call, and owes the failures of its ending |
| `SuiteCollisions.Check` | src/finproof/evaluation/loader.py:186-200 | the nested loops reject exactly when a key's latest tag starts with another name than the current suite's |
| `SuiteCollisions.SharedCollides` | src/finproof/evaluation/loader.py:186-200 | keeping only the latest tag loses no collision between colon-free suites |
| `SuiteCollisions.PlainDestination` | src/finproof/evaluation/loader.py:179-200 | into a destination without a colon the check rejects exactly the cross-suite duplicates |
| `SuiteCollisions.ColonDestination` | src/finproof/evaluation/loader.py:179-200 | into a destination with a colon it rejects exactly the cross-suite duplicates and repetitions among the incoming cases |
| `SuiteCollisions.ColonRejectsItself` | src/finproof/evaluation/loader.py:190-200 | any two new cases that repeat each other are rejected there although no other suite has anything in common with them |
| `SuiteCollisions.AcceptPromotion` | src/finproof/evaluation/loader.py:179-200 | accepted exactly when no question or plan is shared across suites and not, under a colon in the destination, among the incoming cases |
| `Resolver.OrderIrrelevant` | src/finproof/entity/resolver.py:17-120 | resolution depends on which products are indexed, not on their order |
| `Resolver.RefusedExactly` | src/finproof/entity/resolver.py:23-28 | refused exactly for no product types or a repeated one |
| `Resolver.ProductIdWins` | src/finproof/entity/resolver.py:37-50 | the product-id match of the type requested first, then with the smallest identifier, is selected |
| `Resolver.IdentifierWins` | src/finproof/entity/resolver.py:51-66 | without one, the first match of another identifier is selected |
| `Resolver.SelectedExactly` | src/finproof/entity/resolver.py:17-120 | selected if and only if an identifier matches or exactly one offered product has the name; never a fuzzy match, and then the only candidate; nothing at all is offered for an unmatched mention that cannot be a name |
| `Resolver.SelectedMatches` | src/finproof/entity/resolver.py:37-79 | the selected product is offered, matches as its kind says and carries that kind's score |
| `Resolver.AmbiguousNames` | src/finproof/entity/resolver.py:80-90 | a shared name yields the first five matches by declared type order and identifier |
| `Resolver.FuzzyOffers` | src/finproof/entity/resolver.py:96-120 | otherwise the best five products whose greatest name similarity is at least 4000, by score, declared type order and identifier |
| `JsonPointer.TokenRoundTrip` | src/finproof/planner/provider_schema.py:240-241 | a token unescaped by section 4 of RFC 6901 is the original part, and holds no slash when escaped |
| `JsonPointer.PointerRoundTrip` | src/finproof/planner/provider_schema.py:240-241 | read by sections 3 and 4 of RFC 6901 a pointer gives back its path if and only if the path is not empty |
| `JsonPointer.PointerCollisions` | src/finproof/planner/provider_schema.py:240-241 | two paths share a pointer exactly when equal, or one is empty and the other is one empty token |

## Left out

- Wording: Korean sentences, display formatting and limitation display are functions given from outside; the safety patterns are substrings given from outside.
- Rendering of clarify and unsupported plans: its text is free-form and does not come from the evidence bundle.
- `ClaimVerifier.verify_wording` and the model-written presentation: only the deterministic draft is modelled.
- How the builder fills a bundle from query results: its shape is a stated predicate, not derived from the builder's code.
- JSON bytes and key spelling: the serializer is modelled on JSON values, with keys as distinct tokens; the byte count and the absolute-path test are functions given from outside.
- Partial results inside one file operation: a failed copy, move or mode change changes nothing, a failed removal leaves an arbitrary residue, and sealing the workbooks is one step.
- Exceptions outside `Exception` and rollback errors other than `OSError`: they would leave publication without the handler.
- Mode bits: modes are values and changing them is a step that may fail; no failure is derived from them.
- Latency statistics of the load report, HTTP requests and timeouts of single requests: a request ends in success or failure at some event.
- Active time, timestamps and sleeping of the soak: a session is the sequence of cycles it completed, then a cut.
- Floating point: clocks, rates and score quotients are real numbers; a quotient of very large counts could round to one in the source.
- Decimals are real numbers without NaN or infinities.
- Holdings: URL, time zone, schema dictionary and row hash checks, and the product-specific identifier rule, which is a predicate given from outside.
- XML parsing, relationship paths and worksheet rows: only the declaration scan and cell references are modelled.
- Filter clauses, plan fields, aggregate keys and signatures are compared as canonical texts.
- Failure messages of scores are structured values instead of sentences.
- Sort directions of the per-type path: a function of the partition's first value, given from outside; segments, metric policy and non-metric rows of the pipeline are inputs.
- Similarity of names: the ratio is a function given from outside; the maximum over a product's names, the threshold and the order are modelled.
- Text normalization and plan signatures: questions and plans are given by their normalized keys.
- Paths of integers: a JSON path is given by its entries as texts, so the integer 1 and the text "1" are one entry.
- HTTP service, planner transport, rule-based fallback, database queries, settings and release tools: external systems or shape checks.
