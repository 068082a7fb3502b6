# Accessibility Insights Service: verified models

Models, in Dafny, of the parts of the accessibility scanning service and its command line tool whose correctness depends on
loops, shared state or exact arithmetic, with proofs of what those parts promise. `dafny verify dfyconfig.toml` checks all of it.

| file | what it models |
|---|---|
| `Common.dfy`, `Ordering.dfy` | options and results, first-seen lists, filters, `split`/`join`; JavaScript comparison functions and stable sorting |
| `HashSet.dfy` | the keyed container that is its own iterator |
| `AxeResults.dfy`, `Findings.dfy` | accumulating scan results of many pages under fingerprints; what the fingerprints tell apart |
| `BaselineGenerator.dfy`, `BaselineEngine.dfy` | writing a baseline, and comparing results with an old one |
| `BaselineTheorems.dfy`, `BaselineExactness.dfy`, `BaselineStability.dfy` | the comparison is set difference; when exactly; fixed points; whether the order of the pages matters |
| `DocumentMerge.dfy`, `DocumentStore.dfy` | merging a patch into a stored JSON document; concurrent clients with conditional writes |
| `ReportRequests.dfy`, `ReportRunner.dfy` | selecting report requests, running them, retrying and deleting them |
| `StorageQueue.dfy`, `PoolLoad.dfy`, `BatchTasks.dfy`, `JobManager.dfy` | the scan queue, the load controller, batch tasks, and the job manager that ties them together |
| `JumpConsistentHash.dfy`, `KnownPageCodec.dfy`, `Guid.dfy` | consistent hashing, the known-page text format, version 6 identifiers |
| `PrivacyReport.dfy`, `CombinedResults.dfy`, `ReportConverter.dfy` | the combined privacy report, combined accessibility results, and the report made of them |

Code that changes objects step by step is modelled by classes and loops, each proved equal to a specification function; the
main results are lemmas about those functions and about runs. Protocols (the document store, the queue, the request life
cycle, concurrent result builders) are state machines, and their results hold in every reachable state. Services that cannot
be seen (the database, the queue and batch services, hashing, collation, random bytes, clocks) are parameters or stated rules.

Where the code does not keep what its documentation or callers expect, the model follows the code, and lemmas give inputs
that fail and say when the expected property holds, for all inputs:

- The engine compares with `localeCompare` and treats `''` as missing, while the generator sorts by character codes. Over
  some keys the counts are right for all baselines without repeated URLs if and only if both orders agree on those keys
  (`ExactIffOrdersAgree`), and so are the labels written back (`LabelledIffOrdersAgree`); inputs that fail are in
  `Miscounted`, `Mislabelled`, `LocaleCollationMiscounts` and `EmptySnippetMiscounts`.
- URLs that become equal under the normaliser are listed twice, and counted so. Under one order every count is off by exactly
  the repeated URLs (`EvaluationCounts`): the new total is right if and only if no new row without an old one repeats a URL,
  the old baseline's if and only if no old row does, and all are right if and only if moreover no old URL repeats in a shared
  new row (`TotalsExactly`; inputs in `RepeatCountsTwice` and `RepeatHidesFixedUrl`). A baseline is a fixed point if and only
  if the normaliser keeps the URLs of each entry apart (`BaselineIsFixedPoint`, `AccumulatedUrlsDistinct`).
- The hash in use digests its values in lower case, joined by bars. Each finding has its own entry, with exactly the URLs it
  was found on, if and only if the hash tells the findings apart (`OneEntryPerFinding`), which with a digest free of
  collisions means that their lower-cased texts differ (`SeparatesExactly`; inputs in `SharedEntries`).
- A baseline file is the same for every order of the pages if and only if no two pages first give different keys to one
  fingerprint (`BaselineIgnoresPageOrder`), as they can where texts collide, or where one xpath is empty and one missing;
  where findings are told apart and no xpath is empty it is (`SeparatedKeysAreSame`).
- A known page without a source comes back if and only if its properties form a prefix (`RoundTrip`): the string
  `url3|||pass`, which the converter's own test prints, reads back as a run state (`ScanStateAloneIsMisread`).
- A merge keeps any stored `_etag` except a null one: applying a patch twice equals once if and only if no such null is
  replaced (`ApplyIdempotent`).
- A partition key given as a parameter comes before the document's own, where the comments on the client say the reverse
  (`GivenKeyComesFirst`).
- Updates to the running state are swallowed when they fail, and each such loss allows one more attempt: attempts never
  exceed maximum + 1 + lost updates (`RetriesAreBounded`), and reach that for every number of lost updates
  (`BoundIsReached`).
- A task id gives back its correlation id if and only if that has no underscore (`TaskIdRoundTrip`). `splice` with `indexOf`
  is exact if and only if no message is looked up twice, or all are looked up (`SpliceAllExact`).
- A builder that finds no combined results under the blob id it was given writes unconditionally: pages are kept if and only
  if no such write lands on a blob that came to be since (`NoPageIsLostIffNotOverwritten`; inputs in `FirstWritesRace`). A
  builder that was given no id makes its own, and its blob is touched by nobody else (`OwnBlobIsUntouched`).
- Groups of failures hold one rule each if and only if no two failed rules differ by case alone (`OneRulePerGroup`).
- Text order of identifiers is time order for all ids over some digits if and only if no capital letter among them stands
  for as much as a small one, or for more (`TextOrderKeptExactly`).
- The backlog of the load controller settles, and the ratio then stays exactly unless the backlog settles at zero with tasks
  added (`SettlesInOneInterval`).

## Model
| member | source | states |
|---|---|---|
| HashSets.HashSet.Add | packages/common/src/hash-set.ts:11-13 | a new key goes last in iteration order, a known key keeps its place; an open iteration is untouched |
| HashSets.HashSet.Remove | packages/common/src/hash-set.ts:19-22 | the key is gone, the others keep their order and values |
| HashSets.HashSet.Next | packages/common/src/hash-set.ts:36-68 | one iterator step visits the first key still to visit; with none left it ends and closes the snapshot |
| HashSets.HashSet.Values | packages/common/src/hash-set.ts:32-54 | draining yields the value of each key still to visit once, in order, and resets the iterator |
| HashSets.OpenIterationMissesKeys | packages/common/src/hash-set.ts:36-67 | over unchanged contents, draining covers all keys if and only if no iteration was left open past its first step |
| AxeResults.AxeResultsReducer.Reduce | packages/cli/src/converter/axe-results-reducer.ts:25-31 | reducing a page records all its sightings in each of the four lists, and its URL once |
| AxeResults.AxeResultsReducer.ReduceResults | packages/cli/src/converter/axe-results-reducer.ts:33-66 | the nested loops equal recording the page's sightings one by one |
| AxeResults.AxeResultsReducer.ReduceResultsWithoutNodes | packages/cli/src/converter/axe-results-reducer.ts:68-91 | the same for rules without nodes, keyed by the hash of the rule id |
| AxeResults.AxeResultsReducer.SetUrl | packages/cli/src/converter/axe-results-reducer.ts:115-123 | the URL list gains the page's URL if it was missing |
| AxeResults.AccumulateRefines | packages/cli/src/converter/axe-results-reducer.ts:33-66 | after any pages, the keys are the fingerprints in first-seen order, and each entry's URLs are those of the pages with that fingerprint, in first-seen order |
| AxeResults.AccumulatedUrls | packages/cli/src/converter/axe-results-reducer.ts:33-66 | an entry's URLs are distinct, and a URL is there exactly when some page at it has the fingerprint |
| AxeResults.ReducingAgainChangesNothing | packages/cli/src/converter/axe-results-reducer.ts:33-66 | reducing a page that was reduced before changes nothing at all |
| AxeResults.PageOrderIsIrrelevant | packages/cli/src/converter/axe-results-reducer.ts:33-66 | permuting the pages changes neither the key set nor any entry's URL set |
| AxeResults.AccumulatedKeyed | packages/cli/src/converter/axe-results-reducer.ts:37-60 | every entry is stored under what its own rule, snippet and selectors hash to, for any hash function |
| AxeResults.FirstSightingIsKept | packages/cli/src/converter/axe-results-reducer.ts:41-60 | over every history an entry says what the first sighting of its fingerprint says; later ones add URLs only |
| AxeResults.RuleSightingsMembers | packages/cli/src/converter/axe-results-reducer.ts:68-91 | the sightings of rules without nodes: one for each rule reported, with its data, no node, and its hashed id |
| Findings.FingerprintsTellApart | packages/cli/src/converter/fingerprint-generator.ts:20-28 | with a hash free of collisions, two reported nodes share a fingerprint if and only if rule, snippet, joined targets and joined xpath agree, an empty xpath being as good as none |
| Findings.SightingsSay | packages/cli/src/converter/axe-results-reducer.ts:37-58 | each sighting carries the id, details, snippet, checks and selectors of a node that its page reports |
| Findings.EntryFinding | packages/cli/src/converter/axe-results-reducer.ts:47-60 | for any hash, every entry shows a finding that some page reports, and is stored under the fingerprint of that finding |
| Findings.NoSecondEntry | packages/cli/src/converter/axe-results-reducer.ts:41-60 | for any hash, no finding is shown by two entries |
| Findings.OneEntryPerFinding | packages/cli/src/converter/axe-results-reducer.ts:33-66 | over every history, each finding has an entry that lists exactly the URLs whose pages report it, and no other finding has one, if and only if the hash tells the findings of these pages apart |
| Findings.SeparatesExactly | packages/crawler/src/common/hash-generator.ts:13-17 | the hash in use, with a digest free of collisions, tells findings apart if and only if their lower-cased texts, joined by bars, differ |
| Findings.PlainFindingsAreSeparated | packages/crawler/src/common/hash-generator.ts:13-17 | so it does when no text holds a bar or changes in lower case |
| Findings.SharedEntries | packages/crawler/src/common/hash-generator.ts:13-17 | two findings under one fingerprint: a bar moves from the snippet to the selector, or a letter changes case |
| BaselineGeneration.GeneratorOrderFacts | packages/cli/src/baseline/baseline-generator.ts:56-58 | the sort order is antisymmetric and tells different keys apart, and a missing xpath comes after every other |
| BaselineGeneration.CompareRowsConsistent | packages/cli/src/baseline/baseline-generator.ts:56-58 | the sort order is a consistent comparison, so the sort is defined |
| BaselineGeneration.KeyedRowsFound | packages/cli/src/baseline/baseline-generator.ts:24-54 | each row's own data hashes to the fingerprint its entry is stored under, so the write-back lookup never misses |
| BaselineGeneration.BaselineRows | packages/cli/src/baseline/baseline-generator.ts:11-58 | a baseline is strictly sorted, with one row for each entry, holding its key and its sorted normalised URLs |
| BaselineGeneration.BaselineGenerator.GenerateBaseline | packages/cli/src/baseline/baseline-generator.ts:11-22 | drains the list and returns the baseline of the entries still to visit, or the first error: an entry that is gone, has no node, or has no CSS selector |
| BaselineGeneration.BaselineOfAll | packages/cli/src/baseline/baseline-generator.ts:11-14 | with no iteration left open, that is the baseline of all entries |
| BaselineStability.BaselineIgnoresPageOrder | packages/cli/src/baseline/baseline-generator.ts:11-58 | all orders of the pages give one and the same baseline file if and only if no two pages first give different keys to one fingerprint |
| BaselineStability.FirstPageDecides | packages/cli/src/converter/axe-results-reducer.ts:41-60 | the row of a fingerprint has the key that the first page gives it |
| BaselineStability.SeparatedKeysAreSame | packages/cli/src/baseline/baseline-generator.ts:24-54 | pages whose findings the hash tells apart, none with an empty xpath, meet that condition |
| Ordering.SortIsStable | packages/axe-result-converter/src/combined-report-data-converter.ts:75-183 | sorting keeps the order of elements that compare as equal |
| BaselineComparison.BaselineEngine.UpdateResultsInPlace | packages/cli/src/baseline/baseline-engine.ts:28-93 | the whole operation: it throws exactly when the baseline cannot be generated or the entry of a row is not found; the evaluation and the labels, as far as written, equal the specification |
| BaselineComparison.BaselineEngine.Walk | packages/cli/src/baseline/baseline-engine.ts:49-82 | the two-pointer loop ends; it throws exactly when some new row has no entry; tally and labels, as far as written, are as specified |
| BaselineComparison.BaselineEngine.WriteLabels | packages/cli/src/baseline/baseline-engine.ts:95-121 | recomputes the row's fingerprint and rewrites the labels of just that entry, if there is one, and else nothing |
| BaselineComparison.BaselineEngine.GetUrlComparison | packages/cli/src/baseline/baseline-engine.ts:166-195 | the loop over new URLs equals the set-based comparison, repeated URLs and the list of labels included |
| BaselineTheorems.FixedCountExact | packages/cli/src/baseline/baseline-engine.ts:166-195 | the fixed count of a shared row is right if and only if no URL of the old row occurs twice in the new one; it is never too high |
| BaselineTheorems.TallyIsSetDifference | packages/cli/src/baseline/baseline-engine.ts:45-82 | with sorted baselines and one order, the walk counts plain set differences, in total and for each rule, off by exactly the repeated URLs |
| BaselineTheorems.EvaluationCounts | packages/cli/src/baseline/baseline-engine.ts:28-93 | the same for a whole report, with the suggested update |
| BaselineTheorems.TotalsExactly | packages/cli/src/baseline/baseline-engine.ts:64-92 | under one order, when the new, the fixed and the old total are right, each if and only if, and when all three are |
| BaselineTheorems.RepeatCountsTwice | packages/cli/src/baseline/baseline-engine.ts:129-132 | a new violation whose URL is listed twice counts twice |
| BaselineTheorems.RepeatHidesFixedUrl | packages/cli/src/baseline/baseline-engine.ts:176-192 | a URL that is gone is not reported, nor an update suggested, when another known one is listed twice |
| BaselineTheorems.EvaluationIsSetDifference | packages/cli/src/baseline/baseline-engine.ts:28-93 | under one order and without repeated URLs, fixed, new and total counts are set differences and sizes, overall and by rule; old minus fixed plus new is the new baseline; an update is suggested exactly when they differ |
| BaselineTheorems.FirstBaseline | packages/cli/src/baseline/baseline-engine.ts:28-93 | without an old baseline every listed URL counts as new, in total and for each rule, nothing as fixed, and the new baseline is suggested |
| BaselineTheorems.RulesSumToTotal | packages/cli/src/baseline/baseline-engine.ts:123-164 | the reported counts of fixed and of new violations by rule add up to their totals, for any baselines, sorted or not, and any order |
| BaselineTheorems.RelabelWritesTrueLabels | packages/cli/src/baseline/baseline-engine.ts:95-121 | if the two orders agree on the keys, the walk touches labels only, and each row ends with a URL marked existing exactly when the old baseline had the pair |
| BaselineExactness.ExactIffOrdersAgree | packages/cli/src/baseline/baseline-engine.ts:134-158 | the counts are right for every two baselines over some keys if and only if the engine's and the generator's orders agree on those keys |
| BaselineExactness.Miscounted | packages/cli/src/baseline/baseline-engine.ts:134-158 | wherever the orders disagree on two keys, two concrete generated baselines are miscounted |
| BaselineExactness.LabelledIffOrdersAgree | packages/cli/src/baseline/baseline-engine.ts:95-121 | the labels are right for every two sorted baselines over some keys if and only if the orders agree on those keys |
| BaselineExactness.Mislabelled | packages/cli/src/baseline/baseline-engine.ts:134-158 | wherever the orders disagree on two keys, a new row of two concrete baselines ends with wrong labels |
| BaselineExactness.CodeUnitCollationAgrees | packages/cli/src/baseline/baseline-engine.ts:148-158 | a collation by character code agrees on all keys without empty strings |
| BaselineExactness.LocaleCollationMiscounts | packages/cli/src/baseline/baseline-engine.ts:148-151 | a collation that puts "a" before "B" miscounts some generated baselines with these selectors |
| BaselineExactness.EmptySnippetMiscounts | packages/cli/src/baseline/baseline-engine.ts:153-157 | an empty snippet, sorted first but compared as missing, makes baselines miscounted under every collation |
| BaselineExactness.EngineLabelsEveryEntry | packages/cli/src/baseline/baseline-engine.ts:95-121 | if the two orders agree on the keys, every entry ends with one label for each normalised URL, existing exactly when the old baseline had the pair; nothing else changes |
| BaselineExactness.EngineNeverThrows | packages/cli/src/baseline/baseline-engine.ts:95-105 | on accumulated results the baseline is always generated and the entry of each of its rows found |
| BaselineExactness.SelfComparison | packages/cli/src/baseline/baseline-engine.ts:49-82 | comparing rows with themselves finds nothing new, and one fixed URL too few for each repeated URL |
| BaselineExactness.BaselineIsFixedPoint | packages/cli/src/baseline/baseline-engine.ts:28-93 | running again with the suggested baseline generates it again, and suggests no update if and only if no entry has two URLs that the normaliser makes one |
| BaselineExactness.SecondRunMarksAllExisting | packages/cli/src/baseline/baseline-engine.ts:107-121 | on that second run every URL is marked existing |
| BaselineExactness.AccumulatedUrlsDistinct | packages/cli/src/converter/axe-results-reducer.ts:43-56 | accumulated pages meet that condition if and only if the normaliser keeps the URLs of each entry apart; what it does to other URLs does not matter |
| JumpHashing.JumpAdvances | packages/common/src/ciphers/jump-consistent-hash.ts:17-18 | each jump goes forward, except for the key 2^64, whose jump stands still, whatever the rounding of the division |
| JumpHashing.Progress | packages/common/src/ciphers/jump-consistent-hash.ts:15-19 | the measure that makes the loop end, standing step included |
| JumpHashing.JumpConsistentHash.GetBucket | packages/common/src/ciphers/jump-consistent-hash.ts:10-22 | the loop ends with a bucket in range, equal to the specification; -1 when there are no buckets |
| JumpHashing.GetBucketIsConsistent | packages/common/src/ciphers/jump-consistent-hash.ts:7-22 | adding any number of buckets keeps a key in its bucket or moves it to an added one |
| JumpHashing.DoubleQuotientIsExact | packages/common/src/ciphers/jump-consistent-hash.ts:18 | below 2^53 the floor of a correctly rounded quotient is that of the exact quotient |
| JumpHashing.JumpIsExact | packages/common/src/ciphers/jump-consistent-hash.ts:18 | below 2^22 buckets every jump is the quotient of whole numbers |
| JumpHashing.BucketIsWhole | packages/common/src/ciphers/jump-consistent-hash.ts:10-22 | below 2^22 buckets the hash, with whatever rounding, is one computed in whole numbers alone |
| JumpHashing.NextKeyIsOneToOne | packages/common/src/ciphers/jump-consistent-hash.ts:17 | the step from key to key is one-to-one below 2^64: sequences of different keys never meet |
| JumpHashing.TestedBuckets | packages/common/src/ciphers/jump-consistent-hash.spec.ts:15-29 | three of the expected buckets, under every division that rounds to nearest |
| DocumentMerge.MergeTwice | packages/azure-services/src/storage/cosmos-container-client.ts:153-164 | merging and normalising twice equals once if and only if no null `_etag` is there to be replaced, at any depth |
| DocumentMerge.ApplyIdempotent | packages/azure-services/src/storage/cosmos-container-client.ts:109-173 | a patch applied twice equals once, under that condition, which every normalised document meets |
| DocumentMerge.MergeIdempotent | packages/azure-services/src/storage/cosmos-container-client.ts:153-161 | the merge without normalising is idempotent for every tree and patch |
| DocumentMerge.NormalizeIdempotent | packages/azure-services/src/storage/cosmos-container-client.ts:230-238 | normalising a normalised document changes nothing |
| DocumentMerge.UnmentionedIsKept | packages/azure-services/src/storage/cosmos-container-client.ts:109-114 | at a path the patch does not mention, through properties and array items, the stored value is kept |
| DocumentMerge.MentionedIsSet | packages/azure-services/src/storage/cosmos-container-client.ts:112-164 | a scalar in the patch is set at every depth, through properties and array items; a null leaves a property undefined, and stays inside an array |
| DocumentMerge.MergedAtPath | packages/azure-services/src/storage/cosmos-container-client.ts:153-164 | whatever the patch has at a path, through properties and array items, is there merged with what was stored |
| DocumentMerge.ArrayIsMergedByIndex | packages/azure-services/src/storage/cosmos-container-client.ts:112-114 | an object in the patch is there as an object, an array as an array merged by index: no item is dropped, given scalars and nulls are set, holes and what is beyond keep what was stored; items that are objects are covered by the paths through them |
| DocumentMerge.EtagSurvives | packages/azure-services/src/storage/cosmos-container-client.ts:154-161 | the stored `_etag` survives every patch, also one with its own `_etag` |
| DocumentMerge.EtagsSurvive | packages/azure-services/src/storage/cosmos-container-client.ts:154-161 | so does an `_etag` at every depth, when the patch replaces nothing above it |
| DocumentStore.CosmosContainer.ReadItem | packages/azure-services/src/azure-cosmos/cosmos-client-wrapper.ts:252-279 | a read returns the stored document; a missing document or a refusal is returned as a status or thrown, as the caller asks |
| DocumentStore.CosmosContainer.UpsertItem | packages/azure-services/src/azure-cosmos/cosmos-client-wrapper.ts:140-168 | a write is taken, under its partition key and with a new etag, exactly when it is not refused and its etag is absent or current; else nothing changes |
| DocumentStore.CosmosContainer.CreateItem | packages/azure-services/src/azure-cosmos/cosmos-client-wrapper.ts:110-138 | creates a document under its partition key, or answers 409 or a refusal and changes nothing |
| DocumentStore.CosmosContainerClient.MergeOrWriteDocument | packages/azure-services/src/storage/cosmos-container-client.ts:121-173 | an uninterrupted call stores the merge, or the document itself when there was none, under the effective partition key; a missing id or key or a refused read fails, and a refused write changes nothing |
| DocumentStore.CosmosContainerClient.CreateDocumentIfNotExist | packages/azure-services/src/storage/cosmos-container-client.ts:58-85 | an existing document is returned untouched, otherwise the given one is created under the effective partition key; a missing key or a refusal fails and changes nothing |
| DocumentStore.AcceptedMeansUnchanged | packages/azure-services/src/azure-cosmos/cosmos-client-wrapper.ts:339-351 | a merged write is taken only if nobody wrote since its read |
| DocumentStore.AssigningIsMerging | packages/azure-services/src/azure-cosmos/cosmos-client-wrapper.ts:394-398 | assigning the partition key to a merged document is merging it with the patch |
| DocumentStore.GivenKeyComesFirst | packages/azure-services/src/storage/cosmos-container-client.ts:240-247 | the merged document is written with the key given, if any, else with its own; it is refused exactly without both |
| DocumentStore.NoLostUpdate | packages/azure-services/src/storage/cosmos-container-client.ts:132-172 | in every interleaving the document is the committed patches, with their partition keys, applied one after the other in commit order |
| DocumentStore.CommittedValueSurvives | packages/azure-services/src/storage/cosmos-container-client.ts:132-172 | a committed value, also inside an array item, that no later patch mentions is still there at the end |
| ReportRequests.UsedUpIsOnlyDeleted | packages/report-generator-runner/src/runner/request-selector.ts:86-117 | with no retry left a request is never selected for processing, and is deleted once it failed or its delay passed |
| ReportRequests.ChosenMembers | packages/report-generator-runner/src/runner/request-selector.ts:71-118 | the two lists hold exactly the requests the classification says |
| ReportRequests.ChosenExactly | packages/report-generator-runner/src/runner/request-selector.ts:71-118 | by stored state, retries and time: which requests are processed, as pending or for a retry, and which are deleted, as completed or failed |
| ReportRequests.RequestSelector.GetQueuedRequests | packages/report-generator-runner/src/runner/request-selector.ts:35-69 | paging reads on exactly while both lists are short and there are pages, and returns the first of the chosen and dismissed requests of the pages read |
| ReportRequests.RequestSelector.FilterRequests | packages/report-generator-runner/src/runner/request-selector.ts:71-118 | one page extends both lists by what it holds |
| ReportRequests.RunningPatchEffect | packages/report-generator-runner/src/runner/runner.ts:100-112 | through the merge, the running update sets the state and raises the retry count by one, or to 0, drops the error, and changes nothing else |
| ReportRequests.FailedPatchEffect | packages/report-generator-runner/src/runner/runner.ts:140-151 | through the merge, the failed update, which omits the retry count, preserves it, records the error shortened, and changes nothing else |
| ReportRunner.RetriesAreBounded | packages/report-generator-runner/src/runner/runner.ts:51-90 | in every run, crashes and clock included, the retry count stays within the maximum, and attempts, also those cut short, within maximum + 1 plus lost updates |
| ReportRunner.LostUpdatesLiftTheBound | packages/report-generator-runner/src/runner/runner.ts:132-137 | while no running update is written, a request can be attempted any number of times |
| ReportRunner.BoundIsReached | packages/report-generator-runner/src/runner/runner.ts:100-172 | for every number of lost updates, that bound is reached by a request that always fails |
| ReportRunner.UsedUpIsNeverProcessed | packages/report-generator-runner/src/runner/request-selector.ts:86-117 | after the last retry a pass leaves the request alone or deletes it |
| ReportRunner.WhatPassesDo | packages/report-generator-runner/src/runner/request-selector.ts:71-118 | at every point of the life cycle, whatever the fate of the pass: a new request is attempted; a running or failed one with a retry left is left as it is until the interval has passed, and attempted from then on; a completed or given up one is deleted |
| ReportRunner.WhatAttemptsLeave | packages/report-generator-runner/src/runner/runner.ts:51-90 | after an attempt the request is gone if its report was made, and else in the state, at the time and with the retry count written last |
| ReportRunner.AttemptsAreSpaced | packages/report-generator-runner/src/runner/request-selector.ts:104-114 | in every run, after an attempt whose running update was written any later attempt is at least the interval away |
| ReportRunner.ReportProcessor.Generate | packages/report-generator-runner/src/report-processor/report-processor.ts:24-74 | every request ends completed or failed, in order, failed exactly when its report throws or the target is not supported |
| ReportRunner.Runner.TryUpdateRequests | packages/report-generator-runner/src/runner/runner.ts:132-137 | each request whose write is taken gets its patch, and no other document changes |
| ReportRunner.Runner.MoveCompletedRequestsForDeletion | packages/report-generator-runner/src/runner/runner.ts:92-98 | splits the processed requests without losing, doubling or reordering any: all the completed ones come before those to delete, the others are failed |
| ReportRunner.Runner.Run | packages/report-generator-runner/src/runner/runner.ts:51-90 | one pass leaves each selected request as the life cycle says, and every other document untouched |
| KnownPageCodec.RoundTrip | packages/storage-documents/src/known-page-type-converter.ts:17-82 | a page comes back from its string if and only if its fields are legal and it has a source or its fields form a prefix with a scan id that is no source word |
| KnownPageCodec.StrippingIsHarmless | packages/storage-documents/src/known-page-type-converter.ts:27-28 | stripping trailing separators never changes what is read |
| KnownPageCodec.StripsSeparators | packages/storage-documents/src/known-page-type-converter.ts:27-28 | what is stripped is all separators, and none is left at the end |
| KnownPageCodec.ScanStateAloneIsMisread | packages/storage-documents/src/known-page-type-converter.ts:59-72 | `url3|||pass` reads back with its scan state as the run state |
| KnownPageCodec.KnownPageTypeConverter.ConvertStringToKnownPage | packages/storage-documents/src/known-page-type-converter.ts:34-82 | the parsing loop equals the specification, the format error included |
| KnownPageCodec.LastPageWins | packages/storage-documents/src/known-page-type-converter.ts:87-100 | the object holds, for each URL hash, the string of the last page with it |
| KnownPageCodec.ListRoundTrip | packages/storage-documents/src/known-page-type-converter.ts:87-111 | a list of pages comes back from the object, in order, if and only if no URL hash repeats and each page round-trips |
| StorageQueues.NothingLostNorHandedOutTwice | packages/azure-services/src/azure-queue/queue.ts:29-51 | after any events, clients ending between enqueue and delete included, every message is in the origin queue, in the dead queue or deleted on success, and none was handed out twice |
| StorageQueues.Queue.GetMessages | packages/azure-services/src/azure-queue/queue.ts:29-51 | of what the service delivers, exactly the messages never received before are returned, in order; the others are moved to the dead queue, and no other message is touched |
| StorageQueues.Queue.GetMessagesWithTotalCount | packages/azure-services/src/azure-queue/queue.ts:53-67 | ends for every positive total, fractional ones too, with others acting before each receive: distinct messages never handed out before, the total, or fewer when a receive, in a state the queue passed, had nothing new to give |
| StorageQueues.Queue.MoveToDeadQueue | packages/azure-services/src/azure-queue/queue.ts:138-145 | adds the message to the dead queue, then deletes it from the origin queue if its receipt is current |
| StorageQueues.Queue.DeleteMessage | packages/azure-services/src/azure-queue/queue.ts:69-73 | deletes the message for a current receipt only; an error is swallowed |
| PoolLoad.PoolLoadGenerator.GetPoolLoadSnapshot | packages/azure-services/src/azure-batch/pool-load-generator.ts:50-66 | the fields become the next controller state; no increment after the first is negative |
| PoolLoad.PoolLoadGenerator.CalculateTasksIncrementCount | packages/azure-services/src/azure-batch/pool-load-generator.ts:72-106 | first and later calculations update each field as specified |
| PoolLoad.SnapshotAims | packages/azure-services/src/azure-batch/pool-load-generator.ts:77-104 | at first the increment fills the pool to the configured ratio; later it brings the backlog up to the ratio and half the drain, rounded up, and is 0 above that |
| PoolLoad.RatioFollowsLoad | packages/azure-services/src/azure-batch/pool-load-generator.ts:90-96 | in every run the ratio goes up, by one, exactly on an idle pool; otherwise down, to the default, exactly when above it and overfull; and then the backlog is within one ratio more, or the ratio is the default |
| PoolLoad.RatioAndIncrement | packages/azure-services/src/azure-batch/pool-load-generator.ts:72-106 | in every run the ratio is the configured one plus a natural number, and increments after the first are not negative |
| PoolLoad.SnapshotSettles | packages/azure-services/src/azure-batch/pool-load-generator.ts:72-88 | every snapshot that measures a drain, with a whole target and an increment that is not clamped, leaves the controller settling |
| PoolLoad.SettlesInOneInterval | packages/azure-services/src/azure-batch/pool-load-generator.ts:77-84 | under a constant drain p the backlog stands at T - floor(p/2) after one interval, and exactly when the ratio then changes |
| PoolLoad.BacklogStays | packages/azure-services/src/azure-batch/pool-load-generator.ts:77-84 | it stays there for good, with the increment equal to the drain |
| BatchTasks.JobTask.Create | packages/azure-services/src/azure-batch/job-task.ts:33-44 | a new task has its id, is in state new and has no error; it throws exactly for more than 58 characters |
| BatchTasks.TaskIdFits | packages/azure-services/src/azure-batch/job-task.ts:34-43 | an id can be made exactly up to 58 characters of correlation id; it has at most 64, with twenty random digits or as many as fit |
| BatchTasks.TaskIdRoundTrip | packages/azure-services/src/azure-batch/job-task.ts:47-52 | a task id gives back its correlation id if and only if that has no underscore |
| BatchTasks.TaskIdsDiffer | packages/azure-services/src/azure-batch/job-task.ts:33-44 | whatever the random bytes, one task id has one correlation id |
| BatchTasks.ChunkArray | packages/common/src/system/system.ts:24-31 | chunks put together are the array; all are full but the last, which has at least one element |
| BatchTasks.Batch.CreateTasks | packages/azure-services/src/azure-batch/batch.ts:136-148 | exactly one task for each message, queued exactly when the service took it; fails if and only if some id is too long |
| BatchTasks.Batch.AddTaskCollection | packages/azure-services/src/azure-batch/batch.ts:245-281 | the same for one chunk, through the map keyed by task id |
| JobManager.SpliceAllExact | packages/service-library/src/batch/batch-task-creator.ts:198-219 | looking up and splicing out leaves exactly the others if and only if nothing was looked up twice, or everything was |
| JobManager.SpliceAllRemoves | packages/service-library/src/batch/batch-task-creator.ts:198-219 | splicing removes what was looked up, as a multiset |
| JobManager.FoundAllFacts | packages/service-library/src/batch/batch-task-creator.ts:207-211 | with unique ids, the messages found for distinct task ids are distinct, and exactly those with these ids |
| JobManager.Worker.GetMessagesForTaskCreation | packages/privacy-scan-job-manager/src/worker/worker.ts:38-66 | updates the load controller and pulls the increment, or fewer when the queue has nothing new; what the queue newly hands out is exactly what is pulled and what others get |
| JobManager.Worker.AddTasksToJob | packages/service-library/src/batch/batch-task-creator.ts:154-184 | splices out exactly the messages the service took no task for; the service gains exactly the other tasks |
| JobManager.Worker.DeleteScanQueueMessagesForSucceededTasks | packages/service-library/src/batch/batch-task-creator.ts:196-220 | whatever order deletions complete in, exactly the messages of succeeded tasks are spliced out; they are gone from the queue unless received again, and every other message is still in it |
| JobManager.Worker.HandleFailedTasksImpl | packages/service-library/src/batch/batch-task-creator.ts:222-237 | exactly the messages of failed tasks are spliced out |
| JobManager.Worker.ValidateTasks | packages/service-library/src/batch/batch-task-creator.ts:191-194 | afterwards exactly the messages of tasks reported neither succeeded nor failed are active |
| JobManager.Worker.TakeTurn | packages/service-library/src/batch/batch-task-creator.ts:77-100 | one turn pulls as many messages as the load controller asks for, or fewer when the queue had nothing new to give at some point of the turn; every message pulled is tried as a task, and the controller told how many were added; it throws exactly for a too long id, ends exactly on time or with nothing pulled or pending, and otherwise exactly the messages reported neither succeeded nor failed stay active; when nobody else acts, nothing goes elsewhere |
| JobManager.Worker.Run | packages/service-library/src/batch/batch-task-creator.ts:68-105 | over every run, with other clients acting on the queue before every turn, receive and validation: each turn finds the controller as the one before left it and pulls as it asks; the run ends early only with a turn that ends it; what was pulled is what the turns got = active + deleted + failed + rejected; the tasks are those added by the turns; nothing is active at the end if every task is reported |
| JobManager.ScansUnique | packages/azure-services/src/azure-queue/queue.ts:38-48 | messages from a queue that hands out none twice have distinct ids |
| Guids.TimestampRoundTrip | packages/common/src/system/guid-generator.ts:44-55 | encoding any 60-bit tick count and reading it gives floor(ticks / 10000) minus the 1582 offset, and the node back |
| Guids.TimestampOfValid | packages/common/src/system/guid-generator.ts:44-65 | every valid version 6 id is read without an error, and only its tick count matters |
| Guids.OtherVersionsAreRefused | packages/common/src/system/guid-generator.ts:44-48 | ids laid out as such are refused exactly when their version is not 6 |
| Guids.CapitalsDoNotMatter | packages/common/src/system/guid-generator.ts:44-65 | an id in capitals is valid exactly when it is in small letters, and has the same timestamp |
| Guids.OffsetIsBaseDate | packages/common/src/system/guid-generator.ts:51 | the offset is the days from 15 October 1582 to 1970, leap years counted, in milliseconds |
| Guids.BaseGuidKeeps | packages/common/src/system/guid-generator.ts:25-38 | the new id is valid exactly when the base yields a node of twelve digits; then it has the new timestamp and the base's node |
| Guids.NodeOfValid | packages/common/src/system/guid-generator.ts:36-38 | the node of a valid id is its last group |
| Guids.TextOrderIsTimeOrder | packages/common/src/system/guid-generator.ts:44-55 | for ids whose tick digits are safe together, such as those of one case, text order of the first 18 characters is the order of the ticks, so timestamps never go back |
| Guids.OneCaseIsSafe | packages/common/src/system/guid-generator.ts:44-65 | the digits of one case are safe |
| Guids.TextOrderKeptExactly | packages/common/src/system/guid-generator.ts:44-65 | text order is time order for all ids over some digits if and only if no capital letter among them stands for as much as a small letter, or for more |
| PrivacyReports.PrivacyReportReducer.ReduceResults | packages/privacy-scan-runner/src/combined-report/privacy-report-reducer.ts:20-45 | updates the existing report in place, or makes a new one, to exactly the reduced value; fails only for a first scan without a timestamp |
| PrivacyReports.PrivacyReportReducer.AddFailedUrl | packages/privacy-scan-runner/src/combined-report/privacy-report-reducer.ts:47-68 | appends the failure of an error record other than the missing banner, and nothing for a native error |
| PrivacyReports.PrivacyReportReducer.AddCookieCollectionResults | packages/privacy-scan-runner/src/combined-report/privacy-report-reducer.ts:70-84 | appends the result and joins in the cookies of each consent result |
| PrivacyReports.PrivacyReportReducer.RemoveUrlResultsFromReport | packages/privacy-scan-runner/src/combined-report/privacy-report-reducer.ts:106-111 | no entry with the URL as its seed is left; every other entry is there as often as before, in the old order |
| PrivacyReports.LatestFacts | packages/privacy-scan-runner/src/combined-report/privacy-report-reducer.ts:27-31 | the reference: for each URL visited, exactly its last visit |
| PrivacyReports.ReportRefinesLastScans | packages/privacy-scan-runner/src/combined-report/privacy-report-reducer.ts:20-111 | after every history the report is that of the map from URL to last scan |
| PrivacyReports.FailedExactlyWhen | packages/privacy-scan-runner/src/combined-report/privacy-report-reducer.ts:42 | the status is failed exactly when some URL's last scan ended in an error record other than the missing banner; each URL has at most one failure |
| PrivacyReports.ResultsAreOfLastScans | packages/privacy-scan-runner/src/combined-report/privacy-report-reducer.ts:70-74 | when results carry the URL scanned, each URL has at most one cookie result, that of its last scan |
| PrivacyReports.ReplacedExactlyWhenSeedMatches | packages/privacy-scan-runner/src/combined-report/privacy-report-reducer.ts:106-111 | whatever the report held, of two scans of a URL the second replaces the first result if and only if that carries the URL as its seed; of earlier results exactly those with other seeds stay |
| PrivacyReports.CookiesOnlyGrow | packages/privacy-scan-runner/src/combined-report/privacy-report-reducer.ts:75-91 | no two cookies share a serialisation, and scans only append |
| PrivacyReports.CookiesAreThoseSeen | packages/privacy-scan-runner/src/combined-report/privacy-report-reducer.ts:75-91 | after every history, from the scan data alone: every cookie of every domain, before or after consent, of every consent result has its serialisation in the list, and the list holds no other cookie |
| PrivacyReports.FailuresSayWhy | packages/privacy-scan-runner/src/combined-report/privacy-report-reducer.ts:57-65 | every failure in the report says what the last scan of its URL says |
| PrivacyReports.AddCookiesIsUnique | packages/privacy-scan-runner/src/combined-report/privacy-report-reducer.ts:75-91 | joining one consent result after the other is removing repetitions once |
| PrivacyReports.UniqueByFacts | packages/privacy-scan-runner/src/combined-report/privacy-report-reducer.ts:76-90 | keys of kept cookies are distinct, and the same set as before |
| CombinedResults.CombinedAxeResultBuilder.MergeAxeResults | packages/service-library/src/combined-report-provider/combined-axe-result-builder.ts:20-50 | merges a page in place and writes it exactly when the etag read is absent or current; else it throws and the blob is untouched |
| CombinedResults.CombinedAxeResultBuilder.SetScannedUrlCount | packages/service-library/src/combined-report-provider/combined-axe-result-builder.ts:52-60 | a page counts as failed exactly when it lists violations |
| CombinedResults.BlobStore.WriteCombinedResults | packages/service-library/src/data-providers/combined-scan-results-provider.ts:41-74 | the conditional write of the blob: taken exactly when not refused and the etag is absent or current; else the mismatch or the status is answered and nothing changes |
| CombinedResults.MergedCounts | packages/service-library/src/combined-report-provider/combined-axe-result-builder.ts:29-60 | after any pages: each counted once, none left over as unscannable, and the violations are the accumulation of the pages |
| CombinedResults.NoPageIsLost | packages/service-library/src/combined-report-provider/combined-axe-result-builder.ts:24-50 | once a blob exists, every interleaving of builders ends in the merge of the pages written to it, in order |
| CombinedResults.NoPageIsLostIffNotOverwritten | packages/service-library/src/combined-report-provider/combined-results-blob-provider.ts:30-61 | in every interleaving a blob holds all the pages written to it if and only if no builder that had found none wrote over one that came to be since |
| CombinedResults.OwnBlobIsUntouched | packages/service-library/src/combined-report-provider/combined-results-blob-provider.ts:26-29 | a builder that was given no id writes a blob of its own, at most once, and nobody else does |
| CombinedResults.FirstWritesRace | packages/service-library/src/combined-report-provider/combined-results-blob-provider.ts:42-49 | the smallest overwriting: two builders given one id of a missing blob; the first page is lost although its write succeeded |
| ReportConversion.CombinedReportDataConverter.Convert | packages/axe-result-converter/src/combined-report-data-converter.ts:26-65 | the report, its header included, equals the specification of what the three lists still had to give; it throws exactly when a violation has no node |
| ReportConversion.CombinedReportDataConverter.GetFailureData | packages/axe-result-converter/src/combined-report-data-converter.ts:82-101 | one failure for each violation, in order; the list is drained |
| ReportConversion.CombinedReportDataConverter.GetAxeRuleData | packages/axe-result-converter/src/combined-report-data-converter.ts:103-116 | the first result of each rule id that is not excluded, sorted; the list is drained |
| ReportConversion.CombinedReportDataConverter.GroupFailureDataByRule | packages/axe-result-converter/src/combined-report-data-converter.ts:67-80 | grouping by a dictionary equals filtering by key, keys in first-seen order, then sorted |
| ReportConversion.CombinedReportDataConverter.SortFailuresGroups | packages/axe-result-converter/src/combined-report-data-converter.ts:173-200 | counting URLs and sorting by the counts equals the specification |
| ReportConversion.RulesArePartitioned | packages/axe-result-converter/src/combined-report-data-converter.ts:26-37 | each rule id lands in exactly one of failed, passed and not applicable, with that priority; the last two are strictly ascending |
| ReportConversion.MergedPagesConvert | packages/axe-result-converter/src/combined-report-data-converter.ts:38-42 | merged pages always convert, with each page failed or passed and none unscannable |
| ReportConversion.ReportShowsFindings | packages/axe-result-converter/src/combined-report-data-converter.ts:26-101 | from the scanned pages to the report: where the hash tells them apart, each finding is in the group of its rule, with its snippet, its CSS selector and every URL it was found on |
| ReportConversion.ReportShowsNothingElse | packages/axe-result-converter/src/combined-report-data-converter.ts:26-101 | and every URL of every failure reported is one on which that finding was found |
| ReportConversion.FailuresAreInOrder | packages/axe-result-converter/src/combined-report-data-converter.ts:202-216 | in a group, failures under more URLs come first, and then those whose first URL is smaller |
| ReportConversion.HeaderAddsUp | packages/axe-result-converter/src/combined-report-data-converter.ts:38-57 | failed, passed and unscannable URLs add up to all, and the duration leads from start to end |
| ReportConversion.RulesFacts | packages/axe-result-converter/src/combined-report-data-converter.ts:103-116 | the rules listed are exactly the ids not excluded, each with the data of its first result, strictly ascending |
| ReportConversion.GroupsPermuteFailures | packages/axe-result-converter/src/combined-report-data-converter.ts:67-80 | the groups one after the other are a permutation of the failures |
| ReportConversion.GroupsAreByKey | packages/axe-result-converter/src/combined-report-data-converter.ts:67-216 | groups fall by URL count; each holds, in order, exactly the failures with its key; keys do not repeat |
| ReportConversion.OneRulePerGroup | packages/axe-result-converter/src/combined-report-data-converter.ts:70 | each group is of one rule if and only if no two failed rule ids differ by case alone |
| ReportConversion.OrdersConsistent | packages/axe-result-converter/src/combined-report-data-converter.ts:190-228 | the three comparison functions are consistent, so their sorts are defined |
| ReportConversion.EveryEntryIsVisited | packages/common/src/hash-set.ts:32-62 | with no iteration left open, the conversion sees every entry of a list once |

## Left out
- JumpHashing.JumpConsistentHash.GetBucket: at most 2^31 buckets and keys that are not negative, as hashes are; the division is any that rounds to the nearest double.
- DocumentMerge.MergeTwice: a patch object that meets a stored array keeps the array; this mixed shape is outside the documented use. An absent property and one that is `undefined` are the same.
- DocumentStore.NoLostUpdate: starts once the document exists; first creations after a 404 read carry no etag.
- DocumentStore.CosmosContainer.UpsertItem: a refused write is one that was not done; errors without a status are not modelled.
- ReportRunner.Runner.Run: one runner per group, one clock reading per pass, and no scan-result documents, notifications or telemetry; passes that end early are in RetriesAreBounded.
- JobManager.Worker.HandleFailedTasksImpl: the scan documents written for failed tasks are not modelled.
- JobManager.Worker.TakeTurn: other clients act before a turn, before each receive and before validation, not between the deletions of one validation.
- JobManager.Worker.Run: a finite script of turns stands for the unbounded loop, and waiting for child tasks is the last report. Tasks are listed by correlation id, which TaskIdRoundTrip justifies for ids without an underscore, as the queue service makes them.
- StorageQueues.Queue.GetMessages: the dead queue holds the message text and the id it had, not the new message and its double JSON encoding; what the service delivers is any rule that returns no more than asked, each message once.
- PoolLoad.PoolLoadGenerator.GetPoolLoadSnapshot: the sampling interval, the speed per minute and the timestamp are reported only and not modelled; numbers are real, without rounding.
- BatchTasks.Batch.CreateTasks: chunks complete in the order of the messages; message ids are pairwise distinct, which the queue guarantees.
- BatchTasks.Batch.AddTaskCollection: message ids are pairwise distinct, as above.
- Guids.TimestampOfValid: text that is no valid id may also be read; trailing white space in the digits, which the original's number conversion would drop, is an error in the model.
- PrivacyReports.PrivacyReportReducer.ReduceResults: the current time is a parameter; an error record always has a message, so only native errors are empty; serialisation of a cookie is any function of it.
- CombinedResults.NoPageIsLost: a stored blob is read back as it was written; reads that fail for other reasons throw and do nothing.
- ReportConversion.CombinedReportDataConverter.Convert: a list object passed twice must have no iteration left open; every node has its list of selectors, as the reducer makes it; lower-casing is any function.
- AxeResults.AxeResultsReducer.Reduce: entries are values in the container's map, so sharing of entry objects between lists is not captured; properties copied unread are one field.
- HashSets.HashSet.Values: keys that look like integers, which JavaScript lists first, and keys found on the object prototype.
- Sorting and `<` on strings compare characters; Dafny's characters are code points where JavaScript compares code units.
- Collation (`localeCompare`), hashing, lower-casing and random bytes are parameters; no hash is assumed free of collisions but where a lemma of `Findings` says so.
- The reducer, fingerprint generator and container have copies in other packages; each is modelled once.
- Browser control, crawling, authentication, rendering, storage plumbing, schema validation, command line parsing and logging.
