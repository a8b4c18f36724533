# Procedo case analysis, modelled in Dafny

Procedo reviews arbitration documents against an organisation's institutional
rules. The core modelled here has four parts.

- **Seeding.** Each organisation gets the ICSID rule set once. Every rule's
  hierarchy level and its non-derogable and annulment-linked flags are derived
  from the rule's document type, mandatory flag and parameter tag. The rows go
  into a table whose unique key is (organisation, institution, version, ref).
- **The recommendation engine.** It reads the organisation's rules through a
  five-minute cache, ordered by hierarchy level. It classifies the document's
  jurisdiction, either by one model call over the first 10 000 characters or
  from a jurisdiction the caller supplies. It then builds the prompt of the
  requested mode: consultative recommendations with at most 10 rules, or a
  compliance audit with at most 15.
- **The analysis route.** `POST` authorises the caller and creates the case
  record. The background pipeline then extracts the text, detects the
  jurisdiction once, and runs the two analysis chains concurrently against the
  same record. Each chain writes progress, then its own result slot or an error.
  The pipeline finishes with a final "Complete" progress write.
- **The client.** The analyzer component gates file size, starts both analyses
  and polls one status per mode. The two report panels strip Markdown fences
  from the stored text, show a loading list while it does not parse, and pick a
  sentinel card or the report once it does.

The model is written in pure functions over immutable data.

- The database is an explicit table, or an explicit sequence of writes to the
  case record.
- The cache is a map. Clock readings are parameters.
- The language model's replies are parameters (`Option<ModelReply>`, where
  `None` means the call failed).
- `JSON.parse` is the parameter `parse: string -> Option<Value>`, where `None`
  means it threw.
- The two concurrent chains are modelled as every interleaving of their write
  sequences, chosen by a `schedule`.

JavaScript semantics that the code relies on are written out:

- truthiness;
- property reads on `null` and `undefined` throwing;
- `String(v)`;
- `trim` and the regex class `\s`, with the ECMAScript whitespace set;
- `replace` with a string pattern (first occurrence only) and with a `/g` regex;
- `slice(0, n)`.

Modules, one per source concern:

- `Options`: `Option`.
- `JsValues`: JavaScript values, truthiness, `String()`.
- `Text`: string built-ins.
- `InstitutionRules`: rows, the unique key, the atomic insert.
- `SeedRules`.
- `RuleCache`: `matchRules`.
- `Classifier`: `classifyDocument`.
- `Prompts`: the two prompt builders.
- `Engine`: `generateRecommendations`.
- `CaseRecords`: the case record and its writes.
- `AnalyzeRoute`: `POST` and the background pipeline.
- `ReportCleaning`: shared by both panels.
- `RecommendationDisplay`.
- `ParameterizedDisplay`.
- `CaseAnalyzer`.

## Model

| member | source | states |
|---|---|---|
| SeedRules.DeriveFlags | actions/seed-rules.ts:12-46 | Only the three known document types have a hierarchy level. Convention rules are always non-derogable. Any other rule is non-derogable exactly when it is mandatory and its tag is one of the three non-derogable tags. A rule is annulment-linked exactly when its tag is one of the four annulment tags. |
| SeedRules.HierarchyOrder | actions/seed-rules.ts:12-16 | Convention is level 1, arbitration rules level 2, expedited arbitration level 3. |
| SeedRules.AnnulmentLinkIgnoresTypeAndMandatory | actions/seed-rules.ts:42-43 | Annulment linkage depends on the tag alone. It is false without a tag. |
| SeedRules.NonDerogableMonotoneInMandatory | actions/seed-rules.ts:38-40 | Making a rule mandatory can only add non-derogability. A non-mandatory rule that is not from the convention is never non-derogable. |
| SeedRules.TagSetOverlap | actions/seed-rules.ts:18-29 | For a mandatory arbitration rule, `rule_hierarchy` gives non-derogable only. Two tags give both flags. The two remaining annulment tags give annulment linkage only. |
| SeedRules.SeedRows | actions/seed-rules.ts:58-121 | The seeded rows: convention rows first, then arbitration rows, all for the organisation under ICSID 2022. Convention rows are level 1, non-derogable and `classification_only`. Arbitration rows are level 2, have no title, and their AI usage defaults to `flagging`. |
| SeedRules.Seed | actions/seed-rules.ts:48-132 | Reports `already_initialized` exactly when an ICSID rule exists for the organisation (the `checkRulesStatus` test, lines 134-140). On success it stores exactly the seeded rows after the existing ones and reports their count. On failure the table is unchanged. The table's unique key is preserved. |
| SeedRules.SeedIdempotent | actions/seed-rules.ts:49-56 | After a successful non-empty seed, seeding again reports `already_initialized` and leaves the table alone. |
| SeedRules.SeedFailsOnlyOnFaultOrRepeatedRef | actions/seed-rules.ts:123-131 | With no ICSID rows for the organisation, a non-empty seed fails exactly on a storage fault or on a reference repeated anywhere in the data. This includes a convention article and an arbitration rule sharing a reference, because the unique key leaves out the document type. |
| InstitutionRules.InsertAll | db/schema/schema.ts:11-49 | The multi-row insert is atomic. On success the old rows come first, then the new rows, and the unique key holds. It fails only on a fault or a repeated (org, institution, version, ref) key. |
| RuleCache.InsertByLevel | lib/recommendation-engine.ts:37 | Inserting a rule into a list sorted by hierarchy level keeps it sorted and adds exactly that rule. |
| RuleCache.SortByLevel | lib/recommendation-engine.ts:33-37 | The result is sorted by hierarchy level and is a permutation of its input. |
| RuleCache.QueryRules | lib/recommendation-engine.ts:33-37 | The query returns exactly the organisation's rows, each as often as it is stored, in ascending hierarchy level. |
| RuleCache.MatchRules | lib/recommendation-engine.ts:23-43 | A fresh entry is returned with no query and the cache unchanged. Otherwise the query result is returned and cached under the organisation with the later timestamp. Other organisations' entries are untouched. |
| RuleCache.SnapshotStableWithinTtl | lib/recommendation-engine.ts:25-29 | Within five minutes of a query, later calls return the same snapshot, whatever the table now holds. |
| RuleCache.ExpiredAtTtl | lib/recommendation-engine.ts:13 | At exactly five minutes the entry is stale and the table is queried again. |
| Classifier.ClassifierSeesHeadOnly | lib/recommendation-engine.ts:75 | The classifier's message carries a prefix of the document of at most 10 000 characters, and the whole document when it is that short. |
| Classifier.ClassifyDocument | lib/recommendation-engine.ts:50-87 | A non-empty supplied jurisdiction gives the user-provided classification with no model call. Otherwise the message is sent, and the call throws exactly when the request fails or the reply has no content block. A text reply's result is that reply's parse step. A non-text first block is parsed as "{}". |
| Classifier.ParseReply | lib/recommendation-engine.ts:78-86 | The parse step never throws. It yields what the reply parses to once every fence is removed and the text trimmed. When that does not parse, it yields the default, whose effective jurisdiction is "ICSID". |
| Classifier.UnparseableReplyDefaultsToIcsid | lib/recommendation-engine.ts:83-86 | An unparseable reply classifies the document as ICSID. |
| Classifier.EffectiveJurisdiction | lib/recommendation-engine.ts:376-377 | `jurisdiction \|\| (is_icsid ? "ICSID" : "General Commercial")` throws exactly on `null` or `undefined`. When it does not throw, the result is truthy. A truthy `jurisdiction` field is kept. Any other string result came from that field. |
| Classifier.ProvidedJurisdictionPassesThrough | lib/recommendation-engine.ts:55-61 | A supplied jurisdiction passes through unchanged, and `is_icsid` holds exactly for "ICSID". |
| Prompts.EmbeddedRules | lib/recommendation-engine.ts:121-127 | The prompt lists the first `min(n, cap)` rules. Each entry carries the rule's id, title and level, with category "General". |
| Prompts.UserMessageCarriesDocumentHead | lib/recommendation-engine.ts:219 | The user message carries a prefix of the case text of exactly `min(n, 50 000)` characters. It is the whole text exactly when the text is that short. |
| Prompts.WithDefault | lib/recommendation-engine.ts:92 | Only an `undefined` jurisdiction becomes "ICSID". Any other value is kept, including `null` and "". |
| Prompts.BuildRecommendationPrompt | lib/recommendation-engine.ts:89-221 | A recommendation prompt. It is ICSID-flavoured exactly for "ICSID" or an absent jurisdiction, and it embeds at most 10 rules (all of them when there are no more than 10). The excerpt is the first 10 rules' summaries, the user message is the document head, and the jurisdiction is the defaulted one. |
| Prompts.BuildParameterizedPrompt | lib/recommendation-engine.ts:224-359 | The same, for the compliance audit, with 15 rules (lines 259-265): the excerpt, user message and defaulted jurisdiction are fixed as for recommendations. |
| Engine.BuildPrompt | lib/recommendation-engine.ts:380-382 | Only "with_parameters" selects the audit prompt. Every other mode, including an absent one, selects recommendations. |
| Engine.ClassificationOf | lib/recommendation-engine.ts:365-372 | A truthy supplied jurisdiction skips the classifier and is the effective jurisdiction. Otherwise the classifier is consulted. |
| Engine.RequestOf | lib/recommendation-engine.ts:376-382 | A prompt is built exactly when classification succeeded and its jurisdiction can be read. The prompt carries that jurisdiction, which is truthy, and the mode's prompt kind, document head and rule excerpt. |
| Engine.GenerateRecommendations | lib/recommendation-engine.ts:361-393 | When the rules query runs and fails, no prompt is built and the cache is unchanged. Otherwise the cache is updated as `matchRules` does, with the entry stamped at the clock reading taken after the query, including when classification throws. The classifier is asked exactly when no truthy jurisdiction was supplied. A supplied one reaches the prompt unchanged, and a prompt is built exactly when the rules query does not fail. The prompt embeds the excerpt of the rules that `matchRules` returned. |
| Engine.ConsultedGenerationFailure | lib/recommendation-engine.ts:361-382 | When the classifier is consulted, generation fails exactly when the rules query fails, the model call fails, the reply has no content, or the reply parses to `null` (line 376 then reads a field of `null`). Every other reply yields a prompt, unparseable ones under the ICSID default. |
| Engine.FreshSnapshotEmbedded | lib/recommendation-engine.ts:25-29 | With a fresh cache entry, the prompt embeds the cached snapshot and the cache is unchanged. |
| Engine.EmbeddedRulesHaveHighestAuthority | lib/recommendation-engine.ts:33-37 | On a cache miss, no rule left out of the excerpt has a lower hierarchy level than one embedded. |
| CaseRecords.Apply | app/api/analyze-case/route.ts:14-93 | One write: progress, current step, status, slots and error message change as the write says. Every write sets the step; a saved result sets "Complete". The record's identity never changes. |
| CaseRecords.ApplyAllKeepsIdentity | app/api/analyze-case/route.ts:113-123 | No write of the pipeline changes the owner, title or file fields. |
| CaseRecords.SlotIsLastFill | app/api/analyze-case/route.ts:62-82 | A slot holds the result of the last write that filled it. It is untouched when no write filled it. |
| CaseRecords.StatusIsLastStatus | app/api/analyze-case/route.ts:62-93 | The status is the one set last. |
| AnalyzeRoute.CaseTitle | app/api/analyze-case/route.ts:116 | The title is the file name with its first ".pdf" removed, or "Case Analysis" when that leaves nothing or the name is nullish. It throws for a name that is neither a string nor nullish. |
| AnalyzeRoute.StoredFileName | app/api/analyze-case/route.ts:117 | A non-empty string name is stored as given. A nullish or empty name is stored as "document.pdf". |
| AnalyzeRoute.TitleOfPdfName | app/api/analyze-case/route.ts:116 | `name.pdf` gets the title `name` when `name` has no ".pdf" of its own. |
| AnalyzeRoute.Post | app/api/analyze-case/route.ts:96-195 | 401 exactly when the user or organisation is missing. 400 exactly when an authorised body has a falsy `fileUrl`. The case is accepted exactly when the caller is authorised, the body reads, `fileUrl` is truthy and the title can be computed. A record is created exactly then: the title and stored file name from `fileName`, `fileSize` or 0, the given `fileUrl`, processing, 5%, "Starting analysis...", empty slots. |
| AnalyzeRoute.ChainWrites | app/api/analyze-case/route.ts:37-94 | A chain sets a status only in its last write: analyzed exactly when it succeeded, error otherwise. It fills only its own mode's slot. Its first write is below 25%. A failed chain's last write is the error with the thrown message, or "Analysis failed", at 0% and step "Error occurred". |
| AnalyzeRoute.ChainErrorText | app/api/analyze-case/route.ts:88 | An `Error`'s message is stored as is, anything else as "Analysis failed". |
| AnalyzeRoute.DetectedJurisdiction | app/api/analyze-case/route.ts:146-148 | A detected jurisdiction is truthy. Nothing is detected when the model call fails or its reply is empty. An unparseable text reply is detected as "ICSID". |
| AnalyzeRoute.PipelineWrites | app/api/analyze-case/route.ts:127-174 | The first write announces extraction. A failed extraction ends with its error write, and a failed detection with the outer catch's write. The run ends with the "Complete" write exactly when the text was extracted and a jurisdiction detected. |
| AnalyzeRoute.Merge | app/api/analyze-case/route.ts:153-156 | An interleaving has as many writes as both chains together. Its first write is the first write of one of them. That it holds every write of both is `MergeIsPermutation`. |
| AnalyzeRoute.MergeIsPermutation | app/api/analyze-case/route.ts:153-156 | An interleaving is a permutation of the two chains' writes together. |
| AnalyzeRoute.MergeFirstSerial | app/api/analyze-case/route.ts:153-156 | Running the recommendations chain to completion first is one of the interleavings. |
| AnalyzeRoute.MergeSecondSerial | app/api/analyze-case/route.ts:153-156 | Running the parameters chain to completion first is one of the interleavings. |
| AnalyzeRoute.ExtractionFailureIsFatal | app/api/analyze-case/route.ts:131-142 | A failed extraction leaves error status, its message, 0% and step "Error". Both slots are untouched. |
| AnalyzeRoute.ClassificationFailureIsUnexpected | app/api/analyze-case/route.ts:145-148 | When classification throws or yields `null`, the outer catch leaves error status with "Unexpected error during analysis." at 0%. Both slots are untouched. |
| AnalyzeRoute.PipelineShape | app/api/analyze-case/route.ts:127-174 | When the chains run, the writes are: extraction, the detected jurisdiction at 25%, an interleaving of the two chains, and "Complete". |
| AnalyzeRoute.RunEndsComplete | app/api/analyze-case/route.ts:163 | When the chains run, the run ends at 100% "Complete" with the status the chains set last. |
| AnalyzeRoute.SlotsIndependent | app/api/analyze-case/route.ts:62-82 | Each slot ends holding its own chain's result, or untouched when that chain failed, whatever the other chain did and however the two interleaved. |
| AnalyzeRoute.ChainStatuses | app/api/analyze-case/route.ts:153-156 | The chains set only their two outcomes, and the default chain's outcome is always set. |
| AnalyzeRoute.AgreeingChainsDecideStatus | app/api/analyze-case/route.ts:62-93 | When both chains end the same way, that is the final status. |
| AnalyzeRoute.LaterChainDecidesStatus | app/api/analyze-case/route.ts:153-163 | When the chains run one after the other, the status is the outcome of the chain that finished last. |
| AnalyzeRoute.MergeLast | app/api/analyze-case/route.ts:153-156 | The last write of an interleaving is the last write of whichever chain's writes end last. |
| AnalyzeRoute.LastChainToFinishDecidesStatus | app/api/analyze-case/route.ts:153-163 | For every interleaving, the final status is the outcome of the chain whose last write comes last. |
| AnalyzeRoute.FilledSlotUnderErrorStatus | app/api/analyze-case/route.ts:62-93 | A case can end with status error and a filled default slot. |
| AnalyzeRoute.ProgressDropsAfterDetection | app/api/analyze-case/route.ts:45 | Progress is not monotone. It reaches 25% at detection, and the next write is below 25%. |
| AnalyzeRoute.ProgressFallsAfterOneChainCompletes | app/api/analyze-case/route.ts:55-82 | One chain can take progress to 100% before the other writes below 25%. |
| AnalyzeRoute.ChainsNeverReclassify | app/api/analyze-case/route.ts:147-155 | Given a truthy jurisdiction, which detection guarantees, each chain's engine call skips the classifier. It builds its own mode's prompt with that jurisdiction exactly when its rules query does not fail. |
| ReportCleaning.CleanFences | components/recommendation-display.tsx:66-73 | The cleaned text is trimmed and no longer than the input. |
| ReportCleaning.CleanUnfenced | components/recommendation-display.tsx:67-73 | Text that neither starts nor ends with a fence is only trimmed. |
| ReportCleaning.CleanJsonFenced | components/recommendation-display.tsx:67-73 | An object wrapped in a whitespace-padded "```json" fence of any letter case comes back exactly. |
| ReportCleaning.CleanPlainFenced | components/parameterized-display.tsx:54-58 | An object wrapped in a padded bare "```" fence comes back exactly. |
| ReportCleaning.CleanObjectText | components/parameterized-display.tsx:54-58 | An object text is already clean. |
| ReportCleaning.CleanTypicalReply | components/recommendation-display.tsx:70-72 | "```json\n{…}\n```" cleans to the object. |
| ReportCleaning.ProgressIndex | components/recommendation-display.tsx:111-114 | The loading index is below 6. It is 5 exactly from 5 steps' worth of characters on, and otherwise it is the number of whole steps. |
| ReportCleaning.ProgressIndexMonotone | components/parameterized-display.tsx:114-117 | The loading index never moves back as the text grows. |
| ReportCleaning.LoadingEntries | components/recommendation-display.tsx:130-141 | Six entries with exactly one spinner, at the index, after exactly that many completed steps. An entry is emphasised exactly when it is not pending. |
| ReportCleaning.MessageOr | components/recommendation-display.tsx:90 | A sentinel card's text is its truthy `message`, otherwise the fixed fallback. It is never empty. |
| RecommendationDisplay.ViewOfParsed | components/recommendation-display.tsx:78-98 | The invalid-document card is chosen exactly for the sentinel, with a truthy message. Destructuring the payload throws, before any card is chosen, exactly for `null`. Otherwise the report face is chosen. |
| RecommendationDisplay.RecommendationView | components/recommendation-display.tsx:75-114 | The panel shows the loading list exactly while the cleaned text does not parse, with the step `min(len / 100, 5)` of the cleaned length highlighted. Once the text parses, the panel shows the face chosen for the parsed value. |
| RecommendationDisplay.FencedPayloadSameView | components/recommendation-display.tsx:66-76 | A fenced object shows the same as the bare object. |
| RecommendationDisplay.InvalidDocumentShown | components/recommendation-display.tsx:79-90 | The sentinel's own message is shown, or the fixed text when that message is empty. |
| RecommendationDisplay.LoadingAdvancesWithText | components/recommendation-display.tsx:99-114 | While the text does not parse, the highlighted step only moves forward. |
| ParameterizedDisplay.ViewOfParsed | components/parameterized-display.tsx:63-192 | Precedence: the invalid document, then the non-ICSID warning, then a truthy `raw_response`, then the audit. Reading `raw_response` throws, before any card is chosen, exactly for `null`. |
| ParameterizedDisplay.ParameterizedView | components/parameterized-display.tsx:60-117 | The panel shows the loading list exactly while the cleaned text does not parse, with the step `min(len / 150, 5)` of the cleaned length highlighted. Once the text parses, the panel shows the face chosen for the parsed value. |
| ParameterizedDisplay.SentinelPrecedence | components/parameterized-display.tsx:63-102 | An object carrying every sentinel is an invalid document. Without that sentinel it is non-ICSID. Without either, the raw response is shown. |
| ParameterizedDisplay.FencedPayloadSameView | components/parameterized-display.tsx:54-61 | A fenced object shows the same as the bare object. |
| ParameterizedDisplay.LoadingAdvancesWithText | components/parameterized-display.tsx:103-117 | While the text does not parse, the highlighted step only moves forward. |
| ParameterizedDisplay.ComplianceColorOf | components/parameterized-display.tsx:155-162 | Each of the three levels has its own colour, and every other string is muted. `LevelOfColor` inverts it. |
| ParameterizedDisplay.StatusIconOf | components/parameterized-display.tsx:164-170 | Check exactly for "compliant", cross exactly for "non_compliant". |
| ParameterizedDisplay.ActionRequiredOnlyWithCross | components/parameterized-display.tsx:281-290 | A remedy line always sits beside the red cross. Given a non-empty remedy, it is shown exactly when the cross is. |
| CaseAnalyzer.SelectFile | components/case-analyzer.tsx:45-64 | No file changes nothing. A file over 10 MiB only sets the error. An accepted file clears the error, job ids and statuses and shows the upload success. |
| CaseAnalyzer.AcceptedFileStopsProcessing | components/case-analyzer.tsx:53-58 | After an accepted file, nothing is processing. |
| CaseAnalyzer.ProcessingIffSomePoller | components/case-analyzer.tsx:76-110 | The spinner shows exactly while some poller is active (lines 185-190). |
| CaseAnalyzer.StripErrorPrefix | components/case-analyzer.tsx:174-177 | One leading "Error: " is removed, and nothing else changes. |
| CaseAnalyzer.ShownErrorOfNewError | components/case-analyzer.tsx:145-178 | A thrown `new Error(m)` is shown as `m`. |
| CaseAnalyzer.Optimistic | components/case-analyzer.tsx:154-171 | The optimistic status is processing at 10% with both slots falsy. |
| CaseAnalyzer.AnalyzeBoth | components/case-analyzer.tsx:112-183 | Without a file or organisation nothing happens. Otherwise starting and uploading end cleared and the file is kept. Statuses are set exactly when the route answered 2xx with a non-nullish body. On a started submission the error is cleared and the body's `caseId` becomes both job ids, `undefined` when the body is not an object. A thrown or rejected submission shows the thrown value's text without its "Error: " prefix. |
| CaseAnalyzer.StartedSubmissionPollsBoth | components/case-analyzer.tsx:148-171 | A truthy case id puts both modes into polling. |
| CaseAnalyzer.RejectionError | components/case-analyzer.tsx:143-146 | A rejected response throws `new Error` of the route's truthy `error` text, or of "Analysis failed". A `null` body makes the field read throw a `TypeError`. |
| CaseAnalyzer.RejectionShowsServerError | components/case-analyzer.tsx:143-146 | A rejected request shows the route's `error` text, or "Analysis failed" without one. |
| CaseAnalyzer.FailedResubmissionResumesEarlierJob | components/case-analyzer.tsx:115-119 | A failed resubmission keeps the old job ids, so an unfinished earlier job is polled again. |
| CaseAnalyzer.PollTick | components/case-analyzer.tsx:81-89 | A failed poll changes nothing and keeps polling. A successful one stores the status for its own mode only, and keeps polling exactly when the effect's condition still holds. |
| CaseAnalyzer.TerminalStatusStopsPolling | components/case-analyzer.tsx:77-89 | Once a slot is filled or the status is "error", polling for that mode stops, and no tick of the other mode's poller restarts it. |

## Left out

- I/O is not modelled. The database, the model calls, PDF extraction, the blob upload, authentication, `after` scheduling, timers and `fetch` appear only as their outcomes, given as parameters.
- The streamed model call at the end of `generateRecommendations` is not modelled. The model ends at the request that would be streamed. A stored analysis result is an opaque `Payload`, because nothing in the pipeline inspects it.
- The prompts' system text, and the parameter catalogue `procedo-parameters.json` embedded in the audit prompt, are prose and are not modelled. Only the jurisdiction flavour, the rule excerpt and the user message are.
- Numbers are integers. The JSON values the client reads never need fractions.
- String lengths count characters, where JavaScript counts UTF-16 code units.
- The order among rules of equal hierarchy level is whatever SQL returns. It is modelled as one stable order.
- The rules table has no `category` column, so every embedded rule's category is "General".
- SeedRules.Seed: the lookup for an existing ICSID rule runs before the `try`, so a failing lookup makes `seedRules` reject rather than return `{status: "error"}`. Only a fault of the insert is modelled.
- SeedRules.DeriveFlags: JavaScript yields `""` or `undefined` for `nonDerogable` when the tag is falsy. The model records `false`, the value's truthiness. How the driver stores those values is not modelled.
- AnalyzeRoute.ChainWrites: the write in a chain's `catch` is assumed to succeed. If it rejected, the chain would reject, and `allSettled` ignores that.
- AnalyzeRoute.PipelineWrites: the 10%, 25% and 100% progress writes are assumed to succeed. A rejection would reach the outer catch.
- AnalyzeRoute.PipelineWrites: the extraction-error write (lines 135-140 of app/api/analyze-case/route.ts) and the outer catch's write (lines 167-172) are also assumed to succeed. If the extraction-error write rejected, the outer catch would record "Unexpected error during analysis." instead. If the outer catch's write rejected, the record would keep the earlier writes.
- AnalyzeRoute.ExtractionFailureIsFatal: holds under the assumption that the extraction-error write succeeds.
- AnalyzeRoute.ClassificationFailureIsUnexpected: holds under the assumption that the outer catch's write succeeds.
- AnalyzeRoute.Post: a failing insert and the 500 response's message text are not modelled. `ServerError` covers an unreadable body and a title that throws.
- RecommendationDisplay.ViewOfParsed: the report's markup is not modelled, so a malformed report that throws while rendering is still shown as the `Report` face. An example is `{"recommendations": {"evidence_management": {}}}`, whose missing `recommendations` array is mapped over.
- ParameterizedDisplay.ViewOfParsed: the audit's markup is not modelled, so a malformed audit that throws while rendering is still shown as the `Audit` face. An example is `{"compliance_score": {}}`, whose missing `overall` is read with `replace`.
- CaseAnalyzer.SelectFile: the two-second timer that clears `uploadSuccess` is not modelled.
- CaseAnalyzer.RejectionError: an `errorData` of `null` throws a `TypeError`. Its message text follows V8's wording, which other engines may not share.
- `fileSize || 0` is stored as the JavaScript value. Column coercion is not modelled.
- The status route that the pollers call is not part of this model. A polled status is taken as given.
- db/schema/cases.ts lags behind the columns the route writes. The case record follows the route and the client.
