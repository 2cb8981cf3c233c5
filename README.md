# Tiny Greenhouse core in Dafny

This project models the logic at the heart of Tiny Greenhouse, a small
greenhouse-monitoring application with a retrieval-augmented assistant, and
proves properties of that model. The model covers:

- **The assistant backend.** The YAML seed chunker and the per-seed seeding
  run (`RagSeed`, `RagSeedMain`); the pgvector chunk table, held as an
  in-memory table (`VectorStore`); retrieval (`Rag`); and answer assembly
  (`Assist`).
- **The other backend services.** The fixed-window rate limiter
  (`RateLimit`); the per-user alert state machine (`Alerts`); the projection
  of crop-default YAML and its TTL cache (`Crops`); and the telemetry list
  endpoint (`TelemetryRoute`).
- **The frontend helpers.** The chart transforms (`Transforms`); the two
  setup-wizard step machines (`WizardState`, `SetupState`); the number
  formatters (`Formatters`); the `alpha` colour helper (`Palette`); the
  assistant's storage key and transcript parsing (`Storage`); its request
  body and response envelope (`AssistantApi`); and the API client's query
  string and URL (`UseApi`).

The model has one module per source file, plus two shared modules:

- `Common` holds Option and Result, the JavaScript string operations the code
  uses (trim, split, join, case mapping, number rendering, `Number()` on
  text), the untyped values a JSON or YAML parser yields, and JavaScript
  numbers with NaN and the infinities.
- `Sorting` is an insertion sort by a real key. It stands for
  `Array.prototype.sort` with a numeric comparator and, for the vector
  search, for one of the orders SQL's `ORDER BY` may give (see "## Left out").

How the source's forms carry over:

- **State the source mutates becomes a class.** These are:
  - `VectorStore.RagTable`, the rows of `rag_chunks`;
  - `RateLimit.RateLimiter`, the `windowStore` map;
  - `Alerts.AlertCenter`, the per-user stores;
  - `Crops.CropDefaultsCache`, the defaults cache.
- **Loops in the source become methods with loop invariants.** Each method is
  proved against a function that specifies it. Examples are
  `RagSeed.ChunkText`, `RagSeed.FormatDefaults`,
  `RagSeedMain.EmbedChunks`, `Transforms.GroupByMinute`,
  `AssistantApi.BuildBody` and `UseApi.BuildQueryString`.
- **Pure code becomes functions and lemmas.**
- **Things outside the model are parameters.** Time is integer milliseconds.
  The following are all function parameters:
  - the embedding and chat providers, and the cosine distance;
  - the YAML and JSON parsers;
  - `Date.parse` and `toISOString`;
  - the rendering of numbers as text.

## Model

| member | source | states |
|---|---|---|
| RagSeed.NormalizeNewlines | backend/src/scripts/rag-seed.ts:62 | the normalised text is blank exactly when the input is |
| RagSeed.SplitBlankLines | backend/src/scripts/rag-seed.ts:66 | splitting at runs of blank lines always gives at least one part |
| RagSeed.SplitBlankLinesKeepsText | backend/src/scripts/rag-seed.ts:66 | every non-space character of the text lands at a known position of one of the parts |
| RagSeed.TrimmedParagraphs | backend/src/scripts/rag-seed.ts:66 | every paragraph kept from the trimmed parts is non-empty |
| RagSeed.TrimmedParagraphsKeep | backend/src/scripts/rag-seed.ts:66 | when some part is not blank, at least one paragraph survives |
| RagSeed.Paragraphs | backend/src/scripts/rag-seed.ts:62-66 | every paragraph of the CRLF-normalised, trimmed text is non-empty |
| RagSeed.PackBound | backend/src/scripts/rag-seed.ts:75-77 | a group of two or more paragraphs joined by a blank line fits in MAX_CHARS (900) |
| RagSeed.PackGreedy | backend/src/scripts/rag-seed.ts:75-80 | the first paragraph of each group would not have fitted after the group before it |
| RagSeed.ChunkGroupsPartition | backend/src/scripts/rag-seed.ts:66-87 | the chunks partition the paragraphs into non-empty groups, in order, each chunk being its group joined with a blank line |
| RagSeed.ChunksEmptyIffBlank | backend/src/scripts/rag-seed.ts:61-65 | empty or whitespace-only text gives no chunks, and only such text does |
| RagSeed.ChunksNonEmpty | backend/src/scripts/rag-seed.ts:70-85 | every chunk is non-empty |
| RagSeed.ChunksBounded | backend/src/scripts/rag-seed.ts:75-80 | a chunk longer than 900 characters is a single paragraph; a multi-paragraph chunk fits in 900 |
| RagSeed.ChunksRoundTrip | backend/src/scripts/rag-seed.ts:66-87 | the chunks joined with a blank line equal the paragraphs joined with a blank line: nothing dropped, duplicated or reordered |
| RagSeed.ChunksGreedy | backend/src/scripts/rag-seed.ts:75-80 | for consecutive chunks, the first plus a blank line plus the next chunk's first paragraph exceeds 900 characters |
| RagSeed.ChunkText | backend/src/scripts/rag-seed.ts:61-88 | the buffer-and-flush loop returns exactly the chunks of the text, so the chunk lemmas apply to it |
| RagSeed.GroupLines | backend/src/scripts/rag-seed.ts:93-101 | a group gives at least two lines: its upper-cased "GROUP:" header first and a blank line last |
| RagSeed.EntryLinesAt | backend/src/scripts/rag-seed.ts:95-97 | an object value gives one line per entry, the j-th being that entry's "- key: value" line |
| RagSeed.DefaultsLinesHead | backend/src/scripts/rag-seed.ts:92-93 | the first line is the first group's upper-cased header |
| RagSeed.DefaultsLinesNotBlank | backend/src/scripts/rag-seed.ts:92-103 | with at least one group the joined lines are not blank, since each header ends in ':' |
| RagSeed.DefaultsTextEmptyIff | backend/src/scripts/rag-seed.ts:90-104 | the defaults text is empty exactly when there are no groups |
| RagSeed.DefaultsTextTrimmed | backend/src/scripts/rag-seed.ts:103 | the defaults text is its own trim |
| RagSeed.FormatDefaults | backend/src/scripts/rag-seed.ts:90-104 | the push loops return exactly the defaults text, the trimmed newline join of every group's lines |
| RagSeed.PushGroup | backend/src/scripts/rag-seed.ts:93-101 | one turn of the outer loop appends exactly the group's lines: the upper-cased header, one `- key: entry` line per entry of an object value or the value's own text, then a blank line |
| RagSeed.SectionChunkOrigin | backend/src/scripts/rag-seed.ts:113-165 | every emitted chunk carries the crop id, language and source path and is a chunk of one section's text, with that section's stage |
| RagSeed.SectionChunkEmitted | backend/src/scripts/rag-seed.ts:113-165 | conversely, every chunk of every section is emitted |
| RagSeed.NonEmptyParts | backend/src/scripts/rag-seed.ts:129-131 | `[header, cues, body].filter(Boolean)` keeps only non-empty parts |
| RagSeed.OverviewSections | backend/src/scripts/rag-seed.ts:119-124 | at most one overview section, present exactly when the overview is a non-empty string, with the default stage |
| RagSeed.DefaultsSections | backend/src/scripts/rag-seed.ts:138-145 | at most one defaults section, with the default stage |
| RagSeed.SeedChunkTags | backend/src/scripts/rag-seed.ts:113-163 | every chunk of a seed has its crop id, its language (default "en"), its source path, and the stage of its section |
| RagSeed.PushOverviewChunks | backend/src/scripts/rag-seed.ts:119-124 | a truthy overview appends exactly the chunks of "Overview for <name>" and the overview text, tagged with the crop's default stage; no overview appends nothing |
| RagSeed.PushStageChunks | backend/src/scripts/rag-seed.ts:126-136 | the stages loop appends the chunks of each stage's payload, tagged with the stage id |
| RagSeed.StageSectionsAt | backend/src/scripts/rag-seed.ts:126-136 | one section per stage, in order, tagged with the stage id and holding that stage's payload |
| RagSeed.PushDefaultsChunks | backend/src/scripts/rag-seed.ts:138-145 | defaults that format to some text append exactly the chunks of "Defaults" and that text, tagged with the default stage; missing defaults or an empty text append nothing |
| RagSeed.PushWarningChunks | backend/src/scripts/rag-seed.ts:147-154 | the warnings loop appends each warning's chunks, tagged with `warning.stage ?? null` |
| RagSeed.WarningSectionsAt | backend/src/scripts/rag-seed.ts:147-154 | one section per warning, in order, tagged with `warning.stage` |
| RagSeed.PushFaqChunks | backend/src/scripts/rag-seed.ts:156-163 | the FAQ loop appends each "Q: …\nA: …" text's chunks, tagged with the default stage |
| RagSeed.FaqSectionsAt | backend/src/scripts/rag-seed.ts:156-163 | one "Q: …\nA: …" section per FAQ entry, in order, all with the given stage |
| RagSeed.BuildChunksFromSeed | backend/src/scripts/rag-seed.ts:106-166 | for a seed with a crop id, the loops return exactly the chunks of the overview, stages, defaults, warnings and FAQ, in that order |
| RagSeed.BuildMarkdownChunks | backend/src/scripts/rag-seed.ts:168-172 | one chunk record per chunk of the file's content, with a null stage |
| RagSeedMain.MarkdownChunksTags | backend/src/scripts/rag-seed.ts:231-234 | every companion chunk has the seed's crop id and language, a null stage and one companion file's path |
| RagSeedMain.SourcePaths | backend/src/scripts/rag-seed.ts:242 | the distinct source paths of the chunks, in order of first occurrence |
| RagSeedMain.EmbedAllAt | backend/src/scripts/rag-seed.ts:245-256 | embedding succeeds exactly when each chunk's embedding does, giving one record per chunk in order with the chunk's tags and text |
| RagSeedMain.EmbedAllPrefixFailure | backend/src/scripts/rag-seed.ts:246-247 | once a prefix fails, the whole loop fails with the same error |
| RagSeedMain.ReseedResetsSources | backend/src/scripts/rag-seed.ts:237-243 | unless the seed has no chunk, every source path of its chunks is reset before any insert; exactly the rows of the other sources survive, in order |
| RagSeedMain.ReseedEmbedFailure | backend/src/scripts/rag-seed.ts:243-258 | an embedding error leaves the table reset and inserts nothing |
| RagSeedMain.ReseedInsertsEveryChunk | backend/src/scripts/rag-seed.ts:245-258 | a successful seed inserts exactly one row per raw chunk, in order, carrying the chunk's fields and its embedding |
| RagSeedMain.ReseedIdempotent | backend/src/scripts/rag-seed.ts:236-258 | running a seed again with the same provider gives the same outcome and table content |
| RagSeedMain.CollectMarkdownChunks | backend/src/scripts/rag-seed.ts:231-234 | the companion-file loop returns the chunks of every companion file, in order |
| RagSeedMain.EmbedChunks | backend/src/scripts/rag-seed.ts:245-256 | the embedding loop returns what the embedding function specifies, stopping at the first error |
| RagSeedMain.CollectRawChunks | backend/src/scripts/rag-seed.ts:228-236 | the YAML chunks followed by the companion chunks |
| RagSeedMain.ReseedChunks | backend/src/scripts/rag-seed.ts:236-258 | skip when there is no chunk, else reset the sources, embed, insert, as specified |
| RagSeedMain.SeedOne | backend/src/scripts/rag-seed.ts:218-259 | a seed without crop id or variety, or without chunks, is skipped and leaves the table unchanged; otherwise it is reseeded |
| RagSeedMain.SeedAll | backend/src/scripts/rag-seed.ts:218-260 | the seeds are processed in order, and a failure aborts the run |
| RagSeedMain.SeedAllStopsAtFailure | backend/src/scripts/rag-seed.ts:218-260 | after an abort, further seeds change nothing |
| RagSeedMain.SeedAllAbortedPrefix | backend/src/scripts/rag-seed.ts:218-260 | a run that aborted within its first n seeds ends the same way whatever follows |
| RagSeedMain.SeedAllSkipped | backend/src/scripts/rag-seed.ts:223-226 | seeds that are all skipped leave the table unchanged |
| RagSeedMain.SeedNext | backend/src/scripts/rag-seed.ts:218-260 | one turn of the loop, stated against the run so far |
| RagSeedMain.Seed | backend/src/scripts/rag-seed.ts:207-263 | with no seed file nothing happens; otherwise the table ends as the run over every seed specifies |
| VectorStore.LimitParameter | backend/src/ai/vector-store.ts:165 | LIMIT accepts a non-negative whole number and refuses a negative or fractional one |
| VectorStore.FormatVectorLiteral | backend/src/ai/vector-store.ts:51-56 | an empty vector is refused with "Cannot store empty vector"; a non-empty one is accepted |
| VectorStore.NewRows | backend/src/ai/vector-store.ts:110-120 | one row per chunk, in order, numbered from the first free id, with each chunk's fields and an absent stage as null |
| VectorStore.WithoutSources | backend/src/ai/vector-store.ts:95 | a row survives the delete exactly when its source path is not listed, and no row is added |
| VectorStore.WithoutNoSources | backend/src/ai/vector-store.ts:89-92 | deleting by an empty list changes nothing |
| VectorStore.WithoutSourcesTwice | backend/src/ai/vector-store.ts:95 | deleting the same sources twice is deleting them once |
| VectorStore.Nearest | backend/src/ai/vector-store.ts:157-165 | at most `limit` rows, no row more often than the table holds it, each matching crop, language and stage (stage unrequested, equal or null), ascending by distance, none left out nearer than one kept |
| VectorStore.RagTable.ResetChunksForSources | backend/src/ai/vector-store.ts:89-99 | the table loses exactly the rows of the listed sources |
| VectorStore.RagTable.InsertChunks | backend/src/ai/vector-store.ts:101-124 | the rows of the chunks are appended in order; at the first empty embedding it fails after the rows before it are in (no transaction) |
| VectorStore.RagTable.SearchChunks | backend/src/ai/vector-store.ts:126-182 | an empty query vector or a negative limit is an error; otherwise the nearest matching rows with their scores, table unchanged |
| VectorStore.ReplaceIdempotent | backend/src/ai/vector-store.ts:89-124 | when every new chunk belongs to a replaced source, replacing twice gives the same row contents as replacing once |
| Rag.DefaultTopKUnset | backend/src/services/rag.ts:5 | without RAG_TOP_K the default limit is 8 |
| Rag.DefaultTopKOfNat | backend/src/services/rag.ts:5 | a decimal RAG_TOP_K is the default limit |
| Rag.DefaultTopKBlank | backend/src/services/rag.ts:5 | a blank RAG_TOP_K is the number 0 |
| Rag.VectorStoreEnabledIff | backend/src/services/rag.ts:7-10 | enabled exactly when VECTOR_STORE is unset or spells "pgvector" in any case |
| Rag.MapRow | backend/src/services/rag.ts:12-20 | every field of the row, the score included, is copied to the chunk |
| Rag.MapRows | backend/src/services/rag.ts:39 | one chunk per row, in the same order |
| Rag.RetrieveChunks | backend/src/services/rag.ts:22-40 | one embedding of the query, then the search with `topK ?? defaultTopK` and `stage ?? null`; either step's error is the call's |
| Rag.RetrieveUsesQueryEmbedding | backend/src/services/rag.ts:29-30 | only the query's embedding is used: embedders that agree on it give the same retrieval |
| Rag.RetrieveDefaultAtMostEight | backend/src/services/rag.ts:36 | with neither topK nor RAG_TOP_K at most 8 chunks come back and the limit is never refused |
| Rag.RetrieveOrderedByScore | backend/src/services/rag.ts:31-39 | the chunks keep the search order, so scores do not increase |
| Assist.SanitizeCropId | backend/src/services/assist.ts:7 | the trimmed value when it is not blank, else "unknown" |
| Assist.SanitizeCropIdIdempotent | backend/src/services/assist.ts:7 | sanitising twice is sanitising once |
| Assist.ResolveAssistContext | backend/src/services/assist.ts:16-22 | the crop id is non-empty and trimmed, the language defaults to "en", and the stage is the greenhouse's growth stage |
| Assist.ResolveBlankCropIdIsUnknown | backend/src/services/assist.ts:18 | a blank crop id is not replaced by the plant type and becomes "unknown" |
| Assist.ResolvePlantTypeFallback | backend/src/services/assist.ts:18 | without a crop id the trimmed plant type is the crop unless it is blank |
| Assist.Snapshot | backend/src/services/assist.ts:44-60 | the four head lines, then the four telemetry lines of the latest sample or the single "No telemetry samples recorded yet." |
| Assist.BuildSnapshot | backend/src/services/assist.ts:44-60 | the push sequence builds exactly that snapshot |
| Assist.SourceEntries | backend/src/services/assist.ts:62-66 | one entry per chunk, in order |
| Assist.SourceNumberOf | backend/src/services/assist.ts:64 | the number is read back from an entry's "Source <n> " head |
| Assist.SourceEntryNumbered | backend/src/services/assist.ts:62-66 | the i-th entry is numbered i + 1 and starts "Source <i + 1> — <path>" |
| Assist.SystemPrompt | backend/src/services/assist.ts:71-78 | the guardrail lines, then "Respond in <LANG>." |
| Assist.LanguageLine | backend/src/services/assist.ts:77 | the prompt ends with the upper-cased language line |
| Assist.SystemPromptDeterminesLanguage | backend/src/services/assist.ts:71-78 | two system prompts are equal exactly when the upper-cased languages are |
| Assist.UserPrompt | backend/src/services/assist.ts:80-87 | the trimmed question, the sources, the snapshot and the closing line, separated by blank lines |
| Assist.AnswerWithSources | backend/src/services/assist.ts:43-96 | the non-empty path: one chat call with the two prompts; its completion is the message and the chunks are the sources |
| Assist.BuildAssistantAnswer | backend/src/services/assist.ts:24-97 | no chunks give the fixed fallback with empty sources and the context's meta, without a chat call; otherwise the answer from the sources |
| RateLimit.CeilDiv | backend/src/services/rate-limit.ts:27 | the least whole number at least a / b |
| RateLimit.RetryAfter | backend/src/services/rate-limit.ts:26-27 | `max(1, ceil(ms / 1000))`: at least 1, and enough whole seconds to cover the wait |
| RateLimit.RateLimiter.AssertRateLimit | backend/src/services/rate-limit.ts:17-32 | a full window throws with the retry seconds and keeps the map; otherwise the key's count goes up by one in a current window |
| RateLimit.StepOutcome | backend/src/services/rate-limit.ts:19-31 | rejected exactly when the window is full; a rejection keeps the map; an accepted call adds exactly one |
| RateLimit.WindowRestarts | backend/src/services/rate-limit.ts:19-23 | a missing or ended window restarts at count 0, ending windowMs from now |
| RateLimit.StepOtherKeys | backend/src/services/rate-limit.ts:19-31 | the counters of other keys are never touched |
| RateLimit.FreshKeyPrefix | backend/src/services/rate-limit.ts:17-32 | for a fresh key, the first k ≤ limit calls in one window succeed and leave k counted |
| RateLimit.FreshKeyWindow | backend/src/services/rate-limit.ts:17-32 | for a fresh key, `limit` calls in one window succeed and the next is rejected |
| Alerts.NextIdFresh | backend/src/services/alerts.ts:33 | an id made for one type never carries another type's prefix |
| Alerts.FindActiveByType | backend/src/services/alerts.ts:30-31 | the index of the first active alert of the type, or the length when no alert has it |
| Alerts.FirstOfType | backend/src/services/alerts.ts:30-31 | the found index has the type and no earlier alert does |
| Alerts.ActiveOfAt | backend/src/services/alerts.ts:30-31 | in a valid store the active alert of a type is the one carrying it |
| Alerts.ActiveIdsDistinct | backend/src/services/alerts.ts:54 | active ids are distinct, so `active.set` of a new id appends |
| Alerts.CapHistory | backend/src/services/alerts.ts:66-69 | at most 500 entries: the history itself when it fits, otherwise its first 500 |
| Alerts.UpsertKeepsValid | backend/src/services/alerts.ts:35-56 | an upsert keeps at most one active alert per type, ids made for their type, and the history within the cap |
| Alerts.ResolveKeepsValid | backend/src/services/alerts.ts:58-70 | a resolve keeps the same invariant |
| Alerts.UpsertExisting | backend/src/services/alerts.ts:39-46 | an existing alert is updated in place: severity, message, value, threshold and sensor change; id, startedAt, acknowledged stay |
| Alerts.UpsertNew | backend/src/services/alerts.ts:48-55 | otherwise a new alert is appended with a fresh id, not acknowledged, not resolved |
| Alerts.UpsertMakesActive | backend/src/services/alerts.ts:35-56 | afterwards the type is active with the given severity and message |
| Alerts.ResolveOutcome | backend/src/services/alerts.ts:58-70 | no-op when the type is not active; else it is no longer active and the history starts with it, resolvedAt set, then at most 499 older |
| Alerts.UpsertOtherType | backend/src/services/alerts.ts:35-56 | the active alert of every other type is unchanged |
| Alerts.ResolveOtherType | backend/src/services/alerts.ts:58-70 | likewise for resolving |
| Alerts.RecomputeKeepsValid | backend/src/services/alerts.ts:72-136 | recomputation keeps every store valid |
| Alerts.RecomputeWithoutSample | backend/src/services/alerts.ts:77-90 | no sample: SENSOR_STALE active and critical, soil and temperature untouched; an unparseable timestamp changes nothing |
| Alerts.RecomputeStaleness | backend/src/services/alerts.ts:92-107 | age of at least 60 minutes is critical, at least 10 is warn, otherwise SENSOR_STALE is not active |
| Alerts.RecomputeSoil | backend/src/services/alerts.ts:109-121 | below the threshold active with the reading; from threshold + 2 not active; in between as before |
| Alerts.RecomputeTemp | backend/src/services/alerts.ts:123-135 | above the threshold active with the reading; at or below threshold − 1 not active; in between as before |
| Alerts.FindById | backend/src/services/alerts.ts:148 | the index of the first active alert with the id, or the length when none has it |
| Alerts.AcknowledgeOutcome | backend/src/services/alerts.ts:146-152 | only the alert with the id gets acknowledged; an unknown id changes nothing |
| Alerts.HistoryPrefix | backend/src/services/alerts.ts:142-144 | `slice(0, limit)`: for limit ≥ 0 the newest `limit` entries |
| Alerts.AlertCenter.GetStore | backend/src/services/alerts.ts:21-28 | the user's store, created empty on first use |
| Alerts.AlertCenter.UpsertAlert | backend/src/services/alerts.ts:35-56 | the user's store becomes its upsert, every other store unchanged |
| Alerts.AlertCenter.ResolveAlert | backend/src/services/alerts.ts:58-70 | the user's store becomes its resolve |
| Alerts.AlertCenter.RecomputeAlerts | backend/src/services/alerts.ts:72-136 | the user's store becomes its recomputation from the latest sample |
| Alerts.AlertCenter.RecomputeSample | backend/src/services/alerts.ts:92-135 | the staleness, soil and temperature rules in order |
| Alerts.AlertCenter.GetActiveAlerts | backend/src/services/alerts.ts:138-140 | the active alerts in insertion order |
| Alerts.AlertCenter.GetAlertHistory | backend/src/services/alerts.ts:142-144 | the history sliced to the limit |
| Alerts.AlertCenter.AcknowledgeAlert | backend/src/services/alerts.ts:146-152 | sets the flag on the active alert with the id |
| Crops.BuildPathInsideRoot | backend/src/services/crops.ts:26-33 | a path buildPath accepts lies inside the RAG root |
| Crops.BuildPathPlainNames | backend/src/services/crops.ts:26-33 | plain names below a normalised root are always accepted and name the path they spell |
| Crops.PlainJoinAccepted | backend/src/services/crops.ts:29 | joined plain names neither start with ".." nor contain "../" |
| Crops.ReadYamlFileOrder | backend/src/services/crops.ts:35-54 | the nested file is tried first, then the flat one; null when both are missing |
| Crops.ToRange | backend/src/services/crops.ts:59-76 | a range comes only from an array or an object |
| Crops.ToRangeOfArray | backend/src/services/crops.ts:60-65 | two numbers at the head of an array are the range |
| Crops.ToRangeOfObject | backend/src/services/crops.ts:67-73 | an object with numeric min and max is the range |
| Crops.ToRangeOfOtherArray | backend/src/services/crops.ts:60-76 | an array whose head is not two numbers has no range, however long |
| Crops.UnitSuffix | backend/src/services/crops.ts:83 | " unit" for a non-empty unit, nothing otherwise |
| Crops.ToRangeString | backend/src/services/crops.ts:78-85 | present exactly when there is a range; the text starts "min-max", ends with the unit suffix and has exactly their length |
| Crops.ItemTexts | backend/src/services/crops.ts:101 | no more texts than items, none of them empty |
| Crops.ToStringValue | backend/src/services/crops.ts:87-109 | no text exactly for null and undefined; a string gives its trimmed text; a number gets the unit suffix |
| Crops.ToStringValueIdempotent | backend/src/services/crops.ts:92-94 | a string's text converts to itself |
| Crops.ItemTextsOfStrings | backend/src/services/crops.ts:100-102 | an array of strings keeps its trimmed non-blank ones, in order |
| Crops.NoteParts | backend/src/services/crops.ts:112-114 | no more parts than values, none of them empty |
| Crops.CollectNotes | backend/src/services/crops.ts:111-119 | none when there is no part; otherwise a non-empty note starting with the first part |
| Crops.NotePartsEmpty | backend/src/services/crops.ts:115-117 | values that are all missing or blank give no note |
| Crops.MapEnvironmentDefaults | backend/src/services/crops.ts:121-139 | the step-by-step assignments give exactly the environment group the projection specifies |
| Crops.EnvironmentShape | backend/src/services/crops.ts:121-139 | none for a non-object; a present group has a field set, every set field non-empty text; a day-temperature range gives its range text |
| Crops.IrrigationNoteValues | backend/src/services/crops.ts:150-157 | the six values given to collectNotes |
| Crops.MapIrrigationDefaults | backend/src/services/crops.ts:141-165 | the step-by-step assignments give exactly the irrigation group the projection specifies |
| Crops.IrrigationShape | backend/src/services/crops.ts:141-165 | none for a non-object; a present group has a field set, and every set field is non-empty text |
| Crops.IrrigationFrequencyFallback | backend/src/services/crops.ts:148-157 | without frequency and cadence the watering rule is the frequency and stays out of the notes |
| Crops.IrrigationRuleInNotes | backend/src/services/crops.ts:148-157 | a frequency different from the watering rule leaves the rule in the notes |
| Crops.MapContainerDefaults | backend/src/services/crops.ts:167-187 | the step-by-step assignments give exactly the container group the projection specifies |
| Crops.ContainerShape | backend/src/services/crops.ts:167-187 | none for a non-object; a present group has a field set, and every set field is non-empty text |
| Crops.ContainerNumericVolume | backend/src/services/crops.ts:172-176 | a numeric pot volume is the volume in litres when no field is a range |
| Crops.OperationsOf | backend/src/services/crops.ts:189-194 | an object is kept as it is, anything else is none |
| Crops.MapSafetyBounds | backend/src/services/crops.ts:196-211 | the step-by-step assignments give exactly the safety bounds the projection specifies |
| Crops.SafetyBoundsPresent | backend/src/services/crops.ts:196-211 | bounds exist exactly when the input is an object with at least one range |
| Crops.CueStrings | backend/src/services/crops.ts:227-229 | no more cues than items, each one of the items' strings |
| Crops.StageOf | backend/src/services/crops.ts:219-235 | a kept entry is an object with a non-empty string id, and its cues, when kept, are non-empty |
| Crops.StagesFrom | backend/src/services/crops.ts:218-236 | no more stages than entries, every id non-empty, no empty cue list |
| Crops.MapStages | backend/src/services/crops.ts:213-239 | the push loop gives exactly the stages the projection specifies |
| Crops.StagesFromAppend | backend/src/services/crops.ts:218-236 | the stages of a concatenation are those of its parts, in order |
| Crops.StagesSkip | backend/src/services/crops.ts:220-226 | an entry that is not an object with a string id adds nothing |
| Crops.MapDefaults | backend/src/services/crops.ts:250-263 | the assignments give exactly the defaults part the projection specifies |
| Crops.ProjectPayload | backend/src/services/crops.ts:241-278 | the method returns exactly the projected payload, refusing a non-object document |
| Crops.PayloadShape | backend/src/services/crops.ts:246-263 | the requested crop and variety are kept; no `crop` object reads as English with no display name; an empty operations object alone makes defaults present |
| Crops.CacheTtl | backend/src/services/crops.ts:10-13 | always finite and positive or +Infinity; unset is 60000 |
| Crops.CacheTtlOfNat | backend/src/services/crops.ts:11-13 | a decimal setting is the time to live |
| Crops.CacheTtlNegative | backend/src/services/crops.ts:13 | a negative setting falls back to 60000 |
| Crops.CropDefaultsCache.GetCropDefaults | backend/src/services/crops.ts:287-321 | one call is exactly one cache step: the entries and the result it specifies |
| Crops.CacheHit | backend/src/services/crops.ts:292-296 | a fresh entry is served unchanged, cache unchanged |
| Crops.CacheMiss | backend/src/services/crops.ts:297-318 | a stale or missing entry is reloaded; success stores an entry that is fresh exactly until the TTL passes; failure leaves no entry |
| Crops.CacheBypassed | backend/src/services/crops.ts:291-318 | with RAG_DEBUG "true" the cache is neither read nor written |
| Crops.LoadNotFound | backend/src/services/crops.ts:302-305 | a missing or empty file is CropDefaultsNotFoundError |
| TelemetryRoute.ParseLimit | backend/src/routes/telemetry.ts:10 | absent is 25; present text must convert to a whole number in 1..100 |
| TelemetryRoute.ParseLimitOfNat | backend/src/routes/telemetry.ts:10 | a decimal limit is accepted exactly when in 1..100, and taken as written |
| TelemetryRoute.ParseLimitBlank | backend/src/routes/telemetry.ts:10 | a blank limit is refused |
| TelemetryRoute.ParseQuery | backend/src/routes/telemetry.ts:7-12 | from and to must be ISO date-times when present, and the limit must pass |
| TelemetryRoute.HandleTelemetry | backend/src/routes/telemetry.ts:20-51 | succeeds exactly when the query passes validation |
| TelemetryRoute.MatchingMembers | backend/src/routes/telemetry.ts:26-45 | a sample counts exactly when it has the requested sensor, a parseable timestamp, and lies within both given bounds inclusively |
| TelemetryRoute.MatchingAppend | backend/src/routes/telemetry.ts:26-45 | filtering keeps stored order |
| TelemetryRoute.UnfilteredTotal | backend/src/routes/telemetry.ts:26-47 | with no filters every parseable sample counts; when all parse the total is the number stored |
| TelemetryRoute.HandleItemsAreLastMatches | backend/src/routes/telemetry.ts:47-48 | the items are the last `limit` matches in stored order, at most 100 and never more than the total |
| Transforms.WindowMs | frontend/src/features/telemetry/transforms.ts:3-7 | the window lengths in milliseconds |
| Transforms.WindowLengths | frontend/src/features/telemetry/transforms.ts:3-7 | one, six and twenty-four hours of milliseconds |
| Transforms.SortByTimestamp | frontend/src/features/telemetry/transforms.ts:15-16 | a permutation of the input, ascending by time |
| Transforms.SortByTimestampIdempotent | frontend/src/features/telemetry/transforms.ts:15-16 | a sorted list sorts to itself |
| Transforms.FilterByWindow | frontend/src/features/telemetry/transforms.ts:18-28 | the empty list gives the empty list, and no more items come out than go in |
| Transforms.FilterByWindowMembers | frontend/src/features/telemetry/transforms.ts:23-27 | an item is kept exactly when its time is at least the last time minus the window; the last item is kept when its time parses |
| Transforms.FilterByWindowOrder | frontend/src/features/telemetry/transforms.ts:27 | the kept items are an order-preserving subsequence |
| Transforms.FilterByWindowNaN | frontend/src/features/telemetry/transforms.ts:24-27 | when the last time does not parse nothing is kept |
| Transforms.MinuteOf | frontend/src/features/telemetry/transforms.ts:37-39 | the start of the minute holding the time |
| Transforms.MinuteKeys | frontend/src/features/telemetry/transforms.ts:36-47 | no minute appears twice, and there are no more keys than items |
| Transforms.MinuteKeysMembers | frontend/src/features/telemetry/transforms.ts:36-47 | every key is some item's minute and every item's minute is a key |
| Transforms.MinuteValuesOfKey | frontend/src/features/telemetry/transforms.ts:41-46 | a key's values are non-empty |
| Transforms.MinuteValuesOfNonKey | frontend/src/features/telemetry/transforms.ts:41-46 | a minute that is not a key has no values |
| Transforms.BucketOnMinute | frontend/src/features/telemetry/transforms.ts:38 | a bucket sits on a whole minute |
| Transforms.SortedEntries | frontend/src/features/telemetry/transforms.ts:49-54 | the sorted points are the entries, no two equal |
| Transforms.BucketsShape | frontend/src/features/telemetry/transforms.ts:36-54 | one point per distinct minute, strictly ascending, no more than the items, each the mean of its values |
| Transforms.BucketsCover | frontend/src/features/telemetry/transforms.ts:36-54 | every item's minute has a point |
| Transforms.MinuteStep | frontend/src/features/telemetry/transforms.ts:36-47 | one more item: its value is appended to its minute's bucket, or a new key is added at the end |
| Transforms.GroupMapContents | frontend/src/features/telemetry/transforms.ts:34-47 | the map holds exactly the minute keys, each with its values in input order |
| Transforms.GroupByMinute | frontend/src/features/telemetry/transforms.ts:34-47 | the forEach loop builds that map, with keys in insertion order |
| Transforms.EntriesSnoc | frontend/src/features/telemetry/transforms.ts:49-53 | one more key adds its averaged point at the end |
| Transforms.AveragePoints | frontend/src/features/telemetry/transforms.ts:49-53 | each key's point carries the sum of its values divided by their count |
| Transforms.BucketByMinute | frontend/src/features/telemetry/transforms.ts:30-55 | groups by minute, averages each group and sorts by minute, as specified |
| WizardState.Merge | frontend/src/features/setup/wizard/state.ts:86-98 | a stored property wins, even null; a missing one takes the default |
| WizardState.OrDefault | frontend/src/features/setup/wizard/state.ts:89 | missing and null both give the default |
| WizardState.Trunc | frontend/src/features/setup/wizard/state.ts:37 | rounds toward zero |
| WizardState.ClampStep | frontend/src/features/setup/wizard/state.ts:32-38 | always a step in 0..3 |
| WizardState.ClampStepCases | frontend/src/features/setup/wizard/state.ts:32-38 | a whole step 0..3 is kept, fractions round down, below 1 is 0 and at least 3 is 3 |
| WizardState.ClampStepOfStep | frontend/src/features/setup/wizard/state.ts:32-38 | a step already in 0..3 is kept |
| WizardState.Hydrate | frontend/src/features/setup/wizard/state.ts:84-99 | the hydrated step is always in 0..3 |
| WizardState.HydrateNothing | frontend/src/features/setup/wizard/state.ts:84-99 | nothing stored gives exactly DEFAULT_SETUP |
| WizardState.HydratePrefs | frontend/src/features/setup/wizard/state.ts:94-97 | the light hours are the stored ones when stored (null too), else 12; a missing timelapse hour is 9; the crop is the stored one or absent; a missing step is 0 |
| WizardState.HydrateStored | frontend/src/features/setup/wizard/state.ts:68-99 | save then hydrate gives the state back when its step is 0..3 and no preference is missing or non-finite |
| WizardState.HydrateStoredNaN | frontend/src/features/setup/wizard/state.ts:84-99 | a preference saved as NaN comes back as null, not as the default |
| WizardState.StepValidity | frontend/src/features/setup/wizard/state.ts:101-127 | steps 0 and 3 pass; step 1 needs kind and variety; step 2 needs light 1..24, soil 0..100, temperature 5..45, hour 0..23, inclusive |
| WizardState.DefaultSetupValidity | frontend/src/features/setup/wizard/state.ts:42-53 | the default preferences pass step 2 and, with no crop, step 1 fails |
| WizardState.StepMoves | frontend/src/features/setup/wizard/state.ts:129-133 | both moves stay in 0..3 and saturate at the ends; previous(next(s)) = s below 3 and next(previous(s)) = s above 0 |
| SetupState.HydrateState | frontend/src/features/setup/state.tsx:146-165 | the hydrated step is always in 0..3 |
| SetupState.HydrateStateNothing | frontend/src/features/setup/state.tsx:146-165 | nothing stored gives exactly DEFAULT_STATE |
| SetupState.HydrateStateNotifications | frontend/src/features/setup/state.tsx:156-162 | each switch is the stored one when stored, false otherwise, however much of the preferences was stored |
| SetupState.StepValidity | frontend/src/features/setup/state.tsx:207-229 | step 1 needs crop id, variety and defaults with a non-empty overview; step 2 needs three numbers, any range, NaN included; steps 0 and 3 pass |
| SetupState.DefaultStateValidity | frontend/src/features/setup/state.tsx:100-109 | DEFAULT_STATE passes steps 0 and 3 and fails steps 1 and 2 |
| Formatters.Normalize | frontend/src/shared/utils/formatters.ts:10 | only digits, '.' and '-' remain |
| Formatters.NormalizeAppend | frontend/src/shared/utils/formatters.ts:10 | normalising works character by character: a concatenation normalises to the concatenation of the parts |
| Formatters.NormalizeDigits | frontend/src/shared/utils/formatters.ts:10 | a digit of the normalised text is a digit of the input |
| Formatters.NormalizeDigitString | frontend/src/shared/utils/formatters.ts:10 | digits are kept unchanged |
| Formatters.FirstNumber | frontend/src/shared/utils/formatters.ts:15-16 | the number found is never NaN |
| Formatters.ParseHours | frontend/src/shared/utils/formatters.ts:1-18 | a non-NaN number is returned as it is, 0 included; missing, empty text or NaN is null; the result is never NaN |
| Formatters.PartsOfNormalized | frontend/src/shared/utils/formatters.ts:10-15 | every part holds only digits and points |
| Formatters.FirstNumberOfParts | frontend/src/shared/utils/formatters.ts:15-17 | the first number of such parts is finite and non-negative |
| Formatters.ParseHoursTextNonNegative | frontend/src/shared/utils/formatters.ts:10-17 | text never reads as a negative or infinite hour count |
| Formatters.ParseHoursRange | frontend/src/shared/utils/formatters.ts:10-17 | "n–m" followed by a unit gives n ("14–16 h" is 14) |
| Formatters.ParseHoursLoneDash | frontend/src/shared/utils/formatters.ts:10-17 | as written, "-" and "–" read as 0 hours |
| Formatters.FirstNonEmptyNumber | frontend/src/shared/utils/formatters.ts:15-16 | corrected search: a number found is never NaN and is the value of some non-empty part |
| Formatters.ParseHoursCorrected | frontend/src/shared/utils/formatters.ts:1-18 | the corrected parseHours keeps the number and missing-input cases |
| Formatters.ParseHoursCorrectedNeedsDigit | frontend/src/shared/utils/formatters.ts:10-17 | corrected, text gives a number only when it holds a digit |
| Formatters.ParseHoursCorrectedRange | frontend/src/shared/utils/formatters.ts:10-17 | the correction keeps the range reading |
| Formatters.MatchAt | frontend/src/shared/utils/formatters.ts:29 | a match starting at i ends after i and within the text |
| Formatters.FirstMatch | frontend/src/shared/utils/formatters.ts:29 | the leftmost match: no match starts earlier, none at all when None |
| Formatters.CoerceNumber | frontend/src/shared/utils/formatters.ts:20-35 | a non-NaN number is returned as it is; missing, empty text or NaN is null; never NaN |
| Formatters.CoerceNumberNoDigit | frontend/src/shared/utils/formatters.ts:29-32 | text without a digit is null |
| Formatters.CoerceNumberLeadingNat | frontend/src/shared/utils/formatters.ts:29-34 | a leading whole number is read up to what cannot continue it ("25 %" is 25) |
| Formatters.CoerceNumberLeadingNegative | frontend/src/shared/utils/formatters.ts:29-34 | a leading minus before digits belongs to the number |
| Formatters.CoerceNumberHasDigit | frontend/src/shared/utils/formatters.ts:29-34 | text holding a digit always gives a finite number, the converse of the null case |
| Formatters.MatchIsFinite | frontend/src/shared/utils/formatters.ts:29-34 | every match of `-?\d+(\.\d+)?` reads under `Number` as a finite number, so the NaN check after it never fires |
| Formatters.MatchParts | frontend/src/shared/utils/formatters.ts:29 | a match is an optional minus, digits, and optionally a point and more digits |
| Formatters.CoerceNumberLeadingDecimalText | frontend/src/shared/utils/formatters.ts:29-34 | leading digits, a point and digits coerce to their decimal value |
| Formatters.CoerceNumberLeadingDecimal | frontend/src/shared/utils/formatters.ts:29-34 | a leading number with a fraction is read with it ("12.5 C" is 12.5) |
| Formatters.WithinBoundsInclusive | frontend/src/shared/utils/formatters.ts:37-45 | both ends pass, outside either end fails, NaN fails, no value or no bounds passes |
| Palette.RemoveFirst | frontend/src/theme/palette.ts:27 | only the first '#' is removed |
| Palette.ToInt32 | frontend/src/theme/palette.ts:34-36 | NaN is 0, other values wrap into the signed 32-bit range, values in range kept |
| Palette.ByteAt | frontend/src/theme/palette.ts:34-36 | `(x >> shift) & 255` is a byte |
| Palette.Channels | frontend/src/theme/palette.ts:33-36 | three values, each below 256 |
| Palette.ChannelsOfValue | frontend/src/theme/palette.ts:33-36 | the channels are bits 16-23, 8-15 and 0-7 of the value parseInt read |
| Palette.Alpha | frontend/src/theme/palette.ts:26-39 | fails exactly when the rest is not six characters, with the "expects a 6-digit hex value" message naming the input |
| Palette.SixHexDigits | frontend/src/theme/palette.ts:33-36 | six hex digits are three bytes, most significant first |
| Palette.AlphaOfHexColour | frontend/src/theme/palette.ts:26-39 | a hex colour gives "rgba(r, g, b, opacity)" with the values of its digit pairs |
| Palette.ChannelsOfHexDigits | frontend/src/theme/palette.ts:33-36 | six hex digits give the values of their three pairs, each below 256 |
| Palette.ParseIntHexOfDigits | frontend/src/theme/palette.ts:33 | hex digits are read in full |
| Palette.ParseIntHexPrefix | frontend/src/theme/palette.ts:33 | parseInt reads hex digits up to the first other character |
| Palette.AlphaAcceptsNonHex | frontend/src/theme/palette.ts:26-39 | as written, two hex digits then any four characters are accepted, blue only |
| Palette.AlphaAcceptsNonHexExample | frontend/src/theme/palette.ts:26-39 | "#12zz56" gives rgba(0, 0, 18, opacity) |
| Palette.AlphaStrict | frontend/src/theme/palette.ts:26-39 | a refusal carries the "expects a 6-digit hex value" message naming the input |
| Palette.AlphaStrictCorrect | frontend/src/theme/palette.ts:26-39 | it accepts exactly the hex colours, and then gives their three bytes |
| Palette.AlphaStrictRefusesNonHex | frontend/src/theme/palette.ts:26-39 | it refuses what the written one let through |
| Storage.KeyPart | frontend/src/features/assistant/storage.ts:27-29 | a non-blank part is trimmed; a missing or blank one is the fallback |
| Storage.StorageKeyShape | frontend/src/features/assistant/storage.ts:24-33 | the key is "tg.assistant.v1:" then user, crop and variety parts separated by ':' |
| Storage.StorageKeyDefaults | frontend/src/features/assistant/storage.ts:27-29 | missing or blank parts give "tg.assistant.v1:anon:unknown:default" |
| Storage.KeyPartTrimmed | frontend/src/features/assistant/storage.ts:27-29 | a part is never empty and is its own trim |
| Storage.StorageKeyIgnoresPadding | frontend/src/features/assistant/storage.ts:27 | padding around the user id does not change the key |
| Storage.StorageKeySplit | frontend/src/features/assistant/storage.ts:24-33 | parts without ':' split back out of the key |
| Storage.StorageKeyInjective | frontend/src/features/assistant/storage.ts:24-33 | equal keys mean equal parts |
| Storage.SafeParse | frontend/src/features/assistant/storage.ts:7-22 | a non-empty result is the array the text parsed to |
| Storage.SafeParseCases | frontend/src/features/assistant/storage.ts:7-22 | empty or missing text, a parse failure and a non-array give []; an array comes back as it is |
| Storage.SafeParseRoundTrip | frontend/src/features/assistant/storage.ts:7-22 | given that JSON.parse undoes JSON.stringify on the stored array, safeParse returns that array |
| AssistantApi.Field | frontend/src/features/assistant/api.ts:58-64 | none exactly when the body has no such property |
| AssistantApi.AddIf | frontend/src/features/assistant/api.ts:71-87 | one optional assignment: the key added at the end when the condition holds, other keys unchanged |
| AssistantApi.BuildBody | frontend/src/features/assistant/api.ts:66-88 | message first and always; cropId, variety when truthy; topK, temperature when numbers; no other key, none twice |
| AssistantApi.BodySize | frontend/src/features/assistant/api.ts:58-64 | a body in key order has at most five properties |
| AssistantApi.ErrorMessage | frontend/src/features/assistant/api.ts:46 | without an object envelope the fallback "Assistant request failed" |
| AssistantApi.EnsureOk | frontend/src/features/assistant/api.ts:41-48 | success only for an object envelope, and then its data |
| AssistantApi.EnsureOkCases | frontend/src/features/assistant/api.ts:41-48 | data exactly when ok is truthy; a truthy primitive throws the TypeError of `in`; else an Error with the envelope's message |
| AssistantApi.EnsureOkErrorMessage | frontend/src/features/assistant/api.ts:46-47 | `{ok: false, error: {message}}` throws that message, or the fallback for a missing or null one |
| AssistantApi.EnsureOkNothing | frontend/src/features/assistant/api.ts:46-47 | a missing or null envelope throws the fallback |
| AssistantApi.EnsureOkSuccessEnvelope | frontend/src/features/assistant/api.ts:42-43 | `{ok: true, data}` gives its data |
| UseApi.EntryValue | frontend/src/shared/hooks/useApi.ts:19-29 | an invalid date fails; null and undefined append nothing |
| UseApi.EncodedPairs | frontend/src/shared/hooks/useApi.ts:32 | one escaped "name=value" per entry |
| UseApi.BuildQueryString | frontend/src/shared/hooks/useApi.ts:17-34 | an invalid date throws "Invalid time value"; otherwise the query text of the appended entries |
| UseApi.FailurePersists | frontend/src/shared/hooks/useApi.ts:19-30 | once a prefix fails every longer one fails the same way |
| UseApi.SearchEntriesMembers | frontend/src/shared/hooks/useApi.ts:19-30 | an entry appears exactly when some parameter gives it, and there are no more entries than parameters |
| UseApi.QueryTextEmpty | frontend/src/shared/hooks/useApi.ts:32-33 | "" exactly when there is no entry, else "?" then the query |
| UseApi.NullsOmitted | frontend/src/shared/hooks/useApi.ts:19-22 | all-null parameters give "" |
| UseApi.AppendedParameter | frontend/src/shared/hooks/useApi.ts:19-27 | a date is appended as its ISO text; a trailing null or undefined changes nothing |
| UseApi.SearchEntriesFailure | frontend/src/shared/hooks/useApi.ts:24-26 | the query fails exactly when some parameter is an invalid date |
| UseApi.QuerySplit | frontend/src/shared/hooks/useApi.ts:32 | splitting the query at '&' gives back one escaped pair per entry |
| UseApi.NormalizePath | frontend/src/shared/hooks/useApi.ts:37 | a leading '/' only when missing |
| UseApi.ResolveUrlParts | frontend/src/shared/hooks/useApi.ts:36-39 | base, then the path with one '/' added when it had none, then the query; normalising twice changes nothing |

## Left out

- VectorStore.Nearest: rows at the same distance come back in table order.
  `ORDER BY embedding <=> $1 LIMIT $5` (backend/src/ai/vector-store.ts:164-165)
  leaves their order unspecified, so Postgres may also keep a different set of
  tied rows at the LIMIT. `SearchChunks` and the retrieval built on it inherit
  this one choice.
- Sorting.SortBy: equal keys keep their input order, as ES2019 requires of
  `Array.prototype.sort`, but no lemma states that stability.
- File and directory I/O are inputs to the model. The left-out operations are
  `readYamlFile`'s reads, `discoverSeedFiles`, `collectCompanionMarkdown`,
  `readMock` and `readFile`. The YAML and JSON parsers are parameters.
  `Crops.ReadYamlFileOrder` takes the file system as a function.
- The OpenAI embedding and chat clients are function parameters.
- Postgres specifics are left out: the pool, `ensureRagSchema`, the ivfflat
  index (search is exact) and `vectorStoreHealth`.
- The embedding column is `VECTOR(${dimensions})`, with `EMBED_DIMENSIONS`
  defaulting to 1536 (backend/src/ai/vector-store.ts:61,71). Postgres rejects
  an embedding or a query vector of any other length. The model accepts any
  non-empty vector in `VectorStore.RagTable.InsertChunks` and
  `VectorStore.RagTable.SearchChunks`.
- The `toFixed(8)` vector literal is not modelled. Only its empty-vector
  check is.
- Cosine distance is an abstract key, and a score is 1 minus it.
- Floating point is not modelled. Affected are bucket averages (exact reals),
  temperatures, opacity text, and number-to-string rendering (a parameter or
  natural numbers only).
- Json numbers are integers.
- `Number()` of text reads only decimal literals, with a sign and
  "Infinity". Exponent forms and hex forms are not modelled.
- Clocks and randomness are parameters: `Date.now`, `toISOString`,
  `Date.parse` and the random part of an alert id.
- localStorage, `fetch`, `getAuthHeader`, `sendAssistMessage`,
  `loadTranscript`/`saveTranscript`, `save`/`reset` and the React providers
  are left out. The stored object arrives already parsed.
- URLSearchParams' form encoding is the `encode` parameter.
- `appConstants.API_BASE_URL` is the `base` parameter.
- Object.entries lists integer-like keys first. `UseApi`'s parameters and
  the defaults walked by `RagSeed.FormatDefaults` and `RagSeed.DefaultsText`
  (backend/src/scripts/rag-seed.ts:92,95) arrive in entries order, so this
  ordering rule is outside the model.
- A `JObj` holds an object's entries, with each key once, as `JSON.parse`
  builds them. With a key repeated in the text, `JSON.parse` keeps the last
  value, while `Lookup` (AssistantApi.EnsureOk, Crops, Storage) takes the
  first. For example, `{"ok":false,"ok":true}` succeeds at
  frontend/src/features/assistant/api.ts:42.
- Transforms.MinuteOf truncates to the minute in UTC, while
  `date.setSeconds(0, 0)` works in local time
  (frontend/src/features/telemetry/transforms.ts:37-38). The two agree for
  every zone offset that is a whole number of minutes, and differ only for
  historical offsets with a seconds part.
- Lengths are counted in Unicode scalar values, not UTF-16 code units. This
  matters for the 900-character chunk limit and the six-character check in
  `alpha`.
- Unicode case mapping is ASCII only in `ToUpper`/`ToLower`. The
  lower-casing in `parseHours` cannot add or remove a kept character, so it
  is omitted.
- `undefined` and `null` are one `None` wherever the source treats them
  alike (`??`, truthiness). They stay apart where object spread tells them
  apart (`WizardState.Merge`).
- Zod validation of the payloads (`CropDefaultsPayloadSchema`,
  `RagChunkSchema`, `AssistantAnswerSchema`) is not part of this model. The
  shapes are datatypes.
- The telemetry query's ISO date-time check is the `isDateTime` parameter.
- Crops.IrrigationRuleInNotes states only that the rule reaches the notes. It
  does not state at which position.
- Transforms.SortByTimestamp and Transforms.BucketByMinute require every
  timestamp to parse. With NaN the comparator is inconsistent and the order
  is implementation-defined.
- WizardState.ClampStep takes a number. A stored step that is not a number
  (Number.isNaN does not coerce it) is not modelled.
- A stored value that is not an object, such as a stored `null` that makes
  `hydrate` throw, is not modelled.
- SetupState reuses `WizardState.ClampStep`, `NextStep` and `PreviousStep`.
  The source repeats the same code at
  frontend/src/features/setup/state.tsx:113-119 and 231-235.
- Symbolic links and Windows separators are outside `buildPath`'s model.
  Paths are component sequences joined with '/'.
- Concurrency between requests is not modelled, including interleaved
  asynchronous calls on the same store, cache or table.

## Findings

| source | as written | input that shows it | evidently intended | confidence | as-written member | corrected member |
|---|---|---|---|---|---|---|
| frontend/src/shared/utils/formatters.ts:15-17 | `split('-')` of a lone dash gives two empty parts, and `Number('')` is 0, so the hour count is 0 | `parseHours("-")` and `parseHours("–")` give 0 | text without a digit gives null | medium, not executed | Formatters.ParseHoursLoneDash | Formatters.ParseHoursCorrectedNeedsDigit |
| frontend/src/theme/palette.ts:29-36 | only the length is checked; `parseInt(…, 16)` stops at the first non-hex character | `alpha("#12zz56", o)` gives `rgba(0, 0, 18, o)` | the error message's "6-digit hex value" is enforced | medium, not executed | Palette.AlphaAcceptsNonHexExample | Palette.AlphaStrictCorrect |
