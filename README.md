# Lattice pipeline core in Dafny

Lattice turns a YouTube video into learning material. It validates the video URL, asks
`yt-dlp` for the video's metadata and caption tracks, picks the best English track, decodes
it (JSON3, WebVTT or SubRip captions) and cleans the text. It then asks Claude for the core
concepts of the transcript, for two or three quiz questions per concept and for a LinkedIn
post, a Twitter thread and a blog post built on those concepts, and stores everything in
Postgres. This project models that pipeline without its I/O and proves what each step
promises:

- `SubtitleParser`: the three caption decoders and `CleanTranscript`.
- `YoutubeClient`: URL validation, classification of tool failures, caption-track selection
  over the tool's JSON output, the decoder dispatch with its empty-transcript rule, metadata
  defaults, and the partial result of `GetVideoInfo`.
- `ClaudeClient`: request defaults, the three-attempt retry loop with its backoff schedule,
  the status and empty-content checks, and the code-fence extraction of `ParseJSONResponse`.
- `ClaudeService`: building concepts, quiz questions and content from a parsed reply,
  including the raw-reply fallback and the synthesised title.
- `Store`: the repository. It is a `Database` class whose four tables (sources, concepts,
  quiz questions, generated content) are sequences of rows with ascending serial ids. Batch
  inserts are all-or-nothing. The class also models the not-found errors, the join and
  ordering of the read queries, and the in-memory concept-id filter, which emits duplicates.
- `UpdateQueries`: the dynamic `UPDATE` builders, with their `$n` placeholder numbering,
  and the malformed concept query that results when no field is set.
- `SourceContentService`: `ProcessYouTubeURL`, the orchestrator. It runs against oracles for
  the video client and the Claude service, and against a `Database`. Its
  degrade-and-continue behaviour is stated step by step.
- `Migrations`: the migration runner. It filters, sorts in place, skips recorded
  migrations, executes and records, and stops at the first failure.
- `IntArrays`: the `IntArray` SQL codec and its JSON integer-array round trip.
- Support modules: `Wrappers` (Option/Result), `Strings` (trim, index, split/join, replace,
  ASCII upper-casing), `Decimal` (decimal rendering of integers), `JsonValue` (decoded JSON
  values with Go's lenient field access), `Models` (the records) and `Ordering` (a stable
  sort by key, standing in for `ORDER BY`).

External effects are inputs: a tool run is a record of its exit status, stdout and stderr;
a download or an HTTP attempt is the value of a function parameter; a failing database
statement is a boolean or a `Fault` parameter; the current time is an integer `now`.

## Model

| member | source | states |
|---|---|---|
| SubtitleParser.ParseJSON3 | brain-api/pkg/youtube/subtitle_parser.go:21-45 | fails exactly when the document does not decode as events/segments; otherwise returns the non-empty, non-newline segment texts in event-then-segment order, joined by single spaces and trimmed |
| SubtitleParser.KeptSegmentsMembers | brain-api/pkg/youtube/subtitle_parser.go:35-40 | a text is in the output iff some event holds it and it is neither `""` nor `"\n"` |
| SubtitleParser.ParseSRT | brain-api/pkg/youtube/subtitle_parser.go:56-77 | never fails; the result is the SubRip transcript (blocks split on a blank line, blocks with fewer than three lines dropped, lines from the third on joined with spaces) and is trimmed |
| SubtitleParser.SrtOfCues | brain-api/pkg/youtube/subtitle_parser.go:60-76 | for any well-formed document of numbered, timed cues, with or without a final newline, the transcript is the cue texts joined by spaces, e.g. `"1\n00:00:00,000 --> 00:00:02,000\nHi there\n\n2\n...\nBye now\n"` gives `"Hi there Bye now"` |
| SubtitleParser.SplitJoinBlankLine | brain-api/pkg/youtube/subtitle_parser.go:60 | splitting blocks joined by a blank line on `"\n\n"` gives back the blocks |
| SubtitleParser.SrtBlockTextOfLines | brain-api/pkg/youtube/subtitle_parser.go:64-73 | a block of three or more lines contributes its lines from the third on, joined with spaces |
| SubtitleParser.ParseVTT | brain-api/pkg/youtube/subtitle_parser.go:88-117 | never fails; the result is the WebVTT transcript and is trimmed |
| SubtitleParser.HeaderEnd | brain-api/pkg/youtube/subtitle_parser.go:92 | a header is found iff the input starts with `WEBVTT` in any letter case and has a later newline; it ends right after the first such newline |
| SubtitleParser.StripHeaderLine | brain-api/pkg/youtube/subtitle_parser.go:92 | a leading `WEBVTT…` line is removed together with its newline |
| SubtitleParser.StripHeaderOnlyAtStart | brain-api/pkg/youtube/subtitle_parser.go:92 | input that does not start with `W`/`w` is left unchanged, so a header later in the text survives |
| SubtitleParser.BlankNoteLinesLines | brain-api/pkg/youtube/subtitle_parser.go:95 | keeps the line count; every line starting with `NOTE` becomes empty and the others are unchanged |
| SubtitleParser.StyleBlockRemoved | brain-api/pkg/youtube/subtitle_parser.go:96 | a `STYLE` line and its body up to the next blank line are removed |
| SubtitleParser.StripStyleBlocksNoStyle | brain-api/pkg/youtube/subtitle_parser.go:96 | text without `STYLE` is unchanged |
| SubtitleParser.StripTagsLeavesNoTag | brain-api/pkg/youtube/subtitle_parser.go:109 | after tag removal no `<…>` tag with a non-empty body remains |
| SubtitleParser.StripTagsIdempotent | brain-api/pkg/youtube/subtitle_parser.go:109 | removing tags twice is the same as once |
| SubtitleParser.StripTagsNoAngle | brain-api/pkg/youtube/subtitle_parser.go:109 | a line without `<` is unchanged |
| SubtitleParser.VttLineTextsMembers | brain-api/pkg/youtube/subtitle_parser.go:106-112 | a text is emitted iff it is the trimmed, tag-stripped form of a line that has no `-->` and is not blank |
| SubtitleParser.ArrowSurvivesTagRemoval | brain-api/pkg/youtube/subtitle_parser.go:107-110 | `"--<x>>"` passes the `-->` check (done before tag removal) and is emitted as `"-->"` |
| SubtitleParser.CueIdentifierKept | brain-api/pkg/youtube/subtitle_parser.go:107-110 | a numeric cue identifier is kept as text |
| SubtitleParser.PlainVttLine | brain-api/pkg/youtube/subtitle_parser.go:107-110 | a trimmed, non-empty line without tags or `-->` is emitted unchanged |
| SubtitleParser.CollapseSpaceCollapsed | brain-api/pkg/youtube/subtitle_parser.go:122 | after collapsing, every whitespace character has become a space and no two spaces are adjacent |
| SubtitleParser.CollapseSpaceVisible | brain-api/pkg/youtube/subtitle_parser.go:122 | collapsing keeps the non-space characters and their order |
| SubtitleParser.CollapseSpaceIdempotent | brain-api/pkg/youtube/subtitle_parser.go:122 | collapsing twice is the same as once |
| SubtitleParser.CleanTranscript | brain-api/pkg/youtube/subtitle_parser.go:120-130 | the result has no leading or trailing whitespace |
| SubtitleParser.CleanTranscriptOfClean | brain-api/pkg/youtube/subtitle_parser.go:120-130 | collapsed, trimmed text without `[` is a fixed point |
| SubtitleParser.MarkerLeavesDoubleSpace | brain-api/pkg/youtube/subtitle_parser.go:122-129 | `"a [Music] b"` becomes `"a  b"`: deletion after collapsing leaves two spaces |
| SubtitleParser.CleanTranscriptNotIdempotent | brain-api/pkg/youtube/subtitle_parser.go:122-129 | cleaning such a result again changes it, so the cleaner is not idempotent |
| SubtitleParser.NestedMarkerSurvives | brain-api/pkg/youtube/subtitle_parser.go:125 | `"[Mu[Music]sic]"` cleans to `"[Music]"`: a single replacement pass can create a new marker |
| YoutubeClient.ValidateURLAccepts | pkg/youtube/client.go:56-69 | `http(s)://`, optional `www.`, one of the three page prefixes, an identifier character and anything after are accepted |
| YoutubeClient.ValidateURLAcceptedShape | pkg/youtube/client.go:56-72 | every accepted URL has exactly that shape; anything else is `InvalidURL` |
| YoutubeClient.ClassifyToolFailurePrivate | pkg/youtube/client.go:102-108 | a tool failure is `VideoPrivate` iff stderr contains one of the three phrases, else `CommandFailed` with stderr |
| YoutubeClient.PhraseMeansPrivate | pkg/youtube/client.go:102-105 | any stderr containing one of the phrases is `VideoPrivate` |
| YoutubeClient.FirstOffer | pkg/youtube/client.go:192-200 | the first entry, in list order, that is an object with the wanted string `ext` and a string `url` |
| YoutubeClient.FindPreferredFirst | pkg/youtube/client.go:191-201 | the first format in preference order that some entry offers wins, whatever the entry's list position |
| YoutubeClient.FindPreferredNone | pkg/youtube/client.go:191-201 | no preferred track is found iff no entry offers any preferred format |
| YoutubeClient.Json3Wins | pkg/youtube/client.go:188-201 | a json3 entry anywhere in `en` is chosen over any other format |
| YoutubeClient.FallbackToFirstEntry | pkg/youtube/client.go:203-215 | without a preferred format only `en[0]` is used, with its `ext` or `"unknown"`; if it has no string `url` the result is empty |
| YoutubeClient.ExtractSubtitleURL | pkg/youtube/client.go:187-216 | a missing, non-list or empty `en` gives `("", "")` |
| YoutubeClient.FindBestSubtitleURL | pkg/youtube/client.go:165-184 | automatic captions are consulted before manual subtitles; a missing or wrong-typed collection counts as not found; with no URL the result is `("", "")` |
| YoutubeClient.DecoderFor | pkg/youtube/client.go:131-145 | json3 goes to the JSON3 decoder, srv1-3 to JSON3 with WebVTT as fallback, everything else to WebVTT |
| YoutubeClient.SubtitleTextFails | pkg/youtube/client.go:131-149 | decoding fails only for a json3 track whose data is not JSON3 |
| YoutubeClient.DecodeWithFallback | pkg/youtube/client.go:136-141 | a server format tries JSON3 and falls back to WebVTT, so it never fails |
| YoutubeClient.GetTranscript | pkg/youtube/client.go:76-162 | invalid URL and tool failure are reported as such; a success is the cleaned, non-empty, trimmed text in `"en"` |
| YoutubeClient.TranscriptOutcomeSuccess | pkg/youtube/client.go:118-161 | a success comes from the best track's URL, its download and its decoder, cleaned |
| YoutubeClient.GetVideoMetadata | pkg/youtube/client.go:248-309 | fails on invalid URL, tool failure or unreadable output; otherwise returns the fields read with defaults |
| YoutubeClient.MetadataDefaults | pkg/youtube/client.go:288-292 | missing fields give an empty title and channel and a zero duration |
| YoutubeClient.MetadataChannel | pkg/youtube/client.go:302-306 | the channel is `channel` when it is a string, else `uploader` |
| YoutubeClient.GetVideoInfo | pkg/youtube/client.go:312-333 | no result iff metadata fails; metadata without transcript iff the transcript fails, with that error; both iff no error |
| ClaudeClient.WithDefaults | pkg/claude/client.go:108-116 | an empty model becomes the client model, a zero token limit becomes 4096, everything else is kept |
| ClaudeClient.RetrySchedule | pkg/claude/client.go:142-167 | at most three attempts; only a transport error or 429 is retried; the sleep before retry k is (k+1)·2s or (k+1)·10s; the last attempt gives `Timeout` or `RateLimitExceeded` |
| ClaudeClient.RunEndsAt | pkg/claude/client.go:143-167 | a run that retried up to attempt n and stops there ends with that attempt's outcome |
| ClaudeClient.RetryLoop | pkg/claude/client.go:141-167 | the loop's attempts, sleeps and answer are those of the retry schedule |
| ClaudeClient.ReplyOutcome | pkg/claude/client.go:170-196 | a non-200 status is `APIError`; a success is status 200 with a non-empty first text block |
| ClaudeClient.ApiErrorCarriesMessage | pkg/claude/client.go:177-183 | the API error carries the decoded error message, or the status and raw body |
| ClaudeClient.EmptyContentRejected | pkg/claude/client.go:192-194 | an empty content list or an empty first block is `EmptyResponse` even on 200 |
| ClaudeClient.SendMessage | pkg/claude/client.go:107-197 | the request sent has the defaults applied; one to three attempts; the outcome is the retry schedule's, and a success has text |
| ClaudeClient.SendMessageWithSystem | pkg/claude/client.go:225-248 | sends one user message with the system prompt and 4096 tokens, and returns the first block's text |
| ClaudeClient.UpToFence | pkg/claude/client.go:261-276 | the text before the first closing fence, which holds no fence |
| ClaudeClient.ParseJSONResponse | pkg/claude/client.go:251-289 | succeeds iff the extracted text unmarshals, and returns that value; otherwise `JsonUnparsable` |
| ClaudeClient.JsonFenceBody | pkg/claude/client.go:256-265 | with a ```` ```json ```` fence and a later closing fence, exactly the text between them is parsed |
| ClaudeClient.JsonFenceUnclosed | pkg/claude/client.go:256-265 | with no closing fence the whole reply is parsed |
| ClaudeClient.GenericFenceBody | pkg/claude/client.go:266-280 | a generic fence skips to just past the first newline and takes the text up to the next fence |
| ClaudeClient.GenericFenceUnclosed | pkg/claude/client.go:266-280 | a generic fence without a closing fence leaves the reply unchanged |
| ClaudeClient.GenericFenceAt | pkg/claude/client.go:256-280 | the generic rule applies only when there is no ```` ```json ```` |
| ClaudeService.ExtractConcepts | internal/services/claude_service.go:52-100 | a client error or JSON error is a failure; otherwise one concept per item, in order, with the given source id |
| ClaudeService.ConceptsOf | internal/services/claude_service.go:90-97 | one concept per item, in order, with the item's title and description and the source id |
| ClaudeService.GenerateQuiz | internal/services/claude_service.go:103-168 | a client error or JSON error is a failure; otherwise one question per item, with the concept's id |
| ClaudeService.QuestionsOf | internal/services/claude_service.go:153-165 | one question per item, with the concept id and the correct answer upper-cased |
| ClaudeService.AnswersUpperCase | internal/services/claude_service.go:162 | every stored correct answer has no lower-case ASCII letter and keeps its length |
| ClaudeService.ConceptsText | internal/services/claude_service.go:172-176 | builds the numbered concept summary |
| ClaudeService.SummaryListsEveryConcept | internal/services/claude_service.go:174-176 | the summary has the line `i. title: description` for every concept |
| ClaudeService.GenerateContent | internal/services/claude_service.go:171-212 | a client error is a failure; an unparsable reply becomes the body, with the synthesised title; the platform is copied, the status is `"draft"`, the concept ids are the inputs' ids in order |
| ClaudeService.ConceptIds | internal/services/claude_service.go:200-203 | the ids of the concepts, in input order |
| ClaudeService.PromptKindFor | internal/services/claude_service.go:215-295 | linkedin, twitter and blog get their own prompts; every other platform gets the email prompt |
| ClaudeService.TitleFromConcepts | internal/services/claude_service.go:298-309 | `"Generated Content"` for no concepts, the title for one, `"<first> and More"` for more |
| IntArrays.Value | brain-api/internal/models/generated_content.go:29-34 | a nil array is SQL NULL; otherwise the bytes of its JSON encoding |
| IntArrays.Scan | brain-api/internal/models/generated_content.go:14-26 | NULL scans to nil; a non-bytes value is an error; bytes succeed iff they decode |
| IntArrays.DecodeEncode | brain-api/internal/models/generated_content.go:25-33 | decoding the JSON encoding of any integer list gives the list back |
| IntArrays.ScanValueRoundTrip | brain-api/internal/models/generated_content.go:14-34 | `Scan(Value(a))` gives `a` back, nil included |
| IntArrays.ScanJsonNull | brain-api/internal/models/generated_content.go:25 | the bytes `null` scan to a nil array |
| UpdateQueries.BuildContentUpdate | internal/db/generated_content_repo.go:227-256 | placeholders are `$1..$n` in order for the set fields among title, body and status, with the id last; the argument list matches; `updated_at` is always set |
| UpdateQueries.AssignContentFields | internal/db/generated_content_repo.go:229-249 | each set field gets the next placeholder number and its argument |
| UpdateQueries.BuildConceptUpdate | internal/db/concept_repo.go:107-129 | placeholders are numbered for title, then description, with the id last, and the arguments match; with no field set, the query starts `UPDATE concepts SE WHERE`, which is malformed |
| UpdateQueries.AssignConceptFields | internal/db/concept_repo.go:109-123 | each set field gets the next placeholder number; with none set the query is the bare head |
| UpdateQueries.AddAssignment | internal/db/generated_content_repo.go:233-237 | appending `column = $k, ` keeps the placeholders numbered `1..k` |
| UpdateQueries.PlaceholdersAppend | internal/db/generated_content_repo.go:234 | the placeholders of two concatenated parts are those of each part in order |
| Ordering.SortBy | internal/db/concept_repo.go:178 | the rows reordered, with nothing added or lost |
| Ordering.SortBySorted | internal/db/concept_repo.go:178 | the result is ordered by the key |
| Store.AppendFresh | internal/db/concept_repo.go:224-253 | rows appended with the next serial ids keep the ids ascending and unique |
| Store.RemoveAt | internal/db/concept_repo.go:152-170 | removing a row keeps the ids ascending, and no remaining row has its id |
| Store.Database.CreateSourceContent | brain-api/internal/db/source_content_repo.go:11-40 | appends the source with the next id and `now`, or fails with nothing changed |
| Store.Database.GetSourceContentByURL | brain-api/internal/db/source_content_repo.go:43-69 | no match is `None`, not an error; a match is the first source with that URL |
| Store.SourceWithUrl | brain-api/internal/db/source_content_repo.go:43-69 | `None` iff no source has the URL; otherwise a source with that URL |
| Store.Database.GetSourceContentByID | brain-api/internal/db/source_content_repo.go:111-137 | a missing id is `"source content not found"`; a present id returns that row; a success has that id |
| Store.Database.GetConceptByID | internal/db/concept_repo.go:49-74 | `"concept not found"` iff no concept has the id; a present id returns that row; a success has that id |
| Store.Database.UpdateConcept | internal/db/concept_repo.go:107-149 | with no field set the malformed query fails; a missing id is `"concept not found"`; a present id with a field set succeeds, and only the given fields of that row change; any failure changes nothing |
| Store.Database.DeleteConcept | internal/db/concept_repo.go:152-170 | `"concept not found"` iff no concept has the id; otherwise that row is removed and nothing else changes |
| Store.Database.CreateConceptsBatch | internal/db/concept_repo.go:212-261 | empty input returns empty without a transaction; a row or commit error returns an error and changes nothing; otherwise one stored concept per input, in order, appended to the table |
| Store.Database.GetConceptsBySourceContentID | internal/db/concept_repo.go:173-209 | the concepts of that source, newest first |
| Store.ConceptsOfSourceResult | internal/db/concept_repo.go:174-179 | that result is sorted newest first and holds exactly the source's concepts |
| Store.Database.CreateQuizBatch | internal/db/quiz_repo.go:11-73 | the same all-or-nothing batch contract for quiz questions |
| Store.Database.GetQuizzesBySourceContentID | internal/db/quiz_repo.go:120-162 | the questions whose concept belongs to the source, oldest first |
| Store.QuestionsOfSourceResult | internal/db/quiz_repo.go:121-128 | that result is sorted oldest first and holds exactly the questions joined to the source's concepts |
| Store.Database.DeleteQuizQuestion | internal/db/quiz_repo.go:198-216 | `"quiz question not found"` iff no question has the id; otherwise that row is removed |
| Store.Database.CreateGeneratedContentBatch | internal/db/generated_content_repo.go:46-100 | the same all-or-nothing batch contract for generated content |
| Store.Database.GetGeneratedContentByConceptIDs | internal/db/generated_content_repo.go:134-183 | the content table newest first, filtered in memory by the query ids |
| Store.FilterByConceptIds | internal/db/generated_content_repo.go:149-176 | the nested filter loop computes the matching rows |
| Store.ContainsId | internal/db/generated_content_repo.go:169-174 | the inner loop finds the target iff the row holds it |
| Store.Hits | internal/db/generated_content_repo.go:168-175 | zero hits iff the row shares no id with the query |
| Store.MatchingMembers | internal/db/generated_content_repo.go:167-175 | a row is returned iff it shares at least one id with the query |
| Store.MatchingDuplicates | internal/db/generated_content_repo.go:168-174 | a row is returned once per query id it contains, so duplicates occur |
| Store.MatchingNoTargets | internal/db/generated_content_repo.go:168 | an empty query list gives an empty result |
| Store.MatchingKeepsOrder | internal/db/generated_content_repo.go:140-175 | the filter keeps the row order |
| Store.ContentByConceptIdsResult | internal/db/generated_content_repo.go:134-183 | the result is newest first and holds exactly the rows sharing an id with the query |
| SourceContentService.CollectQuizzes | internal/services/source_content_service.go:116-125 | quizzes of every concept whose generation succeeded, in concept order, one call per concept |
| SourceContentService.QuizzesForSkipsFailure | internal/services/source_content_service.go:119-123 | a failed concept contributes nothing and the others are unaffected |
| SourceContentService.QuizzesForOrigin | internal/services/source_content_service.go:118-125 | every collected question comes from a successful generation for one of the concepts |
| SourceContentService.CollectContents | internal/services/source_content_service.go:142-152 | the drafts of the platforms whose generation succeeded, in platform order, one call per platform |
| SourceContentService.ContentsForPlatforms | internal/services/source_content_service.go:142-152 | content is drafted for linkedin, twitter and blog in that order, each with all saved concepts, at most three |
| SourceContentService.Derive | internal/services/source_content_service.go:116-165 | quizzes and content are saved only when non-empty; a failed save empties only its own list |
| SourceContentService.GetExistingProcessResult | internal/services/source_content_service.go:179-217 | never fails; each failed lookup gives an empty list; content is looked up only when there are concepts |
| SourceContentService.RelatedBelongs | internal/services/source_content_service.go:179-217 | the rebuilt result carries the source, its concepts, their questions and content sharing a concept id |
| SourceContentService.GetSourceContentWithRelated | internal/services/source_content_service.go:220-227 | a missing or unreadable source is an error; a present source always gives the result rebuilt from its concepts, quizzes and content |
| SourceContentService.Continue | internal/services/source_content_service.go:87-175 | extraction or concept-save failure gives the saved source with three empty lists; otherwise the saved concepts, quizzes and content as stated by `Continued` |
| SourceContentService.ProcessYouTubeURL | internal/services/source_content_service.go:46-176 | a known URL is rebuilt from storage with no external call; duplicate-check, video, missing-transcript and source-save errors are fatal and change nothing; every success carries the saved source |
| Migrations.MigrationNames | brain-api/internal/db/postgres.go:72-77 | exactly the non-directory entries ending in `.sql` |
| Migrations.CollectMigrations | brain-api/internal/db/postgres.go:72-77 | the filter loop computes those names |
| Migrations.NameLeTotal | brain-api/internal/db/postgres.go:78 | any two names are ordered |
| Migrations.NameLeTrans | brain-api/internal/db/postgres.go:78 | the order is transitive |
| Migrations.SortNames | brain-api/internal/db/postgres.go:78 | sorts the names in place, lexicographically, as a permutation |
| Migrations.ApplyAll | brain-api/internal/db/postgres.go:81-113 | the loop computes the run over the sorted names |
| Migrations.RunMigrations | brain-api/internal/db/postgres.go:53-117 | table and directory failures stop at once; otherwise the sorted `.sql` names are run in order |
| Migrations.RunUpToStops | brain-api/internal/db/postgres.go:85-110 | after the first failure nothing else happens |
| Migrations.RecordedAfterExecuted | brain-api/internal/db/postgres.go:101-110 | a migration is recorded only after it executes; a failed record leaves only the last one unrecorded; earlier ones stay recorded |
| Migrations.SkipsRecorded | brain-api/internal/db/postgres.go:84-92 | nothing already recorded is executed, and nothing is executed twice |
| Migrations.AllRecorded | brain-api/internal/db/postgres.go:81-113 | a run without failure leaves every migration recorded |
| Migrations.SecondRunIdle | brain-api/internal/db/postgres.go:84-107 | a second run over the same files after a clean run executes nothing |

## Left out

- I/O is not modelled: the `yt-dlp` subprocess, its path lookup and timeout, the HTTP subtitle download, the Claude HTTP transport and headers, and database connections. Each enters as a parameter: a tool run record, a fetch function, a per-attempt outcome function, `unavailable` flags and `Fault` values.
- A retry reuses a request whose body has already been consumed. That is a transport-level effect and is not modelled. The sleeps are returned as data rather than performed.
- The JSON library is not modelled. Decoded JSON is the `Json` datatype and decoding is a `parse` parameter. Go's case-insensitive matching of struct keys is not modelled.
- The regular-expression engine is not modelled. Each pattern is written out by hand, with RE2's ASCII `\s` and `\w` classes. The regexp-compile error branch of `ValidateURL` cannot be reached with its constant patterns and is dropped.
- Strings are sequences of characters, not UTF-8 bytes. Go's byte offsets in `ParseJSONResponse` agree with them only for ASCII. `Strings.ToUpper` upper-cases ASCII letters only.
- `YoutubeClient.GetVideoMetadata`: the `float64` duration and its truncation are floating point. JSON numbers are integers in this model.
- The temperature field of a request is kept but never used.
- The concrete prompt texts are out of scope, along with `NewClient`, `NewClaudeService`, `NewSourceContentService`, environment reading, `InitDB`, `CloseDB`, logging and the HTTP handlers. Prompts are identified by their kind and arguments.
- The Claude service reaches the orchestrator only through the `extract`, `quiz` and `content` oracles.
- The video client reaches the orchestrator as a `Result` oracle. The real `GetVideoInfo` returns an error alongside a metadata-only result, so the orchestrator's nil-transcript branch (`TranscriptMissing`) cannot be reached with it.
- Nil and empty slices are not told apart.
- SQL text is not interpreted. Row-scan and iteration errors are folded into the `unavailable` flag. `RowsAffected` is modelled as "a row with that id existed", because ids are unique. Foreign keys, cascades and triggers are not visible in the code read here.
- `Store.Database.CreateConceptsBatch`, `Store.Database.CreateQuizBatch` and `Store.Database.CreateGeneratedContentBatch`: a failed batch leaves the id counters unchanged. Postgres would have consumed sequence values.
- `Store.Database.GetSourceContentByURL`: when several sources share a URL, the first stored one is returned. The query has no `ORDER BY`, so Postgres may return any of them.
- `ORDER BY created_at` is modelled as a stable sort. Rows with equal timestamps keep table order, which Postgres does not promise.
- The `IntArray` column is stored as the value given. `IntArrays.ScanValueRoundTrip` shows the codec gives it back unchanged.
- `UpdateGeneratedContent` is modelled as its query builder only. Executing the built query and scanning the returned row are not modelled.
- Migration file contents are not read or executed. Each file's outcome (check, read, execute, record) is a parameter.
- `GetAllConcepts`, `CreateConcept`, `GetQuizzesByConceptID`, `GetQuizQuestionByID`, `GetGeneratedContentByID`, `GetAllGeneratedContents`, `CreateGeneratedContent`, `DeleteGeneratedContent`, `GetAllSourceContents` and `DeleteSourceContent` are not modelled. They are plain single-statement queries with no logic of their own.
- `SendSimpleMessage` is not modelled. It is `SendMessageWithSystem` without a system prompt.
- `ParseSRT` is never dispatched by `GetTranscript` and is modelled as a standalone decoder.
- When extraction returns no concepts, the orchestrator calls the concept batch with no rows. That call returns at once, with no transaction (`internal/db/concept_repo.go:212-215`). Content is still asked for for the three platforms, with an empty concept list. The model does the same: `Store.Database.CreateConceptsBatch` returns `Success([])` and changes nothing for empty input.
