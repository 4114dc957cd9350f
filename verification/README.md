# DocQuery: a Dafny model of the backend's algorithms and state machines

DocQuery is an Express backend for retrieval-augmented question answering over an organization's documents. Behind
its I/O it holds a number of algorithms and state machines that can be stated exactly. This project models them and
proves what they promise, each for all inputs or over all runs.

The modules follow the source files:

- `TextCleaner`, `LineBreaks`, `Chunker`, `Embedding`, `ChunkStore`, `Versions`: the stages of ingestion, from raw text
  to stored chunks. `DocumentPipeline` puts them together and says what the rows show of the extracted text;
  `Processing` is the document status machine whose jobs are delivered at least once and may interleave.
  `SaveTransactions` takes the save transaction apart: its statements interleave with those of other saves under
  READ COMMITTED, row locks and the unique index, and every commit turns out to be the atomic replacement that the
  other modules use.
- `RedisStore`, `RateLimiter`: the key store with expiry, and the distributed rate limiter on top of it. The limiter
  is a step system in which the INCR/TTL transaction and the later EXPIRE of different instances interleave, replies
  may be lost, and time passes in between.
- `RankFusion`, `FusedResults`, `ContextSelector`: reciprocal rank fusion and what its results mean, and the greedy
  choice of context chunks.
- `Membership`, `MembershipSafety`, `MembershipGrants`, `MembershipRuns`, `MembershipServices`: organizations, roles, and
  the read-through caches. The first module says what each service call does, the second what every step keeps, the
  third, by the rows alone, who is granted what and what is answered, the fourth exactly which requests break what
  is kept and what that says about whole runs. The last holds the services as methods over the tables and Redis
  and ties each to its specification.
- `Pagination`, `Conversations`: page parameters, base64url cursors (section 5 of RFC 4648), and the walk a client
  makes over a conversation by following `nextCursor`.
- `HttpClient`: the retry loop with exponential backoff.
- `DocumentAccess`: the single and the bulk access check, granting and revoking.
- `Outcomes`, `JsText`: option and result types; UTF-16 text, trimming and splitting on whitespace.

Code that changes state in steps is modelled by methods and classes: a loop in the source is a loop here, an object
with fields is a class. Each such method is tied to a specification function, and the properties are proved about
that function or about runs of the step system.

Modelling conventions: scores, chunk sizes and delays are real numbers, and document texts are UTF-16 code units. The
database, the clock, random numbers, the file extractor and the embedding provider are parameters. A membership call is one
atomic step, in which the acting role is the actor's current row. In the cache results Redis is ready throughout, and
any entry may expire at any time. In the tables, rows are kept in the order of their creation.

## Where the code and its description differ

- The rate limiter calls itself a sliding counter (`src/middleware/rate-limiter.middleware.js:7`). It is a fixed window
  that starts with a key's first request. A window-long interval can hold twice the maximum, never more, and for
  every limit there is a run that reaches exactly that (`BoundIsReached`).
- `updateMemberRole` is meant to protect the last owner, but its self check compares the spelling of the target id with
  the acting user's id, while the uuid columns behind the lookup compare values. An only owner who spells their own id
  otherwise (in capitals) passes the check. `StepKeepsOwnedIff` shows that this is the one way in which any
  step can leave an organization without an owner, `RunKeepsOwnersIff` says the same of whole runs, and
  `OddSpellingOrphans` gives a concrete case.
- The cache invalidation of `updateMemberRole` and `removeMember` uses the same spelling, so a change requested under
  another spelling leaves the target's own cache entries behind. `StepKeepsConsistentIff` gives the exact condition: a
  removal leaves a stale entry when the target's organization list or any record of that organization is cached; a change
  of role when such a record is, or the list while it shows the organization on its first page. After such a removal
  the removed member is still answered from the cached record (`RemovedMemberStillServed`, and as a concrete run
  `OddSpellingServesRemoved`).
- A query with a cursor leaves the offset lists of members and organizations without a page, and they fail
  (`ListMembers`, `ListForUser`).
- The selector's look-ahead reads a field of every candidate it passes, so a null candidate, which the main loop skips,
  can make it throw. `SelectionThrowsIff` says exactly when: a null comes before any unpicked candidate of another
  document. `NullAfterFour` is a family of such inputs; without null candidates it never throws (`NoNullNoThrow`).
- A chunk size below 2 lets a chunk exceed its own token limit (`TokensWithinSize` is an equivalence).
- `resilientFetch` throws a failure that is neither transient nor a status at once, except on the last attempt, where
  the fallback replaces it (`FallbackIffExhausted`).
- The first grant on a document takes the default access away from everyone it does not cover (`GrantTakesAwayIff`).
- The access check does not look a document up for owners and admins, so for them it passes on a document of another
  organization, and granting and revoking pass with it (`OtherOrganizationIff`).
- Offset listing of messages does not clamp a negative page, and then fails (`OffsetFailsOnNegativePage`).

## Model

| member | source | states |
|---|---|---|
| TextCleaner.CleanedIsNormal | src/modules/documents/services/document-cleaner.service.js:23-45 | Cleaning any text gives a normal form: no deleted character or carriage return, no tab, double space or outer blank on a line, no three newlines in a row, no outer whitespace. |
| TextCleaner.NormalIsFixed | src/modules/documents/services/document-cleaner.service.js:23-45 | A text in normal form passes through every rewrite unchanged. |
| TextCleaner.FixedIffNormal | src/modules/documents/services/document-cleaner.service.js:23-45 | The fixed points of cleaning are exactly the normal forms. |
| TextCleaner.CleanTwice | src/modules/documents/services/document-cleaner.service.js:18-54 | Idempotence: cleaning a successful result succeeds again and returns it unchanged. |
| TextCleaner.CleanKeepsWords | src/modules/documents/services/document-cleaner.service.js:23-45 | The words of the result are the words of the input with only the deleted characters removed, in the same order. |
| TextCleaner.CleanTextOutcome | src/modules/documents/services/document-cleaner.service.js:18-54 | Cleaning succeeds exactly when words are left once the deleted characters are out and the result has a letter or digit; which error it gives otherwise. |
| LineBreaks.CleaningKeepsBreaks | src/modules/documents/services/document-cleaner.service.js:26-45 | Between each two neighbouring words the result has as many line breaks as the input, but at most two; in the input a CR, an LF and a CR LF pair are one break each. |
| LineBreaks.OneGapFewer | src/modules/documents/services/document-cleaner.service.js:26-45 | These breaks are counted once for each two neighbouring words. |
| TextCleaner.CleanPages | src/modules/documents/services/document-cleaner.service.js:61-82 | The loop keeps, in order, exactly the pages that clean successfully, each in normal form with its number. |
| TextCleaner.CleanPagesTwice | src/modules/documents/services/document-cleaner.service.js:61-82 | Cleaning cleaned pages changes nothing. |
| Chunker.MakeConfig | src/modules/documents/services/chunker.service.js:26-38 | Construction succeeds exactly for a positive size, a non-negative overlap and a size above the overlap. |
| Chunker.TrimLosesNoWords | src/modules/documents/services/chunker.service.js:65-70 | Trimming before splitting changes no word. |
| Chunker.SlideWindow | src/modules/documents/services/chunker.service.js:96-119 | The loop with its early break produces exactly the overlapping windows, numbered from the start index. |
| Chunker.ChunkText | src/modules/documents/services/chunker.service.js:60-120 | The method, with its empty and single-chunk shortcuts, agrees with the specification. |
| Chunker.ChunkDocument | src/modules/documents/services/chunker.service.js:128-155 | Page by page with a running index, falling back to the whole text when no page yields a chunk. |
| Chunker.WindowsOverlap | src/modules/documents/services/chunker.service.js:97-117 | Each later window starts with the last (size - step) words of the one before, and adds at least one word. |
| Chunker.SizesInTokens | src/modules/documents/services/chunker.service.js:73-79 | A window takes three words for four tokens of the size, rounded down and at least one, and shares with the next three words for four tokens of overlap, rounded down but less than the window. |
| Chunker.ChunksLoseNothing | src/modules/documents/services/chunker.service.js:60-120 | The first chunk's words followed by each later chunk's new words rebuild the text's words; each chunk adds a new word; the indices are consecutive and the recorded word counts true. |
| Chunker.ChunkCount | src/modules/documents/services/chunker.service.js:80-117 | The number of chunks is 1 or ceil((n - wordsPerChunk) / stepSize) + 1. |
| Chunker.DocumentChunksNumbered | src/modules/documents/services/chunker.service.js:134-154 | Over all pages the chunk indices are exactly 0 to N-1. |
| Chunker.PagesInOrder | src/modules/documents/services/chunker.service.js:138-146 | The chunks of each page form one contiguous block, in page order. |
| Chunker.PageRebuilt | src/modules/documents/services/chunker.service.js:138-146 | Each page's block rebuilds that page's words and carries its page number. |
| Chunker.TokensWithinSize | src/modules/documents/services/chunker.service.js:46-51 | For an integer chunk size, every chunk's recorded token count is at most the size, for all texts, if and only if the size is at least 2. |
| Chunker.CountsRecorded | src/modules/documents/services/chunker.service.js:46-51 | Each chunk records its length, and 1.3 tokens for each of its words, rounded up. |
| JsText.JoinedBySpaces | src/modules/documents/services/chunker.service.js:97-101 | A chunk's words are joined by one space each and nothing else. |
| Embedding.GenerateEmbeddings | src/modules/documents/services/embedding.service.js:62-124 | The batching loop returns what the batch-by-batch specification says, including which error comes first. |
| Embedding.EmbeddingsAlign | src/modules/documents/services/embedding.service.js:77-113 | On success there is one vector of the expected dimension per text, at its position, and it is what the provider answered at that text's place when asked about that text's own batch in its turn. |
| Embedding.EmbedsIff | src/modules/documents/services/embedding.service.js:77-113 | The call succeeds exactly when every batch is answered with one vector a text, each of the expected dimension. |
| Embedding.BatchingInvisible | src/modules/documents/services/embedding.service.js:77-113 | For a provider that embeds texts one by one, the result does not depend on the batch size. |
| ChunkStore.SaveReplaces | src/modules/documents/repositories/document-chunk.repository.js:27-54 | After a save a document has exactly the rows made of the given ones, and every other document the rows it had. |
| ChunkStore.ReplaceHolds | src/modules/documents/repositories/document-chunk.repository.js:34-52 | Field by field: each stored row has the document, and its own row's index, text, page (none for page 0) and vector. |
| ChunkStore.RowsOfMeans | src/modules/documents/repositories/document-chunk.repository.js:27-32 | What is read for a document is what the table has for it. |
| ChunkStore.SaveTwice | src/modules/documents/repositories/document-chunk.repository.js:28-32 | Saving the same rows again leaves the same rows. |
| ChunkStore.DocumentChunkRepository.SaveChunksWithEmbeddings | src/modules/documents/repositories/document-chunk.repository.js:18-58 | The transaction leaves the document with exactly the given rows, field by field, or, at whichever statement it fails, the table as it was; other documents keep theirs; says when it succeeds. |
| SaveTransactions.ReadersSeeOneSave | src/modules/documents/repositories/document-chunk.repository.js:27-57 | However the statements of any number of saves interleave, wait, fail and abort, the committed rows of a document are none or exactly those of one save. |
| SaveTransactions.CommittedAfter | src/modules/documents/repositories/document-chunk.repository.js:27-57 | A commit leaves its document with exactly the committing save's rows and every other document as it was. |
| SaveTransactions.CommitIsReplace | src/modules/documents/repositories/document-chunk.repository.js:27-57 | Every commit amounts to the atomic replacement of the document's rows. |
| SaveTransactions.CommitDoomsOthers | src/modules/documents/repositories/document-chunk.repository.js:28-32 | When a save commits, every other save of the document that has started its DELETE is left with committed rows it did not find. |
| SaveTransactions.DoomedIsStuck | src/modules/documents/repositories/document-chunk.repository.js:34-54 | Such a save can neither insert its first row nor commit. |
| SaveTransactions.OverlappingSavesNeverBothCommit | src/modules/documents/repositories/document-chunk.repository.js:27-57 | Two saves of a document that have both started before either committed never both commit, whatever happens from then on. |
| SaveTransactions.NewSaveCanCommit | src/modules/documents/repositories/document-chunk.repository.js:27-57 | Whatever has happened, once no save is in progress a new one has a run of its own statements that commits it. |
| Versions.TakenBelowNext | src/modules/documents/services/document-version.service.js:62-69 | While the numbers count up from 1, a number up to the next one is in use exactly when it is below the next. |
| Versions.InsertKeepsContiguous | src/modules/documents/services/document-version.service.js:71-82 | Inserting a number read earlier, with duplicates rejected, keeps each document's numbers exactly 1..n and never drops one. |
| Versions.NextNumberGrows | src/modules/documents/services/document-version.service.js:62-69 | The next number never falls, so a number read earlier is never too high. |
| Versions.NextIsAboveAll | src/modules/documents/services/document-version.service.js:62-69 | The next number is one above the highest of the document, or 1. |
| Versions.CreateVersionAdds | src/modules/documents/services/document-version.service.js:62-82 | With nobody in between exactly one row is added, for this document, with its hash, under a number above all it had. |
| DocumentPipeline.PipelineIsComplete | src/modules/documents/services/document-processing.service.js:78-118 | A successful pipeline gives a non-empty set of rows with indices 0..n-1, each paired with the embedding of its own text in its own batch. |
| DocumentPipeline.PipelineRepresents | src/modules/documents/services/document-processing.service.js:78-118 | The rows are one stretch for each page that cleans, in page order and under its number, or one stretch for the whole text on page 1 when none does; a stretch is overlapping windows that cover exactly the words left in its text once the deleted characters are out. |
| DocumentPipeline.PipelineOutcome | src/modules/documents/services/document-processing.service.js:78-118 | It fails exactly for want of words, or of a cleanable text, or of proper embeddings, and never for want of chunks; with a provider that answers properly every cleanable text succeeds. |
| Processing.ChunksAreNeverMixed | src/modules/documents/services/document-processing.service.js:61-184 | In every interleaving of queue requests and retried, concurrent or crashing workers, a document's stored chunks are empty or, field by field, all that the pipeline makes of one extraction of it: they show that extraction, are numbered, and each carries the embedding of its own text; a READY document has a non-empty set; FAILED goes with an error message. |
| Processing.VersionsCountUp | src/modules/documents/services/document-processing.service.js:128-141 | In every such run the version numbers of every document are 1..n. |
| Processing.DocumentProcessingService.ProduceRows | src/modules/documents/services/document-processing.service.js:78-118 | The steps from extracted text to rows: complete rows that show the extraction, or which error. |
| Processing.DocumentProcessingService.ProcessDocument | src/modules/documents/services/document-processing.service.js:35-185 | The whole call: the checks that change nothing, and otherwise one attempt more, the final status and error, on success stored rows that show the extraction and one version more, on failure rows and versions as they were, and no change to other documents; a cleanable text with a proper provider and no database failure succeeds. |
| Processing.UndisturbedRun | src/modules/documents/services/document-processing.service.js:61-184 | The step system refines the call: run without interference, its steps leave in the tables what the uninterrupted call leaves, whether the pipeline or the save fails or all succeeds, with or without a version. |
| Processing.RequestQueues | src/modules/documents/document.service.js:52-83 | A request queues the document and clears its error, unless it is not this tenant's, or is queued or running already; then nothing changes. |
| Processing.UploadQueues | src/modules/documents/document.service.js:26-83 | A fresh upload, once requested, is queued with no attempt behind it. |
| Processing.ForeignJobIsDropped | src/modules/documents/services/document-processing.service.js:42-58 | A job that names another organization, or a document that is gone, changes nothing. |
| RedisStore.BuildKeyInjective | src/services/redis.service.js:21-23 | On parts without colons and wildcards, two keys are equal exactly when all their parts are, however many there are. |
| RedisStore.PatternHitsBelow | src/services/redis.service.js:78-82 | The pattern of some parts and a star matches exactly the keys that have further parts below them. |
| RedisStore.GlobOne | src/services/redis.service.js:82-101 | A question mark in a pattern matches any one character. |
| RedisStore.RedisService.Get | src/services/redis.service.js:30-38 | The visible value, or nothing when missing, expired or not ready. |
| RedisStore.RedisService.Set | src/services/redis.service.js:47-60 | Changes this one key in the visible contents, with the expiry asked for; nothing when not ready. |
| RedisStore.VisibleUntilExpiry | src/services/redis.service.js:47-60 | A value set with a time to live is visible for exactly that many seconds. |
| RedisStore.RedisService.Del | src/services/redis.service.js:67-74 | Removes these keys and counts those that were there. |
| RedisStore.RedisService.DelPattern | src/services/redis.service.js:82-101 | Whatever the layout of the table and however often SCAN repeats a key, exactly the matching keys go, each counted once. |
| RedisStore.IncrTtl | src/services/redis.service.js:144-151 | The atomic INCR and TTL on the shared store: a visible key counts one more and keeps its expiry, any other starts at 1 without one, no other key changes; the TTL is within half a second of what is left. |
| RedisStore.ExpireIfNew | src/services/redis.service.js:153-158 | The later EXPIRE, sent only when the transaction saw no expiry: it gives a visible key that many seconds, keeps its value, and does nothing to any other. |
| RateLimiter.ResolveLimits | src/middleware/rate-limiter.middleware.js:38-39 | Which option decides, and 100 and 900 when none is given; limits are positive, and a window given in milliseconds is rounded up to whole seconds. |
| RateLimiter.Handle | src/middleware/rate-limiter.middleware.js:41-95 | Admits exactly up to the maximum and reports what is left of it; the reset time or Retry-After is within half a second of the time left, the whole window when less than half a second is left or the request opens the counter; fails open when Redis is not ready, and leaves the key with an expiry. |
| RateLimiter.HandlerIsTwoSteps | src/services/redis.service.js:144-158 | The step system refines the handler: from every reachable state the two steps of an undisturbed request give the handler's store and its decision. |
| RateLimiter.AdmissionsBounded | src/services/redis.service.js:141-162 | In every interleaving with lost replies and crashes, no time interval of one window length holds more than 2 * max counted admissions of a key. |
| RateLimiter.BoundIsReached | src/middleware/rate-limiter.middleware.js:7-8 | For every limit and window there is a run with exactly 2 * max admissions in one window length. |
| RateLimiter.CompletionFindsExpiry | src/services/redis.service.js:153-158 | At the moment an increment completes, its key has an expiry or is gone, whichever counter the key holds by then, so also when a late EXPIRE lands on a later counter. |
| RateLimiter.CompletedIsGuarded | src/services/redis.service.js:153-158 | From then on the request's own counter has an expiry for as long as the key holds that counter. |
| RateLimiter.LaterCounterUnguarded | src/services/redis.service.js:147-156 | Not so a later counter: once the first has run out, the next request's counter has no expiry until its own EXPIRE. |
| RateLimiter.StuckKeyRecovers | src/services/redis.service.js:153-156 | A key left without expiry by a crash between the two round trips gets one from the next completed request. |
| RankFusion.AddVectorResults | src/modules/search/services/rrf.service.js:34-63 | The first loop: the map holds exactly the ids seen, in order of first appearance, with their records and sums. |
| RankFusion.AddKeywordResults | src/modules/search/services/rrf.service.js:66-95 | The second loop keeps this over both lists. |
| RankFusion.FuseResults | src/modules/search/services/rrf.service.js:27-109 | The method returns the first topK of the specified ranking, numbered and rounded. |
| RankFusion.SortPermutes | src/modules/search/services/rrf.service.js:98 | Sorting only rearranges. |
| RankFusion.SortIsStable | src/modules/search/services/rrf.service.js:98 | No entry precedes one it does not outrank; equal scores keep their order. |
| RankFusion.RankingIsCorrect | src/modules/search/services/rrf.service.js:31-98 | Each id of either list once, with the sum of 1/(k + rank) over all its positions; descending, ties in order of first appearance. |
| FusedResults.ResultsAreRanked | src/modules/search/services/rrf.service.js:31-109 | Of the n ids of the two lists as many as slice(0, topK) keeps, numbered 1, 2, ..., each once, with the record of its first appearance, its last ranks and own scores, and its sum of 1/(k + rank) over all its positions rounded to the nearest millionth; higher sums first, equal ones in order of first appearance. |
| FusedResults.TotalIsSum | src/modules/search/services/rrf.service.js:34-95 | An id's score is the sum over both lists of 1/(k + rank) at every position it has. |
| FusedResults.RoundSixRounds | src/modules/search/services/rrf.service.js:101-106 | A rounded score is the nearest multiple of 10^-6, and of two as near the one farther from zero. |
| RankFusion.CutKeepsTheBest | src/modules/search/services/rrf.service.js:101 | No dropped id scores more than a kept one. |
| RankFusion.SwapKeepsScores | src/modules/search/services/rrf.service.js:34-95 | Swapping the two lists keeps every id and its score. |
| RankFusion.BothBeatOne | src/modules/search/services/rrf.service.js:35-98 | With distinct ids and at most k + 1 entries a list, every chunk found by both retrievers is ranked strictly ahead of every chunk found by one. |
| RankFusion.LongerListsCanTie | src/modules/search/services/rrf.service.js:35-98 | The bound is sharp for every k: there are lists of k + 2 distinct entries in which a chunk found by both only ties with one found once. |
| RankFusion.TieAtLengthTwoMore | src/modules/search/services/rrf.service.js:35-98 | In any two such lists, a chunk last in both scores what the first of one list scores. |
| RankFusion.TiedIsRankedBehind | src/modules/search/services/rrf.service.js:35-98 | There the chunk found twice is even ranked behind, since the other appeared first. |
| ContextSelector.SelectContext | src/modules/query/services/context-selector.service.js:27-124 | The loop with its sets, map and running total computes the greedy specification, which recomputes everything from the picks; exceptions included. |
| ContextSelector.GreedyIffExplained | src/modules/query/services/context-selector.service.js:49-105 | The outcome is the only one in which every candidate up to the stopping point is accounted for: picks ruled in and others passed over, each given the picks before it. |
| ContextSelector.SelectionKeepsLimits | src/modules/query/services/context-selector.service.js:49-123 | The selection is an order-preserving subsequence without a repeated id or text, at most maxChunks long, its token total exact and within the budget unless it is a single chunk. |
| ContextSelector.TokensInCharacters | src/modules/query/services/context-selector.service.js:68-74 | The tokens reported are a quarter of the characters selected, rounded up chunk by chunk, and 20 for each chunk; so these characters keep to the budget unless they are a single chunk. |
| ContextSelector.TruncatedInCharacters | src/modules/query/services/context-selector.service.js:50-74 | When truncated below the cap, some candidate would have pushed the characters past the budget. |
| ContextSelector.SameSnippetIff | src/modules/query/services/context-selector.service.js:62-66 | Two texts count as the same exactly when, trimmed and lower-cased, they agree over 150 characters. |
| ContextSelector.ChunksShowCandidates | src/modules/query/services/context-selector.service.js:95-104 | Each selected chunk shows its candidate's ids, text, scores, position and metadata, with the score for a missing vector score. |
| ContextSelector.DocCountIs | src/modules/query/services/context-selector.service.js:77-92 | The diversity rule counts the picks of a document, those without one under the name unknown. |
| ContextSelector.NothingLeftWithoutReason | src/modules/query/services/context-selector.service.js:55-87 | When not truncated, every candidate left out lacked content, repeats a selected chunk, or gave way to another document. |
| ContextSelector.TruncatedByALimit | src/modules/query/services/context-selector.service.js:50-74 | When truncated, the cap is reached or some candidate would have exceeded the budget. |
| ContextSelector.FourthIsFollowedByItsOwn | src/modules/query/services/context-selector.service.js:76-87 | With more than 5 candidates, a pick made when three of its document are already in is followed only by picks of that document, because the look-ahead starts no later than any later pick. |
| ContextSelector.LaterChunksFollowTheFourth | src/modules/query/services/context-selector.service.js:76-104 | The same about the returned chunks. |
| ContextSelector.OneDocumentPastThree | src/modules/query/services/context-selector.service.js:76-104 | At most one document contributes more than three chunks. |
| ContextSelector.NoNullNoThrow | src/modules/query/services/context-selector.service.js:81-83 | Without null candidates the selector never throws. |
| ContextSelector.LookAheadThrowsIff | src/modules/query/services/context-selector.service.js:81-83 | The look-ahead throws exactly when a null comes before the first unpicked candidate of another document. |
| ContextSelector.SelectionThrowsIff | src/modules/query/services/context-selector.service.js:49-87 | The selector throws exactly when some candidate, every one before it accounted for, reaches the diversity check with three chunks of its document in and meets a null that way. |
| ContextSelector.NullAfterFour | src/modules/query/services/context-selector.service.js:79-83 | A null right behind four chunks of one document makes it throw. |
| MembershipServices.MemberService.Invalidate | src/modules/members/member.service.js:149-152 | Removes exactly the cached entries under the organization's member keys and the user's organization keys. |
| MembershipServices.MemberService.ListMembers | src/modules/members/member.service.js:40-90 | Answer and state of the read-through list, cached only for the first page at the default limit; fails on a query with a cursor. |
| MembershipServices.MemberService.AddMember | src/modules/members/member.service.js:103-175 | Answer and state, with both refusals. |
| MembershipServices.MemberService.UpdateMemberRole | src/modules/members/member.service.js:190-273 | Answer and state, with the four refusals in their order. |
| MembershipServices.MemberService.RemoveMember | src/modules/members/member.service.js:287-343 | Answer and state, with the three refusals in their order. |
| MembershipServices.OrganizationService.Create | src/modules/organizations/organization.service.js:34-68 | The organization, its owner row and the invalidation. |
| MembershipServices.OrganizationService.ListForUser | src/modules/organizations/organization.service.js:77-125 | Answer and state of the read-through list, likewise. |
| MembershipServices.OrganizationService.GetById | src/modules/organizations/organization.service.js:133-175 | Answer and state of the read-through record. |
| MembershipSafety.StepActsOnTables | src/middleware/organization.middleware.js:55-76 | The caches never influence the tables: what a request does to them is a function of the tables and the request. |
| MembershipSafety.StepKeepsTables | src/modules/members/member.service.js:131-137 | Every step keeps the tables' constraints: one membership per user and organization, unique ids, rows of existing organizations. |
| MembershipSafety.OwnerRowsAreOwners | src/modules/members/member.service.js:223-228 | Counting OWNER rows counts owners. |
| MembershipSafety.OwnersStep | src/modules/members/member.service.js:103-343 | The owners of every organization after every step. |
| MembershipSafety.RoleChangeOrphansIff | src/modules/members/member.service.js:221-236 | A role change leaves no owner exactly when the only owner gives the role up under another spelling of their own id. |
| MembershipSafety.RemovalLeavesAnOwner | src/modules/members/member.service.js:310-325 | A removal always leaves an owner. |
| MembershipSafety.StepKeepsOwnedIff | src/modules/members/member.service.js:190-330 | A step keeps an owner in every organization if and only if it is not that role change. |
| MembershipSafety.NonOwnersCannotChangeOwners | src/modules/members/member.service.js:205-219 | A step by someone who is not an owner of an organization never changes its set of owners. |
| MembershipSafety.LookupAfterStep | src/modules/members/member.service.js:131-330 | A granted request writes the one membership it is about, with the role asked for, and leaves every other membership as it was; a refused one changes none. |
| MembershipGrants.OnlyManagersManage | src/middleware/role.middleware.js:22-40 | Without a row as OWNER or ADMIN in the organization nobody adds, changes or removes a member: nothing changes, and the answer is the refusal of strangers or of insufficient roles. |
| MembershipGrants.DecidedByRows | src/modules/members/member.service.js:103-330 | A request to add, change or remove a member is granted exactly when the rows give no reason against it, and otherwise answered with the first such reason and without effect. |
| MembershipGrants.GrantedAdd | src/modules/members/member.service.js:131-174 | A granted addition appends one row, for the user with that email, and answers with it. |
| MembershipGrants.GrantedRole | src/modules/members/member.service.js:238-272 | A granted change gives the target's one row in that organization the new role, in place, and answers with it. |
| MembershipGrants.GrantedRemoval | src/modules/members/member.service.js:327-342 | A granted removal deletes that row and no other. |
| MembershipGrants.CreationWrites | src/modules/organizations/organization.service.js:34-68 | A new organization has its creator as owner and only member. |
| MembershipGrants.ReadersAreMembers | src/middleware/organization.middleware.js:55-76 | The list of members is refused exactly to those without a row in the organization. |
| MembershipSafety.MembersReadShowsRows | src/modules/members/member.service.js:51-77 | Each line of a page of members is one membership of that organization, in order, with its own role and the email and name of its own user. |
| MembershipGrants.OrgsReadShowsRows | src/modules/organizations/organization.service.js:87-112 | Each line of a user's organizations is one of their memberships, in order, with that organization and their role. |
| MembershipGrants.RecordShowsRow | src/modules/organizations/organization.service.js:133-175 | An organization's record shows it with the reader's own role, and is refused to those without a row there. |
| MembershipSafety.KeysApart | src/modules/members/member.service.js:21-23 | Member lists, organization lists and records never share a cache key. |
| MembershipSafety.PatternsReach | src/modules/members/member.service.js:28-30 | The invalidation patterns match exactly the keys of their organization or user. |
| MembershipSafety.InvalidationKeepsCoherent | src/modules/members/member.service.js:149-152 | If a write touches one membership and the entries of its user and organization go, all entries left are still fresh. |
| MembershipSafety.ShowMembersIsFresh | src/modules/members/member.service.js:43-87 | In a coherent state the list answered, cached or not, is the table's, and the state stays coherent. |
| MembershipSafety.ShowOrgsIsFresh | src/modules/organizations/organization.service.js:80-124 | The same for a user's organizations. |
| MembershipSafety.ShowOrgIsFresh | src/modules/organizations/organization.service.js:133-175 | The same for a single organization, including the refusal of non-members. |
| MembershipSafety.ReadsAreFresh | src/modules/organizations/organization.service.js:77-175 | In a consistent state every answer to a read, cached or not, is what the tables say at that moment. |
| MembershipRuns.OddSpellingOrphans | src/modules/members/member.service.js:222 | A concrete organization that loses its only owner to a role change under another spelling. |
| MembershipRuns.RoleChangesListIff | src/modules/members/member.service.js:239-255 | A change of role changes the first page of the target's organizations exactly if it shows the membership. |
| MembershipRuns.StepKeepsConsistentIff | src/modules/members/member.service.js:26-87 | A step keeps every cached list and record equal to a fresh read if and only if it is not a granted removal or change of role under another spelling of the target's id while an affected entry of the target is cached. |
| MembershipRuns.CachedRoleIsCurrentIff | src/modules/members/member.service.js:253-255 | After a change of role the target's cached record is current exactly when the request spelled the id as stored. |
| MembershipRuns.RemovedMemberStillServed | src/modules/members/member.service.js:328-334 | A member removed under another spelling of their id is no longer in the table but still answered from the cached record. |
| MembershipRuns.OddSpellingServesRemoved | src/modules/members/member.service.js:328-334 | A concrete run from an empty cache in which that happens. |
| MembershipRuns.RunKeepsOwnersIff | src/modules/members/member.service.js:190-330 | In every state of a run every organization has an owner, if and only if no step is an only owner giving the role up under another spelling of their own id. |
| MembershipRuns.RunKeepsCachesIff | src/modules/members/member.service.js:26-87 | In every state of a run every cached entry equals a fresh read, if and only if no step leaves a stale entry. |
| MembershipRuns.EveryRunKeepsOwnersAndCaches | src/modules/members/member.service.js:190-330 | In particular every run whose target ids are spelled as stored keeps both, in every state. |
| Pagination.ParsePaginationParams | src/utils/pagination.js:16-32 | The limit asked for, cut at 100 and 20 when missing or below 1; the cursor if there is one, otherwise the page, 1 when missing or below. |
| Pagination.OffsetPagesTile | src/utils/pagination.js:41-51 | The offset pages up to any page are a prefix of the list, all of it exactly when hasNextPage is false; a page is non-empty exactly up to totalPages, and then hasPrevPage says whether rows precede it; total, page and limit are reported as given. |
| Pagination.Base64RoundTrip | src/utils/pagination.js:82-97 | Decoding the unpadded base64url encoding of any bytes gives the bytes back. |
| Pagination.EncodesSixBits | src/utils/pagination.js:82-85 | Each three bytes, read as one number, are written as its four digits in base 64, in the alphabet of section 5 of RFC 4648; of one or two last bytes two or three digits are written. |
| Pagination.Utf8RoundTrip | src/utils/pagination.js:82-97 | Decoding the UTF-8 bytes of any text gives the text back. |
| Pagination.CursorRoundTrip | src/utils/pagination.js:82-97 | Decoding the cursor of any value gives the value back, and only the empty value has an empty cursor. |
| Conversations.ConversationRepository.CreateMessage | src/modules/conversations/conversation.repository.js:143-158 | Appends to this conversation's log and changes no other. |
| Conversations.ConversationRepository.ListMessages | src/modules/conversations/conversation.repository.js:248-277 | The slice after the cursor row, or after the skipped rows; fails on a negative skip. |
| Conversations.ConversationRepository.CountMessages | src/modules/conversations/conversation.repository.js:285-289 | The number of messages of the conversation. |
| Conversations.ListMessages | src/modules/conversations/conversation.service.js:188-213 | The choice between offset and cursor listing, with limit + 1 rows fetched for the latter. |
| Conversations.LogIsProper | src/modules/conversations/conversation.repository.js:248-251 | Each conversation's messages inherit non-empty, distinct ids from the table, so the results on walks apply to every conversation. |
| Conversations.OnePage | src/utils/pagination.js:60-75 | From the cursor left after v messages, a request returns exactly the next messages, and a next cursor exactly when some remain. |
| Conversations.WalkVisitsEachOnce | src/utils/pagination.js:60-75 | Following nextCursor while messages are appended: the pages together are always a prefix of the latest log, and nextCursor is null exactly on the last page, when they are all of it. |
| Conversations.PagesOfFixedLog | src/utils/pagination.js:60-75 | A fixed list of n messages takes max(1, ceil(n / limit)) pages and is visited completely. |
| Conversations.UnknownCursor | src/modules/conversations/conversation.repository.js:269-276 | A cursor that names no message of the conversation gives an empty last page. |
| Conversations.OffsetFailsOnNegativePage | src/modules/conversations/conversation.service.js:191-196 | Offset listing fails exactly on a negative page. |
| Conversations.OffsetPagesLeafThrough | src/modules/conversations/conversation.service.js:189-205 | Offset pages 1 to p together are the first p * limit messages, in order. |
| HttpClient.ResilientFetch | src/utils/http-client.js:81-197 | The retry loop, its shared catch block included, equals the recursive specification in result, calls and waiting time. |
| HttpClient.RunInClosedForm | src/utils/http-client.js:95-180 | A run is decided at exactly one attempt k, the first that is not repeated; it makes k + 1 calls, waits before each repetition, and ends as attempt k says. |
| HttpClient.EndsAs | src/utils/http-client.js:29-191 | Which attempts are repeated, by status, error name and code, and how a run ends: the body, the status or failure thrown, or the fallback. |
| HttpClient.CallsBounded | src/utils/http-client.js:95 | At most max(0, retries + 1) calls. |
| HttpClient.PermanentStatusIsThrown | src/utils/http-client.js:125-128 | A permanent status is thrown when first met and never replaced by the fallback. |
| HttpClient.TransientToTheEnd | src/utils/http-client.js:176-191 | Transient failures up to the last attempt use up all attempts and end in the fallback or the last error. |
| HttpClient.FallbackIffExhausted | src/utils/http-client.js:177-189 | A fallback changes a failing run exactly when its attempts were exhausted without a permanent status. |
| HttpClient.BackoffBounded | src/utils/http-client.js:60-64 | The total waiting time is at most min(retries * 10000, base * (2^retries - 1 + retries)). |
| HttpClient.BackoffAtLeast | src/utils/http-client.js:60-64 | A run of k + 1 calls waits at least min(10000, base * (2^k - 1)). |
| HttpClient.BackoffExact | src/utils/http-client.js:60-64 | While no single wait can reach the cap it waits exactly base times 2^k - 1 and the random parts drawn. |
| DocumentAccess.DocumentAccessService.CanAccessDocument | src/modules/documents/services/document-access.service.js:26-72 | The check with its early returns decides the declared access relation. |
| DocumentAccess.AnyCovers | src/modules/documents/services/document-access.service.js:56-71 | The scan finds a grant of sufficient weight that covers the subject exactly if there is one. |
| DocumentAccess.DocumentAccessService.GetAccessibleDocumentIds | src/modules/documents/services/document-access.service.js:83-143 | The push loop returns the usable documents of the organization in order; null exactly for owners and admins. |
| DocumentAccess.BulkAgreesWithSingle | src/modules/documents/services/document-access.service.js:26-143 | An id is in the bulk result exactly when the single check grants access to it, at every level. |
| DocumentAccess.AccessIsMonotone | src/modules/documents/services/document-access.service.js:46-69 | Access at a level implies access at every lower level. |
| DocumentAccess.WhatTheLevelsGive | src/modules/documents/services/document-access.service.js:46-71 | What someone who neither manages the organization nor created the document may do at each level: without grants all read and all but viewers write; a READ grant gives reading, a WRITE grant writing too, only the highest managing. |
| DocumentAccess.CreatorsAndManagers | src/modules/documents/services/document-access.service.js:28-45 | The creator of a document and owners and admins may do everything. |
| DocumentAccess.OtherOrganizationIff | src/modules/documents/services/document-access.service.js:28-39 | For a document of another organization the check passes exactly for owners and admins. |
| DocumentAccess.DocumentAccessService.GrantPermission | src/modules/documents/services/document-access.service.js:148-170 | Exactly when a grant is made, with which error otherwise, and the one row it adds. |
| DocumentAccess.DocumentAccessService.RevokePermission | src/modules/documents/services/document-access.service.js:200-224 | Exactly when a revocation succeeds, with which error otherwise, and the one row it removes. |
| DocumentAccess.GrantTakesAwayIff | src/modules/documents/services/document-access.service.js:48-53 | A grant takes someone's access away exactly when it is the document's first, they had default access only, and it does not cover them. |
| DocumentAccess.FurtherGrantOnlyAdds | src/modules/documents/services/document-access.service.js:55-69 | A grant on a document that already has one never removes anyone's access. |
| DocumentAccess.GrantingKeepsManagement | src/modules/documents/services/document-access.service.js:149-159 | Whoever may manage a document's grants still may after another grant. |
| DocumentAccess.RevokeUndoesGrant | src/modules/documents/services/document-access.service.js:148-224 | A grant can always be revoked by whoever made it, which restores the grants and with them all access. |

## Left out

- RateLimiter.AdmissionsBounded: counts an admission at the instant of its INCR, not when the response is sent; responses delayed by different amounts could cluster. Admissions made while Redis fails are not counted by Redis and not bounded.
- RedisStore.PatternHitsBelow: key parts contain none of the characters special in a Redis glob; bracket classes and escapes in patterns are not modelled, and no pattern here uses them.
- RedisStore.RedisService.DelPattern: SCAN is a walk over the buckets of an unchanged table that may repeat keys; writes by other clients between the SCAN calls are not modelled, nor is the COUNT hint.
- RankFusion.FuseResults: k is not a negative integer, for which a term of the sum would be infinite; the same holds for AddVectorResults and AddKeywordResults.
- ContextSelector.SelectContext: the limits are those in force after the defaults; lower-casing is an arbitrary function.
- Chunker.ChunkDocument: the constructor's environment defaults are not modelled, and the argument is present.
- ChunkStore.DocumentChunkRepository.SaveChunksWithEmbeddings: row ids, timestamps and the metadata column are not modelled.
- SaveTransactions.ReadersSeeOneSave: saves are the only writers, their rows are numbered 0..n-1 as the pipeline numbers them, and rows are locked one at a time; deadlock detection is one of the reasons to abort.
- Processing.ChunksAreNeverMixed: progress out of QUEUED is not claimed, since a null or deduplicated job id can leave a document queued; deletion of documents is not modelled.
- MembershipServices.MemberService.ListMembers: that the database client refuses a NaN number of rows to skip is assumed; the same holds for ListForUser.
- MembershipRuns.EveryRunKeepsOwnersAndCaches: calls are atomic; races between the check and the write inside one call, which has no transaction, are not modelled. Suspended memberships, API keys, registration and deletion of organizations are not modelled, and Redis stays ready.
- Conversations.ConversationRepository.ListMessages: a cursor that names a message of another conversation counts as unknown; sources, deletion of messages and ties of creation times are not modelled. That the database client refuses a negative skip is assumed.
- Pagination.CursorRoundTrip: texts are sequences of Unicode scalar values, so a lone surrogate is no value here; a malformed cursor may get more replacement characters than from the original decoder, and padding characters in it are skipped like other foreign ones.
- HttpClient.ResilientFetch: the timeout itself is one of the failures an attempt may meet; request headers and bodies are not modelled.
- DocumentAccess.DocumentAccessService.CanAccessDocument: document ids are compared as stored.
- The `me` cache of the auth service and the RAG answer cache, whose keys leave out what the answer depends on.
- Offset paging of documents, which passes an object where numbers are expected.
- Regex heuristics (query rewriting, PII, prompt security, document intelligence, knowledge graph), which have no specification beyond their patterns.
- HTTP plumbing, schemas, logging, metrics, quotas and shutdown order, which would only add easy members.
- PostgreSQL, pgvector, full-text ranking, BullMQ, password hashing, tokens and the model providers, which appear as tables, sequences, transactions or parameters only.
