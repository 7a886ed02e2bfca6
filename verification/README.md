# Verified model of the OData batch, `$apply` and quota core

A Dafny model of five parts of the repository, each kept in the form of its source: classes whose
methods update their fields where the source does, loops with invariants where it loops, functions
where it computes. Every such method is proved equal to a specification function, and the laws
the repository depends on are proved about those functions for all inputs and all runs.

| part | files |
|---|---|
| multipart `$batch` codec | `ByteStrings`, `BufferQueue`, `MultipartParser`, `ChunkInsensitivity`, `MultipartSerializer`, `FramingRoundTrip`, `MessageContents`, `HttpRoundTrip`, `BatchRoundTrip`, `RequestReading`, `SizeTracker` |
| `$batch` execution | `BatchProtocol`, `BatchAtomicity`, `BatchReferences`, `BatchVisibility`, `BatchDependencies`, `BatchOutcomes`, `BatchRefusals`, `ContentIdResolution` |
| `$apply` compilation | `ApplyPlanner`, `PlanAcceptance`, `PlanOrder`, `SqlTokens`, `SqlFilter`, `SqlAcceptance`, `SqlMeaning`, `SqlEmptyOr`, `SqlTranslator`, `KeysetPaging`, `SqlQuery`, `QueryReading`, `QueryPaging`, `JoinManager`, `FieldResolution` |
| cascade cycle guard | `CompositionCycles` |
| codecs and quotas | `PercentEncoding`, `KeyLiteral`, `KeyRoundTrip`, `KeyDistinctness`, `UrlRewriting`, `Etag`, `EtagHeaders`, `TenantThrottle`, `TenantQuotas` |

`dafny verify dfyconfig.toml` checks the whole project.

## Conventions

- A byte is the character with the same code. Section 5.1 of RFC 2046 and section 11.7 of OData
  Version 4.0 Part 1 are the wire formats behind the codec.
- Sub-request handlers, begin, commit and rollback have arbitrary outcomes (`BatchProtocol.World`);
  asynchronous code is the sequence of steps it awaits, and effects are recorded in a trace.
- SQL is a token sequence, read by a reader with SQL's precedence and three truth values; `$n`
  and the k-th `?` index the bound parameters. Comparison of values is any relation.
- Thrown errors are `Result` or `Option` values; a limit of 0 stands for one that is not set.

## Where the code does not do what one would expect

Each is proved, together with when it happens: exactly, unless a condition is named.

- A chunk that ends 0 or 1 bytes past a delimiter hides what follows it
  (`ChunkInsensitivity.HiddenClosing`; exactly when: `ChunkInsensitivity.ChunkInsensitivity`).
- A changeset boundary with capital letters is printed but cannot be read
  (`BatchRoundTrip.CapitalBoundary`; exactly when: `BatchRoundTrip.RoundTrip`).
- A request without a single header has no blank line in front of its body, and loses it
  (`RequestReading.HeaderlessBodyLost`, for bodies of one line without a colon; with a header the body
  is kept: `RequestReading.RequestRead`).
- An empty `or` is left out of the WHERE clause instead of being false (`SqlMeaning.EmptyOrDropped`;
  exactly for which rows: `SqlEmptyOr.EmptyOrExactly`).
- A plan takes a stage's `top` after its filters, wherever it was written
  (`ApplyPlanner.OrderForgotten`). What every plan computes is `ApplyPlanner.PlanMeansRearranged`. Where
  every step does something and no filter stands twice in a stage, a plan is faithful exactly to
  canonical pipelines (`PlanOrder.FaithfulExactly`); a filter behind the sorting is harmless exactly
  with sortings that commute with filters (`PlanOrder.FaithfulWhenCommuting`).
- A commit that fails with an error carrying a status below 400 is reported as success although the
  changeset was rolled back (`BatchAtomicity.MaskedRollback`; exactly when, in terms of the reported
  error: `BatchAtomicity.ReportedSuccess`; excluded by: `BatchAtomicity.ChangesetAtomicity`).
- A dependency on a member of a changeset that was rolled back counts as met if that member itself was
  answered below 400 (`BatchOutcomes.RolledBackDependencyRuns`; when a request runs, exactly:
  `BatchOutcomes.EveryAnswerIsRight`).
- Results that are paged by the fields they are grouped by are queried without an ORDER BY, so rows
  can be missed (`QueryPaging.UnorderedPagesLoseRows`); with an ordering of its own, a last stage's
  top and skip do not survive paging (exactly when: `QueryPaging.TopAndSkipKept`).
- String keys that hold percent-encoded text are decoded once too often (`KeyRoundTrip.PercentLost`;
  exactly when: `KeyRoundTrip.StringReadBackExactly`).
- Two composite keys can share a path (`KeyDistinctness.CompositeKeysCollide`): exactly the keys with
  a value that holds `,name=` for the name before or behind it are not told by their text
  (`KeyDistinctness.KeyToldByText`), nor by their path (`KeyDistinctness.PathTellsKey`,
  `KeyDistinctness.PathMistaken`).
- A single-property ETag with a comma does not survive the If-Match header (exactly when:
  `Etag.SingleHeaderRoundTrip`).
- Cleaning up may detach the record a hit is being counted on (`TenantThrottle.HitLost`; exactly
  when: `TenantThrottle.HitRecorded`).

## Model

| member | source | states |
|---|---|---|
| `BufferQueues.BufferQueue.Push` | src/util/buffer-queue.ts:8-12 | the unread bytes grow by exactly the chunk |
| `BufferQueues.BufferQueue.Consume` | src/util/buffer-queue.ts:18-55 | drops exactly the first n unread bytes (head offset, compaction and cache kept consistent); refuses more than there are |
| `BufferQueues.BufferQueue.Slice` | src/util/buffer-queue.ts:57-101 | the unread bytes between two positions, assembled across chunks; refuses a range outside them |
| `BufferQueues.BufferQueue.ByteAt` | src/util/buffer-queue.ts:112-145 | the unread byte at a position, through the cache; afterwards the cache still names the byte it points at |
| `BufferQueues.BufferQueue.StartsWith` | src/util/buffer-queue.ts:103-110 | whether the prefix occurs at the offset of the unread bytes |
| `BufferQueues.BufferQueue.IndexOf` | src/util/buffer-queue.ts:147-166 | the least match at or after a position, or -1 |
| `BufferQueues.Replay` | src/util/buffer-queue.ts:1-167 | any sequence of calls is answered as on one flat byte string |
| `MultipartParser.StreamingBatchParser.ConsumeAnchoredFirstBoundary` | src/services/multipart-batch.parser.ts:310-347 | finds the first delimiter only at the start (after one CRLF), waits while it may still come, refuses anything else |
| `MultipartParser.StreamingBatchParser.FindNextBoundary` | src/services/multipart-batch.parser.ts:286-299 | position of the next delimiter and whether it closes, judged from the two bytes behind it only if both are buffered |
| `MultipartParser.StreamingBatchParser.EnforceStreamingPartLimit` | src/services/multipart-batch.parser.ts:301-308 | refuses exactly when the bytes that must already belong to the part exceed the limit |
| `MultipartParser.StreamingBatchParser.HandlePart` | src/services/multipart-batch.parser.ts:349-391 | a completed part becomes a request, or a nested changeset parsed under its own lower-cased boundary with shared counters |
| `MultipartParser.StreamingBatchParser.ProcessBuffer` | src/services/multipart-batch.parser.ts:197-284 | the resumable loop follows the step function until it waits, ends or refuses |
| `MultipartParser.StreamingBatchParser.ParseBuffer` | src/services/multipart-batch.parser.ts:185-195 | whole-buffer parsing is one final pass of the step function |
| `MultipartParser.StreamingBatchParser.Parse` | src/services/multipart-batch.parser.ts:170-183 | feeding chunks is running the step function after each, with the payload limit checked per chunk |
| `ChunkInsensitivity.HeaderEndStable` | src/services/multipart-batch.parser.ts:499-510 | more input never moves a header end already found, and a new one cannot end inside old input |
| `ChunkInsensitivity.AnchorStable` | src/services/multipart-batch.parser.ts:310-347 | the decision on the first delimiter survives more input once it is made |
| `ChunkInsensitivity.Absorb` | src/services/multipart-batch.parser.ts:197-284 | running on part of the input and then on the rest is running on all of it, unless the cut falls 0 or 1 bytes past a matched delimiter with sensitive bytes behind it |
| `ChunkInsensitivity.FeedAgrees` | src/services/multipart-batch.parser.ts:170-195 | for every chunk list, from every parser state: a whole-buffer refusal is a streaming refusal; an acceptance is the same result exactly when no cut is bad |
| `ChunkInsensitivity.LimitedFeed` | src/services/multipart-batch.parser.ts:104-114 | the payload limit depends on the total only, not on the chunks |
| `ChunkInsensitivity.ChunkInsensitivity` | src/services/multipart-batch.parser.ts:38-58 | streaming and whole-buffer parsing give the same requests, or both refuse, if and only if the whole is refused or no chunk ends 0 or 1 bytes past a matched delimiter before `--`, an empty header block or a lone line feed |
| `ChunkInsensitivity.HiddenClosing` | src/services/multipart-batch.parser.ts:286-299 | a split between delimiter and closing dashes turns an accepted batch into a refused one |
| `ChunkInsensitivity.EarlyRejectionIsDue` | src/services/multipart-batch.parser.ts:241-252 | an early size refusal is only made when the completed part would exceed the limit, or the part never completes |
| `ChunkInsensitivity.BodyBufferBounded` | src/services/multipart-batch.parser.ts:158-168 | after every accepted pass in body state the buffer holds at most maxPartBodyBytes + boundaryHeadroom bytes |
| `MultipartSerializer.GroupResponses` | src/services/multipart-batch.serializer.ts:32-47 | the grouping loop is the grouping function |
| `MultipartSerializer.GroupingIsFaithful` | src/services/multipart-batch.serializer.ts:32-47 | groups, flattened, are the entries in order; neighbouring changesets differ in id |
| `MultipartSerializer.RenderChangesetPart` | src/services/multipart-batch.serializer.ts:59-78 | one changeset as bytes: header, nested parts in order, closing delimiter |
| `MultipartSerializer.SerializeMultipartBatch` | src/services/multipart-batch.serializer.ts:15-30 | the batch as bytes: all groups in order, then the closing delimiter |
| `FramingRoundTrip.HeaderBlockEnd` | src/services/multipart-batch.parser.ts:499-510 | clean header lines end exactly at the blank line behind them |
| `FramingRoundTrip.SplitJoin` | src/services/multipart-batch.parser.ts:512-524 | joined clean lines split into the same lines |
| `FramingRoundTrip.Framing` | src/services/multipart-batch.parser.ts:197-284 | parsing a frame of parts without inner delimiters is handling the parts in order, whatever follows the closing delimiter |
| `FramingRoundTrip.LeadingBreakSkipped` | src/services/multipart-batch.parser.ts:310-347 | one line break in front of the first delimiter changes nothing |
| `FramingRoundTrip.OtherStartRefused` | src/services/multipart-batch.parser.ts:310-347 | anything else in front of it is refused, nothing at all as a missing boundary |
| `FramingRoundTrip.AcceptedIsClosed` | src/services/multipart-batch.parser.ts:185-195 | whatever is accepted holds the closing delimiter |
| `MessageContents.FinalHeadersSay` | src/services/multipart-batch.serializer.ts:90-139 | a printed entry says under every name what its own last header of that name in any case says; where that is missing or empty, a structured body is typed as JSON and a body has its length |
| `MessageContents.BodyRead` | src/services/multipart-batch.parser.ts:444-464 | a body is refused exactly when its type mentions JSON in any case and it is no JSON; otherwise it carries exactly its bytes: none for no bytes, else JSON, text or raw by its type |
| `HttpRoundTrip.RequestLineWords` | src/services/multipart-batch.parser.ts:422-435 | the status line is read as version, then status |
| `HttpRoundTrip.HeadersReadBack` | src/services/multipart-batch.parser.ts:512-524 | printed header lines parse to the header map, later names replacing earlier ones, lower-cased |
| `HttpRoundTrip.ResponseParsed` | src/services/multipart-batch.serializer.ts:90-112 | a printed response parses to its version and status, under every name to the entry's own final value, and to the bytes of the entry's own body in the form its type asks for |
| `HttpRoundTrip.PartHeaders` | src/services/multipart-batch.serializer.ts:80-88 | the part headers give back content type and Content-ID |
| `BatchRoundTrip.EntryAccepted` | src/services/multipart-batch.parser.ts:349-391 | handling one printed entry appends exactly the request it reads back as |
| `BatchRoundTrip.EntryRefused` | src/services/multipart-batch.parser.ts:73-101 | one operation too many, in the batch or in its changeset, is refused as that |
| `BatchRoundTrip.TooDeep` | src/services/multipart-batch.parser.ts:116-127 | a changeset nested too deeply is refused before it is looked at |
| `BatchRoundTrip.ChangesetAccepted` | src/services/multipart-batch.parser.ts:353-379 | handling a printed changeset parses its payload under the lower-cased boundary |
| `BatchRoundTrip.CapitalBoundary` | src/services/multipart-batch.parser.ts:353-355 | a changeset whose boundary has capitals is refused |
| `BatchRoundTrip.RoundTrip` | src/services/multipart-batch.serializer.ts:15-30 | parsing the printed batch gives back every entry with its changeset, in order, if and only if all changeset boundaries are lower-case and no limit on payload, parts, operations, changesets or depth is exceeded; otherwise it is refused |
| `BatchRoundTrip.ReadBackInOrder` | src/services/multipart-batch.serializer.ts:32-47 | what is read back mirrors the entries one by one: Content-ID, status, the entry's own headers with the two defaults, and the bytes of its own body; and, for distinct boundaries, the same grouping: no changeset exactly where there was none, and two requests share one exactly when all entries between them were of one |
| `RequestReading.RequestRead` | src/services/multipart-batch.parser.ts:422-475 | a client's request, with any header names and order, is read as its method in upper case, its target, its last-wins headers and its exact body by type; refused exactly for broken JSON |
| `RequestReading.HeaderlessBodyLost` | src/services/multipart-batch.parser.ts:437-442 | a request without headers is read without its body |
| `RequestReading.PartRead` | src/services/multipart-batch.parser.ts:381-389 | a part with a request is appended under its Content-ID or the next automatic id, or refused for broken JSON or the limit it exceeds |
| `RequestReading.OtherPartRefused` | src/services/multipart-batch.parser.ts:391 | a part that is neither request nor changeset is refused |
| `RequestReading.BatchRead` | src/services/multipart-batch.parser.ts:185-195 | a client's batch is read as the requests that were sent, in order, if and only if no limit is exceeded and no JSON body is broken |
| `RequestReading.ChangesetPartRead` | src/services/multipart-batch.parser.ts:353-379 | a changeset, its boundary quoted or not, is refused when too deep, unreadable or empty; else its requests are appended under its Content-ID or its boundary |
| `SizeTracker.ResponseSizeTracker.PrepareMultipartTrackerState` | src/controllers/batch.controller.ts:3008-3027 | bytes for opening and closing changesets, and the changeset left open |
| `SizeTracker.ResponseSizeTracker.Track` | src/controllers/batch.controller.ts:2962-2990 | both totals after one entry, and refusal exactly when their sum exceeds a positive limit |
| `SizeTracker.ResponseSizeTracker.Finalise` | src/controllers/batch.controller.ts:2992-3006 | closing bytes added once, and the limit checked again |
| `SizeTracker.TrackAll` | src/controllers/batch.controller.ts:2948-3040 | every surviving prefix satisfies buffered + serialized <= limit; the first that does not is reported |
| `SizeTracker.BufferedIsBodies` | src/controllers/batch.controller.ts:2986-2990 | the bytes counted as held in memory are exactly those of the bodies |
| `SizeTracker.TrackerIsExact` | src/controllers/batch.controller.ts:3063-3096 | the final estimate is the length of the printed batch, short by two bytes for each literal escaped line break in a Content-ID |
| `SizeTracker.TotalEscapesZero` | src/controllers/batch.controller.ts:3063-3090 | so it is exact if and only if no Content-ID contains that text |
| `SizeTracker.TrackerExactWhenRun` | src/controllers/batch.controller.ts:827-857 | ids are sanitised to tokens before a batch is run, so on every batch that is run the tracker is exact |
| `SizeTracker.JsonTrackerIsExact` | src/controllers/batch.controller.ts:3098-3116 | for JSON the final estimate is the length of the envelope around the entries |
| `CompositionCycles.BuildAdjacency` | src/util/composition-validation.ts:67-101 | the adjacency map is the cascade graph: every cascade relation with a registered target, in order, and nothing else |
| `CompositionCycles.ClosedSuffix` | src/util/composition-validation.ts:123-128 | the labels from a node on the stack back to it are a closed walk |
| `CompositionCycles.RankedMeansAcyclic` | src/util/composition-validation.ts:118-137 | finishing numbers that fall along every edge exclude cycles |
| `CompositionCycles.CascadeSearch.Dfs` | src/util/composition-validation.ts:118-137 | terminates on every graph; keeps stacks, colours and edge labels aligned; reports only real cycles |
| `CompositionCycles.CascadeSearch.SearchAll` | src/util/composition-validation.ts:139-142 | reports something if and only if the graph has a directed cycle |
| `CompositionCycles.SameCycles` | src/util/composition-validation.ts:67-101 | cycles of the map are cycles of the declared cascade relations |
| `CompositionCycles.ValidateCompositionCascadeCycles` | src/util/composition-validation.ts:60-143 | sound and complete: reports exist exactly when a cascade cycle exists, each is one, and strict mode throws exactly then |
| `SqlMeaning.AndChain` | src/services/postgres-apply-executor.ts:757-817 | pieces joined by AND read as their conjunction, consuming their parameters in order |
| `SqlMeaning.OrChain` | src/services/postgres-apply-executor.ts:757-817 | the same for OR, below AND in precedence |
| `SqlMeaning.OperationReads` | src/services/postgres-apply-executor.ts:819-903 | each emitted property operation has the operation's three-valued meaning and uses exactly its own parameters |
| `SqlMeaning.WhereTranslation` | src/services/postgres-apply-executor.ts:742-817 | for every accepted filter tree, in both dialects, the emitted tokens read with SQL precedence have the tree's three-valued meaning; the code's reading of an empty `or` is named |
| `SqlMeaning.EmptyOrIrrelevant` | src/services/postgres-apply-executor.ts:757-817 | trees without an empty `or` mean the same under either reading of it |
| `SqlMeaning.EmptyOrDropped` | src/services/postgres-apply-executor.ts:757-817 | an empty `or` beside a true condition: false as a disjunction, true as emitted |
| `SqlEmptyOr.EmptyOrExactly` | src/services/postgres-apply-executor.ts:757-817 | the emitted condition keeps a row that logic drops exactly when the row leans on an empty `or`: in a conjunction that holds, or in every disjunct that holds; it never drops a row that logic keeps |
| `SqlMeaning.HavingTranslation` | src/services/postgres-apply-executor.ts:568-677 | for every accepted list of HAVING expressions the emitted clause has their three-valued conjunction as its meaning |
| `SqlAcceptance.WhereAccepted` | src/services/mysql-apply-executor.ts:752-913 | a tree is translated exactly when its fields are columns, its operators are known to the dialect and every level has something to say |
| `SqlAcceptance.HavingClauseAccepted` | src/services/mysql-apply-executor.ts:570-678 | a HAVING clause is emitted exactly for one or more expressions of columns, known comparators and non-empty connectives |
| `SqlTranslator.Translator.BuildPropertyCondition` | src/services/mysql-apply-executor.ts:814-913 | emits the condition and pushes exactly its parameters |
| `SqlTranslator.Translator.VisitWhereNode` | src/services/mysql-apply-executor.ts:752-812 | emits the tree's clause with its parameters, or refuses and leaves the parameter list as it was |
| `SqlTranslator.Translator.TranslateHavingExpression` | src/services/mysql-apply-executor.ts:596-678 | emits the expression with its parameters, or refuses and leaves the list as it was |
| `SqlTranslator.Translator.BuildHavingClause` | src/services/postgres-apply-executor.ts:568-593 | emits the clause with its parameters, or refuses and leaves the list as it was |
| `KeysetPaging.BuildSkipTokenPredicate` | src/services/postgres-apply-executor.ts:471-501 | no predicate without descriptors or values, an error for a token of the wrong length, else the OR of AND-branches with the tokens pushed in order |
| `KeysetPaging.CreateSkipTokenValues` | src/services/postgres-apply-executor.ts:503-515 | the token of a row is its descriptor values in order; none if there are no descriptors or a field is missing |
| `KeysetPaging.PredicateMeansAfter` | src/services/postgres-apply-executor.ts:471-501 | under mixed directions the predicate is true exactly for rows lexicographically after the token, and never unknown for non-null fields |
| `KeysetPaging.MatchingIsSuffix` | src/services/postgres-apply-executor.ts:225-236 | with strictly ordered rows the predicate selects exactly the rows behind the token's row |
| `KeysetPaging.PagingEnumeratesAll` | src/services/postgres-apply-executor.ts:205-281 | following the tokens page by page ends after at most one request per row plus one and yields the full sorted list, once each |
| `SqlQuery.Execute` | src/services/mysql-apply-executor.ts:160-240 | the stage loop and the composition of the query follow their function: WHERE and HAVING stage by stage, then the skip token, on one parameter list; the last stage is ordered and cut by the last SELECT |
| `SqlQuery.WholeQueryReads` | src/services/mysql-apply-executor.ts:446-458 | the composed text read from the front with one running count of placeholders, in both dialects: every condition has the meaning of its clause, and the count ends at the number of parameters |
| `QueryReading.BuiltQueryRead` | src/services/mysql-apply-executor.ts:313-458 | read back, a composed query names its stages in order, each with its SELECT and GROUP BY words, WHERE and HAVING exactly where it has conditions, its ordering and cuts; the last SELECT reads from the last stage, filters exactly when there is a token, and ends with that stage's ORDER BY, the limit and the offset |
| `QueryReading.ConditionsInOrder` | src/services/mysql-apply-executor.ts:446-458 | the n-th condition of the text is the n-th of what is read: WHERE, then HAVING, stage by stage, then the last WHERE |
| `QueryPaging.SortedIs` | src/services/postgres-apply-executor.ts:730-740 | sorting by an ordering loses and invents no row and puts them in strict order |
| `QueryPaging.QueriesYield` | src/services/mysql-apply-executor.ts:205-282 | where the last stage is ordered by the fields that are paged by, over rows stored in any order: following the tokens through whole queries ends and yields the sorted rows, the stage's skip taken from every page, its top kept only where it is not above the page size |
| `QueryPaging.QueriesEnumerateAll` | src/services/mysql-apply-executor.ts:205-282 | without a top or skip of the last stage: all rows, once, sorted by the ORDER BY that stands in the query |
| `QueryPaging.TopAndSkipKept` | src/services/postgres-apply-executor.ts:215-226 | paging yields what the stage's top and skip ask for if and only if top is not above the page size, or the rows fit on the first page, or nothing is skipped and top is not below the number of rows |
| `QueryPaging.UnorderedPagesLoseRows` | src/controllers/crud-controller-factory.ts:7220-7256 | without an ordering of the last stage there is no ORDER BY, and of one row more than a page, stored in reverse, the first never comes |
| `ApplyPlanner.BuildApplyExecutionPlan` | src/services/odata-apply-planner.service.ts:56-230 | the loop builds the plan of the planning function, or fails with its error |
| `PlanAcceptance.PlannedExactly` | src/services/odata-apply-planner.service.ts:56-230 | a pipeline is planned exactly when it is not empty, holds no `bottom`, sorts and pages only behind an aggregation if it has one and at most once in each stage, and in strict mode filters its source only by what the repository can carry |
| `PlanAcceptance.PushedExactly` | src/services/odata-apply-planner.service.ts:91-120 | a filter of the source is handed to the repository exactly when it translates, otherwise kept for later, in order |
| `ApplyPlanner.KeepAllCommutes` | src/services/odata-apply-planner.service.ts:256-262 | filters given to the repository and filters kept for later may be applied in either order |
| `ApplyPlanner.StepIsFaithful` | src/services/odata-apply-planner.service.ts:91-192 | in canonical position, adding a transformation to the plan is applying it to the plan's result |
| `ApplyPlanner.PlanningPreservesMeaning` | src/services/odata-apply-planner.service.ts:56-230 | the plan of a canonical pipeline computes on all rows what the pipeline computes step by step |
| `ApplyPlanner.StepsSwap` | src/services/odata-apply-planner.service.ts:91-192 | planning does not see the order of two different kinds of transformation within a stage |
| `ApplyPlanner.PlanMeansRearranged` | src/services/odata-apply-planner.service.ts:56-230 | the plan of any pipeline computes exactly the pipeline with every stage put in canonical order: a permutation, planned whenever the original is |
| `ApplyPlanner.OrderForgotten` | src/services/odata-apply-planner.service.ts:154-189 | a pipeline with `top` before a filter, and a plan that computes something else |
| `PlanOrder.StageDiffers` | src/services/odata-apply-planner.service.ts:91-192 | for every proper stage out of canonical order there are filters, a sorting and rows that tell it from the stage in order |
| `PlanOrder.FaithfulExactly` | src/services/odata-apply-planner.service.ts:56-230 | under all meanings of filters, groupings and sortings and on all rows the plan computes what the pipeline computes, if and only if the pipeline is canonical - for planned pipelines in which every step does something and no filter stands twice in a stage |
| `PlanOrder.FaithfulWhenCommuting` | src/services/odata-apply-planner.service.ts:56-230 | the same for sortings that commute with filters: if and only if every stage lists filters and sorting, in any order, before skip and skip before top |
| `PlanOrder.LoosePlanned` | src/services/odata-apply-planner.service.ts:56-230 | the faithful half of that, for every planned pipeline and rows of every type |
| `JoinManager.FollowWalks` | src/util/navigation-path.ts:45-175 | a resolved path is a chain of relations from the base model |
| `JoinManager.NavigationJoinManager.EnsureJoinChain` | src/services/postgres-apply-executor.ts:1114-1156 | the loop makes the missing joins of a chain, parents first, and returns where it ends |
| `JoinManager.NavigationJoinManager.Resolve` | src/services/postgres-apply-executor.ts:965-1030 | resolution of a field, with whatever joins were made before a refusal left in place |
| `JoinManager.NavigationJoinManager.GetJoinClauses` | src/services/postgres-apply-executor.ts:1032-1037 | the clauses in the order of their joins |
| `JoinManager.JoinKeeps` | src/services/postgres-apply-executor.ts:1121-1153 | one join keeps the invariant, only adds, and stands for the relation it was asked for |
| `JoinManager.AliasesDiffer` | src/services/postgres-apply-executor.ts:1050-1053 | different counter values give different aliases |
| `JoinManager.JoinsAreWellScoped` | src/services/mysql-apply-executor.ts:1138-1180 | after any sequence of resolutions, successful or not: joined paths are prefix-closed and listed once with parents first, aliases are distinct and not the base, and each condition mentions its own alias and exactly its parent's |
| `JoinManager.FieldReadsItsNavigation` | src/services/postgres-apply-executor.ts:965-1030 | in every row combination that satisfies the joins, the row behind a resolved field's alias is reached from the base row by the field's relations, whatever else was resolved before or after |
| `FieldResolution.FieldResolvedExactly` | src/services/postgres-apply-executor.ts:965-1030 | a field of several names resolves exactly when the schema leads along joinable relations to a property with a column, and to that column, whatever was resolved or refused before |
| `FieldResolution.PlainFieldRead` | src/services/postgres-apply-executor.ts:968-978 | a field of one name is read from the base and makes no join |
| `FieldResolution.OnlyNeededJoins` | src/services/postgres-apply-executor.ts:1114-1156 | every join belongs to the beginning of some requested field |
| `BatchProtocol.ValidateContiguousAtomicityGroups` | src/controllers/batch.controller.ts:747-769 | accepts exactly the batches in which no group comes back after it ended |
| `BatchProtocol.ValidateDependsOn` | src/controllers/batch.controller.ts:778-825 | accepts exactly the batches with distinct ids whose dependencies all name earlier requests |
| `BatchProtocol.AtomicityGroupContext.Commit` | src/controllers/batch.controller.ts:210-225 | commits once; a failed commit is followed by one rollback, whose own error is dropped |
| `BatchProtocol.AtomicityGroupContext.Rollback` | src/controllers/batch.controller.ts:227-230 | asks the transaction to roll back unless that was done already, whatever happened before |
| `BatchProtocol.AtomicityGroupContext.SafeRollback` | src/controllers/batch.controller.ts:232-251 | one rollback at most; its failure is reported but the transaction counts as settled |
| `BatchProtocol.BatchExecution.EvaluateDependsOn` | src/controllers/batch.controller.ts:1526-1556 | fails exactly when some dependency has no result or one of 400 or above |
| `BatchProtocol.BatchExecution.ExecuteGroup` | src/controllers/batch.controller.ts:859-911 | the group loop follows its function: references, dependencies, handler, tracker, records (which can fail for lack of a key value), abort |
| `BatchProtocol.BatchExecution.ExecuteAtomicGroup` | src/controllers/batch.controller.ts:1423-1524 | only writes, one transaction, private maps, commit or rollback, synthetic entries |
| `BatchProtocol.BatchExecution.HandleBatch` | src/controllers/batch.controller.ts:410-470 | the request loop follows its function, with pending changeset entries handed out one by one, and ends with the final size check |
| `BatchAtomicity.OneResponseEach` | src/controllers/batch.controller.ts:410-468 | a batch that returns has one response per request, in request order, with the request's id and group |
| `BatchAtomicity.TransactionsAreOrderly` | src/controllers/batch.controller.ts:179-250 | in every run, a changeset's transaction is begun at most once, its members run in order inside it, and it is then committed or rolled back once: after a failed commit at the latest, never after a successful one |
| `BatchAtomicity.ReportedSuccess` | src/controllers/batch.controller.ts:419-447 | a changeset's responses are all below 400 exactly when its transaction committed, or when the error it was reported with carries a status below 400; never both |
| `BatchAtomicity.ChangesetAtomicity` | src/controllers/batch.controller.ts:1423-1524 | when no error that beginning, committing or handling a member of the changeset can throw carries a status below 400: all responses below 400 if and only if committed |
| `BatchAtomicity.MaskedRollback` | src/controllers/batch.controller.ts:431-445 | a commit error with status 204: rolled back, reported as success |
| `BatchReferences.TokenFromMap` | src/controllers/batch.controller.ts:1096-1150 | a resolved reference is a value of the Content-ID map |
| `BatchReferences.NothingLeaks` | src/controllers/batch.controller.ts:1478-1519 | in every run each substituted Content-ID value and added ETag comes from an earlier successful request that is plain, of the same changeset, or of a changeset committed before |
| `BatchVisibility.NothingIsLost` | src/controllers/batch.controller.ts:1096-1250 | in every run a reference by a name that only one request goes by - its id, or its id or place in `requests(…)`, in its case, or in any other if nothing goes by that spelling - is replaced by exactly what that request left, if it may be used; an ETag that only one request left for the addressed path is added; and none is added to a request that takes none |
| `BatchVisibility.ChangesetKeepsNames` | src/controllers/batch.controller.ts:1512-1521 | a changeset, committed or not, changes nothing that was known before it |
| `BatchDependencies.GroupSound` | src/controllers/batch.controller.ts:859-911 | running a group adds results only for its own requests and never changes one |
| `BatchDependencies.FailureClosesOverDependencies` | src/controllers/batch.controller.ts:872-884 | once a recorded result is 400 or above (or missing), no transitive dependent is ever handed to the handler |
| `BatchOutcomes.EveryAnswerIsRight` | src/controllers/batch.controller.ts:859-911 | in a returned batch no request is handled twice, and every response has the status the trace gives it: the error told for its changeset; 501 without a transaction; 424 behind a failed member; else its own handler's, or 424 if it was not run - in a validated batch exactly when a dependency did not succeed |
| `BatchOutcomes.OnlySuccessCommits` | src/controllers/batch.controller.ts:1489-1511 | in every run a changeset commits only if its handler calls were all answered below 400 |
| `BatchOutcomes.ResultsAreHandled` | src/controllers/batch.controller.ts:882-897 | every recorded result is the handled status of its request, or 424 or 501 if it was not run |
| `BatchOutcomes.NoDependentOfFailureRuns` | src/controllers/batch.controller.ts:1526-1556 | a request the handler answered with 400 or above, or was not called for, has no direct or transitive dependent that runs |
| `BatchOutcomes.NoCauseNoRefusal` | src/controllers/batch.controller.ts:410-470 | a batch in which nothing goes wrong outside the handlers' answers is returned |
| `BatchOutcomes.RolledBackDependencyRuns` | src/controllers/batch.controller.ts:1489-1511 | a run in which a request runs although the one it depends on was rolled back |
| `BatchRefusals.RefusalsAreDue` | src/controllers/batch.controller.ts:431-447 | every refusal blames the client or repeats what a plain request's handler threw; every error told for a changeset blames no client and is what it failed with; returned batches fit, their changesets only write, and no success lacks its key but in a changeset for which an error was told |
| `ContentIdResolution.LookupRefers` | src/controllers/batch.controller.ts:1807-1848 | a token leads to exactly the request it refers to: the last of the changeset with that id, or the one at that place of the batch, standing earlier in the same changeset |
| `ContentIdResolution.Resolver.ResolveEntitySetName` | src/controllers/batch.controller.ts:1741-1805 | the memoised recursion gives the un-memoised answer whatever is cached; started on a request before all visited ones its guard never fires |
| `ContentIdResolution.Resolver.ResolveEach` | src/controllers/batch.controller.ts:1587-1607 | for every order of requests, one shared cache gives the un-memoised answers |
| `ContentIdResolution.PathResolves` | src/controllers/batch.controller.ts:1741-1805 | a chain of references that ends at an entity set resolves to where navigation leads from there |
| `ContentIdResolution.ResolvedHasPath` | src/controllers/batch.controller.ts:1741-1805 | and only such chains resolve |
| `ContentIdResolution.PathsGoBack` | src/controllers/batch.controller.ts:1840-1846 | positions along a chain fall strictly, so it never comes round |
| `ContentIdResolution.OtherEnds` | src/controllers/batch.controller.ts:1772-1779 | a chain that ends at a reference to nothing is refused; at anything else that is no entity set it resolves to none |
| `KeyLiteral.KeyEndLoop` | src/middleware/odata-path-rewriter.ts:141-174 | the scan finds the first closing parenthesis outside strings, within the length limit |
| `KeyLiteral.SplitLoop` | src/middleware/odata-path-rewriter.ts:264-300 | the loop splits at delimiters outside strings |
| `KeyLiteral.FindEqualsLoop` | src/middleware/odata-path-rewriter.ts:302-323 | the loop finds the first equals sign outside strings |
| `KeyLiteral.RewritePath` | src/middleware/odata-path-rewriter.ts:59-124 | the loop rewrites every parenthesised segment as its function says |
| `UrlRewriting.ScanEnds` | src/middleware/odata-path-rewriter.ts:141-174 | a key ends at the first closing parenthesis with an even number of quotes before it, whatever follows |
| `UrlRewriting.LongRefused` | src/middleware/odata-path-rewriter.ts:141-174 | behind an expression of more than 4096 characters no end is found |
| `UrlRewriting.EachPartRewritten` | src/middleware/odata-path-rewriter.ts:59-124 | every segment of a path - plain, key or call - is rewritten on its own, in order, whatever stands around it |
| `UrlRewriting.UrlKept` | src/middleware/odata-path-rewriter.ts:16-57 | behind the rewritten path of any URL stand its own query, the queries its calls left, joined by `&`, and its fragment, each exactly when it is not empty |
| `UrlRewriting.UrlRewritten` | src/middleware/odata-path-rewriter.ts:16-57 | both together, for URLs of any parts |
| `UrlRewriting.MixtureRefused` | src/middleware/odata-path-rewriter.ts:188-211 | a value beside a named value is no key |
| `KeyRoundTrip.LiteralReadBack` | src/middleware/odata-path-rewriter.ts:333-351 | the parser undoes the printer on every key value |
| `KeyRoundTrip.ExpressionReadBack` | src/middleware/odata-path-rewriter.ts:188-211 | parsing a printed literal gives back the value, or the named values, of the key |
| `KeyRoundTrip.KeyRoundTrip` | src/controllers/batch.controller.ts:1298-1380 | rewriting the printed path yields the set path and the percent-encoded values, with quotes, commas, slashes and parentheses inside; and the segment decodes to them |
| `UrlRewriting.KeyUrlRoundTrip` | src/middleware/odata-path-rewriter.ts:16-57 | the same with a query and a fragment behind it: the rewritten path, then the query, then the fragment |
| `KeyRoundTrip.StringReadBackExactly` | src/middleware/odata-path-rewriter.ts:325-351 | a string value survives printing and parsing if and only if it holds no percent sign, or one that does not start the escapes of a well-formed UTF-8 character and so keeps the literal from being decoded |
| `KeyRoundTrip.PercentKept` | src/middleware/odata-path-rewriter.ts:325-331 | `%fail` survives: FA starts no character |
| `KeyRoundTrip.PercentLost` | src/middleware/odata-path-rewriter.ts:333-335 | a value that looks percent-encoded is decoded once too often |
| `KeyRoundTrip.PlainKeyRoundTrip` | src/controllers/batch.controller.ts:1298-1380 | in particular the round trip holds for all keys whose strings hold no `%`, `?` or `#` |
| `KeyDistinctness.SeparableKeysApart` | src/middleware/odata-path-rewriter.ts:195-207 | keys of the same names none of whose values holds the separator behind it have the same text exactly when their values agree |
| `KeyDistinctness.KeyToldByText` | src/middleware/odata-path-rewriter.ts:195-207 | a key is the only one of its names with its text if and only if no value holds `,name=` for the name before or behind it |
| `KeyDistinctness.PathTellsKey` | src/middleware/odata-path-rewriter.ts:115-118 | such a key is told by its rewritten path: another key has the same path exactly when it has the same values |
| `KeyDistinctness.PathMistaken` | src/middleware/odata-path-rewriter.ts:115-118 | any other key whose strings hold no `%`, `?` or `#` has a partner of such strings, with other values and the same text; if the partner's literal is within the length limit, it is printed and rewritten to the same path |
| `KeyDistinctness.CompositeKeysCollide` | src/middleware/odata-path-rewriter.ts:195-207 | two different composite keys with the same text |
| `PercentEncoding.EncodedDecodes` | src/middleware/odata-path-rewriter.ts:115-118 | decoding undoes encoding on every UTF-8 text |
| `Etag.EncodeCompositeToken` | src/util/etag.ts:60-72 | the loop encodes every property, or refuses when one has no value |
| `Etag.DecodeCompositeToken` | src/util/etag.ts:126-149 | the loop reads known properties, turned to their types, and refuses what does not decode |
| `Etag.DecodeIfMatchValues` | src/util/etag.ts:253-288 | single tokens that do not decode are dropped, incomplete composite ones dropped and reported, the others kept in order |
| `Etag.UnescapeUndoesEscape` | src/util/etag.ts:37-43 | the two-pass unescape undoes escape on every string |
| `Etag.SingleMatchesExactly` | src/util/etag.ts:174-186 | a token matches a list exactly when one of its tokens was made from the same value |
| `Etag.HeaderReadBack` | src/util/etag.ts:152-164 | a header of tokens is read back as those tokens if and only if none contains a comma |
| `EtagHeaders.HeaderRead` | src/util/etag.ts:152-164 | every header: white space alone says nothing, a lone star means any, otherwise the tokens are the texts between the commas in order |
| `EtagHeaders.EitherStrengthMatches` | src/util/etag.ts:174-186 | a tag matches exactly when one of the expected tags, strong or weak, was made from the same value |
| `EtagHeaders.UnquotedRead` | src/util/etag.ts:111-126 | a token without quotes, weak or not, stands for its own text |
| `EtagHeaders.DecodedExactly` | src/util/etag.ts:253-288 | the decoded values are the usable ones in order; a composite list is reported exactly when one is not usable |
| `EtagHeaders.UsableExactly` | src/util/etag.ts:269-281 | a composite token is usable exactly when it was made of all the properties |
| `Etag.SingleHeaderRoundTrip` | src/util/etag.ts:253-288 | single-property tokens survive the header if and only if no value contains a comma, and decode to all the values in order |
| `Etag.CompositeRoundTrip` | src/util/etag.ts:111-150 | a composite token decodes to exactly the values it was made from |
| `Etag.CompositeMatchesExactly` | src/util/etag.ts:174-186 | composite tokens match exactly when they agree on every property |
| `Etag.CompositeHeaderRoundTrip` | src/util/etag.ts:253-288 | joined composite tokens come back unchanged and decode to all values; none is invalid |
| `TenantThrottle.InMemoryTenantThrottleStore.IncrementRateOf` | src/services/tenant-throttle-store.ts:38-69 | the new store and answer, including the write that is lost when cleaning up detached the record |
| `TenantThrottle.InMemoryTenantThrottleStore.AcquireConcurrentOf` | src/services/tenant-throttle-store.ts:71-82 | the new store and answer of an acquisition, with the same loss |
| `TenantThrottle.InMemoryTenantThrottleStore.ReleaseConcurrentOf` | src/services/tenant-throttle-store.ts:84-95 | the new store and count after a release |
| `TenantThrottle.InMemoryTenantThrottleStore.Prune` | src/services/tenant-throttle-store.ts:110-119 | removes exactly the stale records when a cleanup is due |
| `TenantThrottle.PruneKeepsLive` | src/services/tenant-throttle-store.ts:110-119 | a record goes exactly when a cleanup is due, nothing is in flight and its window has passed; a positive counter is never dropped |
| `TenantThrottle.NoUnjustifiedRefusal` | src/services/tenant-throttle-store.ts:38-95 | after any run with a clock that does not go back: rate-limited only if `limit` hits were accepted within the last window, concurrency-limited only if `limit` calls are in flight |
| `TenantQuotas.AcquireRefusedExactly` | src/services/tenant-throttle-store.ts:71-82 | after any run in which no record of the tenant was detached, the recorded count is the tenant's calls in flight, and an acquisition is refused exactly when that has reached a positive limit |
| `TenantQuotas.HitRefusedExactly` | src/services/tenant-throttle-store.ts:43-63 | under the same condition, with a clock that does not go back and windows of one length: a hit is refused exactly when a positive limit of hits was accepted since the window it falls into began |
| `TenantThrottle.HitRecorded` | src/services/tenant-throttle-store.ts:43-63 | an accepted hit is recorded if and only if cleaning up did not detach its record |
| `TenantThrottle.HitLost` | src/services/tenant-throttle-store.ts:43-63 | a run after which an accepted hit is not counted |

## Left out

- Text is its UTF-8 bytes: lengths count bytes, lone surrogates do not occur, and white space is the ASCII white space only, where JavaScript trims more; `JSON.parse` and `JSON.stringify` are a parameter that says which texts are JSON, and structured bodies are their text.
- The order in which JavaScript lists integer-like property names in header objects.
- Node streams, sockets, request and response objects, timeouts, redirects, header merging, proxy trust and telemetry: the batch controller is modelled from validated requests to response entries.
- SqlQuery.Execute: the last stage's top is what the executor is told as the paging's stage top; reasons for declining, telemetry and the joins made on the way are not part of the built query.
- PlanOrder.FaithfulExactly: for pipelines with a step that does nothing, or a filter twice in a stage, only what the plan computes is stated, not exactly when that is the same.
- BatchProtocol.RunBatch: the operation limits checked before the loop are not part of it.
- The size limit inside a batch run is an arbitrary verdict per request; the tracker itself is modelled apart, on the list it is given, which is before `atomicityGroup` is stamped.
- Extraction of Content-ID tokens from URLs, headers and bodies, and of the target and ETag from a response: a request carries its tokens, an outcome its target and ETag. Looking tokens up is modelled.
- Choice of data source and transaction support of a changeset: `begin` says begun, rejected or failed.
- Sanitising of ids, groups and dependencies: requests carry the sanitised tokens.
- The `$filter` parser, which is a parameter saying which expressions it can translate.
- Structured JSON columns: a property path maps to a column or not; quoting of identifiers, so an ORDER BY is its list of fields and directions; aggregate fragments, SELECT lists and the typing of parameters.
- QueryPaging.QueriesYield: rows whose ordering fields are null or not distinct, and orderings that name a field twice, are not covered; a page size is not above the last stage's top, as the controller sees to.
- RequestReading.RequestRead: requests whose lines end in CRLF; the parser also takes a lone line feed.
- KeysetPaging.CreateSkipTokenValues: token values are kept as values; their conversion to text, and the database's conversion back to the type of the column, are not modelled.
- SqlTranslator.Translator.BuildPropertyCondition: parameters are bound as they are; the change of booleans for structured JSON columns in MySQL goes with those columns, which are not modelled.
- ApplyPlanner.BuildApplyExecutionPlan: pipelines without `concat`; the navigation paths collected for a finished plan are not part of it.
- JoinManager.FollowWalks: an assumption on the registry, `Named`, under all results about joins: the `name` in a relation's metadata is the key it is declared under. Many-to-many relations through a third model are refused by the executors and so by the model.
- JoinManager.JoinsAreWellScoped: joins collected before the WHERE clause is translated are not claimed to cover fields that occur only in that clause.
- KeyRoundTrip.KeyRoundTrip: names, numbers and dates are free of characters with a meaning in paths, and strings of `?`, `#` and anything that decodes to something else; literals have at most 4096 characters.
- Calls of operations and qualified functions in paths: turning their parameters into a query is a parameter of the rewriter.
- Etag.EncodeCompositeToken: serialisation of atomic values and the sorting of property names are not modelled; values are their serialised text, and what a decoded text becomes for its property's type is a parameter.
- TenantThrottle.NoUnjustifiedRefusal: one-sided, since counters can fall short, as `HitLost` shows; what is refused exactly while nothing is detached is in `TenantQuotas`. A release without a call in flight leaves the count at zero. The Redis store is not part of this model.
- Composition config precedence, validation of single composition relations, registry merging, base-path and Accept helpers, LoopBack wiring, the CSDL generator and SQL connectors.
