# Data synchroniser: a verified model

The repository reads a REST API described by OpenAPI extensions and keeps database tables in step
with it. Each cycle plans (fetching operations as their parameters become known, filtering feeds
against saved checkpoints, flattening JSON into rows), applies the plan (upserts, then full syncs)
and only then saves checkpoints and commits. This project models that core and proves what it
promises over every input, every run and every starting database.

How the parts fit together:

- `Watermarks`, `HeadWatermark`, `PageCuts`, `PageRequests`, `SyncRuns`: the incremental protocol. A feed is
  read page by page from its head, each request following from the page before; the result is shown to depend on the feed alone; over whole runs with
  failures and with items that come and go every item is delivered exactly once and saved
  watermarks never go down.
- `UnreadableMarks`: watermarks that cannot be compared, when they are saved and what they block.
- `EndToEnd`, `EndToEndPostgres`, `EndToEndClickHouse`, `EndToEndTraces`: the protocol together with a
  database on which failed cycles run in part; when they leave no trace, and when they do.
- `Plans`, `Programs`, `Literals`, `Dedup`, `Postgres*`, `ClickHouse*`, `Creates`, `TwoCompilers`, `StatementText`,
  `PlanTexts`: the two adapters as compilers from plans to statements, with an interpreter for
  the statements and the text they are printed to and split from.
- `SqlReader`, `PostgresReader`, `PostgresReadBack`, `ClickHouseReader`, `ClickHouseReadBack`, `ClickHouseTypes`,
  `LiteralReader`, `PlanReadBack`: readers of SQL text, defined without the printers, that give back what was
  printed; so the text a database is handed means what the statements do.
- `FullSync`, `FullSyncFolding`, `FullSyncSnapshot`, `LastWrites`, `Nullability`: folding full-reload plans, when
  that succeeds and which writes survive it, and relaxing NOT NULL flags.
- `Values`, `MarkedNodes`, `MarkedInserts`, `MarkedRecords`, `MarkedClosure`: flattening nested payloads into
  rows with references.
- `Params`, `Scheduler`, `SchedulerRuns`, `Publishing`, `Service`, `ModeSeparation`: the scheduler, what its runs
  publish, and its commits.
- `RunnerSteps`, `Runner`, `RateLimit`, `Retry`: the runner's interleavings, the token bucket and
  the retry loop.

The state the program changes in place is modelled in place: the cycle state of a feed
(`HeadWatermark.CycleState`), the shared column slices (arrays in `Nullability`), the marked insert
context (`MarkedInserts.Context`), the planner (`Service.Planner`), the runner (`Runner.Runner`) and the
rate limiter (`RateLimit.RateLimiter`). Each method is proved against a function of its inputs or of
the old state, and the lemmas are about these functions.

Library functions are parameters: `time.Parse` for section 5.6 of RFC 3339 timestamps, `json.Marshal`,
the `%v` format and the matching of parameter filters. The API, the checkpoint store, the clock
and the database's successes and failures are parameters too, so every theorem holds for whatever
they answer. Watermarks, offsets, tokens and delays are real numbers; counters are unbounded.

Where the code does something its documentation or error texts do not lead one to expect, the
model follows the code and a lemma shows it:

- the rate limiter lets through only half of `maxRPM` under steady load (`RateLimit.EagerCallsRunAtHalfRate`; exactly
  when: `RateLimit.RateIsMetUnlessWaited`);
- a trigger can be accepted while a cycle runs (`RunnerSteps.TriggerLandsLate`; exactly when:
  `RunnerSteps.TriggerLandsInItsSleep`);
- ClickHouse checkpoints are saved one by one, so a failed cycle can advance some of them
  (`SyncRuns.PartialSaveOpensTheGap`; exactly when: `SyncRuns.OneByOneGap`);
- a single unreadable watermark can be saved and then blocks its feed for good
  (`UnreadableMarks.SavesUnreadableExactlyWhenAlone`, `UnreadableMarks.OneItemPoisonsItsFeed`);
- a full sync that has to create a table with two key columns, as every link table has, is rolled back on
  Postgres (`FullSyncSnapshot.NewLinkTableIsRefused`; exactly when: `PostgresFullSync.CommitsExactlyWhen`);
- one-shot operations that never became ready count as complete after the first commit
  (`Service.NoOneShotAgain`), and completed paths of another specification can block completion
  (`Service.ForeignPathsBlockCompletion`, `Service.OneForeignPathSuffices`);
- NOT NULL can survive for a column that only an earlier create of a table has (`Nullability.StrayColumnKeepsItsFlag`);
- on Postgres a failed cycle can leave cells behind when a later row for the same key names fewer columns
  (`EndToEndTraces.PartialRowsLeaveATrace`; exactly when: `EndToEndTraces.TraceOfOneFailure`), and
  whole rows of items that have gone (`EndToEndTraces.DepartedItemLeavesATrace`);
- two rows with keys of several columns, and two operations, can share a joined key when values or paths hold
  bars (`LastWrites.BarsMergeRows`, `Params.BarsConfuseKeys`; without bars not: `LastWrites.RowTextsTell`,
  `Params.KeysTellRequestsApart`);
- a ClickHouse table name ending in a semicolon does not survive its own text (`PlanTexts.TruncateNameCanBreak`;
  exactly when: `PlanTexts.ClickHouseFullSyncSplits`).

## Model

| member | source | states |
|---|---|---|
| `Watermarks.ComparesReadable` | internal/core/service.go:3074-3138 | Comparing two watermarks succeeds exactly when both can be read as their type; it is antisymmetric, reflexive and answers -1, 0 or 1. |
| `Watermarks.ComparesInOrder` | internal/core/service.go:3074-3138 | The answer is -1 exactly for the smaller number, the text that comes first in the dictionary, the earlier instant, and 0 exactly for the same number, text or instant. |
| `Watermarks.AtMostTransitive` | internal/core/service.go:3074-3138 | "Not later than" is transitive on readable watermarks, so each type is a total preorder. |
| `Watermarks.SameMarkComparesAlike` | internal/core/service.go:3074-3138 | Two watermarks of one instant compare alike with every other, even when their texts differ. |
| `Watermarks.CheckpointRoundTrip` | internal/core/service.go:1799-1928 | Building a head-watermark checkpoint and parsing it gives back the same type, value and boundary-key set. |
| `HeadWatermark.CycleState.Update` | internal/core/service.go:1051-1077 | The cycle state after an item is the highest watermark seen and exactly the keys at it; an item that cannot be compared is refused and changes nothing. |
| `HeadWatermark.ScanPage` | internal/core/service.go:977-1026 | The loop over the items of a page equals the scan specification, item by item, in place on the cycle state. |
| `HeadWatermark.FilterHeadWatermarkPage` | internal/core/service.go:963-1036 | One page: which items stay, whether the page ends the fetch, and the new state, tied to the page specification whose meaning the page-cut lemmas give; on a failure the page is refused. |
| `HeadWatermark.TakeTurn` | internal/core/service.go:880-936 | One round of the fetch loop: the next request, the end, or giving up, for cursor and offset paging. |
| `HeadWatermark.FetchHeadWatermark` | internal/core/service.go:835-960 | The whole fetch equals the fetch specification: requests made, filtered payloads and the pending checkpoint, or abandoned with nothing kept. |
| `PageCuts.JudgeReadable` | internal/core/service.go:985-1020 | An item is kept exactly when it is past the checkpoint: later than it, or at it under a key not yet recorded. |
| `PageCuts.ScanReadable` | internal/core/service.go:977-1035 | A page of readable items keeps exactly those past the checkpoint, in order, and says "stop" exactly when all are older. |
| `PageCuts.FilteredPayloadHolds` | internal/core/service.go:2978-3007 | The rewritten payload holds exactly the kept items where the items were, whether listed, single or at the root. |
| `PageCuts.FilteredPageKeepsItsShape` | internal/core/service.go:2978-3007 | In a rewritten page a list of items stays a list; a single object stays as it is or becomes null. |
| `PageCuts.PrefixSettlesPending` | internal/core/service.go:937-960 | Once the reading has gone past the boundary, the highest watermark and its keys are those of the whole feed. |
| `PageCuts.PageCutIndependence` | internal/core/service.go:880-960 | For a feed in descending order the kept items and the pending checkpoint depend only on the feed and the old checkpoint: not on how the feed is cut into non-empty pages, nor on how far past the boundary the loop reads. |
| `PageCuts.AnyFeedCanBeServed` | internal/core/service.go:900-936 | Every feed can be served under every configuration, cursor or offset, items at the root or below it: as one page and an empty one. |
| `PageCuts.OffsetsAdvance` | internal/core/service.go:915-936 | Offset paging requests start, start + increment, and so on, each once. |
| `PageRequests.RequestsFollowThePages` | internal/core/service.go:835-960 | The requests of a fetch, for any stored text and any answers: none is sent exactly when the text is not JSON or is of this strategy without a state; otherwise the first carries the configured start; a further one follows exactly a page with items that are not all older and that holds, at the cursor path, a value that is neither blank nor prints like the one just sent, and it carries exactly that value (for offsets the last plus the increment); every page taken holds items with a watermark and keys; the fetch ends with rows at a page that calls for no more, and over readable pages it is abandoned exactly when its last request got none. |
| `PageCuts.ItemsAreRead` | internal/core/service.go:3058-3072 | An item can be read exactly when it is an object with a value at the watermark path and at every key path. |
| `PageCuts.KeysTellItemsApart` | internal/core/service.go:3058-3072 | Two items share a boundary key exactly when they agree at every key path. |
| `UnreadableMarks.SavesUnreadableExactlyWhenAlone` | internal/core/service.go:1051-1077 | Finding, exactly: a fetch without a checkpoint ends with a watermark to save that cannot be compared if and only if the feed is a single item whose watermark cannot be read in the declared type; for any feed, ordered or not. |
| `UnreadableMarks.LaterFetchesSaveReadable` | internal/core/service.go:1000-1026 | Once a checkpoint is stored, no fetch has an unreadable watermark to save, whatever the API answers. |
| `UnreadableMarks.PoisonedFetch` | internal/core/service.go:1000-1026 | With an unreadable checkpoint a fetch is abandoned exactly when the feed has an item, and no fetch has a checkpoint to save. |
| `UnreadableMarks.PoisonIsForever` | internal/core/service.go:880-960 | An unreadable checkpoint is never replaced, over any number of successful cycles and whatever the API answers in them. |
| `UnreadableMarks.OneItemPoisonsItsFeed` | internal/core/service.go:835-960 | The failure occurs: one item is fetched and saved, and from then on every fetch of a feed with items is abandoned. |
| `SyncRuns.ExactlyOnce` | internal/core/service.go:835-1077 | Exactly once over whole runs: items come into feeds ahead of the checkpoint and leave them, cycles fail while fetching, applying or saving; every item that ever arrived has been in the plan of exactly one cycle that saved the key, or is still past the checkpoint, or left the feed while it was. If nothing left, delivered and fresh items make up the feed. |
| `SyncRuns.EveryFeedCanBeSynced` | internal/core/service.go:835-960 | The assumptions on runs can be met for every feed with items, every configuration and any number of keys: one successful cycle delivers all of it for each key. |
| `SyncRuns.SuccessDeliversEverything` | internal/runner/runner.go:527-552 | A cycle that succeeds leaves no item in the feed of a key it could fetch undelivered. |
| `SyncRuns.TransactionalDeliversOnSuccessOnly` | internal/db/postgres/adapter.go:132-186 | With checkpoints saved in one transaction, what counts as delivered comes from fully successful cycles only, over any run. |
| `SyncRuns.OneByOneGap` | internal/db/clickhouse/adapter.go:110-144 | Finding: saved one by one, a cycle keeps delivered and confirmed items together exactly when it succeeded, or the key was not saved before the failure, or it had nothing new. |
| `SyncRuns.PartialSaveOpensTheGap` | internal/db/clickhouse/adapter.go:110-144 | The gap occurs: with two keys and a save that fails at the second, the first key has delivered its whole feed and confirmed nothing. |
| `SyncRuns.WatermarksNeverRegress` | internal/core/service.go:937-960 | Over any run, failures included, the saved watermark of no checkpoint key goes down. |
| `EndToEnd.TwinsAgree` | internal/runner/runner.go:527-552 | For any engine that obeys the replay laws and any number of feeds: after any run the table agrees with the one of the fully applied cycles alone, but for the keys of rows still to come. |
| `EndToEnd.FailuresLeaveNoTrace` | internal/runner/runner.go:527-552 | Half-applied cycles leave no trace: after any run of changing feeds, half-applied cycles, partial saves and successes, once a successful cycle fetches every feed the table is the one that the fully applied cycles alone would have made. |
| `EndToEndPostgres.PostgresIsLawful` | internal/db/postgres/adapter.go:309-352 | The Postgres statements obey the replay laws whenever the rows of one key name the same columns, partial rows included. |
| `EndToEndPostgres.NoTraceOnPostgres` | internal/db/postgres/adapter.go:66-96 | Half-applied cycles leave no trace in a Postgres table, from any database, when rows of one key name the same columns. |
| `EndToEndTraces.TraceOfOneFailure` | internal/db/postgres/adapter.go:337-352 | Without that assumption, exactly: after a half-applied cycle, a change of the feed and a complete cycle, the table is as if the first had never run if and only if, under every key the first wrote, each column it set is set again or held the same value before. |
| `EndToEndTraces.PartialRowsLeaveATrace` | internal/core/service.go:3249-3304 | Finding: when a newer item of the same key does not name a column that a half-applied one had set, the completed table keeps it. |
| `EndToEndTraces.DepartedItemLeavesATrace` | internal/runner/runner.go:527-552 | Finding: an item that leaves its feed for good after a half-applied cycle stays in the table. |
| `EndToEndClickHouse.ClickHouseIsLawful` | internal/db/clickhouse/adapter.go:266-320 | The ClickHouse statements obey the replay laws. |
| `EndToEndClickHouse.NoTraceOnClickHouse` | internal/db/clickhouse/adapter.go:167-201 | Half-applied cycles leave no trace in a ClickHouse table: the same rows in the same order, from any database, whatever columns the rows name. |
| `Plans.IndexOf` | internal/db/postgres/adapter.go:556-563 | The first position of a column name, or -1 exactly when it is absent. |
| `Plans.PrimaryKeyKeepsOrder` | internal/core/service.go:550-558 | The primary key lists exactly the key columns, in the order of the table. |
| `Programs.Locality` | internal/db/postgres/adapter.go:66-96 | A program changes each table by exactly its own statements, in order. |
| `Programs.DisjointProgramsCommute` | internal/runner/runner.go:527-552 | Programs over disjoint tables give the same database in either order. |
| `Literals.QuotedReadsBack` | internal/db/postgres/adapter.go:444-453 | A quoted string read by the SQL rules for doubled quotes and backslashes gives back the original and stops at its closing quote, exactly when no further quote follows directly (both dialects). |
| `Literals.QuotingIsInjective` | internal/db/clickhouse/adapter.go:450-459 | Two strings with one literal are equal. |
| `Literals.LiteralIsClosed` | internal/db/postgres/adapter.go:419-465 | Every literal, arrays included, closes the quotes it opens and has no bar outside them. |
| `SqlReader.LiteralIsSolid` | internal/db/postgres/adapter.go:419-465 | Every literal of both dialects, arrays and their types included, ends where a reader that knows only quotes and punctuation ends it. |
| `LiteralReader.LiteralReadsBack` | internal/db/postgres/adapter.go:419-465 | A literal read by the rules of its dialect gives back the value: strings, numbers, nulls, booleans where the dialect prints them as such, and the items and element type of an array. |
| `LiteralReader.PostgresScalarsTell` | internal/db/postgres/adapter.go:419-442 | On Postgres two scalars print alike exactly when they are equal: a number, a boolean and a text never share a literal. |
| `Literals.DedupKeyIsInjective` | internal/db/postgres/adapter.go:396-417 | The joined dedup keys of two rows of a table agree exactly when their key literals agree column by column, whatever the strings contain. |
| `Dedup.KeepsFirst` | internal/db/postgres/adapter.go:309-335 | Dropping repeated inserts keeps for every key exactly the first row written under it, and every key once. |
| `Dedup.UnkeyedRowsStay` | internal/db/postgres/adapter.go:396-417 | Rows without a dedup key are never dropped: those that lack a key column, and all rows of a table without a key. |
| `Dedup.DeduplicateConcat` | internal/db/postgres/adapter.go:40-60 | Deduplicating insert by insert with a shared memory is deduplicating all rows at once. |
| `Dedup.PrintedIsFaithful` | internal/db/clickhouse/adapter.go:322-343 | For printed rows the text comparison of dedup keys is the comparison of keys. |
| `Postgres.PutAllClosed` | internal/db/postgres/adapter.go:309-352 | Any list of upserts in closed form: each key ends with the stored cells overlaid by those written for it, in order; nothing else changes. |
| `Postgres.PutAllAbsorbs` | internal/db/postgres/adapter.go:337-352 | Upserting rows drawn from a list before the whole list changes nothing. |
| `Postgres.TraceOfUpserts` | internal/db/postgres/adapter.go:337-352 | Any attempted upserts leave no trace under any later ones exactly when, key by key, each column they set is set again or held the same value before. |
| `PostgresExport.CollectPrimaryKeys` | internal/db/postgres/adapter.go:281-307 | What is collected for a table: the key of its last link create, if there is one, followed by the key columns of the creates after it, in order. |
| `PostgresExport.RenderInsertRows` | internal/db/postgres/adapter.go:309-335 | The statements of one insert are upserts of its rows kept by deduplication, and the seen keys grow accordingly. |
| `PostgresExport.ExportSQL` | internal/db/postgres/adapter.go:33-64 | The exported program equals the export specification, whose effect the next rows give. |
| `PostgresExport.ExportRuns` | internal/db/postgres/adapter.go:33-64 | What an exported plan does to each table: it upserts the kept rows of that table, in order, and nothing else. |
| `PostgresExport.ReplaySafe` | internal/db/postgres/adapter.go:85-95 | Running any prefixes of a plan's statements any number of times and then all of them leaves the database of running them once, for tables with a key whose rows carry it. |
| `PostgresExport.ReplayNeedsAKey` | internal/db/postgres/adapter.go:337-352 | Without a primary key a table survives a replay exactly when the attempts inserted nothing into it. |
| `PostgresExport.LooseRowsAccumulate` | internal/db/postgres/adapter.go:309-335 | Rows of a table without a key pile up: each insert adds one row and changes no other. |
| `PostgresExport.TraceOfAttempts` | internal/db/postgres/adapter.go:66-96 | Statements drawn from one plan leave no trace after another plan has run in full exactly when each column they set under a key is set again or held the same value before. |
| `PostgresFullSync.RenderDelete` | internal/db/postgres/adapter.go:530-554 | The delete statement spares exactly the key conditions of the planned rows. |
| `PostgresFullSync.GoesExactlyWhen` | internal/db/postgres/adapter.go:530-554 | What the delete clause means: a stored row goes exactly when every planned row that gives some key column a value gives one that differs. |
| `PostgresFullSync.ExportFullSync` | internal/db/postgres/adapter.go:188-207 | The full-sync program: creates, then upserts, then deletes in reverse table order. |
| `PostgresFullSync.TableSyncs` | internal/db/postgres/adapter.go:490-554 | Upserts followed by delete-missing turn any conforming rows into exactly the planned ones. |
| `PostgresFullSync.CommitsExactlyWhen` | internal/db/postgres/adapter.go:209-265 | A full sync commits exactly when every planned table exists or has at most one key column, since each key column prints its own PRIMARY KEY; otherwise it is rolled back and changes nothing. |
| `PostgresFullSync.FullSyncReachesSnapshot` | internal/db/postgres/adapter.go:188-247 | From any starting database with conforming tables: if the full sync commits, every planned table ends as its snapshot, with no duplicate and no leftover; if a create is refused, the database is as before. |
| `PostgresFullSync.FullSyncLeavesOthers` | internal/db/postgres/adapter.go:209-247 | A full sync leaves every table outside its plan as it was. |
| `PostgresText.TextSplitsIntoItsStatements` | internal/db/postgres/adapter.go:467-481 | Splitting the joined SQL text gives back exactly the statements printed, so as many are applied as were printed. |
| `PostgresText.PlanTextSplits` | internal/db/postgres/adapter.go:33-64 | The same for whole plans: names and types without newlines are enough, whatever strings the rows contain. |
| `PostgresReadBack.StatementReadsBack` | internal/db/postgres/adapter.go:249-352 | A reader of SQL text, written without the printer, gives back each statement printed: tables, columns with their types and flags, keys, the VALUES list, the conflict target with its EXCLUDED columns or DO NOTHING, and the WHERE NOT clause with its alternatives. |
| `PostgresReadBack.TextSaysItsStatements` | internal/db/postgres/adapter.go:467-554 | Split and read piece by piece, a text of such statements gives them back in order. |
| `PlanReadBack.PostgresPlanReads` | internal/db/postgres/adapter.go:33-64 | The text of a whole migration plan, split and read piece by piece, is its program. |
| `PlanReadBack.PostgresFullSyncReads` | internal/db/postgres/adapter.go:188-207 | The text of a full sync, split and read piece by piece, is its program: what is upserted, and that the rows to keep are the ones kept. |
| `ClickHouse.MatchesByKey` | internal/db/clickhouse/adapter.go:305-320 | A stored keyed row is hit by a delete condition exactly when the keys agree. |
| `ClickHouse.HitByKey` | internal/db/clickhouse/adapter.go:266-303 | A stored row is deleted exactly when its key is among those about to be written. |
| `ClickHouseExport.CollectPrimaryKeys` | internal/db/clickhouse/adapter.go:229-264 | What is collected for a table: the key of its last create alone, of either kind. |
| `ClickHouseExport.FilterRows` | internal/db/clickhouse/adapter.go:266-295 | The rows that survive deduplication, and the delete conditions of those that carry their key. |
| `ClickHouseExport.ConditionedAre` | internal/db/clickhouse/adapter.go:266-320 | Exactly the kept rows that carry all of a non-empty key get a delete condition. |
| `ClickHouseExport.RenderInsertRows` | internal/db/clickhouse/adapter.go:266-303 | One insert prints a delete of the keys about to be written, if there are any, and then the kept rows. |
| `ClickHouseExport.ExportSQL` | internal/db/clickhouse/adapter.go:33-64 | The exported program equals the export specification. |
| `ClickHouseExport.ExportReplaces` | internal/db/clickhouse/adapter.go:266-303 | An export leaves a table with its old rows outside the written keys, followed by the kept rows: one row for each written key. |
| `ClickHouseExport.ReplaySafe` | internal/db/clickhouse/adapter.go:266-320 | Replay safety on ClickHouse, although tables are bags and the statements are not idempotent one by one. |
| `Creates.PostgresProgramPieces` | internal/db/postgres/adapter.go:33-64 | A Postgres program is one piece per operation of its plan, in order: the create statement of a create, upserts into the table of an insert; tables are created before they are written if the plan does so. |
| `Creates.ClickHouseProgramPieces` | internal/db/clickhouse/adapter.go:33-64 | The same on ClickHouse, where the piece of an insert holds its delete and its inserts. |
| `Creates.FullSyncCreatesFirst` | internal/db/clickhouse/adapter.go:146-165 | A full sync on ClickHouse first creates each table as declared. |
| `ClickHouseFullSync.ExportFullSync` | internal/db/clickhouse/adapter.go:146-165 | The full-sync program: creates, truncates in reverse order, inserts. |
| `ClickHouseFullSync.FullSyncReachesSnapshot` | internal/db/clickhouse/adapter.go:146-165 | From any starting database every planned table ends with exactly the planned rows. |
| `ClickHouseFullSync.FullSyncLeavesOthers` | internal/db/clickhouse/adapter.go:488-514 | A full sync leaves every table outside its plan as it was. |
| `ClickHouseText.TextSplitsExactlyWhenSteady` | internal/db/clickhouse/adapter.go:472-486 | As many statements come out of the text as went in, and they are the printed ones exactly when no truncate but the last statement names a table that ends in white space or a semicolon. |
| `ClickHouseText.TranslatedIsTypeText` | internal/db/clickhouse/adapter.go:395-416 | Translating a type ends, and gives one line that ends in neither white space nor a semicolon. |
| `ClickHouseReadBack.StatementReadsBack` | internal/db/clickhouse/adapter.go:203-320 | A reader of SQL text, written without the printer, gives back what each ClickHouse statement says: definitions and sorting key of a create, columns and values of an insert, the alternatives of a delete. |
| `ClickHouseReadBack.TextDoesWhatTheStatementDoes` | internal/db/clickhouse/adapter.go:175-201 | Running what the text of a statement says has the effect on a table that the statement has. |
| `ClickHouseReadBack.TextSaysItsStatements` | internal/db/clickhouse/adapter.go:472-514 | Split and read piece by piece, a text of such statements gives back what they say, in order. |
| `ClickHouseTypes.ArraysTranslate` | internal/db/clickhouse/adapter.go:395-416 | The translation of an array type is the translation of its element type in Array(...), at any depth. |
| `ClickHouseTypes.TypesIgnoreCase` | internal/db/clickhouse/adapter.go:395-416 | The case of a type does not matter. |
| `ClickHouseTypes.CaseFolds` | internal/db/clickhouse/adapter.go:395-416 | Texts that agree in lower case agree in upper case and the other way round, so either may be used to compare without case. |
| `ClickHouseTypes.ScalarsTranslate` | internal/db/clickhouse/adapter.go:395-416 | Five types have a counterpart whatever their case and the white space around them; every other one that is no array becomes a string. |
| `ClickHouseTypes.NullableColumns` | internal/db/clickhouse/adapter.go:345-354 | A column is Nullable exactly when it may be null, is no key column and is no array. |
| `PlanReadBack.ClickHousePlanReads` | internal/db/clickhouse/adapter.go:33-64 | The text of a whole migration plan on ClickHouse, split and read piece by piece, is its program. |
| `PlanReadBack.ClickHouseFullSyncReads` | internal/db/clickhouse/adapter.go:146-165 | The same for full syncs on ClickHouse. |
| `PlanTexts.ClickHousePlanSplits` | internal/db/clickhouse/adapter.go:33-64 | The round trip of the SQL text for whole migration plans on ClickHouse. |
| `PlanTexts.PostgresFullSyncSplits` | internal/db/postgres/adapter.go:188-207 | The round trip for full syncs on Postgres. |
| `PlanTexts.ClickHouseFullSyncSplits` | internal/db/clickhouse/adapter.go:146-165 | The round trip for full syncs on ClickHouse, exactly: no table name ends in white space or a semicolon, but for the first table when the plan has no row. |
| `PlanTexts.TruncateNameCanBreak` | internal/db/clickhouse/adapter.go:495-497 | Finding: a full sync with a table named with a trailing semicolon does not survive printing and splitting. |
| `StatementText.SplitStatements` | internal/db/postgres/adapter.go:467-481 | The splitting loop equals the splitting specification. |
| `StatementText.SplitGivesBack` | internal/db/clickhouse/adapter.go:472-486 | Joined statement bodies split into as many statements, and into the same ones exactly when every body but the last ends in something other than white space and a semicolon. |
| `StatementText.LiteralHasNoNewline` | internal/db/postgres/adapter.go:419-465 | No literal holds a newline, whatever string it prints. |
| `TwoCompilers.SameSnapshot` | internal/core/service.go:445-523 | Two compilers, one meaning: from any starting databases, and on Postgres unless a create is refused, both full syncs end with one stored row for each planned row, holding its values under its key, and nothing else. |
| `FullSync.NormalizeFullSyncRow` | internal/core/service.go:586-607 | A row laid out in exactly the table's columns: the last value given for each, null where none is given. |
| `FullSync.AddFullSyncRows` | internal/core/service.go:533-548 | Adding rows equals the fold specification, including the failure on a row without its key. |
| `FullSync.BuildFullSyncPlan` | internal/core/service.go:445-531 | Folding a plan equals the fold specification, including its failures. |
| `FullSync.FoldLastWins` | internal/core/service.go:487-513 | After any part of a plan the stored rows of a table are exactly the last row written under each key text, normalised. |
| `LastWrites.RowTextsTell` | internal/core/service.go:560-584 | Two rows of a table have one key text exactly when their values agree in every key column; for a key of one column with no assumption, for several when no key value but the last prints with a bar. |
| `LastWrites.BarsMergeRows` | internal/core/service.go:560-584 | Finding: with two key columns, bars in the values can give two different keys one text, and the fold keeps one of the two rows. |
| `FullSyncFolding.FoldsExactlyWhen` | internal/core/service.go:445-531 | A plan folds exactly when each row is written to a table that has a key by then and gives a value for all of it, and every table ends with a key. |
| `FullSyncFolding.TableHasItsLastCreate` | internal/core/service.go:456-484 | A folded table has the columns and the key of its last create. |
| `FullSyncSnapshot.TablesOfPlan` | internal/core/service.go:451-467 | The folded plan lists every table the plan mentions, each once. |
| `FullSyncSnapshot.LastWriteWins` | internal/core/service.go:509-531 | Last write wins: a folded table holds, for exactly the keys the plan writes and in sorted order, the last row written under each, in exactly the table's columns. |
| `LastWrites.LatestWritesSurvive` | internal/core/service.go:487-531 | Last write wins, by values: the folded table holds, each once, exactly the written rows that no later row of the table agrees with in every key column. |
| `FullSyncSnapshot.NormalizedRowIs` | internal/core/service.go:586-607 | A laid-out row has exactly the table's columns, each with the last value the row gives for it, and null when it gives none. |
| `FullSyncSnapshot.NormalizedKeepsField` | internal/core/service.go:586-607 | Normalising keeps what a row says about each column it names. |
| `FullSyncSnapshot.PlainKeysAgree` | internal/core/service.go:560-584 | String and number keys that print to one literal have one key text, so folding and printing agree on keys. |
| `FullSyncSnapshot.FoldedPlanIsWellFormed` | internal/core/service.go:445-523 | A plan with one schema per table and non-null keys folds into tables that meet what the two full-sync compilers need. |
| `FullSyncSnapshot.BothHoldLastWrites` | internal/core/service.go:445-607 | From plan to databases: whatever they held before, after their full syncs both databases hold the last row written under each key, and no other row; Postgres unless it refuses a create. |
| `LastWrites.BothHoldSurvivors` | internal/core/service.go:445-607 | From plan to databases, by values: whatever both held before, after their full syncs each holds the writes that no later write replaces and no other row; Postgres unless it refuses a create. |
| `FullSyncSnapshot.NewLinkTableIsRefused` | internal/core/service.go:476-484 | Finding: a full reload with a link table that Postgres does not have yet is rolled back, because both its columns are marked as key. |
| `Nullability.CollectNullableColumns` | internal/core/service.go:656-679 | The columns marked by rows: those a row has no value or a null for, and the non-key columns of the table it lacks. |
| `Nullability.RelaxCreateTableColumns` | internal/core/service.go:681-698 | In place, exactly the marked columns outside the key become nullable. |
| `Nullability.RelaxPlanNullability` | internal/core/service.go:609-654 | The shared column arrays after relaxing a plan are the relaxation specification of what they held before. |
| `Nullability.RowsMarksMean` | internal/core/service.go:656-679 | A column is marked exactly when some row lacks or nulls it and either names it or belongs to a table whose last create has it outside the key. |
| `Nullability.RelaxedPlanFits` | internal/core/service.go:609-654 | Soundness: no row lacks or nulls a non-key column still NOT NULL, exactly when no create of a table strays from its last create; with one column set per table this always holds. |
| `Nullability.FlipsAreNeeded` | internal/core/service.go:681-698 | Minimality: a flag flips only from NOT NULL to nullable, only outside the key and only when some row lacks or nulls the column; nothing else changes. |
| `Nullability.StrayColumnKeepsItsFlag` | internal/core/service.go:623-632 | Finding: a column of an earlier create only can stay NOT NULL although a row lacks it. |
| `Nullability.RelaxEveryCycle` | internal/core/service.go:290-295 | Across any number of cycles, committed or not, the flags of the shared arrays only ever loosen. |
| `Nullability.FlagsRemember` | internal/core/service.go:290-295 | After any run a column is nullable exactly when it was compiled so or some cycle marked it. |
| `Values.UniqueValues` | internal/core/service.go:3167-3179 | Removing repeats keeps the first value of each text. |
| `Values.UniqueCovers` | internal/core/service.go:3167-3179 | Every value keeps a representative with its text. |
| `Values.UniqueTexts` | internal/core/service.go:3167-3179 | No two values that stay share a text. |
| `Values.UniqueKeepsFirsts` | internal/core/service.go:3167-3179 | What is kept is, in order, the first value of each text and nothing else. |
| `MarkedInserts.Context.RecordInsertedRow` | internal/core/service.go:3156-3165 | Records a row and tells exactly whether it was new. |
| `MarkedInserts.Context.ProcessNode` | internal/core/service.go:3205-3246 | Processing a node appends exactly the inserts its records stand for that were not there yet, children first, and returns the keys by which a parent refers to them. |
| `MarkedInserts.Context.ProcessRecord` | internal/core/service.go:3248-3338 | The same for one record: children, own row once per key text, links once per text. |
| `MarkedInserts.BuildInsertOpsFromMarkedPlan` | internal/core/service.go:3181-3203 | The operations of a payload are its inserts, each identity once. |
| `MarkedClosure.ExtractionIsClosed` | internal/core/service.go:3248-3338 | Every prefix of the extracted operations is referentially closed: each reference, each element of an array of references and both ends of each link name a row inserted earlier; and no row or link is inserted twice. |
| `MarkedClosure.ExtractionIsComplete` | internal/core/service.go:3181-3338 | The operations insert exactly the rows and links of the payload: a row for each record that has its key field, a link for each record with a key under a link relation of such a record. |
| `MarkedClosure.FirstRecordWins` | internal/core/service.go:3156-3165 | Of several records with one key the first in order of extraction gives the row. |
| `MarkedClosure.RowRefersToChildren` | internal/core/service.go:3256-3280 | A record's row has a value for a direct relation exactly when the record holds a record with a key there, and it is then the keys of all of them, each once and in order, as a typed array, or the key of the single one. |
| `MarkedRecords.RefKeysAre` | internal/core/service.go:3205-3246 | A text is that of a key handed up for a node exactly when some object record directly in the raw value has a non-null key with that text. |
| `MarkedRecords.RefKeysListKeys` | internal/core/service.go:3205-3246 | The keys handed up are those of all the records there, each text once, in the order in which the payload gives them first. |
| `MarkedClosure.LinkRowNamesItsEnds` | internal/core/service.go:3315-3336 | A link row has two columns: the one called after the parent's table and key holds the parent's key, the one called after the child's holds the key of a record under the relation. |
| `MarkedClosure.RowHoldsScalars` | internal/core/service.go:3249-3254 | A record's row holds exactly the scalar properties the record has, with their values. |
| `MarkedClosure.RecordInsertsItsKey` | internal/core/service.go:3284-3313 | A key handed to a parent is one whose row has been inserted. |
| `Params.BuildEffectiveParamValues` | internal/core/service.go:1930-1947 | The values of one parameter: published or fixed, each text once, filtered; "not ready" exactly when nothing was published; a failing filter is an error. |
| `Params.EffectiveValuesAre` | internal/core/service.go:1930-1947 | A parameter takes exactly the offered values its filter accepts, no text twice. |
| `Params.EffectiveValuesMean` | internal/core/service.go:1930-1947 | By source: a parameter takes exactly the published or fixed values that are the first of their text and that its filter accepts. |
| `Params.StarvedMeans` | internal/core/service.go:1397-1410 | A parameter starves exactly when no value of its source that is the first of its text is accepted. |
| `Params.BuildEffectiveParamValueLists` | internal/core/service.go:1397-1410 | The value lists of an operation, or not ready, or an error, decided by the first parameter that is not plain. |
| `Params.NotReadyMeansStarved` | internal/core/service.go:1397-1410 | An operation is held back exactly by its first parameter without a value, provided none before it is in error. |
| `Params.GenerateCombinations` | internal/core/service.go:1412-1433 | The nested loops compute the product of the lists; no lists give no combination. |
| `Params.ProductHolds` | internal/core/service.go:1412-1433 | A combination is generated exactly when it picks one value of each list: the cartesian product. |
| `Params.ProductSize` | internal/core/service.go:1412-1433 | There are as many combinations as the product of the list lengths. |
| `Params.ProductTurns` | internal/core/service.go:1412-1433 | The combinations come in the order of an odometer whose last list turns fastest: the place of each in the result gives the value of each list by division and remainder. |
| `Params.ProductNoneTwice` | internal/core/service.go:1412-1433 | With lists that repeat no text, no combination comes twice. |
| `Params.KeysAreDistinct` | internal/core/service.go:1771-1777 | With distinct parameter names one operation stages pairwise different checkpoint keys in a cycle. |
| `Params.KeysTellRequestsApart` | internal/core/service.go:1771-1777 | Over all operations: two checkpoint keys are equal exactly when path, pagination parameter and parameters are, as long as path and pagination parameter hold no bar. |
| `Params.BarsConfuseKeys` | internal/core/service.go:1771-1777 | Finding: with bars in them two different operations share a checkpoint key. |
| `Params.BuildParamsMap` | internal/core/service.go:1370-1376 | The request parameters: each name with the printed value at its place. |
| `Scheduler.FetchCombos` | internal/core/service.go:297-400 | All combinations of an operation in turn, each with its own request, until one breaks the cycle. |
| `Scheduler.VisitOperation` | internal/core/service.go:259-405 | One visit of an operation: skipped when fetched or complete, left when a parameter has no value, else run. |
| `Scheduler.RunOperations` | internal/core/service.go:256-411 | The scheduler loop ends, and ends where the pass specification says. |
| `Scheduler.PassFetches` | internal/core/service.go:257-406 | A pass only adds to what is fetched, and adds something whenever it makes progress: the measure that makes the loop end. |
| `SchedulerRuns.CycleKeeps` | internal/core/service.go:239-431 | Over a whole cycle: every operation is run at most once and no complete one-shot operation at all; each run uses the combinations of the values it saw, which lie between those at the start and at the end; the two plans are the creates and results of the runs, each once and in order; requests, checkpoints and published values are those of the runs. |
| `SchedulerRuns.CycleEndsAtFixpoint` | internal/core/service.go:256-411 | At the end every operation has had its run, or is a complete one-shot operation, or has a parameter with no acceptable value among all that is published. |
| `SchedulerRuns.RunsUseAcceptableValues` | internal/core/service.go:1930-1947 | An operation is called for exactly the ways to pick one accepted value per parameter, and each value is fixed or published by the end of the cycle. |
| `SchedulerRuns.CycleSucceeds` | internal/core/service.go:256-411 | A cycle fails for nothing but a parameter in error or a call that breaks. |
| `Publishing.CyclePublishes` | internal/core/service.go:1480-1546 | Over a whole cycle: a text stands under an id at the end exactly when it did at the start or some call of some run that ended well published a value of that id with that text; every value came from there; a run sees exactly what stood at the start and what the runs before it published; lists without repeated texts stay so. |
| `Publishing.CheckpointsHold` | internal/core/service.go:360-400 | A checkpoint is staged exactly for a call of an incremental operation that ended well with something to resume from, under the key of that call. |
| `Service.CheckTableModes` | internal/core/service.go:1187-1192 | Preparing succeeds exactly when no table is owned by operations of different modes. |
| `Service.Planner.GenerateCyclePlan` | internal/core/service.go:239-431 | The plan of a cycle as a function of the compiled operations, the published values and the completed set; the last two are left untouched, the first keep the flags the plan relaxed. |
| `Publishing.PlanIsOfItsRuns` | internal/core/service.go:408-431 | The plan is that of its runs: its pending checkpoints are theirs in order, its next values hold exactly what stood at the start or was published, its two halves are the relaxed creates and results of the runs. |
| `Service.PlanSharesCreates` | internal/core/service.go:290-295 | The creates that stay with an operation that ran are those its plan holds, relaxed flags included. |
| `Service.IdleOperationsStay` | internal/core/service.go:290-295 | An operation that did not run in a cycle keeps its creates as they were, and a cycle that fails changes none. |
| `Service.OperationsLoosen` | internal/core/service.go:417-418 | Over any attempts, committed or not, the compiled operations stay the same but for flags, which only loosen. |
| `Service.Planner.CommitCycle` | internal/core/service.go:433-443 | Committing replaces the published values and adds the completed operations. |
| `Service.OneShotsAre` | internal/core/service.go:1671-1679 | The paths a commit may complete are exactly those of the one-shot operations. |
| `Service.OneShotsCount` | internal/core/service.go:1671-1679 | They are counted once for each such operation. |
| `Service.CommitCompletesOneShots` | internal/core/service.go:408-415 | A commit leaves every one-shot operation complete, run or not, exactly when fewer were complete than there are, or all were. |
| `Service.ForeignPathsBlockCompletion` | internal/core/service.go:408-415 | Finding: once an earlier specification has completed as many paths as there are one-shot operations, no run of cycles completes another, and each is fetched in every cycle unless a parameter has no value. |
| `Service.OneForeignPathSuffices` | internal/core/service.go:408-415 | It occurs: one committed cycle with one one-shot operation blocks the only one of the next specification for good. |
| `Service.CompletedSoFar` | internal/core/service.go:433-443 | Over any run of cycles on one specification: nothing but flags is kept before the first commit, and from then on exactly the one-shot operations are complete. |
| `Service.NoOneShotAgain` | internal/core/service.go:262-265 | After the first commit no one-shot operation is ever fetched again, even one that never became ready. |
| `Service.UncommittedIsRetried` | internal/core/service.go:246 | A cycle that is not committed is retried from the same values and the same operations but for loosened flags. |
| `ModeSeparation.PlanHalves` | internal/core/service.go:1187-1192 | The full sync of a cycle touches no table of its upsert plan, when what is created and extracted for each operation is of tables it owns. |
| `ModeSeparation.PostgresHalvesCommute` | internal/runner/runner.go:527-552 | On Postgres the two halves of a cycle can be applied in either order, a refused full sync included, and the full sync leaves every table of the upsert plan as it is. |
| `ModeSeparation.ClickHouseHalvesCommute` | internal/runner/runner.go:527-552 | The same on ClickHouse. |
| `ModeSeparation.ExtractionStaysDeclared` | internal/core/service.go:1208-1236 | What is extracted from a marked payload is written to declared node and link tables only. |
| `RunnerSteps.RunKeeps` | internal/runner/runner.go:132-193 | In every interleaving of the runner and any number of callers: each cycle that ended has one summary and the history is the newest of them up to the limit, newest first; each cycle is woken by at most one trigger, which was accepted after the start of the cycle before. |
| `RunnerSteps.HistoryTellsEndings` | internal/runner/runner.go:346-430 | In every interleaving each cycle that ended has one summary with the outcome that cycle ended with, newest first, cut to the limit. |
| `RunnerSteps.StopsExactlyWhen` | internal/runner/runner.go:132-171 | In every interleaving the published phase is that of the work at hand; the runner has stopped exactly when a cycle ended fatally, a sleep was cancelled or failed, or the single cycle of the one-shot mode ended; and after that only callers act. |
| `RunnerSteps.SendersSawSleep` | internal/runner/runner.go:173-193 | In every interleaving a caller that sends has seen the runner asleep before, so a runner in the one-shot mode is never triggered. |
| `RunnerSteps.TriggersAreConserved` | internal/runner/runner.go:173-193 | At most one trigger is pending; every accepted one is pending, consumed by one wake or drained by one cycle start; early starts equal consumed triggers and never exceed accepted ones. |
| `RunnerSteps.TriggerLandsInItsSleep` | internal/runner/runner.go:173-193 | A signal lands in the sleep its caller saw exactly when neither a wake, a cancellation nor a failed wait came between seeing and sending; for every interleaving. |
| `RunnerSteps.TriggerLandsLate` | internal/runner/runner.go:178-187 | Finding: a caller that saw the runner asleep can have its trigger accepted while the next cycle runs, although the error text says triggers are accepted only while sleeping. |
| `RunnerSteps.PendingTriggerServesNextStart` | internal/runner/runner.go:447-477 | In every interleaving a trigger pending past a cycle start is pending until the next wake; if that wake is by trigger it is consumed by it, otherwise the next cycle start drains it. |
| `Runner.ApplyCyclePlan` | internal/runner/runner.go:527-552 | The steps tried are those up to the first failure: upserts, full sync when there is one, checkpoints when there are any. |
| `Runner.CommitsWhenAllSucceeds` | internal/runner/runner.go:260-291 | A cycle commits exactly when planning, exporting, both applies and saving succeeded. |
| `Runner.CheckpointsComeAfterApplies` | internal/runner/runner.go:532-550 | Checkpoints are saved only after both applies succeeded, and a commit follows only after they were saved. |
| `Runner.EndingsTell` | internal/runner/runner.go:215-296 | A cycle ends before applying exactly when the plan, its full sync or its SQL cannot be had; the SQL is written to a file exactly when applying failed and there is some; and a cycle that got to applying ends with a fatal error exactly when that writing failed. |
| `Runner.StepsAreTakenOnce` | internal/runner/runner.go:215-296 | No step of a cycle is taken twice. |
| `Runner.Runner.TriggerCycle` | internal/runner/runner.go:173-193 | The four answers of a trigger request, when each is given, and that only an accepted one changes anything. |
| `Runner.Runner.DrainTriggerSignal` | internal/runner/runner.go:469-477 | Draining empties the channel, as a run of drain steps. |
| `Runner.Runner.StartRun` | internal/runner/runner.go:315-333 | A cycle start drains, counts the cycle and sets the phase. |
| `Runner.Runner.FinishRun` | internal/runner/runner.go:346-401 | Finishing adds one summary in front and cuts the history to the limit. |
| `Runner.Runner.FailRun` | internal/runner/runner.go:403-430 | A fatal failure adds one summary and leaves the phase failed. |
| `Runner.Runner.WorkCycle` | internal/runner/runner.go:260-313 | The work of a started cycle: the steps tried, whether it ends the runner, and the run of state-machine steps it is. |
| `Runner.Runner.RunCycle` | internal/runner/runner.go:260-313 | One cycle from start to summary: the steps tried, whether it ends the runner, and the run of state-machine steps it is. |
| `Runner.Runner.SleepUntilNextCycle` | internal/runner/runner.go:447-467 | The sleep after a cycle, ended by time, by the pending trigger, by cancellation or by an error, and the phase each leaves. |
| `RateLimit.RateLimiter.Wait` | internal/api/http/connector.go:39-62 | One call of the token bucket: the new tokens and refill time, and when the call is let through. |
| `RateLimit.AdmissionCosts` | internal/api/http/connector.go:39-62 | Each admission costs at least one token of what the time since the last has earned. |
| `RateLimit.WindowBound` | internal/api/http/connector.go:39-62 | For callers one after another, at most maxRPM + maxRPM/60 * T calls are let through in any window of T seconds. |
| `RateLimit.DebtDelaysNext` | internal/api/http/connector.go:58-62 | Finding: a call that waited leaves a debt of one token, so the next is let through no sooner than 120 / maxRPM seconds later. |
| `RateLimit.WaitingCallsRunAtHalfRate` | internal/api/http/connector.go:49-62 | As long as every call waits, successive calls are at least 120 / maxRPM seconds apart: half the configured rate. |
| `RateLimit.RateIsMetUnlessWaited` | internal/api/http/connector.go:39-62 | Finding, exactly: between a call and one made the moment it was let through, the configured 60 / maxRPM seconds are enough if and only if the first did not have to wait. |
| `RateLimit.EagerCallsRunAtHalfRate` | internal/api/http/connector.go:39-62 | It occurs for every number of calls: of callers without a pause a new limiter lets the first maxRPM through at once, and call k after them at 60 * (2 * (k - maxRPM) + 1) / maxRPM seconds. |
| `Retry.Fetch` | internal/api/http/connector.go:132-189 | The retry loop sends at most R + 1 requests; it goes on exactly after 429 and 500 to 599 with an attempt left and a delay that was not cut short; it succeeds exactly when its last answer is 200 to 299, and the time slept is the sum of the delays. |
| `Retry.FirstFinalAnswerDecides` | internal/api/http/connector.go:165-188 | A fetch succeeds exactly when the first answer that does not ask for a retry is a success. |
| `Retry.DelaysAddUp` | internal/api/http/connector.go:172-186 | The delays of n attempts add up to at most Y * (2^n - 1). |
| `Retry.SlowDownDoubles` | internal/api/http/connector.go:172-186 | Under answers that ask to slow down (429) n delays add up to exactly Y * (2^n - 1): each doubles the last. |
| `Retry.ServerErrorsWaitEvenly` | internal/api/http/connector.go:172-186 | Under server errors (500 to 599) n delays add up to exactly n * Y. |
| `Common.SetThenResolve` | internal/core/service.go:2978-3007 | A value written at a path is the one found there. |
| `Common.SetKeepsOthers` | internal/core/service.go:2978-3007 | Writing a value at a path changes nothing at any path apart from it. |
| `Common.SortedKeys` | internal/core/service.go:3140-3147 | Sorting the keys of a map gives each key once, in byte order. |

## Left out

- The HTTP transport, URL building, authentication from the environment, request logging, the control
  server and its client, configuration, registries and file output.
- Reading OpenAPI documents and their extensions: the model starts from compiled operations and a finite
  schema tree; schemas with cyclic `$ref` are out.
- The rules of each parameter filter: a filter is a function from a value to accepted, refused or error.
- Failures while rows are built from a filtered page; they abandon the fetch as a failed page does.
- Resume-pagination checkpoints: their offset is that of the first empty page, so loss-freedom is not
  something the code gives (internal/core/service.go:777-832).
- Real database behaviour: statements are synchronous, ClickHouse mutations included; isolation and type
  conversion are out; keys are not NULL.
- Wall-clock subtleties: nanosecond truncation, float rounding, shift overflow and a clock set back.
- EndToEnd.FailuresLeaveNoTrace: asks that an undelivered item leaves its feed only when the keys of its rows stay ahead, as those of an
  updated record do; DepartedItemLeavesATrace shows what happens otherwise. One table is compared at a time.
- EndToEndPostgres.NoTraceOnPostgres: asks that rows of one key name the same columns; for one failed cycle TraceOfOneFailure has the exact condition.
- PostgresExport.ExportSQL: a create that Postgres refuses ends the apply there; the refusal is modelled for full syncs only, which run in one transaction.
- PostgresExport.ReplaySafe: asks for keyed tables; tables without a primary key are settled by ReplayNeedsAKey.
- FullSyncSnapshot.LastWriteWins: rows are told apart by their key text; two different keys with one `%v` text
  count as one key, as in the code (internal/core/service.go:560-584).
- LastWrites.RowTextsTell: for keys of several columns it takes every key value but the last to be a scalar that prints
  without a bar; BarsMergeRows shows what bars can do.
- PostgresReadBack.StatementReadsBack: names and types in creates are single lines, and the type of a column that may be
  null ends in neither a comma nor a constraint, since types are printed as they are; a column
  printed as PRIMARY KEY shows no NOT NULL flag of its own.
- ClickHouseReadBack.StatementReadsBack: names are printed without quotes, so they are taken to hold no blank, comma or
  closing bracket outside quotes.
- LiteralReader.LiteralReadsBack: the printing of numbers is a parameter, taken to be one that can be read back; objects
  and lists inside a scalar literal are read back as the text they are printed as.
- MarkedClosure.ExtractionIsClosed: for marked children directly under a property of a marked parent; through an
  unmarked container the relation keeps the outer property's name (internal/core/service.go:2888-2892).
- MarkedClosure.ExtractionIsComplete: links are told apart by their joined text, as in the code.
- SchedulerRuns.CycleEndsAtFixpoint: says nothing about the order of operations; a consumer runs as soon as
  some values exist, so which values it sees can depend on the order.
- ModeSeparation.PlanHalves: asks that what is created and extracted for an operation is of tables it owns; for marked payloads ExtractionStaysDeclared gives this.
- RunnerSteps.RunKeeps: the next-run time, request counts and other display fields of the status are not modelled, nor is a cycle that never ends.
- RateLimit.WindowBound: for callers one after another; two callers sleeping at once share the bucket in a way the model leaves out.
- Retry.Fetch: the part of a delay that passes before a cancellation is not counted.
- Letter case: lower and upper case are mapped for ASCII letters only.
- A typed array value with an empty element type, which the planner never builds.
