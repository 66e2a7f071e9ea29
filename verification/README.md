# fwlog: a verified model of its ingest-and-query engine

fwlog collects firewall logs, archives them by day, imports the archives into partitioned tables
with versioned state rows, and answers queries page by page. This project models the parts of it
that have to be right under failures, clocks that stall or run backwards, background merges,
crashes and concurrency, and proves what they promise. `dafny verify dfyconfig.toml` checks it all.

| files | part of fwlog |
|---|---|
| `StateLog`, `Aggregates`, `IngestStore`, `Importer` | the ingest protocol: the state tables and what "latest" means over a table that merges rows, the materialised views, and `ImportDate` as a class whose every call may fail and whose every clock reading is arbitrary |
| `Coordinator`, `WorkerPool` | the import coordinator and the pool over dates, as step relations over the program counters of the goroutines |
| `ResponseCache` | the single-flight cache with `Clear`, as a step relation |
| `Visibility`, `SqlFilter`, `Paging`, `Order`, `CursorText` | a query: ingest states become visible ranges, these a condition with placeholders, and that pages with cursors |
| `TimestampGrammar`, `Fields`, `YearInference` | the hand-written matchers of the log parser |
| `Routing`, `Receiver`, `Archive` | the route table, the reconfiguration of the listeners, and the archiver |
| `Text`, `Sources`, `LogSourceSettings`, `SourceIdentity` | the settings of log sources and the IDs under which their rows are stored |
| `EndToEnd` | how the guarantees of the parts fit together: from archived files to the pages of a query |
| `Wrappers`, `Sequences` | an option type and a fact about sequences that the others share |

How the pieces are modelled:

- A table is a multiset (state rows) or a partition holding rows and aggregates. A background merge
  may remove a row whenever another row of its key is at least as new. Any call may fail, and a
  write that fails may still have been applied. Times are integers, and every reading of the clock
  is arbitrary.
- The ingest class records the world after every change. Safety is a statement about all recorded
  worlds: a date that reads as ready has exactly the rows and aggregates that were noted for it, and
  every world of a run is accounted for, so that only a run that has read all its files notes
  theirs. `Importer.ImportMany` puts both together over any sequence of runs. The window between the
  first drop (`internal/importer/importer.go:158`) and the importing row
  (`internal/importer/importer.go:174`) is an explicit phase in which a date may still read as
  ready. While a key is in its window no row of the run has reached the state table, and the first
  one that does ends it.
- Ghost counters note every failed call: of the state tables, of inserts, drops, listings and file
  reads, of the archiver's file operations and of the receiver's sockets. So a contract can say what
  happens when nothing fails, and that a failure is never reported for nothing.
- `EndToEnd.ImportThenAnswer` puts the ingest and the query side together over the columns of stored
  rows: what was imported comes back, once, and nothing else does.
- A concurrent part is a state, the steps its goroutines can take and an invariant that every step
  keeps; the theorems speak of all sequences of steps from the initial state.
- A file operation of the archiver records the world after it, and a crash may come after any of
  them; a crash may lose what was written to a gzip file and not synced. Sources may share an archive
  directory, and archives that are incomplete may already be in it.
- The hand-written matchers are methods with the loops of the source, proved equal to the regular
  expressions and to the key map that their comments name.

Where something does less than one might expect, the project gives an example and states exactly
when it does what it should: `IngestStore.DropIsSafeIffEmpty` (a rebuild is visible while it starts),
`StateLog.SurvivesMergesIffLatest` (why terminal rows take a later second),
`Paging.DisplayedCursorLeadsOnIffSame` (why the order of two steps matters),
`YearInference.OnlyLeapDaysAreLost` (a stamp of 29 February under an archive of a common year),
`Receiver.ErrorsLoseCounters` (a failed reconfiguration resets the counters of the failing
endpoint), and `Archive.WhenRetentionIsSafe` (retention of one source can delete archives of another
that shares its archive directory and whose ID continues its own with an underscore).

## Model

| member | source | states |
|---|---|---|
| `StateLog.TerminalStateTimestamp` | internal/importer/importer.go:324-330 | the instant a terminal row is given is the least one that is neither before the clock nor in the second of the previous row, even when the clock runs backwards |
| `StateLog.Stored` | internal/storage/clickhouse/ingest_state_store.go:15-37 | an instant written at the precision of the column, or of the driver, stays in its second and never moves forward |
| `StateLog.StoredIsPrecise` | internal/storage/clickhouse/ingest_state_store.go:15-37 | it is the greatest multiple of a microsecond, or of a second, that is not after the instant |
| `StateLog.AppendTerminal` | internal/importer/importer.go:305-330 | a row written with that instant is strictly later than every row of its key at one-second precision |
| `StateLog.MergesKeepStrictlyLatest` | internal/storage/clickhouse/ingest_state_store.go:140-158 | such a row survives every background merge of the table and is the only possible answer of the point query ever after |
| `StateLog.TiedRowsCanBeMergedAway` | internal/storage/clickhouse/ingest_state_store.go:11-13 | why it must be strictly later: with equal instants readers prefer the failed row, but a merge may keep the other one |
| `StateLog.SurvivesMergesIffLatest` | internal/storage/clickhouse/store.go:463-511 | a row can never be merged away if and only if every other row of its key is older |
| `StateLog.MergeFacts` | internal/storage/clickhouse/store.go:463-511 | what any sequence of merges by `updated_at` keeps: bounds, importing since an instant, strictly latest rows, and no older row becomes newest |
| `StateLog.MergeStep` | internal/storage/clickhouse/store.go:463-511 | one merge that drops a superseded row still leaves every original row covered by one as new |
| `StateLog.LatestExists` | internal/storage/clickhouse/ingest_state_store.go:160-182 | a key that has rows has one that is latest by (updated_at, status priority) |
| `StateLog.TiesAreRead` | internal/storage/clickhouse/ingest_state_store.go:11-13 | of two rows with one instant a read answers a failed one before all others, then a finished one, then an importing one |
| `StateLog.AppendFirstImporting` | internal/importer/importer.go:139-185 | the first importing row, one second after all earlier ones, makes the date read as importing |
| `StateLog.AppendProgress` | internal/importer/importer.go:196-216 | progress rows keep the date importing whatever the clock gives, and the running bound stays the maximum of what was written |
| `Aggregates.CombineIsAssociative` | internal/storage/clickhouse/dashboard_aggregates.go:80-87 | count, last seen and latest translation of a flow combine associatively, as an aggregating table needs |
| `Aggregates.FlowViewOfBlocks` | internal/storage/clickhouse/dashboard_aggregates.go:45-59 | inserting rows in two blocks gives the same flows as inserting them in one |
| `Aggregates.FlowViewMeaning` | internal/storage/clickhouse/dashboard_aggregates.go:80-87 | the flow table counts the rows of each flow, and its last time and translation are those of a row of that flow that no other exceeds |
| `Aggregates.CountsMeaning` | internal/storage/clickhouse/dashboard_aggregates.go:60-77 | column by column: a tag is counted as often as rows have it, a source or destination address as often as rows with the tag have it there, and a destination subnet as often as their destinations lie in it |
| `Aggregates.SubnetIs` | internal/storage/clickhouse/dashboard_aggregates.go:77-77 | the subnet of an address keeps all but the last eight bits of a mapped IPv4 address, else the first 64 bits, and zeroes the rest |
| `Aggregates.InsertKeepsAggregates` | internal/storage/clickhouse/dashboard_aggregates.go:60-87 | inserting a block into a partition whose aggregates are what the views compute from its rows leaves that true, for every split into blocks; `FlowViewMeaning` and `CountsMeaning` say what they compute |
| `IngestStore.ReadyMeansComplete` | internal/storage/clickhouse/ingest_state_store.go:60-90 | in a safe world whatever either read of the state table answers with ready outside its window has exactly the rows noted for it, their aggregates and their count; `ImportMany` says whose rows those are |
| `IngestStore.MergesKeepSafe` | internal/storage/clickhouse/store.go:463-488 | background merges keep every world safe |
| `IngestStore.AppendKeepsSafe` | internal/storage/clickhouse/ingest_state_store.go:15-37 | appending a state row keeps the world safe unless it says ready of an incomplete partition |
| `IngestStore.ChangedDataKeepsSafe` | internal/importer/importer.go:158-185 | the data of a date may change only while it reads as importing or its window is open |
| `IngestStore.DropIsSafeIffEmpty` | internal/importer/importer.go:158-174 | dropping any of the four tables of a date that reads as ready leaves it complete if and only if the date has no rows |
| `IngestStore.DroppedButStillReady` | internal/importer/importer.go:158-174 | the window between the first drop and the importing row is really unsafe: the date still reads as ready without its rows |
| `IngestStore.MergeRows` | internal/storage/clickhouse/store.go:463-488 | a merge pass over the table drops only rows that another row of the key supersedes |
| `IngestStore.StaysSoleLatest` | internal/storage/clickhouse/ingest_state_store.go:60-90 | a row that is newer than all others of its key stays so for as long as only merges happen to the key |
| `IngestStore.Store.constructor` | internal/storage/clickhouse/store.go:441-511 | a store may start over any tables, left by whatever happened before; nothing is claimed of a date until it has been imported |
| `IngestStore.Store.LatestDateState` | internal/storage/clickhouse/ingest_state_store.go:60-90 | a read, after any merges, answers with a row that is latest for the key, with none only if there is none, or fails |
| `IngestStore.Store.ListDateStates` | internal/storage/clickhouse/ingest_state_store.go:160-182 | the list query answers with a latest row of exactly the keys that have rows from the given day on, each key once, or fails |
| `IngestStore.Store.LatestFileState` | internal/storage/clickhouse/ingest_state_store.go:92-119 | the same for a file |
| `IngestStore.Store.WriteDateState` | internal/storage/clickhouse/ingest_state_store.go:15-37 | appends the row at the stored precision, after any merges; a write that fails may have been applied; a row that is applied ends the window of its key; safety of all worlds is kept |
| `IngestStore.Store.WriteFileState` | internal/storage/clickhouse/ingest_state_store.go:39-58 | the same for the rows of files |
| `IngestStore.Store.DropPartition` | internal/importer/importer.go:332-344 | empties one table of the one key, or fails with or without having done so; nothing else changes, in no world on the way |
| `IngestStore.Store.InsertRows` | internal/importer/importer.go:64-116 | a batch that succeeds is there with all its aggregates; one that fails has reached any of the four tables wholly or not at all; nothing else changes, in no world on the way |
| `Importer.OffsetsGrow` | internal/importer/importer.go:383-417 | the offsets of the parsed lines of a file strictly grow |
| `Importer.PositionsAreUnique` | internal/importer/importer.go:383-431 | the rows of all files of one date have pairwise distinct (time, source, file, offset) positions |
| `Importer.Importer.AppendBatch` | internal/importer/importer.go:64-116 | an empty batch is no insert; any other is one insert of exactly its rows |
| `Importer.Importer.Flush` | internal/importer/importer.go:409-416 | a flush adds the collected rows to the partition and to the count, at any batch size |
| `Importer.Importer.ScanLines` | internal/importer/importer.go:387-430 | after a file was read the partition has grown by exactly the rows its lines parse to, and both counters are right |
| `Importer.Importer.ImportFile` | internal/importer/importer.go:351-431 | imports a file: on success the partition is the earlier rows followed by the rows of the file; on failure only the partition of this date changed |
| `Importer.Importer.OpenFile` | internal/importer/importer.go:217-232 | the importing row of a file lies in a later second than everything recorded of its path before |
| `Importer.Importer.CloseFile` | internal/importer/importer.go:246-267 | the terminal row of a file is strictly latest and has its row count; it says ready exactly if the file had rows and text, and no_data otherwise |
| `Importer.Importer.FailFile` | internal/importer/importer.go:234-243 | a file that cannot be read ends strictly latest as failed whenever the date is marked as failed, also strictly latest; the files done before keep their rows, and the marks are missing only if the state tables failed |
| `Importer.Importer.MarkDateFailed` | internal/importer/importer.go:524-541 | the failed row of a date is strictly latest, counts one retry more than the latest row, up to three, and is due again after one, five or fifteen minutes |
| `Importer.Importer.MarkFileFailed` | internal/importer/importer.go:543-561 | the same for a file; the other files keep their terminal rows |
| `Importer.Importer.WriteProgress` | internal/importer/importer.go:197-216 | a progress row keeps the date importing and the bound on its rows current |
| `Importer.Importer.StartTime` | internal/importer/importer.go:139-143 | the run starts at the clock reading, or in the second after that of the latest row of the date if that is later |
| `Importer.Importer.ClearPartition` | internal/importer/importer.go:158-166 | after all four drops the partition and every aggregate of the key are empty; other keys are untouched |
| `Importer.Importer.BeginRun` | internal/importer/importer.go:174-185 | writing the first importing row ends the window and makes the date read as importing |
| `Importer.Importer.ImportTargets` | internal/importer/importer.go:187-291 | after the loop over the files the partition holds exactly their rows and each is recorded with its own result; if it stops at a file, all files before it are recorded, none after it is, and it is failed itself if the date is marked |
| `Importer.Importer.MarkUnrecognised` | internal/importer/importer.go:292-303 | when nothing at all was recognised, every unrecognised file and the date end as failed |
| `Importer.Importer.FinishRun` | internal/importer/importer.go:305-321 | the last row is ready, or no_data for no rows, strictly latest, with the size of the partition, all files and all bytes done and no retry |
| `Importer.Importer.ImportDate` | internal/importer/importer.go:133-322 | for any earlier contents, clock readings, failures and merges: a run ends for want of files only if no entry of the directory is a regular, non-empty archive of the date five minutes old at its start, as refused exactly if some line has text and none is recognised, in any other failure only if a call failed, and unrecorded only if the state tables failed or the directory could not be listed; on success the partition and all aggregates are rebuilt from exactly the date's files and the terminal row says so; in every world on the way no row of the run says ready before all rows of its files are in, and other keys are untouched |
| `Importer.ImportMany` | internal/importer/importer.go:133-322 | over any sequence of imports, in every world on the way, a date that reads as ready outside its window holds exactly the rows of the files that one of the imports listed; after the last import of a date that ended in a terminal row its window is closed, and a successful one left its rows and reads as ready; an import that comes when an archive is there never lacks files, one with a recognised line in it is never refused and loads rows if it succeeds, and if no call fails every import succeeds, lacks files or is refused, and is recorded |
| `Importer.Importer.ImportTwice` | internal/importer/importer.go:133-322 | importing the same files again changes neither rows nor aggregates |
| `Importer.TargetsAreDistinct` | internal/importer/log_scanner.go:57-108 | the files of a run are exactly the entries that are regular, not empty, named for the date and at least five minutes old, each once |
| `Importer.RowsOfNoFile` | internal/importer/importer.go:387-431 | a date has rows if and only if some line of its files is recognised |
| `Importer.Importer.WhenUnrecognisable` | internal/importer/importer.go:244-292 | of a date without rows some file counts as unrecognised if and only if some line has text |
| `Coordinator.New` | internal/importer/coordinator.go:31-43 | a coordinator starts in a state that meets the invariant, with limits of at least one |
| `Coordinator.AdmitSources` | internal/importer/coordinator.go:49-60 | the loop under the lock computes the admission |
| `Coordinator.AdmissionPartitions` | internal/importer/coordinator.go:49-60 | accepted and busy partition the request; a source is accepted once, and exactly when it was requested and not running |
| `Coordinator.StepKeepsInv` | internal/importer/coordinator.go:45-114 | every step of every goroutine keeps the invariant |
| `Coordinator.LimitsAndExclusion` | internal/importer/coordinator.go:79-114 | under every interleaving the limits on sources and writers hold, no two workers have the same source, and a source is marked as running exactly while a worker has it |
| `Coordinator.DeliveredIsConjunction` | internal/importer/coordinator.go:67-77 | a run delivers only after all its workers released their sources, and delivers the conjunction of what they gave back |
| `Coordinator.DeliveredTellsHowWorkersEnded` | internal/importer/coordinator.go:62-97 | a run delivers true if and only if every worker of the run finished successfully, which is if none failed or gave up, counted over the steps of any interleaving |
| `Coordinator.OnlyCancelledRunsGiveUp` | internal/importer/coordinator.go:88-92 | a worker gives up only after the run was cancelled |
| `Coordinator.StartSpawns` | internal/importer/coordinator.go:49-66 | a request adds one waiting worker of the new run for each source that was not running, and no other, and leaves all earlier workers as they were |
| `Coordinator.ReleasedAndDeliveredOnce` | internal/importer/coordinator.go:62-81 | no source is released and no result delivered twice, and by delivery each source of the run was released exactly once |
| `Coordinator.NeverDeadlocked` | internal/importer/coordinator.go:61-114 | until everything is sent and delivered some goroutine can move without outside help; in particular sending a result never blocks |
| `ResponseCache.New` | internal/server/dashboard_cache.go:48-58 | an empty cache meets the invariant; a time to live that is not positive becomes five minutes |
| `ResponseCache.StepKeepsInv` | internal/server/dashboard_cache.go:60-136 | every step of `Get`, of a load's end and of `Clear` keeps the invariant |
| `ResponseCache.LoadsDoNotOverlap` | internal/server/dashboard_cache.go:74-112 | loads of one entry never overlap, and loads of one key only across a clear |
| `ResponseCache.LoadsAreDue` | internal/server/dashboard_cache.go:84-98 | a call loads only what had expired by its clock, and with `staleOnError` not within a second of a failed attempt |
| `ResponseCache.LoadsUnlessJustFailed` | internal/server/dashboard_cache.go:79-104 | a call loads if and only if nobody else does, the value has expired or there is none, and the last load of the entry, wherever it lies back in the steps, did not fail less than a second before the call with a stale value to give instead |
| `ResponseCache.LastEndIsRemembered` | internal/server/dashboard_cache.go:98-104 | what an entry knows of its last load stays until the next one ends |
| `ResponseCache.OnlyLoadsStore` | internal/server/dashboard_cache.go:98-106 | the stored value of an entry changes only when the one call that loads it succeeds; a failed load never changes it |
| `ResponseCache.LoadedKeysDoNotFail` | internal/server/dashboard_cache.go:92-118 | with `staleOnError`, once a key has been loaded no call that begins later ends in failure until the cache is cleared, under any interleaving and however often loading fails |
| `ResponseCache.AnswersAreCurrent` | internal/server/dashboard_cache.go:84-118 | an answer is a value that a call for the same key loaded and answered itself; it is marked stale exactly when another call loaded it and its time to live is over by the caller's clock, which needs `staleOnError` |
| `ResponseCache.ClearedValuesAreNotServed` | internal/server/dashboard_cache.go:129-136 | a call that begins after a clear never answers with a value whose load was under way or over at that clear |
| `ResponseCache.NoLostWakeUp` | internal/server/dashboard_cache.go:74-83 | a waiting call waits for another call for its key that is loading or has closed its channel, so it can go on or the loader can |
| `TimestampGrammar.GreedyRun` | internal/importer/log_parser.go:393-404 | taking a run of spaces whole loses no match, since what follows starts outside the class |
| `TimestampGrammar.ClassesAre` | internal/importer/log_parser.go:393-420 | digits, letters and spaces are those of the expressions, by their codes |
| `TimestampGrammar.DayOnly` | internal/importer/log_parser.go:374-381 | taking two digits for a day when there are two loses no match |
| `TimestampGrammar.ClockEndIsOnly` | internal/importer/log_parser.go:363-391 | the clock expression matches from a position up to the scanner's end and no other, or not at all |
| `TimestampGrammar.PrefixIsForced` | internal/importer/log_parser.go:344-361 | of all ways to match the optional prefix, only the scanner's can be followed by a letter |
| `TimestampGrammar.StampIsOnly` | internal/importer/log_parser.go:322-326 | the prefix followed by a clock matches at exactly the positions the scanners find |
| `TimestampGrammar.StampWithYearIsOnly` | internal/importer/log_parser.go:327-334 | the same with a trailing year |
| `TimestampGrammar.YearFirstIsOnly` | internal/importer/log_parser.go:311-320 | the same with a leading year |
| `TimestampGrammar.TimeOfIsFirstReading` | internal/importer/log_parser.go:303-342 | the time found is that of the first of the three expressions that matches with a readable time, else the fallback |
| `TimestampGrammar.ParseNATTimestamp` | internal/importer/log_parser.go:310-342 | the recogniser computes that time for every line |
| `TimestampGrammar.MatchClock` | internal/importer/log_parser.go:363-391 | the hand-written clock matcher returns that end |
| `TimestampGrammar.SyslogClockStart` | internal/importer/log_parser.go:344-361 | the hand-written prefix scanner returns that start |
| `TimestampGrammar.SkipRegexpSpace` | internal/importer/log_parser.go:393-404 | skips the whole run of spaces |
| `TimestampGrammar.DigitsAt` | internal/importer/log_parser.go:406-416 | true exactly for that many digits within the line |
| `Fields.FieldsAreRuns` | internal/importer/log_parser.go:220-241 | the fields of a line are its maximal runs of non-spaces: all runs, as many as begin, and together the line without its spaces |
| `Fields.NextField` | internal/importer/log_parser.go:220-241 | yields the first field and a shorter rest whose fields are the others, or nothing when there are none |
| `Fields.CutMeaning` | internal/importer/log_parser.go:170-173 | a token is cut at its first equals sign if it has one |
| `Fields.TrimQuotesIs` | internal/importer/log_parser.go:174-174 | all quotes around a value are taken away and nothing else |
| `Fields.ContainsMeaning` | internal/importer/log_parser.go:159-161 | a line is of this kind if both keys occur somewhere in it |
| `Fields.Store` | internal/importer/log_parser.go:175-200 | the switch stores a value exactly as updating the key map and looking up its twelve keys would |
| `Fields.ReadValues` | internal/importer/log_parser.go:162-201 | the loop over the fields ends and gives the lookups of the line's lowercased key map |
| `Fields.KeysAreOfFields` | internal/importer/log_parser.go:164-174 | that map has exactly the keys of the fields that have one |
| `Fields.LastFieldWins` | internal/importer/log_parser.go:162-201 | and each key has the value of the last field with it |
| `Fields.ParseFortiGateLine` | internal/importer/log_parser.go:158-218 | every column of the row is the lookup of its key in that map, with the fallbacks of the source; other lines leave the row untouched |
| `YearInference.AddYearsMovesOneYear` | internal/importer/log_parser.go:440-445 | moving a date by one year moves it by 365 or 366 days and turns 29 February into 1 March only where it must |
| `YearInference.InferredDateIsNear` | internal/importer/log_parser.go:422-447 | the inferred date lies within 183 days of the archive date, at most one year apart, with the stamp's own day; there is none exactly when the stamp is no date of the archive's year |
| `YearInference.OwnYearIsKept` | internal/importer/log_parser.go:436-447 | a stamp that is a date of the archive's own year is taken in that year if and only if it lies within 183 days of the archive date |
| `YearInference.WithoutArchiveDate` | internal/importer/log_parser.go:422-439 | without an archive date the stamp is taken in the current year if it is a date of that year |
| `YearInference.OnlyLeapDaysAreLost` | internal/importer/log_parser.go:422-435 | the stamp of a real date is lost if and only if it is 29 February under an archive of a common year |
| `YearInference.LeapDayOfNextYearIsLost` | internal/importer/log_parser.go:429-435 | a stamp of 29 February is lost under an archive date of a common year although that day lies within 183 days of it |
| `Routing.BuildRouteTable` | internal/receiver/routing.go:31-76 | a table is built exactly when every client rule reads and none is given twice, and then holds exactly those rules, longest networks first |
| `Routing.RuleMeaning` | internal/receiver/routing.go:36-62 | a blank client setting is for every client; else it is an address if it reads as one, else a network |
| `Routing.CoversMeaning` | internal/receiver/routing.go:84-90 | a network holds the addresses of its family that begin with its bits |
| `Routing.Match` | internal/receiver/routing.go:78-94 | the search gives what the table's lookup function gives |
| `Routing.MatchIsBest` | internal/receiver/routing.go:78-94 | a client gets exactly the source it is owed: its own address, else the unique longest network around it, else the catch-all |
| `Routing.BestIsUnique` | internal/receiver/routing.go:31-94 | no client is owed two sources |
| `Routing.OrderDoesNotMatter` | internal/receiver/routing.go:31-94 | sources in any other order build a table too, and it routes every client alike |
| `Routing.SortedLongestFirst` | internal/receiver/routing.go:72-74 | the stable sort puts longer prefixes first |
| `LogSourceSettings.ValidateLogSources` | internal/server/log_source_settings.go:14-67 | accepts exactly the settings in which every source is sound and any two are compatible; a rejection names the first source that spoils those before it, and a true reason |
| `LogSourceSettings.SoundMeaning` | internal/server/log_source_settings.go:14-67 | what is demanded of one source, field by field |
| `LogSourceSettings.CompatibleMeaning` | internal/server/log_source_settings.go:14-67 | two sources are compatible if IDs and storage IDs differ and, at one endpoint, their client rules are not for the same addresses |
| `LogSourceSettings.KeysTellClients` | internal/server/log_source_settings.go:69-87 | two client rules have one key if and only if they are for the same addresses |
| `LogSourceSettings.WantedAreReceived` | internal/receiver/rsyslog.go:572-580 | the receiver serves a source if and only if it is enabled, names rsyslog and udp or tcp in any letter case, and has a host, a port and a directory |
| `LogSourceSettings.ReceivedWhereAsked` | internal/receiver/rsyslog.go:572-580 | and listens for it at the protocol, host and port that it names, whatever the letter case and the white space |
| `SourceIdentity.NormalizeLogSourcePayloads` | internal/server/import_controller.go:273-339 | the loop computes the normalized sources |
| `LogSourceSettings.StorageIdMeaning` | internal/server/import_controller.go:162-167 | rows of a source are stored under its trimmed storage ID, or under its ID if that is blank |
| `SourceIdentity.NormalizedItemIs` | internal/server/import_controller.go:273-339 | what becomes of every field of an item, given or missing; an item stands for no source exactly if ID, directories and tag are blank |
| `SourceIdentity.NormalizedAreOfItems` | internal/server/import_controller.go:273-339 | the sources are exactly those of the items, or of the enabled ones |
| `Text.SpacesAre` | internal/server/import_controller.go:273-339 | the white space that trimming takes away, by the codes of its characters |
| `Text.TrimIsOnly` | internal/server/import_controller.go:273-339 | a trimmed text is the text between the white space around it |
| `SourceIdentity.FormIsStable` | internal/server/import_controller.go:273-339 | normalizing a normalized source changes nothing |
| `SourceIdentity.ReadsBackWhatWasWritten` | internal/server/settings_controller.go:202-207 | settings that were stored read back as they were stored |
| `SourceIdentity.ReadsBackEnabled` | internal/server/import_controller.go:148-160 | the sources in use are the enabled ones of those stored |
| `SourceIdentity.InheritStorageSourceIds` | internal/server/settings_controller.go:202-226 | the two index maps and the loop compute the inherited storage IDs |
| `SourceIdentity.Settings.Update` | internal/server/settings_controller.go:168-200 | an update is taken exactly when the inherited settings are acceptable, and otherwise changes nothing |
| `SourceIdentity.UpdateKeepsStorageIds` | internal/server/settings_controller.go:202-226 | after an accepted update storage IDs are distinct, and a source that kept its ID, or has a new one and directories that only one source had, keeps its storage ID |
| `SourceIdentity.InheritsOnlyStorageIds` | internal/server/settings_controller.go:202-226 | an update takes nothing but storage IDs from the earlier settings, and only of a source that is continued |
| `SourceIdentity.ContinuesMeaning` | internal/server/settings_controller.go:202-226 | which source is continued, field by field: the one with the ID, or for a new ID the only one with the same three directories |
| `SourceIdentity.SharedDirectoriesAreRefused` | internal/server/settings_controller.go:220-223 | adding a source with the directories of exactly one source that itself stays is always refused |
| `SourceIdentity.StorageIdsAreStable` | internal/server/settings_controller.go:168-226 | over any sequence of updates storage IDs stay distinct and that of a source that stays configured never changes |
| `SourceIdentity.LineagesKeepTheirStorageId` | internal/server/settings_controller.go:168-226 | over any sequence of updates, accepted or refused, a source that is continued at every step, under its ID or a new one, keeps its storage ID |
| `SourceIdentity.LineagesStayApart` | internal/server/settings_controller.go:168-226 | two sources that are continued in this way never come to share a storage ID |
| `SourceIdentity.StorageSourceId` | internal/server/import_controller.go:169-177 | the first source with the ID gives the storage ID, and an unknown ID stands for itself |
| `SourceIdentity.ConfiguredDateStates` | internal/server/import_controller.go:179-200 | keeps the states of configured sources in order, under the IDs users see |
| `SourceIdentity.ShownStatesMapBack` | internal/server/query_adapter.go:54-57 | mapping states to shown IDs and back to storage IDs is the identity on the configured sources' states |
| `SourceIdentity.CurrentSourcesAreDistinct` | internal/server/import_controller.go:148-160 | the sources in use are always distinct enough for that |
| `Receiver.NewEndpointListener` | internal/receiver/rsyslog.go:232-250 | a listener is new and open for its endpoint and routes, or the bind failed |
| `Receiver.Manager.BuildTables` | internal/receiver/rsyslog.go:87-101 | every wanted endpoint gets a table that routes its clients rightly, or one endpoint failed |
| `Receiver.Manager.OpenMissing` | internal/receiver/rsyslog.go:104-123 | opens exactly the missing endpoints; if one cannot be bound, every socket opened on the way is closed |
| `Receiver.Manager.SwitchTo` | internal/receiver/rsyslog.go:125-163 | kept endpoints keep their listener with the new routes, new ones get theirs, all others are closed |
| `Receiver.Manager.ApplySources` | internal/receiver/rsyslog.go:71-170 | all or nothing: a failure has a failed call or a table that cannot be built, leaves the listeners, their routes and sockets as they were and closes what it opened; a success listens at exactly the endpoints of the sources that are wanted by their fields, gives exactly those a status, and no other socket is open |
| `Receiver.KeptSourcesHaveListeners` | internal/receiver/rsyslog.go:71-170 | after a success with accepted settings there is a listener at an endpoint if and only if an enabled rsyslog source names it |
| `Receiver.KeptSourcesHaveStatuses` | internal/receiver/rsyslog.go:138-150 | and a running status for an ID if and only if it is that of such a source |
| `Receiver.Manager.Close` | internal/receiver/rsyslog.go:213-230 | closes every socket there ever was and keeps the counters |
| `Receiver.CountersAreCarried` | internal/receiver/rsyslog.go:138-150 | after a success exactly the received sources have a status, running, with the counters they had |
| `Receiver.ErrorsLoseCounters` | internal/receiver/rsyslog.go:404-412 | after a failure a source keeps its status if and only if it is not at the failing endpoint; the others lose their counters |
| `Receiver.AcceptedSourcesBuild` | internal/receiver/routing.go:31-76 | with accepted settings no endpoint's table can fail to build |
| `Receiver.ClientsAreRouted` | internal/receiver/rsyslog.go:327-341 | after a success the listener of an endpoint gives every client the source it is owed |
| `Archive.CrashKeepsSafe` | internal/receiver/archive.go:98-158 | a crash after any file operation leaves every closed day in its spool file or a complete archive that is safe on disk |
| `Archive.PublishKeepsSafe` | internal/receiver/archive.go:144-153 | renaming a complete, synced copy is a safe way to publish it |
| `Archive.RemoveActiveKeepsSafe` | internal/receiver/archive.go:154-156 | the spool file may go once an archive of its day is there |
| `Archive.Disk.ArchiveFile` | internal/receiver/archive.go:98-158 | whatever fails, in every world on the way each closed day is held, no day is given up and every archive that appears is complete; no other day's files change; success means the spool file is gone and a complete archive is there, and failure that a file operation failed, an incomplete archive was in the way or there was no spool file |
| `Archive.Disk.AcceptExisting` | internal/receiver/archive.go:99-106 | an archive that is there already is accepted only if it can be read to its end; otherwise nothing is touched, and the spool file stays |
| `Archive.ClosedDaysAreHeld` | internal/receiver/archive.go:98-158 | in a safe world the content of a closed day is in its spool file or in a complete archive, unless retention has deleted a complete archive of it |
| `Archive.Disk.ArchiveClosedDays` | internal/receiver/archive.go:51-96 | only days before today are touched; a day reported as done has a complete archive and no spool file; if no file operation fails and no incomplete archive is in the way, every closed day is archived |
| `Archive.Disk.RemoveExpiredArchives` | internal/receiver/archive.go:177-220 | in every world on the way only archives in the source's directory that retention may take are gone, and only complete ones excuse a day; nothing at all goes when retention is off, and all of them when no file operation fails |
| `Archive.Disk.Run` | internal/receiver/archive.go:39-49 | over all sources and any failures, in every world on the way only archives that some source's retention may take are given up |
| `Archive.Disk.Restart` | internal/receiver/archive.go:98-158 | after a crash in any world that ever was, the next run starts from a safe world again |
| `Archive.NamesTaken` | internal/receiver/archive.go:191-196 | retention recognises an archive by its name's start exactly when it is the source's own or the owner's ID starts with the source's ID and an underscore |
| `Archive.NamesAreDistinct` | internal/receiver/archive.go:78-83 | archives of different sources, days or runs have different names, so a path stands for one archive |
| `Archive.WhenRetentionIsSafe` | internal/receiver/archive.go:177-204 | retention of a source spares the days of an owner that are not ready if and only if the owner's archives are not in the same directory under an ID that continues the source's own with an underscore |
| `Archive.RetentionReachesOtherSources` | internal/receiver/archive.go:191-204 | an example of the other case: `fw` takes an archive of `fw_a` of a day that is not ready |
| `WorkerPool.PoolSize` | internal/server/import_controller.go:503-508 | the pool has at least one worker and otherwise no more than asked for or than there are dates |
| `WorkerPool.InFlight` | internal/server/import_controller.go:517-529 | at most so many dates are in flight, and never one date twice |
| `WorkerPool.EveryDateOnce` | internal/server/import_controller.go:521-531 | every date is handed to a worker exactly once |
| `WorkerPool.ReportIsSequential` | internal/server/import_controller.go:533-543 | however the workers are scheduled, the imported, skipped and error lists are those of importing the dates one after another |
| `WorkerPool.ReportMeaning` | internal/server/import_controller.go:533-543 | the lists of imported and skipped dates are those of the dates one after another, and the errors are those of the dates that failed, in their order |
| `WorkerPool.Collect` | internal/server/import_controller.go:533-543 | the loop over the results computes the report |
| `WorkerPool.RunsAreShort` | internal/server/import_controller.go:517-531 | every run of the pool is bounded |
| `WorkerPool.PoolNeverDeadlocks` | internal/server/import_controller.go:527-531 | until all workers have left some step is possible |
| `Visibility.BuildVisibleRanges` | internal/query/service.go:225-299 | the loops compute the visible ranges and skipped entries day by day |
| `Visibility.QueriedIffShown` | internal/query/service.go:258-284 | a second is in a queried range of a source if and only if a state of its day shows it: ready, or importing with a visible time not before it |
| `Visibility.RangesLieInDays` | internal/query/service.go:242-293 | every range lies within its own day and the queried period |
| `Visibility.RangesAscend` | internal/query/service.go:242-293 | with one state per source and day the ranges of one source are disjoint and ascending |
| `Visibility.EveryStateCounts` | internal/query/service.go:242-293 | queried and skipped entries total the sum over the days of one, or of the states of the day if there are more |
| `Visibility.SkipsAreExplained` | internal/query/service.go:249-291 | every skipped entry gives the reason that the states of its day bear out |
| `Visibility.PartialIffHidden` | internal/query/service.go:282-284 | the result is marked partial if and only if an importing state cuts some range short |
| `Visibility.RangesAreBacked` | internal/query/service.go:258-292 | every queried range comes from a state of its source and day that shows it |
| `SqlFilter.BuildQuerySQL` | internal/query/service.go:301-378 | for any request and ranges: a bad address or no range is an error; otherwise the text and its arguments denote "in some visible range, and every set filter holds" |
| `SqlFilter.ProtocolForms` | internal/query/service.go:364-412 | a protocol filter finds the three known protocols under their name and their number, whichever was asked for, and others under their name |
| `SqlFilter.PlaceholdersMatchArguments` | internal/query/service.go:310-377 | a condition that reads at all has exactly as many placeholders as arguments |
| `SqlFilter.ClauseReads` | internal/query/service.go:327-375 | every appended clause, read back from its tokens with its arguments, means what the filter asks for and leaves the rest untouched |
| `SqlFilter.ConjunctionMeaning` | internal/query/service.go:312-375 | clauses joined by AND mean all of them |
| `SqlFilter.AppendCursor` | internal/storage/clickhouse/store.go:240-248 | appending the cursor's condition to such a conjunction restricts it to the rows after the cursor, placeholders and arguments still agreeing |
| `Paging.QueryPage` | internal/storage/clickhouse/store.go:140-263 | fetching one row more than the page holds and trimming it gives the slice of the result at the page's offset, or behind the row that the cursor points at, and tells exactly whether more rows follow |
| `Paging.NormalizePageSize` | internal/storage/clickhouse/store.go:276-284 | the page size is the one asked for from 1 to 500, 50 for none and 500 for more |
| `Paging.ResultIsSorted` | internal/storage/clickhouse/store.go:249-254 | the result of a query is in (time, source, file, offset) order |
| `Paging.ResultCounts` | internal/storage/clickhouse/store.go:233-263 | and has each matching row as often as the table has it |
| `Paging.CursorCutsResult` | internal/storage/clickhouse/store.go:240-247 | the result behind the cursor of a row is the part of the whole result after that row |
| `Paging.OffsetPage` | internal/storage/clickhouse/store.go:255-262 | the page with a number is the slice of the result there |
| `Paging.FollowingCursorsIsComplete` | internal/storage/clickhouse/store.go:216-220 | following the cursors from page 1 gives every matching row exactly once in order, in max(1, ceil(n / size)) pages, the k-th of which is the page with number k |
| `Paging.FollowingEnds` | internal/storage/clickhouse/store.go:216-220 | such a walk always comes to a page without more, whatever the table holds |
| `Paging.AloneIsReturned` | internal/storage/clickhouse/store.go:216-254 | in any table, even one with rows that share a position, following the cursors returns every matching row that stands alone at its position exactly once, and only matching rows |
| `Paging.PagesHoldTheTotal` | internal/storage/clickhouse/store.go:223-231 | the total that a statement of its own counts is the number of rows on all pages together |
| `Paging.DisplayedCursorLeadsOnIffSame` | internal/server/query_adapter.go:91-99 | a cursor that is taken after IDs are mapped for display leads to the right next page for every table if and only if the ID shown is the ID stored |
| `Paging.CursorOfDisplayedPageSkips` | internal/server/query_adapter.go:91-99 | why the cursor is taken before IDs are mapped for display: taken after, it can skip rows |
| `CursorText.StampOf` | internal/query/service.go:126-142 | every instant has a valid calendar stamp |
| `CursorText.StampsAreUnique` | internal/query/service.go:126-142 | and only one, so times in one zone are written without ambiguity |
| `CursorText.ParseFormat` | internal/query/service.go:162-165 | the text of a stamp reads back as that stamp |
| `CursorText.ParseIsExact` | internal/query/service.go:162-165 | and no other text reads as that stamp |
| `CursorText.DecodeMeaning` | internal/query/service.go:144-172 | a blank text is no cursor; any other is the position that its wire form tells, if its time is there, reads and is not the zero time, and is refused otherwise |
| `CursorText.NextCursorIsMade` | internal/server/query_adapter.go:189-214 | a page gives a cursor if and only if its last row tells a time |
| `CursorText.NextCursorReadsBack` | internal/server/query_adapter.go:189-214 | the cursor text handed out with a page decodes to the position of its last row |
| `Order.BeforeIsTotal` | internal/storage/clickhouse/store.go:243-251 | the order of rows is total |
| `Order.BeforeIsTransitive` | internal/storage/clickhouse/store.go:243-251 | and transitive |
| `Order.BeforeMeaning` | internal/storage/clickhouse/store.go:243-251 | rows are ordered by the first column that differs: time, source, file, offset |
| `Order.StringLessMeaning` | internal/storage/clickhouse/store.go:243-251 | texts are ordered by the first place where they differ, and before their continuations |
| `EndToEnd.VisibleRangesAreComplete` | internal/server/query_adapter.go:46-58 | in a safe world a queried range outside the window of its own key covers a partition that is completely loaded, whatever else the listing holds |
| `EndToEnd.ImportedRowsAreWellKeyed` | internal/importer/importer.go:383-431 | what the importer loads into a partition has that partition's key and distinct positions |
| `EndToEnd.PartitionsHaveUniquePositions` | internal/storage/clickhouse/store.go:534-562 | partitions put together keep distinct positions, so the paging theorems apply to the whole table |
| `EndToEnd.FetchPage` | internal/storage/clickhouse/store.go:233-263 | the page that the built text selects, with the condition of the cursor appended and its arguments bound by position, is the page of the request's rows behind the cursor |
| `EndToEnd.AnswerQuery` | internal/server/query_adapter.go:46-97 | a query is built exactly if no address is malformed and something is visible; its pages are those that following the cursors over the whole table gives for the built condition, and its total is the number of rows that condition selects |
| `EndToEnd.AnswersAreExpected` | internal/server/query_adapter.go:46-97 | over any world that imports go through these are exactly the rows of imported files that are in a visible range and match the request, each once and in order, on full pages, as many as the total says, if no queried date is in its window |
| `EndToEnd.SelectedIsAlone` | internal/server/query_adapter.go:46-97 | of the selected rows none shares its position with a row of another partition, which lies on another day or has another source |
| `EndToEnd.ReadyIsReturned` | internal/server/query_adapter.go:46-97 | every row of a partition that reads as ready, of the queried period, on its own day and as asked for column by column, is returned exactly once, whatever other dates hold |
| `EndToEnd.ReturnedIsShown` | internal/server/query_adapter.go:46-97 | and whatever is returned is a row of that period as asked for, of a configured source and of a date that a read may find ready |
| `EndToEnd.AskedIffMatches` | internal/query/service.go:327-378 | what the built filters select, spelled out over the columns of a stored row |
| `EndToEnd.ImportThenList` | internal/server/query_adapter.go:46-58 | after any imports, however they ended, the listed states have a ready day for every date of a configured source that reads as ready, and each of them comes from a latest row |
| `EndToEnd.ImportThenAnswer` | internal/server/query_adapter.go:46-97 | import and then query, for any failures: every wanted row loaded for a date that reads as ready outside its window, and every wanted row of the files of an import that succeeded and was the last of its date, is returned exactly once with all its columns; nothing is returned but wanted rows of dates that read as ready; and if no queried date is in its window the answer is in order, on full pages and as long as its total |
| `EndToEnd.LoadedAreWellKeyed` | internal/importer/importer.go:383-431 | whatever any sequence of imports has loaded of a date carries its key and has distinct positions |
| `EndToEnd.AcceptedSettingsBuild` | internal/server/log_source_settings.go:43-64 | whatever settings were accepted, the receiver can build its table at every endpoint |
| `EndToEnd.PageCursorReadsBack` | internal/server/query_adapter.go:91-97 | the cursor text of a page reads back as the cursor the paging theorems follow |

## Left out

- The database itself, drivers, the creation of tables and migrations: a statement is what it means, that is append a row, drop a partition, filter, sort, limit, or aggregate.
- HTTP handlers, the router, static pages, authentication, the user interface and the browser extension: plumbing and UI around the modelled parts.
- Threat-intelligence adapters, upgrades, health sampling, GeoIP and the enrichment of records: wrappers around other systems.
- gzip, JSON and base64url as algorithms: `CursorText` assumes a codec that gives back what it was given; texts that JSON changes (invalid UTF-8 in a file name) are outside that assumption.
- The text forms of addresses, networks and ports, and letter case beyond ASCII: parameters of the models; `TimestampGrammar` leaves open how a matched text reads as a time.
- Vendor line formats other than FortiGate, and the labelled format: the importer takes what a line parses to as a parameter, so these would only add easy members.
- Integer widths: offsets, byte counts, row counts and page offsets are unbounded here, while the source wraps at 64 bits.
- The percentage in progress rows: a rounded fraction of two counters that nothing reads back.
- Failures while a file is read: one outcome stands for a missing file, a scan error, a cancelled context and the limit on decompressed size; the context is not modelled as a value.
- Concurrent runs: a run of the importer is one sequence of steps here, with merges but no other writer in between; the coordinator keeps runs of one source apart, and a run changes nothing of other keys in any world on its way.
- Checks that protect queries (`validateQueryProtection`), the slot that limits concurrent queries and their timeouts: they refuse requests and change nothing else.
- The descending sort of pages: the query service always asks for the ascending one.
- The fallback to a database that is not ready in the importer (no state reader): the model always has one, which may fail.
- Spool writers and the goroutines that serve sockets: `Receiver` stops at which listeners are open with which routes; how a message reaches a spool file is left out.
- The auto-scan scheduler and due-date arithmetic: easy members, and the planner and the due-checker disagree for intervals that do not divide a day.
- A nested write slot inside a write: a worker that asks for a second slot while it holds one is outside `Coordinator`.
- Importer.Importer.ImportDate: the guarantee that a ready date is complete holds outside the window from the first drop to the importing row, as in the source; when the write of that row fails the window stays open until a later row of the date is written.
- EndToEnd.AnswerQuery: the tables do not change between the pages of one query, and states are read under the IDs that rows are stored under; `SourceIdentity.ShownStatesMapBack` covers the mapping to shown IDs and back.
- Coordinator.NeverDeadlocked: says that a step is possible in every state, not that the scheduler takes it; a worker function is taken to be able to return.
- ResponseCache.AnswersAreCurrent: takes the clock never to read the zero time, and a loader never to panic.
- YearInference.InferredDateIsNear: in a zone of fixed offset; a zone with daylight saving can move the bound by an hour.
- CursorText.NextCursorReadsBack: in one zone of fixed offset and for times from year 2 to year 9999; the column holds whole seconds between 1970 and 2106.
- Receiver.Manager.ApplySources: the order in which keys are visited is arbitrary, the routes of kept listeners change in a loop of their own, and closing a listener does not wait for its connections.
- SourceIdentity.Settings.Update: settings are read and written in one step; two updates at the same time are not modelled.
- Archive.Disk.ArchiveFile: closed files are not appended to, sources do not share a spool directory, directory operations survive a crash in the order they were made, and complete archives come only from this code.
- Fields.NextField: which characters are spaces is a parameter, and bytes are taken as decoded characters.
- Routing.MatchIsBest: networks written as IPv4-mapped IPv6 ranges are not modelled.
- LogSourceSettings.ValidateLogSources: paths are those of a Unix system.
