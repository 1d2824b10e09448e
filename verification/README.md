# Fathometer: a verified model of the triage core

Fathometer collects vulnerability scans of servers, keeps one row per finding with a lifecycle
(open, acknowledged, resolved), shows a daily heartbeat per server, lets a language model group
and rate findings, and offers filtered, paged views. This project models the parts of it that
carry state, refinements or round trips, and proves what their code promises, or exactly when it
keeps the promise.

A table is a map from primary key to row and one SQL statement is one step on it. Time is an
integer number of microseconds UTC, a day is a day number. Loops and objects of the original are
methods and classes with the same branches; each is tied to a specification function or
predicate, about which the laws are proved. What the code calls but does not define here is a
parameter: the digest of fingerprints (assumed injective), the glob match, the line patterns and
the inline renderer of Markdown, and the fixed prose of the chat prompt.

| files | subject |
|---|---|
| `Models`, `Text`, `Sequences`, `Sorting`, `Paging`, `Json`, `QueryParams`, `Markers`, `JsonText` | tables, Python strings, lists without repetition, ORDER BY, OFFSET and LIMIT, parsed JSON, query parameters, marker occurrences, serialised JSON |
| `FindingsUpsert`, `FindingsIngest`, `FindingsIngestLaws`, `InsertCounter`, `ScanMeaning`, `BulkAcknowledge`, `FindingGroupInheritance` | the operations on the findings table |
| `HeartbeatMeaning`, `HeartbeatAggregation`, `DailyRiskState`, `HeartbeatLaws` | what a cell says, the live fold, the frozen table, and that both say it |
| `FindingWriters` | the other services that write findings, as steps of the runs |
| `Lifecycle`, `VerdictRuns`, `ManualTriage` | runs of all these operations, where model bands come from, and what the manual routes break |
| `GroupChatPrompt`, `PromptContent` | the data markers of the chat prompt, and what stands between them |
| `DashboardFilter`, `FindingsViewFilter`, `FilterMeaning` | parser and printer of the two filters, and what one parameter means |
| `BucketOrder`, `BucketQuery`, `BucketPages`, `BucketLaws` | the order of findings and headers, header counts, pages, lanes and bulk resolution |
| `PatternSanitizer`, `Pass1Validation`, `Pass2Validation`, `AnswerMeaning` | the checks on model answers, key by key |
| `LlmCache`, `LlmFingerprints`, `LlmBudget` | verdict cache, its keys, the token budget |
| `GroupMatcher`, `MatchOrder`, `MatchMeaning`, `GroupAssignment`, `LlmSanitize` | pattern matching, the part the load order plays, its application, Markdown blocks |
| `Witnesses` | inputs for which a promise fails |

Check everything with `dafny verify dfyconfig.toml`.

## Where code and documentation differ

The model follows the code.

- An ingest computes two keys for one entry, from `Result.Target` and from the effective path
  (`app/services/findings_ingest.py:448` and `:286`); comments there speak of one natural key.
  `KeysAgreeIff`, `TableMirrorsScanIff` and `WrittenRowStaysIff` say what follows.
- Two rows of one INSERT with one stored key are an error of the database, not an update; the
  method models it as a failing statement. `AgreementDistinctRows` says when it cannot happen,
  `RepeatedStoredKeyWitness` gives a report for which it does.
- `findings_inserted` counts rows first seen less than a second ago, not rows inserted:
  `InsertedCountExactIff`, `RepeatedIngestMiscountsWitness`.
- `lookup` says that the next model call writes a fresh entry and that the expired one is evicted
  later (`app/services/llm_cache.py:44-47`); both have one key, and `store` does nothing on a
  conflict: `ExpiredStaysMiss`, `ExpiredStoreWitness`.
- The order of a bucket body calls its last column a deterministic tie-break
  (`app/services/findings_bucket_query.py:279-284`); several packages can share the identifier:
  `PagesDeterminedIff`, `TiedFindingCanBeMissed`, `TwinsShareNoFixedPage`.
- The header join names (group, server) as the evaluation key
  (`app/services/findings_bucket_query.py:303-306`), the table has the lane as a third column
  (`app/models.py:1009`): `HeadersCountPerLane`, `HeaderExceedsBodyWitness`.
- The inheritance service describes three lanes; code and schema know two, `patch` and `mitigate`.
- The package criterion of bulk acknowledge promises an exact match or the name with a target
  suffix; LIKE reads an underscore in the name as any character: `PackageCriterionExactIff`,
  `UnderscoreWitness`.
- The label pattern accepts one newline after a legal label: `LabelIsPlainIff`, `NewlineLabelWitness`.
- A Pass-2 answer whose band is a list or an object raises a TypeError instead of the documented
  error: the outcome `Crash` of `ValidatePass2Response`, `UnhashableBandWitness`.
- The budget audit promises one event per reset cycle. A cycle gets its event at its first mark,
  unless an earlier event is at or after the midnight before its reset: `Cycle`. A poll that spans
  midnight leaves such an event behind: `PollAcrossMidnight`.
- The groups are loaded without ORDER BY; when two of them tie, the load order decides which one a
  finding gets: `MatchIgnoresOrderIff`, `LoadOrderWitness`.
- The counter is called the tokens used today; the worker books them after the model call, which
  may end on the next day: `CounterIsTodayIff`, `LateBookingIsLost`.
- The manual routes of one finding set its status and leave `resolved_at` alone, while the
  heartbeat goes by `resolved_at`: `ManualKeepsInvariantIff`, `ReopenedByHandIsAbsent`.

## Model

| member | source | states |
|---|---|---|
| FindingsIngest.CollectRows | app/services/findings_ingest.py:432-469 | The collecting loops return exactly the rows of the first valid entry of each deduplication key, the set of those keys, and class counters that sum to the number of rows. |
| FindingsIngest.ReopenPhase | app/services/findings_ingest.py:489-513 | Reopens exactly the RESOLVED vulnerabilities of the server whose key is in the scan; every other row and table is unchanged; the count is the number of reopened ids. |
| FindingsUpsert.UpsertRowEffect | app/services/findings_ingest.py:529-579 | One upserted row: natural keys stay unique, an existing row keeps status, first-seen and acknowledgement columns, a missing key gets one fresh OPEN row. |
| FindingsUpsert.UpsertAllEffect | app/services/findings_ingest.py:522-579 | The same for a whole batch: no row disappears, new rows carry only keys of the batch, every key of the batch has a row. |
| FindingsUpsert.UpsertAllConcat | app/services/findings_ingest.py:527-528 | Upserting in consecutive batches equals one fold over all rows, so the chunk size 1000 does not matter. |
| FindingsUpsert.FirstSeenStays | app/services/findings_ingest.py:516-518 | Later upserts leave the first-seen time of a stored key alone, so the RETURNING rows of a chunk stay valid. |
| FindingsUpsert.UpsertChunk | app/services/findings_ingest.py:571-576 | One INSERT statement: fails with the table unchanged exactly when two rows of the chunk share a natural key, otherwise the fold over the chunk and one first-seen time per row. |
| FindingsUpsert.CountReturning | app/services/findings_ingest.py:581-586 | The counting loop: `inserted` is the number of first-seen times less than a second from `now`, and inserted + updated is the number of rows. |
| FindingsUpsert.UpsertInChunks | app/services/findings_ingest.py:519-586 | The chunk loop succeeds exactly when every chunk has distinct keys; then the table is the fold over all rows and the two counters sum to them. |
| FindingsIngest.ResolvePhase | app/services/findings_ingest.py:588-615 | Resolves at `now` exactly the OPEN and ACKNOWLEDGED vulnerabilities of the server whose key the scan lacks; the count is their number. |
| FindingsIngest.IngestScan | app/services/findings_ingest.py:397-669 | The whole call: it fails, with everything rolled back, exactly when some chunk repeats a stored key; otherwise the tables of one atomic ingest, inserted + updated = class counters = total, inserted = the rows whose returned first-seen time is less than a second old, and exact reopen and resolve counts. |
| FindingsIngest.PhaseCounts | app/services/findings_ingest.py:489-513 | The ids the reopen and resolve phases select are exactly the rows whose status differs before and after the whole ingest. |
| FindingsIngestLaws.AcceptedIsFirst | app/services/findings_ingest.py:448-452 | An entry is accepted exactly when no earlier entry of the report has its deduplication key. |
| FindingsIngestLaws.AcceptedKeys | app/services/findings_ingest.py:448-452 | Accepted entries have pairwise different keys and together all keys of the scan. |
| FindingsIngestLaws.IngestLaw | app/services/findings_ingest.py:440-615 | For every non-empty scan and whatever its keys: the exact status transition of every stored row, and what every inserted row looks like. |
| FindingsIngestLaws.ResolvedIffNotScanned | app/services/findings_ingest.py:588-615 | After a non-empty scan a vulnerability of the server is RESOLVED if and only if its (identifier, package name) is not a key of the scan. |
| FindingsIngestLaws.EmptyScanChangesNothing | app/services/findings_ingest.py:489-490 | A scan without valid entries changes no finding. |
| FindingsIngestLaws.IngestTwice | app/services/findings_ingest.py:412 | Ingesting the same report again, at any later time, changes no status and no resolution time; this needs no agreement of the two keys. |
| FindingsIngestLaws.KeysAgreeIff | app/services/findings_ingest.py:171-242 | The deduplication key (from `Result.Target`) equals the stored key (from `PkgPath` first) exactly under a condition on class, path and target that can be read off the report. |
| FindingsIngestLaws.AgreementDistinctRows | app/services/findings_ingest.py:281-287 | When the keys agree on all accepted entries, no upsert statement can fail. |
| FindingsIngestLaws.StoredKeysAfterIngest | app/services/findings_ingest.py:522-579 | A non-empty scan adds to the stored keys exactly the stored keys of its accepted entries. |
| FindingsIngestLaws.LiveKeysAfterIngest | app/services/findings_ingest.py:588-615 | The keys that are not RESOLVED afterwards are the scanned keys that have a row at all. |
| FindingsIngestLaws.TableMirrorsScanIff | app/services/findings_ingest.py:448-453 | The table mirrors the scan if and only if every scanned key has a row, old or just written; agreement of the two keys is sufficient. |
| FindingsIngestLaws.WrittenRowStaysIff | app/services/findings_ingest.py:281-287 | The row just written for an accepted entry survives the same ingest if and only if its stored key is among the scanned keys. |
| FindingsIngestLaws.AcceptedEntryHasOneLiveRow | app/services/findings_ingest.py:605-614 | Under agreement each accepted entry has exactly one row, it is live, and it holds the columns of the entry. |
| FindingsIngestLaws.FreshRowResolvedWitness | app/services/findings_ingest.py:286-287 | A one-package report with a `PkgPath` whose freshly inserted row ends the same ingest RESOLVED. |
| InsertCounter.InsertedCountExactIff | app/services/findings_ingest.py:577-586 | For every report and table: `findings_inserted` is at least the number of rows the ingest adds, and equal to it if and only if no row updates a finding first seen less than a second ago, a stored one or one an earlier chunk inserted. |
| InsertCounter.UpsertGrowth | app/services/findings_ingest.py:522-579 | An upsert makes the table larger by the number of its new keys, counted at their first row. |
| Witnesses.RepeatedIngestMiscountsWitness | app/services/findings_ingest.py:577-586 | A one-package report ingested twice at one moment: the second ingest reports one insert and adds no row. |
| Witnesses.RepeatedStoredKeyWitness | app/services/findings_ingest.py:281-287 | One package with a `PkgPath`, found by two results with different targets: both entries pass the deduplication and the INSERT names one stored key twice. |
| ScanMeaning.EntriesIff | app/services/findings_ingest.py:432-447 | A report yields exactly one kind of entry: a readable vulnerability of one of its results, with the target of that result and its class, where every word other than the two package classes is the third class. |
| ScanMeaning.EntriesInOrder | app/services/findings_ingest.py:432-447 | Reading one vulnerability more appends its entry, and nothing when it is unreadable. |
| ScanMeaning.KeysNamePackages | app/services/findings_ingest.py:224-242 | A library package found under a path is called `package@path` with the path cut at 160 characters, every other package by its own name; rows take the own path of the package, or without it the target, the scan always takes the target. |
| ScanMeaning.StoredNameMeansPackage | app/services/findings_ingest.py:224-242 | For a package name without `@`: whatever path it was found under, the matcher reads the stored name as that package and the bulk criterion for that package selects it, unless the name holds a backslash, which a request cannot. |
| ScanMeaning.OneKeyOnePackage | app/services/findings_ingest.py:224-287 | Two entries with one stored key have the same identifier and package, and both have a path with one beginning or neither has one. |
| ScanMeaning.RowAfterScan | app/services/findings_ingest.py:489-615 | A stored row after a scan, by what the report says of it: status and resolution time by whether an entry has its identifier and its name, everything else but the overwritten columns as before; other servers and other kinds of findings unchanged. |
| ScanMeaning.RowBornInScan | app/services/findings_ingest.py:522-579 | A row that a scan inserts is named after an accepted entry and is new: first seen now, no band, group or acknowledgement, open if the scan has its name. |
| ScanMeaning.ColumnsAfterScan | app/services/findings_ingest.py:522-579 | After a scan the overwritten columns of a row come from an accepted entry stored under its name, last seen now, and are untouched when there is none. |
| ScanMeaning.EntryIsFoundByPackage | app/services/findings_ingest.py:522-615 | After a scan every accepted entry has a row of its server and identifier that matcher and bulk criterion find by its package name. |
| ScanMeaning.BornRowIsFoundByPackage | app/services/findings_ingest.py:522-579 | Every row that a scan inserts is found by the package name of an accepted entry. |
| ScanMeaning.RecordsTheScan | app/services/findings_ingest.py:617-669 | Besides the findings an ingest adds one scan of the server and moves the time of its last scan, also for a report without entries. |
| FindingsUpsert.ChunksDistinctIff | app/services/findings_ingest.py:527-528 | The statements go through if and only if no two rows of one block of 1000 share a natural key. |
| BulkAcknowledge.BulkAcknowledge | app/api/bulk.py:298-351 | Id list or match: exactly the OPEN ones among the selected findings become ACKNOWLEDGED, nothing else changes, and count + skipped is the number selected. |
| BulkAcknowledge.AcknowledgeServerScope | app/api/bulk.py:153-175 | Per-band scope (the update is at lines 480-494 of the file): 404 exactly for a server that is unknown, revoked or retired, with nothing changed; otherwise a row changes if and only if it is of that server, OPEN and of that band, it becomes ACKNOWLEDGED by the caller and changes nowhere else, and the count is the number of such rows. |
| Lifecycle.ScopeLeavesOthers | app/api/bulk.py:480-494 | A scope step of a run changes a finding if and only if it is OPEN, of that band and of that server, and the server is neither revoked nor retired. |
| BulkAcknowledge.MatchLeavesAlone | app/api/bulk.py:91-129 | A match moves a finding if and only if it asks for OPEN ones, the finding is OPEN, and it has the identifier, the package and a server of the tag, each only when the match names one. |
| BulkAcknowledge.IdsMoveOpen | app/api/bulk.py:132-140 | An id list moves exactly the OPEN findings it names. |
| BulkAcknowledge.AcknowledgeMovesOpen | app/api/bulk.py:332-351 | Updating the ids filtered to OPEN is the same as updating the selection: the moved rows are the open ones. |
| BulkAcknowledge.PackageCriterionExactIff | app/api/bulk.py:104-115 | A package name without `@` selects exactly its own findings if and only if it has no underscore, which LIKE reads as a wildcard. |
| Witnesses.UnderscoreWitness | app/api/bulk.py:104-115 | The name `a_b` selects the package `a-b@x`. |
| FindingGroupInheritance.InheritGroupRiskToFindings | app/services/finding_group_inheritance.py:69-100 | Every finding in scope with an evaluation row of its (group, server, lane) ends with that band and source `llm`; the time of computation becomes `now` exactly when band or source really changed, no other column or row changes, and the count is the number of rows changed. |
| FindingGroupInheritance.SettledStays | app/services/finding_group_inheritance.py:66-89 | A finding that one run has reached is left unchanged by any later run, whatever its scope, under the same verdicts. |
| FindingGroupInheritance.InheritTwice | app/services/finding_group_inheritance.py:66-68 | Idempotence over two scopes: a second run over the same or a narrower scope changes nothing at all, and after one over a wider scope bands and sources are those the wider run alone would have given. |
| FindingGroupInheritance.InheritSays | app/services/finding_group_inheritance.py:69-100 | What a run writes to each finding, in full: band and source from the verdict of its group, its server and the lane of its own fix columns, with the time when that is new to it; a run for one server or for some groups leaves all other findings alone. |
| HeartbeatAggregation.ReduceDay | app/services/heartbeat_aggregation.py:201-248 | The inner loop tells the findings present at the end of the day, without ranks: the severity is CRITICAL if one of them is, HIGH if one is and none is CRITICAL, and so on; the band is the first of the documented order that one of them has; and the KEV count is their number with the flag. |
| HeartbeatAggregation.AggregateOneServer | app/services/heartbeat_aggregation.py:181-248 | One such cell per requested day, in order, with the scan flag of the day. |
| HeartbeatAggregation.DayRangeIsOnlyWindow | app/services/heartbeat_aggregation.py:176-178 | The days returned are exactly those in (end day - days, end day], and no other list of that length goes up by one day at a time and ends at the end day. |
| HeartbeatAggregation.DayBounds | app/services/heartbeat_aggregation.py:166-173 | A time belongs to a day exactly when it lies between its start and its inclusive end. |
| DailyRiskState.SeverityParity | app/services/daily_risk_state.py:118-141 | The shifted MAX over severity ranks, mapped back, is the severity of the fold, also for no finding at all. |
| DailyRiskState.KevParity | app/services/daily_risk_state.py:218 | The filtered COUNT is the KEV count of the fold. |
| DailyRiskState.BandParityIff | app/services/daily_risk_state.py:97-115 | The MAX over band ranks, mapped back, equals the band of the fold if and only if the present bands are not all outside the rank table. |
| DailyRiskState.FrozenCellIsFoldCell | app/services/daily_risk_state.py:207-253 | Parity of SQL and fold: the frozen cell equals the cell of the fold over any covering load, under exactly that condition. |
| DailyRiskState.LiveHeartbeatsForServers | app/services/heartbeat_aggregation.py:291-369 | Every cell of the live read path is the frozen cell of its day under exactly that condition; the pre-filter on `resolved_at` changes no cell. |
| DailyRiskState.SelectFindings | app/services/heartbeat_aggregation.py:320-349 | The narrowed load contains every finding that is present at any end of day of the window. |
| DailyRiskState.FinalizePendingDays | app/services/daily_risk_state.py:167-277 | Inserts exactly the missing cells of the window, never today, changes nothing else, and returns their number. |
| DailyRiskState.FinalizeCompletes | app/services/daily_risk_state.py:167-173 | After a finalize step every past cell of the window exists for every server, and repeating it on the same day inserts none. |
| DailyRiskState.TodayLiveAggregate | app/services/daily_risk_state.py:285-355 | One cell per requested server from the aggregate at `now`. |
| DailyRiskState.TodayCellIsFrozenCell | app/services/daily_risk_state.py:285-355 | Today's live cell is the cell that today would be frozen with, when nothing lies in the future. |
| DailyRiskState.HeartbeatsForServers | app/services/heartbeat_aggregation.py:372-467 | The materialised read path: stored cells for the past, an empty cell where none is stored, the live cell for today, for every server and day. |
| DailyRiskState.ShownIsLive | app/services/daily_risk_state.py:17-23 | When the finalize step freezes the whole window, the materialised heartbeat shows the formula of the current tables everywhere. |
| HeartbeatLaws.FrozenCellSays | app/services/daily_risk_state.py:118-141 | A frozen cell, without ranks: the worst severity among the findings present at the last moment of its day, the first band of the documented order among them, the number of KEV findings, and whether the day had a scan. |
| HeartbeatLaws.TodayCellSays | app/services/daily_risk_state.py:285-355 | The live cell of today says the same of this moment. |
| HeartbeatLaws.FinalizeSays | app/services/daily_risk_state.py:167-277 | A finalize step freezes, for every server, each of the thirty days before today that is not yet frozen, with a cell that tells that day, and touches nothing else. |
| HeartbeatLaws.ShownCellSays | app/services/heartbeat_aggregation.py:372-467 | What the heartbeat shows: the stored cell of a past day, an empty cell where there is none, and for today what this moment says. |
| Lifecycle.RunKeepsInvariant | app/services/findings_ingest.py:501-513 | In every run of ingest, bulk acknowledge, inherit, finalize, evaluate, regroup, pre-triage, feed, revoke and retire steps: unique keys, `resolved_at` set iff RESOLVED, nothing in the future, frozen cells only in the past. |
| Lifecycle.RunKeepsIdentity | app/services/findings_ingest.py:515-518 | Over a run no finding disappears and none changes its natural key or first-seen time. |
| Lifecycle.AcknowledgedReopensOnlyViaResolved | app/services/findings_ingest.py:474-488 | An acknowledged finding that is OPEN later in the run was RESOLVED in between. |
| Lifecycle.FrozenForever | app/services/daily_risk_state.py:167-173 | A frozen cell never changes over any run. |
| Lifecycle.FrozenWithLiveValue | app/services/daily_risk_state.py:207-277 | Every cell that a run adds was computed, at its freezing step, from the state before that step. |
| Lifecycle.WindowStaysComplete | app/services/daily_risk_state.py:188-202 | After a finalize step the 30 past days are frozen for every server and stay so for the rest of the run. |
| Lifecycle.FrozenScansForever | app/services/daily_risk_state.py:221-234 | Whatever happens later, a frozen cell still says whether its day had a scan. |
| Lifecycle.PastChangesOnlyByReopening | app/services/daily_risk_state.py:149-159 | A step changes the presence of a stored finding at an earlier moment exactly when it reopens one that had been resolved by then. |
| Lifecycle.NewFindingsHaveNoPast | app/services/daily_risk_state.py:149-159 | An inserted finding was not present at any earlier moment. |
| Lifecycle.FrozenStaysCurrent | app/services/daily_risk_state.py:207-253 | A frozen cell that was right at some moment is still the formula of the tables after any later run that leaves the same findings present at the end of its day, with the same severity, KEV flag and band. |
| FindingWriters.PreTriageSays | app/services/scan_processing.py:147-160 | Pre-triage rates an open finding of the server unless its band is a model verdict, and writes nothing but band, source and time. |
| VerdictRuns.ModelBandWasInherited | app/services/finding_group_inheritance.py:69-89 | In every run, a band with source `llm` that a finding did not have at the start was the verdict of its group, server and lane at the moment when a step of the run inherited it. |
| VerdictRuns.ModelSourceStays | app/services/scan_processing.py:151-159 | Once the band of a finding is a model verdict its source stays `llm` over every run: pre-triage, ingests and feeds never take it back. |
| ManualTriage.ManualKeepsInvariantIff | app/views/findings.py:655-663 | Acknowledging or reopening one finding by hand keeps the invariant of the runs if and only if the finding is not RESOLVED. |
| ManualTriage.ReopenedByHandIsAbsent | app/views/findings.py:728-730 | A RESOLVED finding reopened by hand is live, but whatever run follows, no heartbeat of its old resolution time or later counts it as present until it has been resolved once more. |
| Markers.ReplaceLeavesNone | app/services/group_chat_prompt.py:121-136 | Replacing one marker leaves no occurrence of it and creates no other marker that was not there. |
| Markers.NeutralizedIsClean | app/services/group_chat_prompt.py:121-136 | After both replacements no marker is left in the text. |
| Markers.GlueOccurs | app/services/group_chat_prompt.py:438-471 | The marker occurrences in two texts glued by a harmless separator are those of the two sides: none arises across the seam. |
| GroupChatPrompt.SafeIsClean | app/services/group_chat_prompt.py:139-157 | Neutralising, stripping and cutting to length leave no marker in a field. |
| GroupChatPrompt.FormatListeners | app/services/group_chat_prompt.py:254-273 | The loop over the listeners returns the formatted block for them. |
| GroupChatPrompt.FormatUpstreamVerdict | app/services/group_chat_prompt.py:344-380 | The appending of the optional lines returns the formatted block for the verdict. |
| GroupChatPrompt.DataBodyIsClean | app/services/group_chat_prompt.py:180-380 | Whatever the untrusted fields hold, the data body contains no literal start or end marker, not even across field boundaries. |
| GroupChatPrompt.BuildGroupSystemPrompt | app/services/group_chat_prompt.py:383-471 | The finished prompt holds exactly two start and two end markers, the text between the last start and the last end is the data body, and nothing follows the last end. |
| GroupChatPrompt.PromptMarkers | app/services/group_chat_prompt.py:438-471 | The same for every marker-free data body, whatever the fixed prose is. |
| PromptContent.OrdinaryIsShown | app/services/group_chat_prompt.py:139-157 | A text without markers, control characters and outer white space is shown as it is, and one that is too long as its first characters with an ellipsis. |
| PromptContent.NothingIsDash | app/services/group_chat_prompt.py:139-157 | A missing field and one of control characters are shown as a dash. |
| PromptContent.NeutralizingOnlyInserts | app/services/group_chat_prompt.py:121-136 | Neutralising a text inserts zero-width spaces and loses no character of it. |
| PromptContent.BodyIsItsLines | app/services/group_chat_prompt.py:180-380 | The data body is exactly its lines: host, tags, services, listeners, group, findings and verdict, each written out field by field, in this order and with nothing between them. |
| PromptContent.FindingsStandInOrder | app/services/group_chat_prompt.py:322-341 | The lines of two findings stand in the body in the order of the findings and do not overlap. |
| PromptContent.OrdinaryFindingStands | app/services/group_chat_prompt.py:180-200 | What the model reads of a finding with ordinary texts: one line with its identifier, severity, scores, KEV word, vector and title. |
| PromptContent.HostStands | app/services/group_chat_prompt.py:225-242 | The body begins with name, system, kernel and architecture of the server. |
| PromptContent.ServiceStands | app/services/group_chat_prompt.py:245-251 | Every service stands in a line of its own. |
| PromptContent.ListenerStands | app/services/group_chat_prompt.py:254-273 | Every listener stands in the body with address, port, protocol and process. |
| PromptContent.PromptHoldsTheLines | app/services/group_chat_prompt.py:438-471 | These lines are what stands between the last two markers of the finished prompt. |
| DashboardFilter.ValidateTagNames | app/schemas/dashboard_filter.py:137-164 | The loop keeps the valid names, lower-cased, each at its first occurrence. |
| DashboardFilter.FromRequest | app/schemas/dashboard_filter.py:185-277 | The parser as a method returns the filter of the parsing function. |
| DashboardFilter.ParseIsWellFormed | app/schemas/dashboard_filter.py:185-277 | Every parsed filter is well formed: valid distinct tags, whitelisted values, a search text of bounded length without leading space, a positive group id. |
| DashboardFilter.ToQueryString | app/schemas/dashboard_filter.py:279-335 | The printer returns the printed pairs with the overrides applied. |
| DashboardFilter.ParsePrint | app/schemas/dashboard_filter.py:185-335 | Parsing a printed filter gives the filter back, except for whitespace that ends the search text. |
| DashboardFilter.RoundTripIff | app/schemas/dashboard_filter.py:168-182 | A parsed filter equals the parse of its printed form if and only if the 128-character cut of its search text does not end in whitespace. |
| DashboardFilter.SecondParseIsStable | app/schemas/dashboard_filter.py:185-335 | From the second parse on, print then parse is the identity. |
| DashboardFilter.SortLinkParses | app/schemas/dashboard_filter.py:320-333 | A link that overrides the sort key parses to the same filter under that key. |
| QueryParams.OverrideLookup | app/schemas/dashboard_filter.py:320-333 | After an override, an overridden key has exactly the new value once and every other key what was printed. |
| QueryParams.ApplyOverride | app/schemas/dashboard_filter.py:320-333 | The two override loops replace existing keys in place and append the others. |
| QueryParams.CutsAtSpaceIff | app/schemas/dashboard_filter.py:168-182 | The cleaned search text ends in whitespace exactly when the stripped text is longer than the limit with a space at the last kept place. |
| QueryParams.CutsAtSpaceWitness | app/schemas/dashboard_filter.py:168-182 | A search text for which that happens. |
| FindingsViewFilter.ParseIsWellFormed | app/schemas/findings_view_filter.py:95-186 | Every parsed view filter is well formed. |
| FindingsViewFilter.ToQueryString | app/schemas/findings_view_filter.py:201-248 | The printer returns the printed pairs with the overrides applied. |
| FindingsViewFilter.ParsePrint | app/schemas/findings_view_filter.py:95-248 | What the printed form parses to under a given user default, field by field. |
| FindingsViewFilter.RoundTripIff | app/schemas/findings_view_filter.py:119-131 | Under one user default a filter survives print and parse if and only if its search text does not end in whitespace and its severity can be printed. |
| FindingsViewFilter.ThresholdWitness | app/schemas/findings_view_filter.py:119-131 | The view of all severities, printed by a user whose threshold is HIGH, comes back as the HIGH view. |
| FilterMeaning.DashboardOfOne | app/schemas/dashboard_filter.py:185-277 | A request with one parameter: its key decides which field it sets, its value is one of the listed words or the default, and every other field keeps its default. |
| FilterMeaning.ViewOfOne | app/schemas/findings_view_filter.py:95-186 | The same for the filter of the findings of a server, where without a severity the threshold of the user counts. |
| FilterMeaning.TagReadsLikeTags | app/schemas/dashboard_filter.py:194-200 | `tag=x` is read like `tags=x`. |
| FilterMeaning.TagsSay | app/schemas/dashboard_filter.py:137-200 | The tags of a filter are exactly the legal names that stand, in any case and with any padding, between the commas of some `tags` or `tag` parameter. |
| FilterMeaning.WordIgnoresCaseAndPadding | app/schemas/dashboard_filter.py:185-277 | A word is read the same in any case and with any white space around it. |
| FilterMeaning.SearchSays | app/schemas/dashboard_filter.py:168-182 | The search text is the value without surrounding white space, cut to 128 characters, and none when nothing is left. |
| FilterMeaning.GroupNumberSays | app/schemas/dashboard_filter.py:243-262 | A number written in decimal is read back as the group, except zero, which is none. |
| BucketQuery.ListBuckets | app/services/findings_bucket_query.py:318-372 | One header per (server, group, band) of the joined rows, with its row count, its display names and `pending` for a missing band, in an order that rank, server name and group label allow. |
| BucketQuery.HeaderListIsDetermined | app/services/findings_bucket_query.py:350-356 | Under unique names and ranked bands, which the schema guarantees, the three sort keys determine the list of headers. |
| BucketQuery.PendingBucketHeader | app/services/findings_bucket_query.py:375-394 | The header of the pending bucket with the count of the matching findings without group, `None` for zero. |
| BucketQuery.TotalsCountRows | app/services/findings_bucket_query.py:350-356 | Header counts with distinct keys add up to the number of joined rows they cover, in total and per bucket. |
| BucketQuery.HeadersCountPerLane | app/services/findings_bucket_query.py:335-339 | The headers of a (server, group) sum to the body total times max(1, number of its evaluation rows). |
| BucketQuery.HeadersMatchBodyIff | app/services/findings_bucket_query.py:335-339 | Headers and body agree if and only if the bucket is empty or has at most one evaluation row. |
| Witnesses.HeaderExceedsBodyWitness | app/services/findings_bucket_query.py:335-339 | A group with a verdict for either lane and one finding: its headers count two, its body one. |
| BucketQuery.GrandTotalIff | app/services/findings_bucket_query.py:318-394 | All headers plus the pending header count the matching findings if and only if no matching finding is in a bucket with two evaluation rows. |
| BucketPages.BodyOrderTies | app/services/findings_bucket_query.py:279-291 | Two rows tie under the ORDER BY exactly when the five sort columns are equal. |
| BucketPages.ListBucketFindings | app/services/findings_bucket_query.py:397-450 | A page is the OFFSET/LIMIT window of some listing the ORDER BY allows, next to the exact total; no row of it precedes one that has KEV where it has none, or, among equals, a higher EPSS score (missing ones last), then a higher CVSS score, then an earlier first-seen time, then a smaller identifier. |
| BucketPages.PagesCoverBucket | app/services/findings_bucket_query.py:438-450 | Under one fixed listing the pages up to the total are every matching finding exactly once. |
| BucketPages.ListingDeterminedIff | app/services/findings_bucket_query.py:279-291 | The ORDER BY fixes the listing if and only if no two matching findings agree on all five columns. |
| Paging.PagesFixedIff | app/services/findings_bucket_query.py:438-450 | For any ORDER BY and page size: the rows on every page are the same in all allowed listings if and only if no two rows that tie stand on both sides of a page break of one of them. |
| BucketPages.PagesDeterminedIff | app/services/findings_bucket_query.py:438-450 | The findings on every page of a given size are fixed if and only if no page break falls between two findings that agree on the five columns. |
| BucketPages.TiedFindingCanBeMissed | app/services/findings_bucket_query.py:438-450 | At a break between page k and k + 1 that two such findings share, another allowed listing shows one of them on page k + 1 again and the other on no page after k, while the first listing had it on none up to k. |
| Witnesses.TwinsTie | app/services/findings_bucket_query.py:279-291 | One ingest of two packages under one CVE into an empty table gives two findings that agree on all sort columns. |
| Witnesses.TwinsShareNoFixedPage | app/services/findings_bucket_query.py:438-450 | After that ingest no listing of the pending bucket fixes its pages of one finding. |
| BucketPages.ResolveBucketToFindingIds | app/services/findings_bucket_query.py:511-546 | The resolved ids are the bucket in the order (identifier, id). |
| BucketPages.ResolvedIsDetermined | app/services/findings_bucket_query.py:511-546 | That list is always unique, and it holds each id of the bucket exactly once. |
| BucketPages.GroupBucketFindingsByLane | app/services/findings_bucket_query.py:453-508 | For a real group the non-empty lanes, patch first, each with its findings in page order, its reason and its band or `pending`; nothing for the pending bucket. |
| BucketPages.LanesPartitionPage | app/services/findings_bucket_query.py:489-493 | The lanes are a stable partition: dealing them back out in lane order gives the page. |
| BucketPages.BodyOrderSays | app/services/findings_bucket_query.py:279-291 | The ORDER BY allows one finding before another exactly when the five columns, compared as values, do. |
| BucketLaws.PagesAscend | app/services/findings_bucket_query.py:438-450 | Across pages: no finding of a later page of one listing should have come before one of an earlier page. |
| BucketLaws.BodySays | app/services/findings_bucket_query.py:397-437 | A bucket holds the matching findings of its server and group; server 0 stands for all servers, group 0 for the findings without a group. |
| BucketLaws.ResolvedAscend | app/services/findings_bucket_query.py:513-546 | The ids of a bulk operation ascend by identifier and, for one identifier, by id. |
| BucketLaws.HeadersAscend | app/services/findings_bucket_query.py:350-356 | No header stands before one with a worse band; for one band the server names ascend, and for one server name the group labels. |
| BucketLaws.HeaderBandSays | app/services/findings_bucket_query.py:303-339 | A header stands for a pair with a matching finding, and its band is that of an evaluation of the pair, or none when the pair has none. |
| BucketLaws.LaneHolds | app/services/findings_bucket_query.py:489-493 | The patch lane holds the findings with a fix, the other lane those without, and together they are the page. |
| BucketLaws.LaneGroupSays | app/services/findings_bucket_query.py:489-508 | A lane is shown when it has findings, under the band and reason of its own verdict, and as `pending` without one. |
| Pass1Validation.LabelIsPlainIff | app/services/llm_risk_reviewer.py:69 | A label that the pattern accepts has the documented form exactly when it contains no newline (the pattern also matches before a final one). |
| Witnesses.NewlineLabelWitness | app/services/llm_risk_reviewer.py:69 | The label `a` with a newline after it is accepted and has not the documented form. |
| Pass1Validation.TakeIds | app/services/llm_risk_reviewer.py:754-768 | The id loop accepts exactly lists of integers that are known, new and without repetition, and returns them unchanged. |
| Pass1Validation.ValidateGroups | app/services/llm_risk_reviewer.py:721-780 | The group loop accepts exactly lists of well-typed groups with legal distinct labels and ids that repeat neither within nor across groups. |
| Pass1Validation.ValidatePass1Response | app/services/llm_risk_reviewer.py:705-806 | A response is accepted if and only if its groups fit, its ungrouped ids are known and in no group, and both together cover the input; ids, labels and explanations pass through unchanged, patterns sanitised. |
| Pass1Validation.AcceptedIsPartition | app/services/llm_risk_reviewer.py:795-804 | On acceptance every input id sits at exactly one place of one group, or is ungrouped, never both, and no other id occurs. |
| Pass1Validation.AcceptedCountsIff | app/services/llm_risk_reviewer.py:782-793 | The ids named are as many as the findings if and only if none is listed as ungrouped twice. |
| Witnesses.RepeatedUngroupedWitness | app/services/llm_risk_reviewer.py:782-793 | An accepted response with one finding that names two ids. |
| Pass2Validation.ReadEntry | app/services/llm_risk_reviewer.py:1110-1181 | The checks of one evaluation: accepted exactly when it fits and its label is new, with the mapped band. |
| Pass2Validation.ValidatePass2Response | app/services/llm_risk_reviewer.py:1084-1194 | The list is accepted if and only if all entries fit and labels are distinct; it ends in a TypeError exactly when the first entry that is not accepted has a list or an object as its band. |
| Witnesses.UnhashableBandWitness | app/services/llm_risk_reviewer.py:1110-1130 | An answer of one entry with a known label and an empty list as its band ends in the TypeError. |
| Pass2Validation.AcceptedEvaluations | app/services/llm_risk_reviewer.py:1124-1169 | Accepted evaluations have distinct labels, never the legacy band, never `act` in the mitigate lane, and a worst finding that was shown. |
| AnswerMeaning.LabelSays | app/services/llm_risk_reviewer.py:69 | A label is 1 to 64 lower-case letters, digits, dots, underscores and dashes, and possibly one newline behind them. |
| AnswerMeaning.GroupSays | app/services/llm_risk_reviewer.py:721-780 | The parts of an accepted group come from the keys of the answer named after them. |
| AnswerMeaning.PatternsSay | app/services/llm_risk_reviewer.py:740-748 | Each pattern list is what its own sanitiser leaves of its own rule key; rules that are missing, null or empty give none. |
| AnswerMeaning.NameSays | app/services/llm_risk_reviewer.py:397-407 | A name pattern survives as its stripped text exactly when that is ASCII without NUL, at most 256 characters long and no catch-all. |
| AnswerMeaning.GlobSays | app/services/llm_risk_reviewer.py:410-423 | A glob survives exactly when it would as a name and holds something besides stars and white space. |
| AnswerMeaning.PrefixSays | app/services/llm_risk_reviewer.py:364-394 | A path prefix survives as its stripped text without leading slashes, under the same conditions. |
| AnswerMeaning.SurvivingSays | app/services/llm_risk_reviewer.py:809-826 | The survivors of a list are those of its items, in order. |
| AnswerMeaning.EntrySays | app/services/llm_risk_reviewer.py:1110-1181 | Exactly which evaluations are accepted, key by key: a known label, a band of the documented words that its lane allows, a reason of at most 8192 characters without NUL, and no worst finding or one that was shown for that label. |
| AnswerMeaning.EvaluationSays | app/services/llm_risk_reviewer.py:1110-1181 | An accepted evaluation comes back as sent, except that the band `mitigate` becomes `escalate`. |
| PatternSanitizer.SanitizeList | app/services/llm_risk_reviewer.py:809-826 | The surviving patterns in order; a value that is neither null nor a list is rejected. |
| PatternSanitizer.OnlyStarsIff | app/services/llm_risk_reviewer.py:416-418 | The star test of a glob fails exactly on texts of stars and whitespace only. |
| PatternSanitizer.NamesAreFixedPoints | app/services/llm_risk_reviewer.py:397-436 | Sanitising a surviving name, glob or purl pattern again changes nothing. |
| PatternSanitizer.PrefixIsRelative | app/services/llm_risk_reviewer.py:364-394 | A surviving prefix is non-empty ASCII of bounded length without leading slash, so the matcher's own normalisation leaves it alone. |
| PatternSanitizer.PrefixIsFixedPointIff | app/services/llm_risk_reviewer.py:364-394 | A surviving prefix survives again unchanged if and only if it does not start with whitespace (the strip comes before the slashes go). |
| Witnesses.PrefixChangesWitness | app/services/llm_risk_reviewer.py:364-394 | A slash and a space before a prefix: the first sanitising keeps the space, the second drops it. |
| LlmCache.RiskCache.Lookup | app/services/llm_cache.py:41-61 | Returns the row exactly when the key is stored and at most the TTL old. |
| LlmCache.RiskCache.RecordHit | app/services/llm_cache.py:64-72 | Only `used_count` and `last_used_at` of that row change. |
| LlmCache.RiskCache.Store | app/services/llm_cache.py:75-126 | A new key gets one row; a stored key keeps its row. |
| LlmCache.RiskCache.LruEvictIfNeeded | app/services/llm_cache.py:129-149 | Deletes exactly the excess over the limit, a set of least recently used rows, and returns its size. |
| LlmCache.EvictionKeepsRecent | app/services/llm_cache.py:129-149 | Eviction leaves at most the limit, keeps rows untouched, and keeps none that is less recently used than one it removed. |
| LlmCache.RowsTellHistory | app/services/llm_cache.py:41-149 | In every run a key is stored exactly when it has an origin (a store while it was absent, not evicted since), and its row shows that store, the hits since and the last use. |
| LlmCache.HitReturnsFirstStore | app/services/llm_cache.py:41-61 | A lookup hits exactly when the origin is at most the TTL old, and returns the verdict of that first store. |
| LlmCache.ExpiredStaysMiss | app/services/llm_cache.py:44-47 | An expired key stays a miss through any number of stores and hits until an eviction takes it. |
| LlmCache.StoreIsVisibleIff | app/services/llm_cache.py:106-126 | A stored verdict is what the next lookup returns if and only if the key was absent or its row is still valid with the same verdict. |
| Witnesses.ExpiredStoreWitness | app/services/llm_cache.py:106-126 | A verdict stored after its key has expired is not what the next lookup returns. |
| JsonText.EscapeUnique | app/services/llm_fingerprints.py:92 | The ASCII escapes of `json.dumps` are a prefix code: equal texts start with the same character and leave the same rest. |
| JsonText.DumpsUnique | app/services/llm_fingerprints.py:92 | A serialised value followed by whatever may follow it can be read in one way only. |
| JsonText.DumpsInjective | app/services/llm_fingerprints.py:218-229 | Different payloads have different texts. |
| JsonText.DumpsSays | app/services/llm_fingerprints.py:218-229 | Brackets, separators and order of the serialised values, with no blanks. |
| LlmFingerprints.GroupFingerprintIff | app/services/llm_fingerprints.py:67-93 | Two finding lists have one fingerprint if and only if their multisets of (identifier, purl or empty) are equal, whatever the order. |
| LlmFingerprints.ServerFingerprintIff | app/services/llm_fingerprints.py:181-229 | Two servers have one fingerprint if and only if their OS fields, the set of non-empty process names and the multisets of tags, listeners, modules, services and gaps are equal. |
| LlmFingerprints.ContextSays | app/services/llm_fingerprints.py:212-229 | The names of the server payload and which column stands under which. |
| LlmFingerprints.CacheKeyIff | app/services/llm_fingerprints.py:232-265 | Cache keys are equal if and only if group, the three fingerprints and the optional lane are equal, for fingerprints without the separator. |
| LlmFingerprints.KeySays | app/services/llm_fingerprints.py:232-265 | The text under the digest: group, three fingerprints and prompt version 7 with bars between them, and the lane when there is one. |
| GroupMatcher.Matcher.Match | app/services/group_matcher.py:79-134 | The four loops return the group of the matching specification, `None` while nothing is loaded. |
| GroupMatcher.LongestPrefixWins | app/services/group_matcher.py:98-111 | A path match exists exactly when some prefix hits, and its group reaches a normalised length that no group exceeds and no earlier group reaches. |
| GroupMatcher.LayersInOrder | app/services/group_matcher.py:79-134 | A lower layer decides only when no group matches in a higher one, and then its first matching group is returned; `None` means no layer matches any group. |
| GroupMatcher.MatchIgnoresSlashes | app/services/group_matcher.py:89-107 | Leading slashes of the target and of stored prefixes change no match. |
| MatchMeaning.HitSays | app/services/group_matcher.py:98-107 | A prefix hits when the target path begins with it, leading slashes aside, and its length is what it has besides them. |
| MatchMeaning.SuffixChangesNoNameMatch | app/services/group_matcher.py:113-124 | The name layers read a stored name up to its path suffix: `name@path` matches exactly like `name`. |
| MatchMeaning.PurlHitSays | app/services/group_matcher.py:126-132 | A purl pattern hits when the purl of the finding begins with it. |
| MatchOrder.MatchIsFirstCandidate | app/services/group_matcher.py:79-134 | The match is the first of the candidates, and none only without candidates: the groups with the longest hit, else those that hit in the first layer that hits at all. Which groups these are does not depend on their order. |
| MatchOrder.NoMatchIgnoresOrder | app/services/group_matcher.py:62-67 | Whether a finding matches at all does not depend on the order in which the groups were loaded. |
| MatchOrder.MatchIgnoresOrderIff | app/services/group_matcher.py:62-67 | The group a finding gets is independent of the load order if and only if it has at most one candidate. |
| Witnesses.LoadOrderWitness | app/services/group_matcher.py:62-67 | Two groups with one prefix and a finding below it: the two load orders give it different groups. |
| GroupAssignment.ApplyMatchesForServer | app/services/group_matcher.py:137-175 | Exactly the ungrouped findings of the server with a match get its group, the count is their number, and exactly the groups used get a new time. |
| GroupAssignment.SecondPassIsIdle | app/services/group_matcher.py:137-175 | A pass leaves ungrouped exactly the findings without a match, and a second pass assigns nothing, in whatever order it loads the groups again. |
| GroupAssignment.OthersKeepTheirGroup | app/services/group_matcher.py:149-154 | Findings of other servers and grouped findings are unchanged, and only the group column ever changes. |
| GroupAssignment.AffinitySortForgetsOrder | app/services/group_matcher.py:206-230 | The affinity sort is a permutation that does not depend on the input order. |
| GroupAssignment.BucketsAreContiguous | app/services/group_matcher.py:206-230 | Findings of one path bucket are contiguous, and in it those of one package. |
| GroupAssignment.BucketIgnoresLeadingSlash | app/services/group_matcher.py:221-228 | An absolute and a relative path share their bucket. |
| MatchMeaning.BucketIsThreeSegments | app/services/group_matcher.py:221-228 | The bucket of a path is its first three segments. |
| LlmSanitize.BlockRenderer.Feed | app/services/llm_sanitize.py:107-127 | One line: afterwards the output holds the finished blocks and at most one of the three buffers is non-empty, with the lines of the current block. |
| LlmSanitize.RenderBlockContent | app/services/llm_sanitize.py:76-130 | The output is the in-order rendering of the runs of the classified lines. |
| LlmSanitize.RunsAreMaximal | app/services/llm_sanitize.py:107-129 | The runs with some blank lines between them are the input line by line, none is empty, and neighbours without a blank line differ in kind. |
| LlmSanitize.RunsAreUnique | app/services/llm_sanitize.py:107-129 | Any such cut into maximal runs is the one the loop finds. |
| LlmSanitize.BlockSays | app/services/llm_sanitize.py:84-104 | A rendered block is the tag of its kind, each of its items once and in order, and the closing tag. |
| LlmSanitize.RenderWithFences | app/services/llm_sanitize.py:132-146 | The fence loop renders the segments in order. |
| LlmSanitize.SegmentsKeepText | app/services/llm_sanitize.py:132-146 | The segments with their fences put back are the text; code and the text before it contain no fence, and the last text no pair. |
| LlmBudget.NextUtcMidnight | app/services/llm_budget.py:42-51 | The next reset is a midnight in (now, now + 1 day]. |
| LlmBudget.Settings.MaybeResetBudget | app/services/llm_budget.py:54-76 | Resets counter and reset time exactly when the reset time has come. |
| LlmBudget.Settings.BudgetConsume | app/services/llm_budget.py:92-103 | Adds the tokens, none for a negative number, and returns the new value. |
| LlmBudget.Settings.MarkExhaustedAuditOnce | app/services/llm_budget.py:106-153 | Writes an audit exactly when none is as recent as a day before the next reset. |
| LlmBudget.Throttle.BudgetOk | app/workers/llm_worker.py:578-608 | The worker's poll: within 60 seconds the cached answer and no change; otherwise reset check, cap check, an audit only when the cap is reached, and the answer true on an exception, which leaves the steps before it done. |
| LlmBudget.Cycle | app/services/llm_budget.py:54-153 | A cycle's counter is what was consumed since its reset, and it gets one audit, at its first mark, unless an earlier audit is at or after the midnight before its reset. |
| LlmBudget.NextResetIsMidnight | app/services/llm_budget.py:66-75 | In every run with a non-decreasing clock the next reset is the midnight after the last reset check. |
| LlmBudget.UsedSinceCycleStart | app/services/llm_budget.py:54-103 | In every run with a non-decreasing clock, disciplined or not, the counter is what was booked since the first reset check of the day of the last one. |
| LlmBudget.CounterIsTodayIff | app/services/llm_budget.py:54-103 | Without any discipline the counter is what was consumed on a day if and only if as much was booked on it before the cycle as in the cycle on other days. |
| LlmBudget.LateBookingIsLost | app/services/llm_budget.py:92-103 | Tokens booked after midnight and before the first reset check of the new day are missing from its counter. |
| LlmBudget.CounterIsToday | app/services/llm_budget.py:54-103 | When every consumption follows a reset check of its own UTC day, the counter is exactly the tokens consumed on the day of the last check; marks may come at any time. |
| LlmBudget.OneAuditPerMarkedDay | app/services/llm_budget.py:106-153 | When every mark follows a reset check of its own UTC day, the days with an audit are exactly the days with a mark, each with one audit; tokens may be booked at any time. |
| LlmBudget.PollAcrossMidnight | app/services/llm_budget.py:120-133 | Without that discipline: a poll that checks before midnight and audits after it suppresses the audit of the next day. |

## Left out

- FindingsIngest.IngestScan: EPSS and KEV feeds, titles, versions and references travel in the opaque column `details` or as given facts; of the server row only the time of the last scan is kept, of the scan row only server and time.
- FindingsUpsert.UpsertChunk: column width errors and other database errors besides the repeated key are not modelled.
- BulkAcknowledge.BulkAcknowledge: notes, audit event, rate limit, request validation and the enqueueing of model jobs are not modelled; the tag criterion is a given set of servers.
- BulkAcknowledge.PackageCriterionExactIff: says nothing about names with `%` or a backslash, which the request schema refuses (`app/schemas/bulk_request.py:43`), or with `@`.
- DailyRiskState.LiveHeartbeatsForServers: loads server by server where the code loads all servers in one SELECT; naive datetimes are not modelled.
- Lifecycle.RunKeepsInvariant: transactions are serial; interleavings between a SELECT and its UPDATE are not modelled. The manual acknowledge (`app/views/findings.py:661`) and reopen (`app/views/findings.py:728`) of one finding are not steps of the runs, because they break the invariant on a RESOLVED finding: `ManualKeepsInvariantIff`.
- Lifecycle.AcknowledgedReopensOnlyViaResolved: the manual reopen takes ACKNOWLEDGED to OPEN directly.
- Lifecycle.RunKeepsIdentity: deleting all findings of a server (`app/views/servers.py:67`) is not a step of the runs; it removes rows.
- Lifecycle.WindowStaysComplete: registering and deleting servers are not steps; the runs know revoking and retiring.
- VerdictRuns.ModelBandWasInherited: the deletion of a group with its evaluations is not a step; of an evaluation only band and reason are kept, and of the feeds only score and KEV flag.
- QueryParams.PositiveInt: digits outside ASCII and the limit of Python on very long numbers are not modelled.
- DashboardFilter.FromRequest: lower-casing is modelled for A to Z and the Kelvin sign, which is all that can produce a whitelisted word; URL encoding is the identity on pairs.
- BucketQuery.ListBuckets: names and labels are given functions of the ids; the filter is a parameter of findings.
- BucketPages.ListBucketFindings: the database is taken to compare strings by code point; eager loading is left out.
- LlmCache.RiskCache.Lookup: the clocks of Python and the database are one clock.
- LlmFingerprints.CacheKeyIff: the three fingerprints are assumed free of the separator, as hexadecimal digests are.
- Truncating the digest to 16 characters is part of the assumption that it is injective.
- `cve_data_fingerprint`: its sort compares optional values that Python cannot order, so it has no total law.
- `estimate_tokens`, `derive_group_kind`, `is_active`, `to_findings_filter`: short functions without a law beyond their text.
- The prompts of `llm_risk_reviewer.py`, calls to the model, extraction of JSON from answers, and `nh3` cleaning.
- Inline Markdown, the glob matcher and regular expressions other than the label and tag patterns.
- `csv_export.py`, `dashboard_kpis.py`, `host_state_ingest.py`, middleware, forms, views besides the two manual routes, and workers besides the budget poll.
