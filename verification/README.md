# claude-lens: a verified model of what it promises to keep

claude-lens records every call a coding agent makes: a proxy tees the request and the response, a tailer reads
the agent's transcripts, and both deliver rows keyed by request id into one SQLite database. Rows that are old
enough have their bodies moved into one file per UTC day. This project models that store and the code that feeds
it, and proves what the source promises about it.

## What is modelled

- **The store that archives** (`ArchiveDb`, `StoreClass`, `Protocol`, `ProtocolProofs`, `ProtocolTheorems`,
  `ProtocolLimits`, `ArchiverRun`, `ArchiverTurns`, `CollectorRun`, `RestoreRun`, `BlobCodec`, `HandleCache`). Bodies move between
  two databases that share no transaction. `ArchiveDb` gives each transaction as a function on the two databases;
  `StoreClass` is the same code as a class whose methods rewrite the tables in loops, each proved equal to its
  transaction; `Protocol` interleaves any number of archivers, restores and garbage collectors, each able to stop
  between any two of its queries, with deliveries, purges, repricing and tool-name backfill. Beside it runs a store
  that never archives; the two are compared in every reachable state. `ArchiverRun` is the archiver's own loop,
  `CollectorRun` the collector's and `RestoreRun` the restore's, each proved to be a run of that machine; `ArchiverTurns` is the archiver's loop with
  anything at all happening between its pages.
- **The merge of two deliveries of one call** (`Events`, `Merge`, `MergeSteps`, `Deliveries`, `Billing`). The
  imperative merge is proved against a declarative one, and whole delivery sequences against closed forms.
- **The capture** (`Capture`): bounded buffers behind tees, and the completeness flag.
- **The event-stream parser** (`Sse`, `SsePrint`), **replay edits** (`ReplayEdits`), **opening the database**
  (`Schema`), **pricing and repricing** (`Pricing`, `Reprice`), **the consumer's flush** (`Consumers`), **the
  transcript tailer** (`Tailer`).

`Prelude` holds the shared types. `dafny verify dfyconfig.toml` checks everything.

## Assumptions

- Each SQLite transaction and each statement outside one is one atomic step. zstd, JSON text, byte trimming and the
  rounding of a price to a float are function parameters; the laws the proofs need of them are the `Lawful`
  predicates.
- Deliveries carry bodies that are absent or non-empty and at most 256 MiB (`DeliveriesOk`). Both bounds are
  needed: `ProtocolLimits.PresenceSurvivesExactlyNonEmpty` and `ProtocolLimits.ReadsBackExactlyWithinBound` say
  exactly when the code copes.
- Event ids are never reused (AUTOINCREMENT) and a merge never changes `started_at`.
- Garbage collection runs query by query: the listing, the marker query and the hot-body query of each chunk, the
  deletes, the count, the file's removal. `archiveCycle` (internal/cli/serve.go:428-438) runs it after archiving in one
  goroutine, but `afterPurge` (internal/store/store.go:947-956) also runs it, in the purge and rekey commands
  (internal/cli/purge.go:112, internal/cli/purge.go:160, internal/cli/rekey.go:91), which are other processes. Two
  things, and only two, are assumed not to fall between a collector's steps; everything else may.
  - Between the marker query and the hot-body query of a chunk, no archiver's hot commit takes the last hot body of an
    event found unmarked (`Protocol.Strips`). With one, every such row loses every body
    (`ProtocolLimits.SplitGcLosesEveryBody`); with none, what is collected belongs to deleted events
    (`ProtocolLimits.MarkersFirstIsSafe`). Asked in the opposite order, which the code does not do, there would be no
    such window (`ProtocolLimits.HotBodiesFirstIsSafe`).
  - Between the count and the removal of a file, no archiver reads that file's masks for events still there
    (`Protocol.ReadsVanishing`). With one, the removal deletes the only copy
    (`ProtocolLimits.RemovalRacingArchiverLosesEveryBody`).
- Restores and archivers are never under way together, as README.md:249-252 of the repository asks.
  `ProtocolLimits.RestoreRacingArchiverLosesEveryBody` is the schedule this rules out.
- Foreign keys are on (the data source name Open builds sets them), so marking a deleted event rolls its whole batch back.

Where code and comments differ, the model follows the code: `boundedBuffer.Write` returns the shortened length on the
write that straddles the cap although its comment says it always reports the full length; and a comment at
internal/store/archiver.go:320-322 says removing a file races an archiver harmlessly, because step 4 finds the row's mask
gone. That holds when the removal comes before the mask is read, and not when it comes after
(`ProtocolLimits.RemovalRacingArchiverLosesEveryBody`).

## Model

| member | source | states |
|---|---|---|
| ProtocolTheorems.NoBodyLost | internal/store/archiver.go:19-26 | in every reachable state, every body a never-archiving store would hold for a live event is hot, or decodes byte for byte from its marked day-file row |
| ProtocolTheorems.NoBodyEverLost | internal/store/archiver.go:167-305 | a body a hot row held at any moment of any run is, at any later moment at which its event still exists, hot or in its marked day-file row with the same bytes |
| ProtocolTheorems.ReadsRefinePlainStore | internal/store/archive.go:440-518 | in every reachable state a hydrated read returns, column for column, the row of the store that never archives, and never reports a missing body |
| ProtocolTheorems.ReadInPartsRefines | internal/store/archive.go:440-518 | the row, its marker and its day row read in three different states of a run still give the never-archived row as of the first read, unless that row itself is restored, deleted or delivered again in between |
| ProtocolTheorems.HydrateColumnByColumn | internal/store/archive.go:476-518 | in any state, corrupt files included: a non-empty hot column is never replaced, an empty one is filled exactly when its own blob decodes; the notice is loaded exactly when one was, and else missing exactly when one did not decode |
| ProtocolTheorems.MarkerNeverOverclaims | internal/store/archiver.go:280-300 | the marker's mask is within the day row's, which is within the call's bodies; every emptied column has its bit; so the merge's presence test holds exactly for the bodies the call has |
| ProtocolTheorems.ToolNamesFollowTheBody | internal/store/store.go:1436-1444 | an archived request body always has its tool names; the column is NULL exactly when the call has no request body, hot or archived, if and only if the row does not await the backfill; and a row that awaits it already did in the starting database |
| ProtocolTheorems.CoverageGrows | internal/store/archive.go:210-224 | outside deletion, collection and restore no marker and no day row ever loses a column, in any state; a day row gains exactly the columns written to it and every other cell stays as it was |
| ProtocolTheorems.DayRowOfPresentEventIsLive | internal/store/archiver.go:312-320 | in every reachable state a day row whose event is present has a marker or a hot body |
| ProtocolTheorems.GcPassCollectsExactlyTheOrphans | internal/store/archiver.go:323-435 | one pass with nobody between its statements removes every day row of a deleted event, keeps every row of a present one, and leaves the hot database alone |
| ProtocolTheorems.CollectorDeletesOnlyTheGone | internal/store/archiver.go:353-418 | in every reachable state of any interleaving, no id a collector has judged an orphan belongs to an event that exists |
| ProtocolTheorems.CollectorRemovesNoOnlyCopy | internal/store/archiver.go:420-434 | in every reachable state, whatever a file about to be removed holds of an event still there, that event is unmarked and all its bodies are hot |
| ProtocolTheorems.CollectorMissesNothing | internal/store/archiver.go:384-406 | an event gone when its chunk's markers are asked for is among the orphans once the hot bodies are, whatever ran in between |
| ProtocolTheorems.RestoreBringsBack | internal/store/archive_ops.go:221-319 | from any reachable state restore's hot commit makes the row equal to the never-archived row, every body hot and no marker |
| ProtocolTheorems.ReadRowSummarizesItsDeliveries | internal/store/merge.go:226-473 | through any amount of archiving, restoring and repricing, a row read back has the tokens, flag, bodies, sources and backfilled columns the closed forms give for the deliveries it absorbed |
| ProtocolTheorems.BillingSplitKept | internal/store/merge.go:302-381 | over every run of inserts, merges and reprices a subscription or local row has no cost_usd, every other row no api-equivalent figure, and local mode means the local account |
| ProtocolTheorems.DeliveryLands | internal/store/merge.go:118-183 | a delivery of a request the store knows changes that request's row and no other; any other adds one row under a new id |
| ProtocolTheorems.OneRowPerRequest | internal/store/schema.sql:13 | over every run a request id has at most one row and is found under it |
| ProtocolProofs.StepKeeps | internal/store/archiver.go:167-305 | every step of every process, and every foreign action, keeps the invariant linking hot rows, markers, day files and what each process carries |
| ProtocolProofs.ReachableInv | internal/store/archiver.go:19-26 | the invariant holds in every state that any interleaving of any actions reaches from a never-archived database |
| ProtocolLimits.SplitGcLosesEveryBody | internal/store/archiver.go:384-406 | with markers asked first and an archiver's hot commit before the second query, every unmarked row with a hot body loses all of it |
| ProtocolLimits.MarkersFirstIsSafe | internal/store/archiver.go:384-406 | in the code's order, over any run between the two queries that has no archiver's hot commit, a row found in neither answer belongs to a deleted event |
| ProtocolLimits.RemovalRacingArchiverLosesEveryBody | internal/store/archiver.go:420-434 | an archiver that writes after the file is counted empty and commits hot, before or after the removal, loses every body of the row, for every such row |
| ProtocolLimits.RemovalHarmlessExactly | internal/store/archiver.go:420-434 | in every reachable state, removing a day's file leaves a row's read unchanged if and only if the row is not marked for that day or every column its marker names is still hot |
| ProtocolLimits.RestoreRacingArchiverLosesEveryBody | README.md:249-252 | an archiver that runs between restore's hot commit and its day-row delete loses every body of the row |
| ProtocolLimits.PresenceSurvivesExactlyNonEmpty | internal/store/merge.go:404-436 | archiving a column leaves the presence test unchanged if and only if the body is not empty |
| ProtocolLimits.ReadsBackExactlyWithinBound | internal/store/archive.go:106-160 | an archived body reads back if and only if it is within the blob bound, which only decoding checks |
| BlobCodec.RoundTrip | internal/store/archive.go:106-160 | decoding an encoded body gives the body, or nothing when it is over the bound, whichever codec was chosen |
| BlobCodec.DecodeBounded | internal/store/archive.go:122-160 | whatever bytes are on disk, a decoded body has its recorded length and is within the bound |
| BlobCodec.NeverLonger | internal/store/archive.go:106-119 | what is stored is the shorter of the body and its compression, under the codec that says which |
| ArchiveDb.FilesCollectedRows | internal/store/archiver.go:323-343 | a pass over any list of day files removes exactly the listed files' rows that are not live |
| ArchiveDb.DayExactly | internal/store/archiver.go:77-79 | a row's day is the 24 hours its start falls in, counted from 1970, before that too |
| StoreClass.Store.InsertOrMerge | internal/store/merge.go:118-183 | the new state is the delivery transaction on the old one, and the mismatch is reported for the row as it was |
| StoreClass.Store.ReadBodies | internal/store/archiver.go:196-234 | exactly the batch's rows with a non-NULL body, each once, with their bodies |
| StoreClass.Store.WriteDay | internal/store/archive.go:186-254 | the day file gains each row by the monotone upsert, nothing else changes, and the in-transaction verification succeeds |
| StoreClass.Store.MarkAndClear | internal/store/archiver.go:245-305 | markers gain exactly the day file's masks and those columns become NULL, or nothing at all changes |
| StoreClass.MarkEach | internal/store/archiver.go:280-304 | the loop fails exactly when some event to mark is gone, and otherwise computes the marked and cleared tables and their count |
| StoreClass.VerifyDayRows | internal/store/archive.go:256-278 | true exactly when every row's mask and every stored length read back |
| StoreClass.UpsertVerifies | internal/store/archive.go:210-250 | a file that stores what it is given always passes that verification, whatever it held before |
| StoreClass.Orphans | internal/store/archiver.go:353-414 | exactly the day rows with neither a marker nor a hot body |
| StoreClass.Store.GcFile | internal/store/archiver.go:353-435 | the orphans go, the file goes once empty, and the counts are those of the rows removed |
| StoreClass.Store.GCArchive | internal/store/archiver.go:323-343 | one collection per listed file, and the rows and files it reports are those the pass took away |
| CollectorRun.CollectIsRun | internal/store/archiver.go:353-435 | collecting one file is six steps of the protocol's state machine |
| CollectorRun.PassIsRun | internal/store/archiver.go:323-343 | a whole pass is a run of the protocol, so what holds of every run holds across it |
| StoreClass.Store.PurgeOlderThan | internal/store/store.go:936-956 | exactly the events started before the cutoff and their markers go, and of the listed day rows exactly those left without marker and hot body; the count is that of the events |
| StoreClass.HydrateColumns | internal/store/archive.go:486-518 | the three-column loop fills exactly the empty columns whose blob decodes |
| StoreClass.Store.GetEvent | internal/store/archive.go:440-518 | the row and the notice that hydration is specified to give, the row as it is for an unmarked one or one whose day row is missing, or nothing for an unknown id |
| StoreClass.Store.RestoreDay | internal/store/archive_ops.go:221-319 | a listed event whose day row holds bodies that all decode has every non-empty hot column as it was and every empty one as the day row has it, and its marker and day row are gone; every other event, marker and day row is as it was; the rest of the list is reported failed; a dry run counts the same and writes nothing |
| RestoreRun.RestoreIsRun | internal/store/archive_ops.go:221-319 | restoring one day is a run of the protocol's restore steps |
| RestoreRun.RestoredIsHydrated | internal/store/archive_ops.go:221-319 | from every reachable state no listed event marked for that day fails, each is hot exactly as a read gave it before, and no event reads differently afterwards |
| ArchiverRun.TakeBatch | internal/store/archiver.go:146-158 | the longest prefix within one UTC day and the byte cap, never empty |
| ArchiverRun.NextPage | internal/store/archiver.go:64-73 | with the cursor on the last row taken, the candidate query returns exactly the candidates not yet taken, in order |
| ArchiverRun.ArchiveBatch | internal/store/archiver.go:167-194 | read, write, verify, mark and clear leave the state of the four transactions in sequence |
| ArchiverRun.BatchIsRun | internal/store/archiver.go:167-194 | a batch taken by the code is five steps of the protocol's state machine |
| ArchiverRun.MovedEffect | internal/store/archiver.go:167-305 | on a batch of candidates every body goes from the hot row to the file of the marker's day, where its cell is its encoding, and every event not in the batch keeps row, marker and day rows |
| ArchiverRun.CountIsCandidates | internal/store/archive_ops.go:321-336 | the dry run's count is the number of candidates the run would page through |
| ArchiverRun.CutoffExactly | internal/store/archiver.go:84-90 | the cutoff is now less so many days of 24 hours if and only if that is a 64-bit count of nanoseconds, and differs from it by wrapping otherwise |
| ArchiverRun.CountsByName | internal/store/archive_ops.go:321-336 | the dry run counts the unmarked events older than the window that have a body and do not await the backfill, and the skipped count those that do |
| ArchiverRun.Archiver.Pages | internal/store/archiver.go:97-127 | the loop ends, its batches are the candidates in key order, each exactly once, single-day and within the cap or a single row |
| ArchiverRun.Archiver.Run | internal/store/archiver.go:81-127 | an event inside the hot window, marked, without a body or awaiting the backfill keeps its row, marker and day rows; after a finished run every other older one has all its bodies put away; the run archives exactly the dry run's count, is a run of the protocol, and stops early only at a cancelled batch boundary |
| ArchiverRun.ArchivingIsInvisible | internal/store/archiver.go:19-26 | whatever archivers do from a reachable state, stopped anywhere, no read changes |
| ArchiverRun.NothingLeft | internal/store/archive_ops.go:321-336 | after a finished run the dry run counts nothing |
| ArchiverTurns.KeysIncrease | internal/store/archiver.go:97-127 | with any actions of others between the pages, every key of a later batch is above every key of an earlier one |
| ArchiverTurns.TakenOnce | internal/store/archiver.go:97-127 | with any actions between the pages, no event is in two batches, nor twice in one |
| ArchiverTurns.TakenExactly | internal/store/archiver.go:64-73 | the turn whose batch takes the cursor over a row's key takes that row if and only if it is eligible in the state the turn's query reads |
| ArchiverTurns.EveryEligibleRowTaken | internal/store/archiver.go:97-127 | a row eligible at each query until some batch takes it has been taken when the run finishes |
| ArchiverTurns.TurnsBounded | internal/store/archiver.go:97-127 | a run has at most one turn per event there was at its start or was delivered meanwhile, so only endless deliveries could keep it going |
| ArchiverTurns.BatchCanBeChosen | internal/store/archiver.go:146-158 | each batch is distinct candidates of one day in the state its query read, which is what the protocol's first archiver step asks |
| HandleCache.HoldsMostRecent | internal/store/archive.go:348-400 | after any history of uses the cache holds exactly the last four distinct day files, in order of last use |
| HandleCache.ArchiveCache.With | internal/store/archive.go:363-391 | a missing file opens nothing; otherwise the handle returned is open and the least recently used ones were closed to make room |
| HandleCache.ArchiveCache.CloseLocked | internal/store/archive.go:402-413 | closes that path's handle and no other, so every handle ever opened is either cached once or closed |
| HandleCache.ArchiveCache.CloseAll | internal/store/archive.go:423-429 | afterwards every handle ever opened is closed |
| MergeSteps.MergeEvents | internal/store/merge.go:226-473 | the field-by-field merge is the declarative merge, and reports a mismatch exactly for two complete, measured, different captures |
| Deliveries.DeliveredColumns | internal/store/merge.go:321-471 | after any deliveries each of the twelve string columns is that of the first delivery with a non-empty one, the status the first non-zero, the prefix hash the first present, the sidechain flag set if ever set, and the sources are the first row's and every delivery's, each once |
| Billing.WhoIsBilled | internal/store/merge.go:347-381 | the proxy's row decides the mode where one row is local and exactly one knows the proxy; elsewhere the winner's mode, or its priced column's; outside local mode the account is the first real one |
| Billing.WhatIsBilled | internal/store/merge.go:495-522 | the figure is the winner's, or none when a mode other than the winner's was decided |
| Billing.MismatchExactly | internal/store/merge.go:229-264 | a mismatch is two complete captures, each with some count, that differ in one of the six counts |
| MergeSteps.PickWinner | internal/store/merge.go:247-293 | the pick by the completeness flags, corrected by who observed usage, is the specified winner |
| MergeSteps.TokensDiffer | internal/store/merge.go:186-213 | some of the six counts differ |
| MergeSteps.AlignBillingIdentity | internal/store/merge.go:483-522 | the proxy's side decides a local-against-cloud disagreement, and a figure of another mode is dropped |
| MergeSteps.EnforceLocalAccount | internal/store/merge.go:524-542 | afterwards local mode and the local account coincide |
| Deliveries.NextComplete | internal/store/merge.go:544-578 | one more merge keeps the flag equal to the conjunction over the deliveries that supplied the kept bodies |
| MergeSteps.MergeBodies | internal/store/merge.go:404-436 | each body column is kept when present, hot or archived, and otherwise taken from the incoming row |
| MergeSteps.AppendNew | internal/store/merge.go:610-626 | sources in first-seen order, without blanks or repeats |
| Deliveries.NextDelivery | internal/store/merge.go:226-473 | one more delivery keeps the closed forms for tokens, bodies, flag and tool names |
| Deliveries.DeliveredSummarizes | internal/store/merge.go:226-473 | after any non-empty sequence of deliveries the row is what the closed forms say |
| Deliveries.DeliveredCounts | internal/store/merge.go:253-301 | after any deliveries the counts are the closed form's, and there is usage exactly when some delivery measured it |
| Deliveries.DeliveredBody | internal/store/merge.go:404-436 | after any deliveries a kept body is one delivery's byte for byte, the flag is that of the suppliers, and a complete row's suppliers were complete |
| Deliveries.RedeliveryAbsorbed | internal/store/merge.go:226-473 | merging the same row a second time changes no column and reports no mismatch, for every pair of rows and every mask |
| Billing.FigureFollowsMode | internal/store/merge.go:334-381 | a figure survives a merge only in the mode it was priced for |
| Capture.BoundedBuffer.Write | internal/proxy/proxy.go:301-329 | the buffer is the stream's prefix up to the capacity, the flag is set exactly when it is not the whole stream, and the count returned falls short exactly on the write that straddles the capacity |
| Capture.KeptExactly | internal/proxy/proxy.go:301-329 | what is kept is a prefix of the stream, the whole of it or as long as the capacity |
| Capture.Tee.Read | internal/proxy/proxy.go:346-361 | every byte read passes the buffer, and the first abort is remembered |
| Capture.Close | internal/proxy/proxy.go:112-141 | the call is flagged complete exactly when the response ended cleanly and both bodies are whole |
| Capture.CaptureCall | internal/proxy/proxy.go:93-141 | over any reads of both bodies the submitted call is the function of the two streams and the capacity |
| Capture.ChunkingIrrelevant | internal/proxy/proxy.go:305-329 | cutting any read of either body in two changes nothing about the call |
| Capture.CompleteExactly | internal/proxy/proxy.go:114-141 | complete if and only if no read failed and neither body exceeds the cap |
| Capture.CompleteRowHoldsTheStream | internal/store/merge.go:409-436 | on a row flagged complete after any deliveries, a body that came from the proxy is every byte that passed that call's tee |
| Sse.FindEvent | internal/parse/sse.go:65-106 | the scan finds the first blank line, or nothing while its end could still be one |
| Sse.FoundStays | internal/parse/sse.go:65-106 | a boundary once found does not move when bytes arrive |
| Sse.SplitLines | internal/parse/sse.go:163-189 | lines end at LF, CRLF or a lone CR, and nothing else is dropped |
| Sse.ParseEvent | internal/parse/sse.go:114-148 | the frame of a block's last event line and all its data lines, or none |
| Sse.SSEParser.Feed | internal/parse/sse.go:25-43 | the frames, carry and verdict of the carry followed by the chunk |
| Sse.SSEParser.Finish | internal/parse/sse.go:45-57 | the carry counts as one last event unless blank, and the verdict is whether message_stop was seen |
| Sse.ChunkIndependence | internal/parse/sse.go:10-43 | any list of chunks gives the frames, carry and verdict of the undivided stream |
| Sse.ParseStream | internal/parse/sse.go:10-57 | the parser driven over any chunks returns what the undivided stream means |
| SsePrint.FindBlock | internal/parse/sse.go:71-106 | no line ending inside a printed event, of any of the three kinds, is taken for its end |
| SsePrint.LinesOfBlock | internal/parse/sse.go:163-189 | a printed event's lines come back, its last line ended or not |
| SsePrint.RoundTrip | internal/parse/sse.go:29-57 | frames printed with one line ending, multi-line data included and the last blank line optional, come back exactly under any chunking, complete exactly when one is message_stop |
| SsePrint.KindOfBlock | internal/parse/sse.go:121-148 | a printed event's kind is its event: line's when it has one and else the payload's own type, and the payload [DONE] gives no frame |
| SsePrint.OtherLineIgnored | internal/parse/sse.go:127-136 | a line that is neither event: nor data: changes nothing wherever it stands |
| ReplayEdits.ApplyOne | internal/replay/edit.go:151-207 | the walk succeeds exactly when every part names an existing child, and replaces that value alone |
| ReplayEdits.PartsExactly | internal/replay/edit.go:160 | the parts of a path have no dot in them and make the path up again with one between each two |
| ReplayEdits.ItemNamedExactly | internal/replay/edit.go:184-192 | a part names item n of an array if and only if there is such an item and the part is n's decimal numeral after a sign, if any, and leading zeros, if any |
| ReplayEdits.KeyNamedExactly | internal/replay/edit.go:165-172 | a part names a key of an object if and only if it is that key and not empty, and nothing of a scalar |
| ReplayEdits.ApplyEdits | internal/replay/edit.go:96-135 | all edits in order on the accumulated tree or no body; no edits returns the very bytes |
| ReplayEdits.UndoRestoresExactly | internal/replay/edit.go:117-223 | applying the recorded old values, last edit first, succeeds if and only if the edited body and every recorded value are within what the decoder reads back, and then restores the body's tree |
| ReplayEdits.UndoRestores | internal/replay/edit.go:117-223 | edits whose values, at the depth of their paths, stay within the decoder's nesting are always undone |
| ReplayEdits.OneEditUndoneExactly | internal/replay/edit.go:117-223 | a single edit is undone if and only if its value at the depth of its path stays within the decoder's nesting |
| ReplayEdits.PutWellFormedExactly | internal/replay/edit.go:209-223 | a replacement keeps the tree within a nesting if and only if the new value fits what its place leaves |
| ReplayEdits.EditTouchesOnePlace | internal/replay/edit.go:151-207 | no place appears or disappears except under the edited one; off the path values are the same and on it every object keeps its keys and every array its length |
| ReplayEdits.AllOrNothing | internal/replay/edit.go:100-106 | no body comes out if and only if the body is not JSON or some edit, on the tree its predecessors left, fails |
| ReplayEdits.PutBack | internal/replay/edit.go:209-223 | putting back the value that was there undoes a replacement |
| Schema.CrashRecoverable | internal/store/store.go:85-129 | after any number of attempts, each dead after any number of statements, no statement has failed and the next full one reaches the whole schema at the current version |
| Schema.NextKeeps | internal/store/store.go:96-129 | every single statement keeps the file healthy |
| Schema.MigrationLands | internal/store/store.go:162-221 | each migration on a healthy file at its version adds exactly its columns and never an existing one |
| Schema.OpenTerminates | internal/store/store.go:235-266 | every attempt that is not cut ends, on any file |
| Schema.OpenWholeChangesNothing | internal/store/store.go:113-122 | opening a current file changes nothing, cut anywhere |
| Schema.NewerRefused | internal/store/store.go:240-245 | a newer binary's file is refused with its version and columns untouched |
| Schema.StrandedForever | internal/store/store.go:90-107 | a file with the full schema and version 0 fails every attempt for ever |
| Schema.UnstampedCrashStrands | internal/store/store.go:90-107 | that file is what any crash after the first statement would leave if the stamp came after the schema |
| Schema.Database.Open | internal/store/store.go:69-132 | the code, dying after any number of statements, is exactly that many steps of the machine |
| Pricing.IsPeak | internal/pricing/pricing.go:55-74 | Monday to Friday UTC, not an excluded day, and inside some hour range |
| Pricing.CalendarExactly | internal/pricing/pricing.go:59-68 | the weekday goes on by one every 24 hours from a Thursday in 1970, and the hour is the one begun since midnight UTC |
| Pricing.Compute | internal/pricing/pricing.go:87-152 | there is a price if and only if the model is listed and every class with tokens has a rate, and it is the sum of each class's count at its own rate, times one factor, rounded |
| Pricing.EachClassAtItsOwnRate | internal/pricing/pricing.go:99-103 | n more tokens of one class cost n times that class's own rate times the factor, for each of the five classes, with the fast pair of rates for fast calls |
| Pricing.UnusedIsFree | internal/pricing/pricing.go:126-128 | a call without tokens costs nothing, and the rate of a class it did not use changes nothing |
| Pricing.PricedExactly | internal/pricing/pricing.go:87-152 | there is a price if and only if the model is in the table and every class of tokens the call used has a rate |
| Pricing.ModifiersExact | internal/pricing/pricing.go:105-116 | outside peak a call costs its tokens at their rates; batch is exactly half of that and peak exactly the multiple, each of the whole call |
| Pricing.LabelOnly | internal/pricing/pricing.go:87-93 | a guessed cache lifetime changes the label and not the figure, and thinking tokens change nothing |
| Pricing.LocalNeverPeak | internal/config/config.go:32-35 | the instant local calls are priced at is in no window's peak |
| Reprice.TableSettled | internal/store/store.go:2143-2146 | pricing a row again under the label its price gave it changes neither figure nor label |
| Reprice.RowSettles | internal/store/store.go:2309-2360 | a row the pass moves has its figure in the column its mode reads, agrees with its price from then on, and no column but its cost changed |
| Reprice.MovedExactly | internal/store/store.go:2253-2360 | exactly which rows a pass changes and to what, from the row's own columns by name, local rows at the local model and instant |
| Reprice.MovedCounted | internal/store/store.go:2309-2345 | the moved count, of a dry run too, is the number of rows a pass changes |
| Reprice.RepriceCosts | internal/store/store.go:2253-2379 | counts, rows and sessions after the pass; a dry run gives the same counts and changes nothing |
| Reprice.BucketsPartition | internal/store/store.go:2169-2177 | moved, agreeing and skipped rows add up to the rows read |
| Reprice.SecondPassMovesNothing | internal/store/store.go:2309-2340 | right after a pass a second one moves nothing and changes nothing |
| Reprice.PassKeepsSplit | internal/store/store.go:2343-2360 | only cost columns of rows in scope change, and a changed row has its one figure in the column its mode reads |
| Reprice.SessionsStayInStep | internal/store/store.go:782-865 | sessions whose row was the fold of their events still are |
| Reprice.SessionTotalsAreSums | internal/store/store.go:782-865 | each count of a re-derived session is the sum over its events, its money the sum of its api or subscription figures, its models those of its events, and its seen-times only widen |
| Reprice.PassIsRun | internal/store/store.go:2253-2379 | a pass is a run of the protocol's reprice actions, so what holds of every run holds across it |
| Consumers.WithRetry | internal/consumer/retry.go:15-36 | the answer of the last attempt, after exactly the attempts the schedule allows |
| Consumers.RetriedExactly | internal/consumer/retry.go:15-36 | only a transient answer is retried and never past a cancelled wait; a transient final answer means the waits ran out or the context was cancelled |
| Consumers.Consumer.Try | internal/consumer/consumer.go:323-332 | the flush gives up exactly when the final answer is transient |
| Consumers.Consumer.WriteCalls | internal/consumer/consumer.go:258-292 | every call is stored or counted failed, and the sessions are kept in first-seen order with their first stored call |
| Consumers.Consumer.Flush | internal/consumer/consumer.go:229-321 | the operations made, in phase order, none after one that exhausted its retries; every warning due given in turn and no other; stored and failed calls add up to the batch; one fold per session with its first stored call |
| Consumers.WarnedNext | internal/consumer/consumer.go:270-274 | a stored call's warnings are written right after it, and never otherwise |
| Consumers.FindingsWritten | internal/consumer/consumer.go:337-360 | after an answered session pass each row it names is warned exactly once, and no other row is, before anything else is asked of the store, unless the flush gives up on the way |
| Consumers.RowWarnedInPass | internal/consumer/consumer.go:337-360 | a row is warned only within an answered session pass |
| Consumers.FirstOfEachExactly | internal/consumer/consumer.go:246-290 | each non-empty session of the stored calls once, in order of appearance, with the first call stored under it |
| Consumers.Consumer.Run | internal/consumer/consumer.go:185-227 | every call received, in order, was flushed or is still batched, fewer than a batch and none after a quiet tick; processed calls are the stored plus the failed plus the batched |
| Consumers.OutageCostsOneSchedule | internal/consumer/consumer.go:241-244 | while the store is out a flush makes one operation's attempts and fails its whole batch |
| Consumers.NoOutageNoRetries | internal/consumer/consumer.go:229-321 | without transient errors every call is asked and every operation made exactly once |
| Tailer.SplitCompleteLines | internal/jsonlogs/jsonlogs.go:402-418 | exactly the newline-terminated lines and their bytes |
| Tailer.LinesExactly | internal/jsonlogs/jsonlogs.go:402-418 | the lines, each with its break, make up the bytes up to the last break, and no line has a break in it |
| Tailer.TailsExactly | internal/jsonlogs/jsonlogs.go:287-400 | polled at any moments, the lines handed over are exactly the file's complete lines, once and in order, and the cursor is on their end |
| Tailer.NeverSkips | internal/jsonlogs/jsonlogs.go:287-400 | whatever loads, reads and saves fail, every complete line up to the furthest point reached was handed over |
| Tailer.RepeatsOnlyAfterFailure | internal/jsonlogs/jsonlogs.go:287-400 | a poll starts before the furthest line handed over only when its cursor did not load or the last save failed |
| Tailer.NothingPending | internal/jsonlogs/jsonlogs.go:287-400 | after any poll that could read the file every complete line it has was handed over |
| Tailer.StartsOver | internal/jsonlogs/jsonlogs.go:287-327 | a file shorter than its cursor, or whose cursor does not load, is read from its start |
| Tailer.TallyExactly | internal/jsonlogs/jsonlogs.go:337-357 | read counts the lines that are not blank, malformed those that do not parse, unknown those of no tolerated type, and the assistant lines are kept |
| Tailer.OnePerKey | internal/jsonlogs/dedup.go:123-146 | exactly one line per key that any usage line has, namely that key's last |
| Tailer.KeysOnlyExtend | internal/jsonlogs/dedup.go:123-146 | keys stay in first-seen order as lines arrive |
| Tailer.DedupeAssistantLines | internal/jsonlogs/dedup.go:107-146 | of the lines with usage, one for each request known by its request id, else its message's id, else its place in the file, and that one its last |
| Tailer.TranscriptTailer.TailFile | internal/jsonlogs/jsonlogs.go:287-400 | the poll's requests, counts and new cursor |

## Left out

- ProtocolTheorems.GcPassCollectsExactlyTheOrphans: is about a pass nobody interrupts; for the pass as it interleaves see `ProtocolTheorems.CollectorDeletesOnlyTheGone`, `ProtocolTheorems.CollectorRemovesNoOnlyCopy` and `ProtocolTheorems.CollectorMissesNothing`.
- StoreClass.Store.GcFile: is the same uninterrupted code as a method; the interleaved collector is `Protocol`'s, and `CollectorRun.CollectIsRun` ties the two.
- ArchiverRun.Archiver.Pages: assumes nobody else writes between pages; the loop among other writers is `ArchiverTurns`.
- ArchiverRun.Archiver.Run: has no error results, an error being a `Stop` in `Protocol`; and assumes nobody else writes, for which see `ArchiverTurns`.
- ProtocolTheorems.NoBodyLost: is stated for runs in which no restore overlaps an archiver and no archiver falls into the two windows of a collector named under Assumptions, because the code loses bodies otherwise (`ProtocolLimits.RestoreRacingArchiverLosesEveryBody`, `ProtocolLimits.SplitGcLosesEveryBody`, `ProtocolLimits.RemovalRacingArchiverLosesEveryBody`).
- ReplayEdits.ApplyOne: replaces in a tree value, not through shared map and slice nodes, so aliasing between nodes is not captured.
- ReplayEdits.UndoRestores: compares decoded trees, not bytes, because re-encoding normalises the text.
- Sse.ParseEvent: takes whitespace trimming and the JSON "type" lookup as parameters.
- Schema.CrashRecoverable: treats the columns every version of `events` has as one, and does not look inside the other tables.
- Reprice.SessionsStayInStep: adds figures as reals in the table's order; a float sum's rounding is not modelled.
- Consumers.Consumer.Flush: the store's answers are parameters; which rows a session pass finds fault with is too, and the order they are then warned in is any order.
- Tailer.TranscriptTailer.TailFile: stops at the requests handed to the store; building and inserting their rows is `Merge`'s and the store's part.
- StoreClass.Store.WriteDay: a disk or SQLite error inside the transaction is the `Stop` action of `Protocol`, not a result of the method.
- `archived_at`, the creation of an empty day file before its first commit, and the size of the query chunks, 500 ids: the collector's chunks are of any size.
- Re-keying a row onto another request id (`RekeyProxyBodyIDs`): onto a free id it is `UPDATE events SET request_id` (internal/store/store.go:1917-1923), which no action models; onto a taken id it is a merge and a delete, both modelled. Its choice of rows is not.
- `ReflagIncompleteCaptures` (internal/store/store.go:2483-2510), which clears `capture_complete` on rows whose stored body is visibly cut; no action models it.
- A handle another process still holds on a day file already removed: its writes go to an unlinked file, while here a write after the removal makes a new one.
- The proxy's body policy "off", headers, redaction, and the error handler's submission without a response.
- Analyzer rules, the dashboard, the admin and claude.ai collectors, quota projection, configuration and process handling.
- Price override files and the loader's reload by modification time.
