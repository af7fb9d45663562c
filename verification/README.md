# WiseWay backend: protocols and fast paths

WiseWay files incoming documents into an archive by dictionaries of rules, searches the archive, and keeps an audit
journal. This project models the parts of its backend whose correctness cannot be seen in one function, and proves
what they promise. `dafny verify dfyconfig.toml` checks it.

## What is modelled

**Archive import and outbox** (`ArchiveManifest`, `BulkBatch`, `ArchiveImport`, `ArchiveImportSafety`, `ArchiveContent`,
`ArchiveRuns`, `ArchiveImporter`, `SearchOutbox`, `OutboxMeaning`, `OutboxDrain`, `OutboxRedelivery`). A manifest is streamed in bounded requests to an
engine with external versions, progress goes to a journal outside the main store, and a pointer swap publishes. The
engine is a map from id to version and document; a request on the wire may be applied in part, late and repeatedly.
`ArchiveImport` is the state machine of journal, pointers, snapshots, engine, crashes, maintenance, abort and cleanup;
the class `ArchiveImporter` is the program, every method of which is proved to be a run of that machine. The outbox adds
queued moves, saved batches and acknowledgement to it.

**Durable file mover** (`FileMover`, `FileMoverSafety`, `FileMoverPlacement`, `FileMoverOutcomes`,
`FileMoverUndisturbed`, `FileMoverQueue`, `BatchProgress`, `Worker`, `Quarantine`, `QuarantineMeaning`,
`QuarantineService`, `QuarantineRace`). Attempts move through QUEUED, INTENT, RECOVERY_REQUIRED
and DONE over a map of paths, by a no-replace rename that may take place and still raise. Others may change the tree
between any two steps, and the process may stop between any two steps. `Quarantine` is the return of a quarantined file
with idempotency keys and reconciliation.

**Search** (`Utf8`, `Alphabets`, `Tokens`, `NaturalOrder`, `NaturalDigits`, `SearchItems`, `Search`, `Sorting`,
`Timestamps`, `SearchOrder`, `SearchMeaning`, and three fast forms). `Search` and `SearchOrder` are the simple specification: filter, score, sort. The
SQL form (`SearchColumns`, `SearchClauses`, `SqliteSearch`), the engine form (`OpenSearchQuery`, `TieredSearch`,
`SearchSnapshot`) and the in-memory postings (`Postings`, `IndexTables`, `Ranks`, `SearchIndex`) are each proved to
answer exactly as it does. `QueryText` is the query parser and its printed form, `QueryMeaning`
its rules one by one.

**Rules and dictionaries** (`Glob`, `Rules`, `RuleMeaning`, `Planning`, `PlanMeaning`, `Dictionaries`): the greedy matcher against the recursive
meaning of a mask, the plan with its collision passes, and the publication of a simulated draft.

**Identity, resumable scan and paging** (`Identities`, `IdentityMeaning`, `IndexScan`, `AuditPages`, `AuditMeaning`): ids across renames, scans that
continue from checkpoints, and audit pages read while the journal grows.

Protocols are written as a state, an action type with `Enabled` and `Step`, an invariant, and theorems over all runs.
Classes that update their fields in place carry a ghost origin and trace: `Valid()` says that the trace leads from the
origin to the current fields, so a method that skips, swaps or reorders a step has no trace to show. A transaction of
the program appends exactly its own action to the trace, and every method only continues it.

A specification function is not its own witness. What it is built from is also stated without it, in the terms of its
inputs: points of a match, digits of a name, lines of a manifest, plans of an attempt, priorities of rules, fields of a
row. The modules whose names end in `Meaning`, and `ArchiveContent`, `FileMoverOutcomes`, `FileMoverUndisturbed` and
`NaturalDigits`, hold these statements.

## Premises

- Digests are injective: the model keeps what was digested. Identifiers made by `uid` are fresh: counters or a supply
  of unused ones.
- Transactions of the store and of the journal are atomic and serial; the named lock has one holder.
- SQL, full-text and engine queries mean their sets; `nsmallest` and `nlargest` mean the first rows of the sort; scores
  are exact integers.
- Unicode tables are an abstract `Alphabet`: separators, digits, letters and others, and a folding. `Sound` is what
  every use needs; `Stable`, for the printed query only, says that folding is idempotent and makes no separators and no
  quotes. Characters may change their class when they are folded.
- Placement theorems assume that outsiders only add files at free names and that every file has its own identity; for the
  queue, that rows have paths of their own and targets lie outside of the incoming folders (`FileMoverQueue`). The claim,
  batch and log theorems need none of it.

## What the proofs found

- Running a manifest that is already PUBLISHED returns the old result and publishes nothing, even if something else was
  published since: `RerunChangesNothing` says exactly when the result is still current, `RerunCanBeStale` is a run in
  which it is not.
- An abort drops the saved outbox batch of a root. `DropDeliversAgainIff` says when its moves are delivered again: if the
  batch was published, or if the root's pointer already names its job. `DroppingCanRedeliver` and
  `AbortingSwappedCanRedeliver` are runs for both; for all other aborts delivery stays exactly once.
- The matcher compares the literal before it looks at the star, so a value with a `*` in it can defeat a mask:
  `GlobIsCompleteIff` shows that exactly the values without `*` are safe.
- The postings form compares modification times as text. `RawOrderIsInstantOrderIff` gives the exact pairs of
  spellings for which that is the order of instants, `RankSortIsTheSortIff` the exact lists of rows for which the sort
  is right, `SpellingsCanReorder` two rows for which it is not.
- Completing a quarantine return clears the queue row's `active_attempt_id` even if the row was reused and is claimed:
  `ReturnKeepsAgreementIffUnclaimed`, with a reachable run in `ReturnCanDropAnotherClaim`.
- If the listing changes behind a checkpoint, an entry can lose the id it would have kept: `ChangedTailLosesAnId`.
  `ResumedIsUninterruptedIff` is the exact condition on the two listings.
- Folding can put a letter next to a digit, and then the applied text of a query is another query:
  `ApplyingCanSplitTokens`. `AppliedTextIsFixpointIff` says that this is the only way.

## Model

| member | source | states |
|---|---|---|
| `ArchiveManifest.SeekResumes` | backend/wiseway/archive_import.py:193-194 | Seeking to the saved byte offset of record n continues with exactly record n, for every manifest and every n. |
| `ArchiveManifest.VersionsAreOrdered` | backend/wiseway/archive_import.py:210-215 | Engine versions order records by (job, position) in both directions, job and position can be read back from a version, and a record in range has a version strictly between 0 and 2^63. |
| `ArchiveManifest.FoldLastWriter` | docs/archive-search.md:37-49 | What a manifest of ordered upserts and deletes means: the last record that mentions an id decides whether it is there and with which document. |
| `ArchiveManifest.FoldKeeps` | docs/archive-search.md:37-49 | And an id no record of the manifest mentions is left exactly as it was. |
| `ArchiveManifest.LineIsUsable` | backend/wiseway/archive_import.py:43-84 | A line is usable exactly if it is at most 262144 bytes long and is an upsert, or a delete of a delta manifest. |
| `ArchiveManifest.FoldImports` | backend/wiseway/archive_import.py:43-84 | A manifest leaves at every id exactly the path, size and time of the last usable line about it under this configuration, nothing if that line deletes it, and every other id as it was. |
| `BulkBatch.Builder.Add` | backend/wiseway/opensearch.py:72-91 | A record is accepted, deferred to the next request, or refused as too large by the limits on the record, the request target and the engine; only an accepted one joins the batch, at its end. |
| `BulkBatch.Builder.Finish` | backend/wiseway/opensearch.py:62-91 | A finished request holds exactly the records offered to it, in order, 1 to 5000 of them, and its payload never exceeds the hard limit; the builder is empty again. |
| `ArchiveImportSafety.SettledIsFold` | backend/wiseway/archive_import.py:196-236 | Whatever was sent late, in part or twice: an index whose writes have all arrived at least once shows the fold of its manifests in job order. |
| `ArchiveImportSafety.LastMatchIsMatch` | backend/wiseway/archive_import.py:306-315 | The row a repeated manifest is matched with is the newest row with the same root, digest, mode and base, and there is none if none is found. |
| `ArchiveImportSafety.StepKeepsInv` | backend/wiseway/archive_import.py:149-435 | Every step of the importer, of maintenance, abort and cleanup, of the engine and of a crash keeps the protocol invariant (journal, versions, checkpoints, pointers, snapshots). |
| `ArchiveImportSafety.RunKeepsInv` | backend/wiseway/archive_import.py:149-435 | The same over every finite interleaving of these steps. |
| `ArchiveImportSafety.PublishedSnapshotsAreWhole` | backend/wiseway/archive_import.py:248-295 | In every reachable state, the snapshot a pointer names was never closed by the importer and shows the complete manifests of its index in order, up to and including the job whose generation the pointer imported; no half-applied delta is ever visible. |
| `ArchiveImportSafety.SwapPublishesTheFold` | backend/wiseway/archive_import.py:248-295 | After any run, the pointer swap makes visible exactly the fold of the job's manifest: over nothing for a full import, and for a delta over the content of the job its root's pointer imported until then, also if that snapshot was lost in the meantime. |
| `ArchiveImportSafety.SwapExtendsTheOldSnapshot` | backend/wiseway/archive_import.py:248-295 | If the old snapshot is still open, that content is what its readers see. |
| `ArchiveContent.SwapShowsTheLines` | backend/wiseway/archive_import.py:248-295 | After the swap readers see, at every id the manifest mentions, the path, size and time of its last line about it under the job's configuration, or nothing after a delete; all other ids are as before. |
| `ArchiveContent.ReadersSeeTheLastLines` | backend/wiseway/archive_import.py:248-295 | In every reachable state readers of an open published snapshot see at each id exactly what the last line about it says, over all manifests of the index up to the imported one, and no id that no line mentions. |
| `ArchiveContent.ShownJobShowsLines` | backend/wiseway/archive_import.py:248-295 | While a job is the one its root shows, all its lines were usable and readers see what each last line says. |
| `ArchiveImportSafety.FullStartsEmpty` | backend/wiseway/archive_import.py:316-346 | A full import is the first job of its index: it folds over nothing. |
| `ArchiveImportSafety.DeltaStartsFromPointed` | backend/wiseway/archive_import.py:316-346 | A delta whose base is unchanged starts from the content of the job its root's pointer imported, with or without the snapshot in the engine. |
| `ArchiveRuns.ClosedAfterGrace` | backend/wiseway/archive_import.py:258-267 | Whatever follows the step that retires a snapshot, crashes and later retirements included, the engine is not told to close it until 120 seconds later. |
| `ArchiveRuns.ClaimContinuesIff` | backend/wiseway/archive_import.py:297-315 | A manifest is continued at its newest row that was not aborted, exactly if the root is searchable and configured as it was when that row was made. |
| `ArchiveRuns.ClaimStartsIff` | backend/wiseway/archive_import.py:316-346 | Without such a row a job is started exactly if no job of the root is unfinished; a full import gets a new index, and a delta the published one, exactly if its base is the published generation and no aborted job touched the index. |
| `ArchiveRuns.RerunChangesNothing` | backend/wiseway/archive_import.py:297-315 | Running a published manifest again changes nothing. What readers then see is the content after the job the pointer imported, which is this manifest's exactly if its generation is the imported one. |
| `ArchiveRuns.RerunCanBeStale` | backend/wiseway/archive_import.py:297-315 | A reachable state in which a published manifest is claimed again although another one was published since. |
| `ArchiveImporters.ReadNext` | backend/wiseway/archive_import.py:204-216 | The waiting record has the fields of the line at the cursor; there is none exactly at the end of the file; it fails exactly on a line that is not usable or an exhausted version range. |
| `ArchiveImporters.TakeOne` | backend/wiseway/archive_import.py:203-222 | A record the request has no room for is not consumed: it waits, unchanged, for the next request. A taken record enters the request once and moves the cursor and the checkpoint offset together; it fails only on a record that is malformed, out of range or refused by the builder. |
| `ArchiveImporters.ArchiveImporter.constructor` | backend/wiseway/archive_import.py:121-148 | A new importer is at a state from which all results about runs start. |
| `ArchiveImporters.ArchiveImporter.Decide` | backend/wiseway/archive_import.py:297-346 | The decision (refuse, reuse a row, start on a fresh index or on the base index) is the one the claim step of the protocol makes. |
| `ArchiveImporters.ArchiveImporter.Claim` | backend/wiseway/archive_import.py:297-346 | A claim changes the journal, the counters and the importer's place as the claim step says, and nothing else. |
| `ArchiveImporters.ArchiveImporter.Fill` | backend/wiseway/archive_import.py:201-226 | One request takes the consecutive records from the cursor, at most 5000, with the offset after the last of them; a record that had to wait is its first; it is empty only at the end of the manifest. |
| `ArchiveImporters.ArchiveImporter.Bulk` | backend/wiseway/opensearch.py:221-257 | Posting a request is a run of sends and deliveries; if the engine answers, every record of the request has been applied. |
| `ArchiveImporters.ArchiveImporter.SaveCheckpoint` | backend/wiseway/archive_import.py:230-236 | The checkpoint moves to the end of the last record of the answered request, never past it. |
| `ArchiveImporters.ArchiveImporter.Round` | backend/wiseway/archive_import.py:225-236 | One round is a run of protocol steps; without an answer no progress is recorded, with one the place is after the last record of the request. |
| `ArchiveImporters.ArchiveImporter.Stream` | backend/wiseway/archive_import.py:196-247 | For every manifest and every pattern of answers, streaming is a run of protocol steps, and the answered requests, one after the other, are exactly the records from the checkpoint it resumed from to the one it leaves: none is skipped, repeated or reordered. It succeeds only at the end of the manifest, and always if every record that is left can be sent and the engine answers. |
| `ArchiveImporters.ArchiveImporter.EnsureIndex` | backend/wiseway/opensearch.py:208-219 | The index is created on first use and refused, without any change, when it was made for another configuration; the run then resumes by seeking to the saved offset. |
| `ArchiveImporters.ArchiveImporter.SwapPointer` | backend/wiseway/archive_import.py:250-285 | The pointer is swapped exactly if configuration and base are still those of the job, after the old snapshot was retired; otherwise nothing changes. |
| `ArchiveImporters.ArchiveImporter.Publish` | backend/wiseway/archive_import.py:248-290 | From a finished stream the run ends at a swapped pointer exactly if the root is configured as it was and the base is still published; in protocol steps only. |
| `ArchiveImporters.ArchiveImporter.Build` | backend/wiseway/archive_import.py:190-290 | The part of a run after a claim is a run of protocol steps; it succeeds only at a swapped pointer, and always if the index, the records, the engine, the root and the base allow it. |
| `ArchiveImporters.ArchiveImporter.Run` | backend/wiseway/archive_import.py:149-295 | A run, with any engine answers, is a run of the protocol and keeps its invariant; it is refused, with nothing changed, exactly when the claim is; success names a published, completely applied row of this very manifest; and it is interrupted only if the index, a record, the engine, the root or the base stands in the way of the row it claimed. On success every line was usable; and unless the row was published or swapped before, readers see at each id the fields of the last line about it, under the configuration of the root. |
| `ArchiveImporters.ArchiveImporter.Conclude` | backend/wiseway/archive_import.py:411-418 | The job whose pointer was swapped is complete, and it ends PUBLISHED. |
| `ArchiveImporters.ArchiveImporter.Abort` | backend/wiseway/archive_import.py:347-359 | Abort sets the state of every unfinished job of the root to ABORTED and changes no other row and no other field; it reports whether there was one. |
| `ArchiveImporters.ArchiveImporter.CloseExpired` | backend/wiseway/archive_import.py:420-435 | Only retired snapshots past their grace period are closed, and of up to one hundred such all that are not current; every current one survives with its content. |
| `ArchiveImporters.ArchiveImporter.Cleanup` | backend/wiseway/archive_import.py:420-435 | Cleanup never closes or changes a snapshot that a pointer names; of up to one hundred expired ones it leaves no other. |
| `ArchiveImporters.ArchiveImporter.Recover` | backend/wiseway/archive_import.py:388-404 | A snapshot that does not answer is replaced by a new one of the same index, and only this root's pointer changes. |
| `ArchiveImporters.ArchiveImporter.MaintainRoot` | backend/wiseway/archive_import.py:361-404 | After maintenance of a root it is readable and no other root lost its snapshot; it fails, with nothing changed, only if the snapshot does not answer and the index has unfinished or aborted work. |
| `ArchiveImporters.ArchiveImporter.Maintain` | backend/wiseway/archive_import.py:361-409 | If maintenance succeeds every pointed root is readable; it fails only for a root whose index has unfinished or aborted work. |
| `SearchOutbox.BatchLengthBounds` | backend/wiseway/search_outbox.py:77-84 | A batch is a prefix of the waiting rows, never empty when a row waits, even if the first row alone is over the limit. |
| `OutboxMeaning.BatchIsLongest` | backend/wiseway/search_outbox.py:72-82 | A batch is the longest beginning of the waiting moves with at most 25,000 rows and, unless it is one row, at most 4 MiB: no longer one fits, and it is never empty while a row waits. |
| `OutboxMeaning.RowBelongs` | backend/wiseway/search_outbox.py:72-76 | The waiting moves of a root are all moves of that root, in order, and no others. |
| `OutboxMeaning.CarryingIsPublishing` | backend/wiseway/search_outbox.py:85-93 | A job carries a batch exactly if it is published, is a delta of this root over the batch's base, and its lines are the moves of the batch, one by one in order. |
| `OutboxMeaning.ReachedIs` | backend/wiseway/search_outbox.py:85-93 | Readers have seen a batch exactly if such a delta is published, or is the one that the root's pointer imported. |
| `SearchOutbox.WithoutPrefix` | backend/wiseway/search_outbox.py:96-101 | Deleting the rows from the first to the last number of a delivered batch removes exactly that prefix of this root's rows, whatever arrived in the meantime. |
| `SearchOutbox.OutStepsKeep` | backend/wiseway/search_outbox.py:13-104 | Every interleaving of enqueuing, saving, importing, crashing, aborting and acknowledging keeps the outbox invariant. |
| `SearchOutbox.DeliveredExactlyOnceInOrder` | backend/wiseway/search_outbox.py:57-104 | As long as no abort drops a batch that readers have seen, and nobody imports a dropped batch by hand: the rows ever enqueued for a root are the acknowledged batches, in order, followed by the rows still waiting; each acknowledged batch was carried by exactly one published job, these jobs coming in the order of the batches; of the other batches ever saved, one is being delivered and the dropped ones were never seen. |
| `SearchOutbox.DropDeliversAgainIff` | backend/wiseway/archive_import.py:351-358 | After such a run, and an abort that drops the saved batch, a move that readers have seen waits to be delivered again exactly if the batch was published or its root's pointer named the job that carried it. |
| `OutboxRedelivery.DroppingCanRedeliver` | backend/wiseway/archive_import.py:351-358 | A run in which an abort drops a published but unacknowledged batch, and its move enters a second published delta. |
| `OutboxRedelivery.AbortingSwappedCanRedeliver` | backend/wiseway/archive_import.py:351-358 | A run in which an abort ends a job whose snapshot readers see already, and its move is delivered again after the next full import, although the batch never counted as published. |
| `OutboxDrain.Drainer.AbortImport` | backend/wiseway/archive_import.py:347-359 | An abort that ends an unfinished job drops the root's saved batch first; any other changes nothing in the outbox. |
| `OutboxDrain.Drainer.EnqueueMove` | backend/wiseway/search_outbox.py:13-27 | A move is appended under the next sequence number exactly if the root is indexed in the engine and no waiting row has its key; nothing else changes. |
| `OutboxDrain.Drainer.PrepareBatch` | backend/wiseway/search_outbox.py:67-91 | A saved batch is used again as it is; otherwise the longest beginning of the waiting rows that fits is cut, over the published generation, and saved before anything is sent; no row is removed. |
| `OutboxDrain.Drainer.ImportBatch` | backend/wiseway/search_outbox.py:93 | Importing a saved batch is a run of the outbox system; it reports success only if a published job carried exactly this batch. |
| `OutboxDrain.Drainer.FinishBatch` | backend/wiseway/search_outbox.py:96-103 | Acknowledging removes exactly the rows of the delivered batch, from the front. |
| `OutboxDrain.Drainer.DrainRoot` | backend/wiseway/search_outbox.py:66-104 | A drain removes a prefix of the waiting rows and, if it removes any, a published delta has exactly these rows as its lines, one by one in order; if it fails no row is lost. |
| `FileMoverSafety.StepKeepsInv` | backend/wiseway/worker.py:234-364 | Every acceptance, look, commit, rename, exception, crash, queue scan and outside change keeps attempts, claims, queue rows and the event log in agreement. |
| `FileMoverSafety.ClaimNamesTheUnfinishedAttempt` | backend/wiseway/sorting.py:310-374 | In every reachable state an item is claimed exactly if an attempt of it is not DONE; then there is only one, the claim and the queue row name it, and the row cannot be selected. |
| `FileMoverSafety.OneStartThenOneFinish` | backend/wiseway/worker.py:234-364 | DONE coincides with a terminal outcome, and the log of a DONE attempt is exactly one STARTED event, then one FINISHED event with the recorded outcome, reason and place; an unfinished one has at most its start. |
| `FileMoverSafety.EndedAttemptsStay` | backend/wiseway/worker.py:234-238 | A DONE attempt is never changed by any later step, and no attempt ever changes its item, source, identity, plan or review and quarantine paths. |
| `FileMoverPlacement.WriteAheadPlacement` | backend/wiseway/worker.py:103-232 | While outsiders only add files at free names, and files are accepted apart from other unfinished attempts: in every reachable state the file of an unfinished attempt is at exactly one of its source and its persisted intended target, and at its source while QUEUED. |
| `FileMoverQueue.QueuedFilesArePlaced` | backend/wiseway/worker.py:103-232 | For queue rows that have paths of their own, kept while they are held, and targets outside of the incoming folders, accepted files do stand apart, so the placement holds for every run of the queue. |
| `FileMoverPlacement.RecordedWhereItIs` | backend/wiseway/worker.py:234-307 | The commit that records an end records the truth: SORTED, MANUAL_REVIEW and QUARANTINED have the accepted file at `actual_location`, SKIPPED and REQUIRES_DECISION were never renamed. |
| `FileMoverPlacement.SkippedNeverMoved` | backend/wiseway/worker.py:234-307 | An ended attempt was renamed exactly if it ended SORTED, MANUAL_REVIEW or QUARANTINED. |
| `FileMoverPlacement.AtMostOneRename` | backend/wiseway/worker.py:163-203 | A rename that takes place is the first of its attempt, follows its committed intent, moves the accepted file, and lands on a free name. |
| `FileMoverPlacement.RecoveryFinishesTheMove` | backend/wiseway/worker.py:103-150 | If a crash comes after the rename and before the finish, the next pass finishes the attempt with its intended outcome at its target, without touching the tree. |
| `FileMoverPlacement.StepsKeepFiles` | backend/wiseway/filesystem.py:220-238 | No step of the program creates, duplicates or loses a file: the number of names that hold any given entry stays the same. |
| `FileMoverPlacement.MoveKeepsPlaces` | backend/wiseway/worker.py:163-203 | A rename of one attempt leaves the file of every other attempt where its record says. |
| `FileMoverOutcomes.OutcomesFollowPlans` | backend/wiseway/worker.py:64-101 | In every reachable state: SORTED has a plan that moves and is at the planned target without a reason; MANUAL_REVIEW has a review plan and is at the review path with the planned reason; QUARANTINED is at the quarantine path; every other end has the place and reason of its plan or of what was found; and a file whose plan does not move it was never renamed. |
| `FileMoverUndisturbed.UndisturbedEndsAsPlanned` | backend/wiseway/worker.py:64-101 | If the source is unchanged, the destination free, nobody disturbs them and the calls succeed, an attempt ends exactly as planned: sorted at its target, under review at the review path with its reason, or waiting for a decision at its source, and its file is there. |
| `FileMoverUndisturbed.LooksAreJustified` | backend/wiseway/worker.py:70-232 | What the worker does after a look is what it saw: a file is skipped as missing exactly if nothing regular is at its source, a move is recorded only for the accepted file at its destination, an intent is made or repeated only for a file still at its source, and a quarantine move only by the operator. |
| `FileMoverUndisturbed.AcceptingRecordsRequests` | backend/wiseway/sorting.py:310-374 | Accepting a batch adds one attempt for each request, in order, with its file, plan and paths; a taken item gives a skipped one; free items are claimed and shown in process; all other items are untouched. |
| `FileMoverUndisturbed.AcceptableIff` | backend/wiseway/sorting.py:229-240 | A request can be accepted exactly if its item is claimed already, or its row has the selected revision and can be selected and the file is at its place with the recorded identity. |
| `FileMoverUndisturbed.EndingFreesTheItem` | backend/wiseway/worker.py:247-285 | Ending an attempt frees its item and sets its row field by field: selectable after a decision is required, departed after a move, missing, or waiting under a new revision with the identity the file has now. |
| `FileMoverUndisturbed.SettingAsideKeepsTheItem` | backend/wiseway/worker.py:309-326 | Setting an attempt aside keeps its claim, its intent and its plan, and shows the row as needing recovery. |
| `BatchProgress.View` | backend/wiseway/services.py:440-480 | The loop over the attempts counts each outcome exactly; the status is completed exactly if the completed count is the number of selected files, without issues if all were sorted; otherwise it tells a needed recovery, a start, or neither. |
| `BatchProgress.TallyIsCount` | backend/wiseway/services.py:440-480 | Each counter is the number of attempts of the batch with its outcome. |
| `BatchProgress.CompletedCountIsExact` | backend/wiseway/services.py:440-480 | In every reachable state the completed count is the number of DONE attempts of the batch, at most its size, and equal to it exactly if all of them are DONE. |
| `BatchProgress.CompletedCountNeverDrops` | backend/wiseway/services.py:440-480 | No crash, recovery or later batch lowers a completed count. |
| `Workers.Worker.Check` | backend/wiseway/sorting.py:229-240 | A selection passes exactly if every requested file is acceptable. |
| `Workers.Worker.AddAttempts` | backend/wiseway/sorting.py:310-374 | The loop gives every request its attempt, claim, queue row and events as one acceptance after another does. |
| `Workers.Worker.AcceptBatch` | backend/wiseway/sorting.py:242-380 | A batch is accepted as a whole or not at all: with one unacceptable file nothing changes, otherwise every file has its attempt and the batch its size. |
| `Workers.Worker.Intend` | backend/wiseway/worker.py:152-161 | The intended target, outcome and reason are committed before the rename may be called. |
| `Workers.Worker.Finish` | backend/wiseway/worker.py:234-307 | The finish commit makes the attempt DONE with the given outcome and place, in one step of the protocol. |
| `Workers.Worker.RecoveryIsRequired` | backend/wiseway/worker.py:309-345 | An attempt that cannot be decided is set aside as RECOVERY_REQUIRED and no other attempt is touched. |
| `Workers.Worker.RenameNoReplace` | backend/wiseway/filesystem.py:220-238 | The rename contract: it may refuse, fail, take place, or take place and still raise; the next place of the worker is decided by what it reported. |
| `Workers.Worker.Execute` | backend/wiseway/worker.py:163-203 | Whatever the rename reports and whatever others do meanwhile, the attempt ends DONE or RECOVERY_REQUIRED, in steps of the protocol. |
| `Workers.Worker.Quarantine` | backend/wiseway/worker.py:205-232 | The quarantine branch uses the same write-ahead steps and ends DONE or RECOVERY_REQUIRED; an occupied quarantine name sets the attempt aside. |
| `Workers.Worker.Recover` | backend/wiseway/worker.py:103-150 | Recovery from a persisted intent continues the run of the protocol and ends DONE or RECOVERY_REQUIRED. |
| `Workers.Worker.RecoverByOperator` | backend/wiseway/worker.py:54-62 | The operator's recovery continues the run of the protocol, reports success exactly if the attempt is DONE, and changes nothing for a QUEUED or DONE attempt. |
| `Workers.Worker.RunAttempt` | backend/wiseway/worker.py:64-101 | One pass over an attempt continues the run of the protocol, leaves it DONE or RECOVERY_REQUIRED and touches no other attempt. If the run began with an empty record, what is recorded about ended attempts follows from their plans, and an undisturbed attempt ends exactly as planned, with its file there. |
| `Workers.Worker.RunOnce` | backend/wiseway/worker.py:32-52 | A crash-free pass continues the run of the protocol, leaves every attempt DONE or RECOVERY_REQUIRED, and never touches one that was DONE. If the run began with an empty record, every recorded end follows from its plan. |
| `Quarantine.QStepKeepsInv` | backend/wiseway/quarantine.py:45-204 | Every step of a return, of reconciliation and of a crash keeps cards, operations and idempotency keys in agreement. |
| `Quarantine.AtMostOneMove` | backend/wiseway/quarantine.py:45-107 | Over any sequence of requests, repeated keys, crashes and reconciliations an operation renames its file at most once. |
| `Quarantine.NeverReplaces` | backend/wiseway/quarantine.py:86-101 | The only step of the service that changes the tree is a rename of the recorded file from its quarantine place to a free original path. |
| `Quarantine.ReplaysAgree` | backend/wiseway/quarantine.py:45-55 | Once a key has a final answer, every later request with this key and body gets the same answer, after any further steps. |
| `Quarantine.DoneMeansReturned` | backend/wiseway/quarantine.py:109-148 | A finished return is recorded as done exactly if it moved its file, and at the moment of recording the source is gone and the original path has the recorded identity. |
| `Quarantine.ReturnKeepsAgreementIffUnclaimed` | backend/wiseway/quarantine.py:155-173 | Completing a return keeps queue rows and claims in agreement exactly if the item is not claimed by an attempt at that moment. |
| `QuarantineRace.ReturnCanDropAnotherClaim` | backend/wiseway/quarantine.py:155-173 | A concrete reachable run in which completing a return clears the row of an attempt that still holds its claim; the claim comes from a run of the mover itself, between the plan of the return and its rename. |
| `QuarantineMeaning.ObjectionIs` | backend/wiseway/quarantine.py:56-70 | A request is accepted exactly if the card is open at the expected revision, the comment is not blank, the original path is free and the file is there with the recorded identity; otherwise the reason is the first check that fails. |
| `QuarantineMeaning.PlanningWrites` | backend/wiseway/quarantine.py:71-85 | The operation that is stored before the move has the identity seen, the card's place as source and its original path as target; the card is held by it, and nothing else changes. |
| `QuarantineMeaning.CompletingWrites` | backend/wiseway/quarantine.py:155-194 | A completed return gives the item's row a new revision, the identity that was moved, WAITING_READY, no attempt and no departure mark, closes the card under a new revision, and stores the row as the result; nothing else changes. |
| `QuarantineMeaning.RejectingWrites` | backend/wiseway/quarantine.py:91-101 | A rejected return opens its card again at the revision it had. |
| `QuarantineMeaning.SettingAsideWrites` | backend/wiseway/quarantine.py:124-148 | An undecided return is set aside under a new revision, once; its card stays held by it. |
| `QuarantineMeaning.LookingDecides` | backend/wiseway/quarantine.py:109-148 | A look leads to completion exactly if the tree can be read, nothing regular is left at the source and the recorded file is at the target. |
| `QuarantineMeaning.UndisturbedReturn` | backend/wiseway/quarantine.py:45-107 | A return that nobody disturbs moves the file to its original path and is completed. |
| `QuarantineServices.QuarantineService.Object` | backend/wiseway/quarantine.py:56-70 | A request is refused with the first of the checks that fails, in the order of the program, and with none exactly if all pass. |
| `QuarantineServices.QuarantineService.Open` | backend/wiseway/quarantine.py:71-85 | The operation and its key are stored together before the file is moved. |
| `QuarantineServices.QuarantineService.Move` | backend/wiseway/quarantine.py:88-101 | The rename is the next step of the protocol; an occupied path leads to a rejection, every other report to a look at the tree. |
| `QuarantineServices.QuarantineService.Finish` | backend/wiseway/quarantine.py:155-194 | Completion stores the result that is returned, and changes no other operation. |
| `QuarantineServices.QuarantineService.SetAside` | backend/wiseway/quarantine.py:124-148 | An undecided return is stored as needing recovery, and the reply says so. |
| `QuarantineServices.QuarantineService.Resolve` | backend/wiseway/quarantine.py:109-148 | Resolving decides from what is seen, never moves the file, and its reply is the stored state of the operation. |
| `QuarantineServices.QuarantineService.Replay` | backend/wiseway/quarantine.py:45-55 | A repeated key with another body is refused; with the same body it gets the stored answer, or resolves the unfinished operation. |
| `QuarantineServices.QuarantineService.ReturnItem` | backend/wiseway/quarantine.py:45-107 | A request continues the run of the protocol. A key with a final answer changes nothing and gets that answer; a refused request changes nothing; every other reply is the state its operation really reached. |
| `QuarantineServices.QuarantineService.Reconcile` | backend/wiseway/quarantine.py:196-204 | Afterwards every return is done, rejected or set aside; no file was moved and no finished return was touched. |
| `Utf8.EncodingKeepsOrder` | backend/wiseway/sqlite_search.py:61-64 | UTF-8 keeps the order, the prefixes and the equality of all strings of scalar values, in both directions (section 1 of RFC 3629). |
| `Utf8.EncodingIsUtf8` | backend/wiseway/sqlite_search.py:61-64 | Every scalar value is encoded by the form of its range with its bits in order (the table in section 3 of RFC 3629). |
| `Utf8.EscapedIsReplaced` | backend/wiseway/sqlite_search.py:75-78 | Replacing the zero bytes of an encoding is escaping the zero characters of the text. |
| `Utf8.EscapedClash` | backend/wiseway/sqlite_search.py:75-78 | With its terminator, the smaller of two escaped texts differs from the other inside both: no chunk is a prefix of another one. |
| `NaturalOrder.NaturalBlob` | backend/wiseway/sqlite_search.py:57-80 | The loop that extends the buffer writes the encoded key of the text. |
| `NaturalOrder.BlobKeepsNaturalOrder` | backend/wiseway/search.py:370-382 | For all texts shorter than 2^32, byte order of the blobs is tuple order of the natural keys, and blobs are equal exactly if the keys are. |
| `NaturalOrder.KeysTotal` | backend/wiseway/search.py:370-382 | Natural keys are totally ordered. |
| `NaturalDigits.DigitsDecide` | backend/wiseway/search.py:370-378 | Two digit runs are the same number exactly if their digits agree without leading zeros; otherwise the one with fewer digits is smaller, and at equal length the first digit that differs decides. |
| `NaturalDigits.NumbersDecide` | backend/wiseway/search.py:370-378 | Texts that agree up to a run of digits are ordered by those digits, and by what follows only if the numbers are the same; their keys are equal exactly if both are. |
| `NaturalDigits.CharactersDecide` | backend/wiseway/search.py:370-378 | Texts that agree up to a run without digits are ordered by its folded characters and then by what follows, and a run of digits in its place comes first. |
| `NaturalDigits.BlobsFollowDigits` | backend/wiseway/sqlite_search.py:57-80 | The stored keys of a prefix followed by digits have the order and the equality of the digits without leading zeros. |
| `NaturalDigits.FoldsEachCharacter` | backend/wiseway/search.py:370-378 | Folding replaces each character by its folding, in place. |
| `Tokens.TokenizeAt` | backend/wiseway/search.py:100-107 | Nothing crosses a separator: the tokens of a text are the tokens before it followed by the tokens after it. |
| `Tokens.LettersAndDigitsPart` | backend/wiseway/search.py:100-107 | A letter next to a digit ends a token: the tokens of the text are those of its two sides. |
| `Tokens.UnbrokenIsOneToken` | backend/wiseway/search.py:100-107 | A text without a separator and without a letter next to a digit is one token, folded; the empty text has none. |
| `SearchItems.SlashParts` | backend/wiseway/search.py:199-223 | The components of a path are those before a slash followed by those after it. |
| `SearchItems.NoSlashIsOne` | backend/wiseway/search.py:199-223 | A text without a slash is its only component, unless it is empty. |
| `SearchItems.CleanIs` | backend/wiseway/search.py:199-223 | A cleaned path is the raw one with backslashes as slashes, cut at its ends by exactly the slashes there. |
| `SearchItems.ComponentTokens` | backend/wiseway/search.py:199-276 | The tokens of a path are the concatenation of the tokens of its components, for every path. |
| `SearchItems.BuildMarkers` | backend/wiseway/search.py:224-260 | The loop over the directories builds the recursively defined markers, ending at the first directory that is not recognized. |
| `SearchItems.MarkersAre` | backend/wiseway/search.py:119-128 | The markers are the values of the first directories, as far as each is an allowed value of its level, with the company's levels applying below it; then nothing if the levels end or the next is optional, and otherwise one mark for what is missing, not recognized or too deep. |
| `SearchItems.MarkersFollowDirectories` | backend/wiseway/search.py:224-260 | Each recognized marker stands at the depth of its directory, with that value and the markers before it as parents. |
| `SearchItems.FieldsStandInPath` | backend/wiseway/search.py:199-276 | The tokens of the filename and of every recognized marker stand together in the tokens of the path. |
| `Search.BestMatch` | backend/wiseway/search.py:325-339 | The loop finds the greatest weight of a field match of the term, an exact token counting twice. |
| `Search.TermBestIsMax` | backend/wiseway/search.py:325-339 | That number is an upper bound of all matches and is reached by one of them, or is zero. |
| `Search.ContainsPhrase` | backend/wiseway/search.py:342-344 | The test is true exactly if the phrase stands in the stream. |
| `Search.BestPhrase` | backend/wiseway/search.py:347-367 | The loop finds the greatest double weight of a field that has the phrase. |
| `Search.PhraseBestIsMax` | backend/wiseway/search.py:347-367 | That number is an upper bound over the fields and is reached by one of them, or is zero. |
| `Search.MatchesAndScore` | backend/wiseway/search.py:347-367 | The two loops, with their early exits, compute the score that the three fast forms are compared with: none if a part of the query is worth nothing in the item, and otherwise the sum of the points of all parts. |
| `Search.TermBestIsPoints` | backend/wiseway/search.py:325-359 | One term is worth 10 points if it is a token of the filename, else 8 of a project marker, else 6 of a company marker; else 5, 4 or 3 if a token there only begins with it; else 2 as a token of the path or of another marker, 1 as the beginning of one, and otherwise 0. |
| `Search.PhrasePartIsPoints` | backend/wiseway/search.py:360-366 | One phrase of n tokens is worth 10n points in the filename, else 8n in a project marker, else 6n in a company marker, else 2n in the path or another marker, and otherwise 0. |
| `Search.ScoreIsPoints` | backend/wiseway/search.py:347-367 | An item is found exactly if every part of the query is worth something, and its score is the sum of the points. |
| `Search.PathPhraseHasField` | backend/wiseway/search.py:360-366 | The extra branch for a phrase of the path never decides a score: the path is itself a field. |
| `Search.ChainPositionsAreExact` | backend/wiseway/search.py:392-409 | The positions of a chain are exactly the items whose markers begin with it, in order. |
| `SearchColumns.EncodedTokens` | backend/wiseway/sqlite_search.py:35-42 | Encoded words are equal, or one a prefix of the other, exactly if the tokens are; the sentinel equals none and continues none. |
| `SearchColumns.SentinelCuts` | backend/wiseway/sqlite_search.py:83-110 | No phrase of user text crosses a sentinel: a column with one has it exactly if one side has it. |
| `SearchColumns.ColumnsTermIsBest` | backend/wiseway/sqlite_search.py:83-110 | The best match of a term over the five stored columns is the best match over the fields of the specification, for every item. |
| `SearchColumns.ColumnsPhraseIsBest` | backend/wiseway/sqlite_search.py:83-110 | The same for phrases, which the sentinel keeps from crossing field borders. |
| `SearchClauses.ScoreIsTotal` | backend/wiseway/sqlite_search.py:321-351 | The score of the specification is the sum of the clause scores over the encoded columns if every clause matches, and none otherwise. |
| `SearchClauses.EnginesScoreClauses` | backend/wiseway/opensearch.py:349-388 | The maximum over columns of double weight for exact and single weight for prefix-only matches (SQL), and over all matching variants (engine), is the clause score; a row is there exactly if it is positive. |
| `SqliteSearch.Candidates` | backend/wiseway/sqlite_search.py:353-405 | For every corpus, query and chain the candidate table has exactly the rows and scores of the specification, for any number of clauses. |
| `SqliteSearch.JoinAndUnionAgree` | backend/wiseway/sqlite_search.py:371-386 | Joining the clause tables and counting their union give the same rows and scores. |
| `SqliteSearch.TopRows` | backend/wiseway/sqlite_search.py:435-464 | The total is the number of matches, and the rows in ORDER BY order are the first rows of the specification's order, for every field and direction. |
| `Sorting.TwoPassesAreOne` | backend/wiseway/search.py:448-470 | Sorting by the tie-break and then stably by the primary key is one sort by both, and its result is in order. |
| `Sorting.SortOfSame` | backend/wiseway/search.py:448-470 | The order in which distinct rows arrive does not matter to a sort by a total order. |
| `Timestamps.RawOrderIsInstantOrderIff` | backend/wiseway/common.py:32-47 | For any two valid stamps, text order agrees with instant order exactly if their fractions are spelled compatibly; the condition can be read off the spellings. |
| `Timestamps.InstantsCompareDigits` | backend/wiseway/common.py:32-47 | Stamps are ordered, and equal, as their seconds and then their fractions written to any common number of digits. |
| `SearchOrder.SortRowsIsOneSort` | backend/wiseway/search.py:448-470 | For every field and direction the two stable sorts are one sort by a strict total order of the rows. |
| `SearchMeaning.ItemMatches` | backend/wiseway/search.py:478-530 | An item of the corpus is in the result exactly if its first markers are the selected ones and every part of the query is worth something in it, with the sum of the points as its score; the corpus order is kept. |
| `SearchMeaning.MatchRowsHave` | backend/wiseway/search.py:478-530 | A row is in the result exactly if its item is in the corpus, begins with the selected markers, has no part of the query worth nothing, and the row's score is the sum of the points. |
| `SearchMeaning.ResultsAreOrdered` | backend/wiseway/search.py:448-470 | The result has every matching row once, ordered by score, size, name, instant or path in the direction asked for; rows that are equal there come by natural path, path and id, ascending whatever the direction. |
| `SearchMeaning.HitsAreBest` | backend/wiseway/search.py:448-470 | The hits are as many matching rows as the limit allows, in order, and every other match comes after all of them. |
| `SearchMeaning.SelectionIsRefusedIff` | backend/wiseway/search.py:392-409 | A selection is refused exactly if a marker is repeated in it, or it is not empty and no item begins with it. |
| `SearchOrder.StoredOrdersAreTheSort` | backend/wiseway/sqlite_search.py:435-451 | Ordering by the stored binary keys, in SQL and in the engine, is the sort of the specification, for every field and direction. |
| `OpenSearchQuery.MembershipByPath` | backend/wiseway/opensearch.py:391-405 | An item matches a query exactly if every clause matches the tokens of its path alone. |
| `OpenSearchQuery.MembersAreChain` | backend/wiseway/opensearch.py:468-480 | If some item has the chain, having all its markers in any order is having it as the beginning of one's own chain. |
| `TieredSearch.TopTier` | backend/wiseway/opensearch.py:598-633 | If a tier keeps exactly the rows with the greatest score, the full order is that tier in path order followed by the rest. |
| `TieredSearch.TotalReachesLevels` | backend/wiseway/opensearch.py:519-570 | A total is at most the sum of per-clause bounds, and equal to it exactly if every clause reaches its own bound. |
| `TieredSearch.NameIsBest` | backend/wiseway/opensearch.py:519-570 | No clause scores above an exact filename match, and it scores that much exactly if the filename has it exactly. |
| `TieredSearch.LevelIsScore` | backend/wiseway/opensearch.py:519-570 | If no variant exceeds a level, a clause matches at that level exactly if it scores that level. |
| `SearchSnapshots.Selection` | backend/wiseway/opensearch.py:468-480 | Checking the chain on any one item that has its markers accepts exactly the chains the specification accepts. |
| `SearchSnapshots.MaximumLevels` | backend/wiseway/opensearch.py:519-570 | The probed levels are, clause by clause, the greatest scores among the matching rows. |
| `SearchSnapshots.Probe` | backend/wiseway/opensearch.py:519-570 | The levels are positive and bound the clause scores of every matching row. |
| `SearchSnapshots.NameTier` | backend/wiseway/opensearch.py:598-633 | If exact filename hits fill the result, they are the first rows of the specification's order. |
| `SearchSnapshots.BestLevelsTier` | backend/wiseway/opensearch.py:598-633 | If hits at the per-clause maxima fill the result, they are the first rows of the specification's order. |
| `SearchSnapshots.ScorerTier` | backend/wiseway/opensearch.py:598-633 | The full scorer's request gives the first rows of the specification's order. |
| `SearchSnapshots.Relevant` | backend/wiseway/opensearch.py:598-633 | Whichever of the three requests answers, the hits are the first min(limit, total) rows by descending score and ascending path. |
| `SearchSnapshots.SearchItemsOf` | backend/wiseway/opensearch.py:572-651 | For every query, chain, ordering and limit: refused exactly if the specification refuses; an empty request gives no rows; otherwise the total and the first rows are those of the specification. |
| `Postings.BestOverIsTermBest` | backend/wiseway/search_index.py:82-98 | The best match of a term over the words that continue it is its best field match. |
| `Postings.ContinuationsStandTogether` | backend/wiseway/search_index.py:58-66 | Past the first word that does not continue the term, none does. |
| `Postings.OrderOfTermsIsFree` | backend/wiseway/search_index.py:78-81 | Scoring the terms in another order gives the same score. |
| `IndexTables.AddStream` | backend/wiseway/search_index.py:22-36 | Posting a field raises the weight of exactly its tokens at exactly its item to at least the field's weight. |
| `IndexTables.AddFields` | backend/wiseway/search_index.py:22-36 | After an item was added each token's weight at it is the greatest weight of its fields, and no other posting changed. |
| `IndexTables.AddChain` | backend/wiseway/search_index.py:22-36 | An item enters the list of exactly the prefixes of its chain, at the end. |
| `IndexTables.Vocabulary` | backend/wiseway/search_index.py:37 | The vocabulary is the posted tokens in ascending order, each once. |
| `IndexTables.BisectTokens` | backend/wiseway/search_index.py:58-66 | Bisection finds the first word that is not below the term. |
| `IndexTables.TermTokens` | backend/wiseway/search_index.py:58-66 | The scan from there finds exactly the words that continue the term. |
| `IndexTables.Contains` | backend/wiseway/search_index.py:71-75 | The binary search finds a position exactly if it is in the list. |
| `IndexTables.MergeToken` | backend/wiseway/search_index.py:82-98 | Whichever side is iterated, each position in scope gets the greater of its score and the word's part, and no other changes. |
| `IndexTables.MatchTerm` | backend/wiseway/search_index.py:82-98 | The matches of a term are exactly the positions in scope with a positive best, with that best. |
| `IndexTables.SmallestRow` | backend/wiseway/search_index.py:99-115 | The postings that are scanned for a phrase are the shortest among its words. |
| `IndexTables.MatchPhrase` | backend/wiseway/search_index.py:99-115 | The matches of a phrase are exactly the scanned positions in scope whose fields have it, with the best weight. |
| `SearchIndexes.SearchIndex.constructor` | backend/wiseway/search_index.py:13-37 | The tables built in one pass hold exactly the chains, postings and fields of the items. |
| `SearchIndexes.SearchIndex.Positions` | backend/wiseway/search_index.py:39-45 | The stored positions of a chain are those of the specification, and a chain is unknown exactly if the specification refuses it. |
| `SearchIndexes.SearchIndex.OrderTerms` | backend/wiseway/search_index.py:78-81 | Reordering by the number of postings keeps the terms as a multiset. |
| `SearchIndexes.SearchIndex.MatchTerms` | backend/wiseway/search_index.py:82-98 | After the term loop each position has the term score of the specification; an early stop means that nothing matches at all. |
| `SearchIndexes.SearchIndex.MatchPhrases` | backend/wiseway/search_index.py:99-115 | After the phrase loop each position has the full score of the specification; an early stop means that nothing matches at all. |
| `SearchIndexes.SearchIndex.Match` | backend/wiseway/search_index.py:68-120 | For every item list, query and chain the result is the list of the specification: the same items and scores in corpus order. |
| `Ranks.PathRanks` | backend/wiseway/search_index.py:131-142 | The cached path ranks order any two items as the tie-break does. |
| `Ranks.NameRanks` | backend/wiseway/search_index.py:131-142 | The cached name ranks order any two items as the natural names do, equal names sharing a rank. |
| `Ranks.RankSortIsTheSort` | backend/wiseway/search_index.py:122-160 | Sorting by ranks is the sort of the specification for every field and direction; for the modification time under the spelling condition on the rows. |
| `Ranks.SameWidthIsSpelled` | backend/wiseway/common.py:20-25 | Stamps with the same number of fraction digits, as the program writes them, meet the spelling condition. |
| `Ranks.RankSortIsTheSortIff` | backend/wiseway/search_index.py:122-160 | By modification time, it is the sort of the specification exactly if every two rows have spellings that compare as texts, or spell one instant and stand in the order of their paths. |
| `Ranks.SpellingsCanReorder` | backend/wiseway/search_index.py:122-160 | Two rows for which comparing raw stamps gives another order than comparing instants: the condition is needed. |
| `SearchIndexes.SearchIndex.FillRanks` | backend/wiseway/search_index.py:131-142 | The ranks that are needed are computed once and kept. |
| `SearchIndexes.SearchIndex.SortTop` | backend/wiseway/search_index.py:122-160 | The first rows by rank keys are the first rows of the specification's full sort; if all rows fit the limit, for any spellings. |
| `QueryText.ParseChunks` | backend/wiseway/search.py:280-322 | The two-index loop parses exactly the chunks of the recursive grammar, and fails exactly if it does. |
| `QueryText.Collect` | backend/wiseway/search.py:280-322 | Terms and phrases come in order of appearance, each once. |
| `QueryText.ParseText` | backend/wiseway/search.py:280-322 | The parse of a text is the parse of the grammar with its length and emptiness errors. |
| `QueryMeaning.SpaceIsSkipped` | backend/wiseway/search.py:280-286 | The empty text has no pieces, and white space between pieces means nothing. |
| `QueryMeaning.WordIsRead` | backend/wiseway/search.py:296-308 | A word up to white space or the end is one piece of terms, an error if it has no token; a quote that touches it is an error. |
| `QueryMeaning.PhraseIsRead` | backend/wiseway/search.py:287-308 | What stands between two quotes is one phrase if white space or the end follows, an error if it has no token; anything else after it, or no second quote, is an error. |
| `QueryMeaning.PieceIsAdded` | backend/wiseway/search.py:310-322 | Each piece adds its new words to the terms, or itself to the phrases unless it is there already, and itself to the applied text after a space, a phrase between quotes. |
| `QueryText.SpacedTokens` | backend/wiseway/search.py:100-107 | Tokens printed with spaces between them are read back as the same tokens. |
| `QueryText.ParsePrinted` | backend/wiseway/search.py:280-322 | Parsing the printed form of plain chunks gives these chunks back. |
| `QueryText.AppliedTextIsFixpointIff` | backend/wiseway/search.py:280-322 | For every text that parses, parsing its applied text succeeds with the same terms, phrases and applied text exactly if no token of the query has a letter next to a digit; folding need only be idempotent and make no separators and no quotes. |
| `QueryText.AppliedTextIsFixpoint` | backend/wiseway/search.py:280-322 | In particular it does for every text whose characters keep their class when they are folded. |
| `QueryText.ApplyingCanSplitTokens` | backend/wiseway/search.py:280-322 | A folding that meets these conditions and turns a mark into a letter, and a text whose applied text parses to another query. |
| `Glob.Match` | backend/wiseway/rules.py:42-61 | The two-index loop with one remembered star terminates with the answer of its step function. |
| `Glob.GlobIsComplete` | backend/wiseway/rules.py:42-61 | For every mask and every value without `*` the loop answers exactly the recursive meaning of `*`, `?` and literals. |
| `Glob.GlobIsCompleteIff` | backend/wiseway/rules.py:42-61 | It does so for all masks exactly if the value has no `*`: every value with a star has a mask the loop gets wrong. |
| `RuleMeaning.PlainMaskMatches` | backend/wiseway/rules.py:42-61 | A mask without `*` means the texts of its length that differ from it only under its question marks. |
| `RuleMeaning.StarMaskMatches` | backend/wiseway/rules.py:42-61 | A `*` means any text: the characters before it fit the beginning, and what follows it fits some rest. |
| `RuleMeaning.DoubleStarsNeverMatch` | backend/wiseway/rules.py:27-31 | A mask with two stars in a row matches nothing. |
| `RuleMeaning.ValuesToMatch` | backend/wiseway/rules.py:33-37 | A rule for names is compared with what follows the last slash or backslash of the path, one for paths with the whole path, slashes as backslashes, and so is its mask. |
| `RuleMeaning.ExtensionIs` | backend/wiseway/rules.py:19-24 | The extension is the part from the last dot on; it is empty exactly if the name has no dot but at its beginning, or ends with one. |
| `RuleMeaning.TargetIs` | backend/wiseway/rules.py:230-247 | A target is in the rule's directory without its last slashes, under the rule's stem with the file's own extension. |
| `Rules.RuleMeansItsMask` | backend/wiseway/rules.py:27-39 | A rule matches a path without stars exactly if its mask has no `**` and its folded mask has the folded name or path in its meaning. |
| `Rules.GroupTargets` | backend/wiseway/rules.py:186-204 | Grouping by target puts each row that would move into exactly the group of its target, in order. |
| `Rules.BlockGroup` | backend/wiseway/rules.py:186-204 | The rows of one target are blocked, naming the others, if there are several or if the target exists; rows of other targets are untouched. |
| `Rules.BlockTargets` | backend/wiseway/rules.py:186-204 | After all groups, each row is what the collision rule says of the planned rows, whatever the order of the groups. |
| `Rules.CheckManual` | backend/wiseway/rules.py:169-183 | The manual-review check decides row by row. |
| `Rules.PlanRows` | backend/wiseway/rules.py:64-87 | The plan built in passes that update rows in place is, row by row, the specified plan, whose meaning the next rows state. |
| `PlanMeaning.WinnersChoose` | backend/wiseway/rules.py:115-164 | The matched rules of a ready item are, in order, exactly the matching rules whose priority number no matching rule undercuts. There is no scenario exactly if no rule matches; a conflict exactly if two of them have different targets; otherwise the target is that of each of them, and the selected one has the smallest dictionary and id. |
| `PlanMeaning.PlanFollowsTheRules` | backend/wiseway/rules.py:64-204 | Every row of a plan is what its winning rules say; one that would move is blocked exactly if another row has its target, naming these rows in order, or if something exists there, and one for review exactly if its review name exists. Conflicts and unmatched items are counted exactly where they are. |
| `Planning.MovesExactlyIf` | backend/wiseway/rules.py:64-87 | An item moves exactly if its own rules give it one target, no other item plans that target, and the target is free. |
| `Planning.SurvivingTargetsAreSafe` | backend/wiseway/rules.py:64-87 | Rows keep the items in order, and the rows that still move have pairwise different, free targets. |
| `Planning.PlanCounts` | backend/wiseway/rules.py:90-113 | The counts are exact, and the four states partition the rows. |
| `PlanMeaning.TallyCounts` | backend/wiseway/rules.py:90-113 | Each of the four counts is the number of rows in its state. |
| `Planning.ReasonsIgnoreTheFileSystem` | backend/wiseway/rules.py:90-113 | The counts of conflicts and of missing scenarios do not depend on what exists. |
| `Dictionaries.PublishedRulesAreDraftRules` | backend/wiseway/dictionaries.py:26-43 | After a draft was published the flattened rules are, up to version ids, the ones that were simulated with the draft. |
| `Dictionaries.DictionaryContributes` | backend/wiseway/dictionaries.py:26-43 | The rules of a company are those of its dictionaries one after the other, each with its dictionary and version: the candidate's draft, and the active version of every other dictionary that has one. |
| `Dictionaries.RuleSetNames` | backend/wiseway/dictionaries.py:12-23 | The rule set of a company names exactly its dictionaries with an active version, with that version. |
| `Dictionaries.PlanStripped` | backend/wiseway/dictionaries.py:203-231 | Planning does not look at version ids. |
| `Dictionaries.StrippedRowsAgree` | backend/wiseway/dictionaries.py:203-231 | Rows are equal up to version ids exactly if they agree in item, state, reason, target and collision, and in dictionary and id of every matched and of the selected rule. |
| `Dictionaries.PublicationKeepsThePlan` | backend/wiseway/dictionaries.py:264-328 | With the published rules the simulated items get the simulated plan for the same existence oracle, and no rule conflict for any oracle. |
| `Dictionaries.DictionaryService.ReplaceDraft` | backend/wiseway/dictionaries.py:125-149 | The first failing check is reported (revision, empty name, name taken but for case, invalid rules) and nothing changes; otherwise the draft and the name are saved under the next revision, and names stay different within a company. |
| `Dictionaries.DictionaryService.DraftIsAcceptedIff` | backend/wiseway/dictionaries.py:334-368 | A draft is accepted exactly if it replaces the expected revision, its name is not empty and not that of another dictionary of the company but for case, and its rules have different ids, allowed targets and allowed stems. |
| `Dictionaries.DictionaryService.PublishesIff` | backend/wiseway/dictionaries.py:264-328 | A publication goes through exactly if the simulation is of this dictionary and draft revision, has not expired, was made with the same active versions, rules and ready items, and has no conflict and no unacknowledged missing scenario, the draft is valid and the comment is not blank; the first check that fails is the answer. |
| `Dictionaries.DictionaryService.Simulate` | backend/wiseway/dictionaries.py:203-249 | A simulation is made exactly for the current revision, is the real plan of the ready items with the draft's rules, and changes nothing. |
| `Dictionaries.DictionaryService.Publish` | backend/wiseway/dictionaries.py:264-328 | The first obstacle is reported and nothing changes; without one the draft becomes the active version, and the published rules give the simulated plan without conflicts. |
| `Identities.CountInodes` | backend/wiseway/indexer.py:26-61 | The counts are those of the listing. |
| `Identities.GroupGone` | backend/wiseway/indexer.py:26-61 | The groups are exactly the indexed paths that are gone, by inode. |
| `Identities.EntryIds` | backend/wiseway/indexer.py:26-61 | The loop gives every entry an id chosen by the identity rules from what earlier entries left. |
| `Identities.IdsAreInjective` | backend/wiseway/indexer.py:26-61 | No two entries get the same id, also when the scan continues staged ids. |
| `Identities.UnchangedKeepsId` | backend/wiseway/indexer.py:26-61 | An entry with the path and inode of the index keeps its id. |
| `Identities.RenameKeepsId` | backend/wiseway/indexer.py:26-61 | An entry whose inode is unique and was at exactly one path that is gone takes over its id. |
| `IdentityMeaning.IdsByCase` | backend/wiseway/indexer.py:26-61 | Every entry: an unchanged one keeps its id; one whose inode no other entry has, and exactly one gone path had, takes over the id of that path; any other gets the id of its inode, or a new one if an indexed or an earlier entry has that. |
| `Identities.ResumedIsUninterrupted` | backend/wiseway/indexer.py:331-364 | Continuing from any staged prefix gives the ids of an uninterrupted scan, up to the names of newly made ids. |
| `Identities.ResumedIsUninterruptedIff` | backend/wiseway/indexer.py:331-364 | If the listing changed behind the verified prefix, continuing the staged ids gives those of an uninterrupted scan of the new listing exactly if, for each staged entry, both listings answer alike whether it was renamed and from where. |
| `Identities.ChangedTailLosesAnId` | backend/wiseway/indexer.py:331-338 | A listing whose tail changed behind the checkpoint, and an entry that for this reason loses its old id. |
| `IndexScans.LoadChunks` | backend/wiseway/indexer.py:87-134 | A run is loaded as the concatenation of its chunks, and only if they are well formed, in sequence, and of the recorded count. |
| `IndexScans.ChunksAreWholeIff` | backend/wiseway/indexer.py:87-134 | Chunks are well formed exactly if they are numbered in order and hold one to one hundred entries, with the item of each at its place. |
| `IndexScans.NextStop` | backend/wiseway/indexer.py:339-364 | The next checkpoint is further on, at most one interval away, and at a multiple of the interval or at the end. |
| `IndexScans.SearchScan.Start` | backend/wiseway/indexer.py:219-287 | An interrupted run of the same configuration is continued with exactly what its chunks hold; every other one starts empty. |
| `IndexScans.SearchScan.Checkpoint` | backend/wiseway/indexer.py:430-465 | A checkpoint appends one chunk with the items since the last one; loading then gives exactly what has been scanned. |
| `IndexScans.SearchScan.Verify` | backend/wiseway/indexer.py:331-338 | The staged prefix is used exactly if the listing still begins with it. |
| `IndexScans.SearchScan.Extend` | backend/wiseway/indexer.py:339-364 | Extending writes the items in order, with a checkpoint at every stop, and can stop anywhere with what is stored being what was scanned. |
| `IndexScans.SearchScan.Scan` | backend/wiseway/indexer.py:289-364 | Whether it continues or begins, a scan's items are those of the listing under one assignment of ids, and the stored chunks are exactly them. |
| `IndexScans.BuiltFromIff` | backend/wiseway/indexer.py:289-364 | Items are those of a listing exactly if each has the path, size and modification time of the entry at its place. |
| `IndexScans.ScanRepeatedly` | backend/wiseway/indexer.py:289-364 | After any number of interruptions and restarts over the same listing the items are those of one uninterrupted scan, up to the names of new ids. |
| `AuditPages.ListingIsSorted` | backend/wiseway/audit_pagination.py:57-97 | A listing has exactly the wanted events after the key, in strictly descending (time, id) order. |
| `AuditPages.RestOfListing` | backend/wiseway/audit_pagination.py:57-97 | After any growth of the journal, the listing after the k-th row is exactly the rest of the first listing. |
| `AuditPages.FirstListingIsComplete` | backend/wiseway/audit_pagination.py:100-111 | The listing at the first cutoff has every wanted event of the journal, once, newest first. |
| `AuditMeaning.FirstListingHolds` | backend/wiseway/audit_pagination.py:57-111 | The first listing holds exactly the events in the half-open period that the reader may see and every given filter fits, by time and then id descending, each once. |
| `AuditMeaning.LaterListingHolds` | backend/wiseway/audit_pagination.py:57-97 | The listing after a position holds exactly the events up to the cutoff that fit and come strictly after it in that order. |
| `AuditMeaning.CutoffIsNewest` | backend/wiseway/audit_pagination.py:100-116 | The cutoff and the newest id are those of the last event in the journal that the reader may see. |
| `AuditPages.AuditService.Append` | backend/wiseway/storage.py:52-56 | Events are only ever added at the end, under the next number, and a known id is not added again. |
| `AuditPages.AuditService.Reserve` | backend/wiseway/services.py:340-373 | The snapshot is this reader's, for this query and cutoff, and still valid; a valid one is used again, a new one expires 900 seconds later, and no valid snapshot is lost. |
| `AuditPages.AuditService.NextPage` | backend/wiseway/services.py:375-416 | A page holds the first rows up to the limit, and has a cursor, at its last row, exactly if a row is left; that cursor is stored and will be accepted. |
| `AuditPages.AuditService.QueryPage` | backend/wiseway/audit_pagination.py:137-184 | A foreign, expired or altered cursor is refused, and no other; otherwise the page continues the listing of its snapshot after its key, and the cursor it gives out is accepted. |
| `AuditPages.AuditService.AcceptedIff` | backend/wiseway/audit_pagination.py:137-160 | A cursor is accepted exactly if it was given out to this reader for this query, and it and its snapshot, of this reader and query too, have not expired. |
| `AuditPages.AuditService.ReadAll` | backend/wiseway/audit_pagination.py:162-184 | Following the cursors while others append and read: the concatenated pages are always a prefix of the first listing, and all of it unless the snapshot of the first page has expired, which for a new one is 900 seconds later. |

## Left out

- ArchiveManifest.FoldLastWriter: a record is a line that parses to one document or to a tombstone, or is malformed; the single field checks of `_record` are collapsed into malformed.
- ArchiveImporters.ArchiveImporter.Run: the renewal of snapshots during a long import, the `result` JSON, `index_progress`, `operator_state` and the stop event are not modelled; stopping is losing the process.
- ArchiveImporters.ArchiveImporter.Cleanup: at most one hundred expired snapshots are closed per run; that all are is promised only up to this number, as in the program.
- ArchiveImporters.ArchiveImporter.Maintain: the timing of renewals is not modelled; a snapshot may be lost at any moment instead.
- SearchOutbox.DeliveredExactlyOnceInOrder: safety only; a saved batch whose base was overtaken is refused again and again, as in the program.
- OutboxDrain.Drainer.DrainRoot: one root at a time; the manifest file that carries a batch is the batch itself.
- FileMoverPlacement.WriteAheadPlacement: an outsider who removes or replaces the file of an attempt is excluded; then the file is nowhere the records could name.
- FileMoverSafety.StepKeepsInv: a queue scan is any change to rows that no attempt holds; its details are not modelled.
- Workers.Worker.AcceptBatch: building and expiring a selection, and comparing the digest of the previewed plan, come before it and are not modelled; the plan of each file is part of its request.
- Workers.Worker.RunOnce: names of company folders, physical and display paths and directory creation are not modelled; manual and quarantine targets are given with the attempt.
- BatchProgress.View: the first start and last finish times of a batch.
- Quarantine.QStepKeepsInv: the card of a quarantined item is added by an arbitrary step; `list_items` and its paging are simple reads.
- NaturalOrder.BlobKeepsNaturalOrder: only texts shorter than 2^32, which is what four length bytes can hold.
- SearchIndexes.SearchIndex.SortTop: the heap inside `nsmallest` and `nlargest`; they are taken by their meaning.
- SqliteSearch.TopRows: creation, activation and deletion of a generation, the chain tables, and the SQL text itself.
- SearchSnapshots.SearchItemsOf: facets (grouping, composite paging and the prefix range), snapshot selection, quotas and time limits.
- QueryText.ParseText: the interpreter's limits on converting very long digit strings.
- Rules.PlanRows: location metadata and `source_info` of rules and rows.
- Dictionaries.DictionaryService.Simulate: the owner and paging of a simulation, and restoring and creating drafts.
- IndexScans.SearchScan.Start: upgrading a progress record of an older format.
- IndexScans.SearchScan.Scan: the shortcut for an unchanged tree, publishing the finished index record, and the walk of the directory tree.
- Identities.ResumedIsUninterrupted: about one listing; a listing that changes between runs is the subject of `ResumedIsUninterruptedIff`.
- AuditPages.AuditService.QueryPage: the quota of open pages, normalization of times in SQL, the list of actors, and the generic offset pages.
- Paths are taken as given: validation of locations and `PurePosixPath` normalization are not part of this model.
- `large_indexer.py` carries the same identity idea inside SQL text; accounts, sessions, HTTP, CLI, file descriptors, `fsync`, locks and the frontend would only add simple members.
