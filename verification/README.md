# dikw-core: a verified model of the knowledge engine

dikw-core turns source files into a base of indexed documents, lets a model synthesise
knowledge pages from them, and serves search and a link graph over the result. What is hard
about it is not any one query but what every run keeps: runs are retried, cancelled, killed
between two appends, repeated after a config edit, and interleaved with each other.

The project models that behaviour in Dafny and proves it.

* `knowledge_log`, `synth_run`, `synth_protocol`: the append-only activity log that decides
  which sources are finished, one synth run as a writer that may die after any append, and
  the protocol over whole histories against a reference account kept without the log.
* `storage`, `embed_versions`: the tables, one transition a storage call, and the discipline
  that keeps vector spaces apart under any interleaving of config edits and writers.
* `ingest`, `ingest_theory`, `ingest_run`, `pages`: the ingest loop, the page writers of
  synth and wisdom, the persist pipelines cut at any point, and what holds afterwards.
* `graph`, `graph_links`, `graph_theory`, `graph_bodies`, `revision`: the indexes, the
  collision-refusing resolver, the accumulators, their conservation laws, what the finished
  graph says of the documents' bodies, and the revision's byte stream.
* `synth_groups`, `synth_source`, `page_dedup`, `sorting`: the group loop of one source with
  retries, in-batch titles and unresolved-target feedback, the way from the provider's replies
  to the source's marker, and the merge of pages that share a path.
* `existing_pages`, `vector_search`, `gate_theory`, `gate_examples`: the retrieval-gated page
  list of a prompt, the search behind it, and when the list is what it is meant to be.
* `wisdom_locks`, `wisdom_progress`, `atomic_files`: two protocols as interleaved steps.
* `welch`, `ab_compare`, `subsample`, `convert`, `two_stage`, `cached_embedder`: the
  evaluation tools' arithmetic, sampling and caching.
* `options`, `sequences`: what they share.

Methods carry the program's loops and state changes and are proved against specification
functions; the lemmas say what those functions mean. The language model, the embedder, the
clock, the random draws, the text normalisations and the faults are parameters, so each
theorem is for all of them.

## What the proofs found

* The comment at `src/dikw_core/api_synth.py:174` says the sentinel row is written on the
  first run whatever it is; the code writes it only in default runs (lines 160 and 207), so a
  base whose first run is `synth --all` can have a page row of an unfinished source pass for
  a legacy one. `SynthProtocol.EveryHistorySplits` says what the log stands for after any
  history: what recorded attempts have earned, and what a backfill is trusted on. The next
  default run is right exactly under the condition of `SynthProtocol.NextRunIsRightIff`; a
  wrong marker stays until a forced run decides its source
  (`SynthProtocol.DefaultRunsKeepTrusting`, `SynthProtocol.WrongMarkerStays`).
* A source whose page broke can still be skipped by the next default run, in two ways, both
  under a forced run that dies before its failure marker: the source had been done, and the
  old done marker stands (`SynthProtocol.StaleDoneMarkerCounterexample`); or the log has no
  sentinel yet, and a page row of the source, which was never done, passes for a legacy one
  (`SynthProtocol.NeverDoneCounterexample`). `SynthProtocol.FailedPersistReopens` states the
  exact condition, on every log; a default run always reopens such a source.
* The log is listed by time and then id, so what a scan reads for a source is the verdict of
  its marker with the latest stamp. It is right exactly when that marker says what the one
  appended last says (`KnowledgeLog.ScanReadsTheNewest`, `KnowledgeLog.ListingKeepsTheScanIff`);
  a clock that steps back may hide a failure (`KnowledgeLog.ClockStepBackHidesAFailure`) or do
  no harm (`KnowledgeLog.HarmlessStepBack`).
* The handlers can hide a row that is active and complete: an ingest's in three cases, a
  page writer's in the cases of a like condition (`IngestTheory.WhenACompleteRowIsHidden`,
  `Pages.WhenACompletePageIsHidden`).
* A fault between row and chunks whose deactivate call fails as well leaves a source that the
  skip rule takes for finished (`IngestTheory.StuckFileCounterexample`); a smooth ingest
  settles exactly the sources that are not stuck so (`IngestTheory.SmoothScanSettles`), and
  reconciles all vectors whether or not some are (`Pages.OneIngestRepairs`).
* The comment at `src/dikw_core/api_wisdom.py:250` expects the next ingest to rebuild a
  wisdom page whose write failed; ingest writes source rows only, so the page stays hidden
  until it is written again (`IngestTheory.ScanLeavesPagesAlone`).
* Source files with one normalised path in one run can leave queued chunks that are gone when
  embedding starts: iff one that queued chunks is followed by one with other content or with
  assets (`IngestTheory.SmoothQueueIsLiveIff`; `IngestTheory.QueueIsLiveIff` under faults).
* Adding a document never rebinds an exactly resolved wikilink; it can rebind one that was
  resolved by its normalised title, in exactly one way (`Graph.FuzzyLinksRebindIff`).
* The revision stream needs paths and titles without a bar; line breaks are harmless
  (`Revision.StreamsTellEntriesApart`, `Revision.BarsCollide`).
* The page list of a prompt is a true top-K of what the searches return. Of the base it is one
  if and only if some search took in the whole index and is not full, or `k` documents are
  chosen and every search reaches as far as the farthest of them
  (`GateTheory.GateIsTrueTopK`). A search fetches ten times its limit of all layers and filters
  afterwards (`src/dikw_core/storage/sqlite.py:72-86`), so on a larger index a short search says
  nothing about what it missed, and a nearer document can be left out even though no search
  names one twice (`GateExamples.UnderFilledSearchMisleads`); and a document with many near
  chunks can crowd out a nearer one (`GateExamples.ManyChunksCrowdOut`). The other adapter
  filters inside the query (`src/dikw_core/storage/postgres.py:627-638`), which is the case of
  a fetch that takes in the whole index.
* The comment at `src/dikw_core/api_synth.py:663` says the self-check views what storage
  holds. It does unless a path's last write broke after an earlier one had landed
  (`PageDedup.ViewIsTheBaseIff`, `PageDedup.BrokenRewriteCounterexample`).
* Wanted targets are judged by a map that keeps one path a title of the knowledge pages and the
  batch (`src/dikw_core/api_synth.py:1154`), the base graph by the titles of all documents. A
  target satisfied here stays unresolved there iff documents share it
  (`SynthGroups.GraphRefusesCrowded`); one not satisfied here can resolve there, to a source
  for instance (`SynthGroups.GraphKnowsMore`).

## Model

| member | source | states |
|---|---|---|
| `KnowledgeLog.ScanLog` | src/dikw_core/api_synth.py:185-206 | one pass that adds and discards yields exactly the sources whose last marker is done, whether the sentinel is there, the sources with a page row, and those that ever failed |
| `KnowledgeLog.StandingMeans` | src/dikw_core/api_synth.py:186-204 | last writer wins: a source is in the done set iff its most recent marker is a done marker |
| `KnowledgeLog.UnmarkedSuffix` | src/dikw_core/api_synth.py:186-206 | rows about other sources, and rows that are no markers, change no verdict |
| `KnowledgeLog.ListingIsAppendOrder` | src/dikw_core/storage/sqlite.py:982-999 | the listing by time and id is the order of appends iff the clock never steps back |
| `KnowledgeLog.ScanReadsTheNewest` | src/dikw_core/api_synth.py:185-206 | whatever the clock does, the verdict read for a source is that of its marker with the latest stamp, so it is the one appended last iff those two markers agree |
| `KnowledgeLog.ListingKeepsTheScanIff` | src/dikw_core/api_synth.py:185-206 | the done set of a scan is right iff for every source the marker with the latest stamp says what the one appended last says; sentinel, page rows and failures are read right under any clock |
| `KnowledgeLog.HarmlessStepBack` | src/dikw_core/storage/sqlite.py:982-999 | a clock that steps back between the markers of two sources does no harm |
| `KnowledgeLog.ClockStepBackHidesAFailure` | src/dikw_core/api_synth.py:191-204 | a failure marker stamped before the done marker it follows is listed first, and the source counts as done |
| `SynthRun.LogWriter.Append` | src/dikw_core/storage/sqlite.py:971-981 | one append is one row, or nothing when the process is dead |
| `SynthRun.LogWriter.Initialise` | src/dikw_core/api_synth.py:159-236 | sentinel first, then the backfilled done markers, in default runs on a log without sentinel only; the in-memory done set is the run's skip set |
| `SynthRun.LogWriter.PersistPages` | src/dikw_core/api_synth.py:399-471 | a page row for each stored page, none for a broken one, a failure marker and an end at a cancel |
| `SynthRun.LogWriter.WriteGroupNotes` | src/dikw_core/api_synth.py:330-335 | a note for each group that did not simply parse |
| `SynthRun.LogWriter.WriteNotes` | src/dikw_core/api_synth.py:330-335 | the notes of the group loop, and one for a surfaced priority list, cut where the process dies |
| `SynthRun.LogWriter.Settle` | src/dikw_core/api_synth.py:499-537 | failure marker if a page broke, else done marker if no group needs a retry, else nothing |
| `SynthRun.LogWriter.ProcessGroups` | src/dikw_core/api_synth.py:330-537 | the notes of a source that was fanned out, then its page rows and its marker, cut where the process dies |
| `SynthRun.LogWriter.ProcessSource` | src/dikw_core/api_synth.py:325-537 | the rows of one source's attempt, cut where the process dies |
| `SynthRun.LogWriter.Synthesize` | src/dikw_core/api_synth.py:159-601 | a whole run appends exactly the rows of its specification up to the point where it dies or aborts; the rows below say what those are, outcome by outcome |
| `SynthProtocol.VerdictIsTheLastRow` | src/dikw_core/api_synth.py:330-537 | the rows of an attempt are markerless except for the last one, which is the attempt's verdict |
| `SynthProtocol.AttemptIsAtomic` | src/dikw_core/api_synth.py:399-537 | however many rows of an attempt go down, the log moves from the old verdict to the new one at the last row |
| `SynthProtocol.WalkTracksTruth` | src/dikw_core/api_synth.py:240-601 | after a walk over the sources that may die anywhere, the log's done set is the reference account's |
| `SynthProtocol.DoneAfterMeans` | src/dikw_core/api_synth.py:499-537 | the reference account source by source: a recorded attempt decides, anything else changes nothing |
| `SynthProtocol.BackfillAgreesWithRescan` | src/dikw_core/api_synth.py:207-236 | the done set in memory after the backfill is what a rescan of the extended log gives |
| `SynthProtocol.RunTracksTruth` | src/dikw_core/api_synth.py:159-601 | any run on a log with a sentinel, and any forced run, moves the log's done set exactly as the reference account |
| `SynthProtocol.OpeningRunTracksTruth` | src/dikw_core/api_synth.py:207-236 | the default run that writes the sentinel does so too, whatever the log stands for, whatever it backfills and wherever it dies |
| `SynthProtocol.RunKeepsLogValid` | src/dikw_core/api_synth.py:207-236 | a run adds a sentinel iff it is a default run that backfills and gets its first row down, and then exactly one |
| `SynthProtocol.SentinelAtMostOnce` | src/dikw_core/api_synth.py:168-176 | over any history the sentinel is written at most once, and no run backfills after it |
| `SynthProtocol.DefaultRunSkipsExactlyTheFinished` | src/dikw_core/api_synth.py:159-236 | after any history in which the first run that gets a row down is a default run, runs dying anywhere, the next default run skips exactly the sources that are really finished |
| `SynthProtocol.EveryHistorySplits` | src/dikw_core/api_synth.py:159-601 | after any history at all, forced and default runs in any mix, dying anywhere, the log's done set is what recorded attempts have earned plus what a backfill marked and no recorded attempt has decided since |
| `SynthProtocol.NextRunIsRightIff` | src/dikw_core/api_synth.py:159-236 | after any history the next default run skips exactly what is earned iff nothing else is trusted and, as long as the log has no sentinel, nothing else passes for legacy |
| `SynthProtocol.DefaultRunsKeepTrusting` | src/dikw_core/api_synth.py:251-260 | a default run never takes back what is trusted, so a wrong backfill marker stays until a forced run decides its source |
| `SynthProtocol.FinishedIsEarnedOrTrusted` | src/dikw_core/api_synth.py:159-236 | where the history opens with a default run the really finished sources are the earned and the trusted ones |
| `SynthProtocol.ForcedFirstSkipsTooMuch` | src/dikw_core/api_synth.py:160-236 | the case of forced runs alone: the next default run skips the finished sources and exactly those unfinished ones with a page row and never a failure marker |
| `SynthProtocol.ForcedFirstCounterexample` | src/dikw_core/api_synth.py:160-236 | such a trace: one forced run with a group given up, then a default run that skips the source |
| `SynthProtocol.WrongMarkerStays` | src/dikw_core/api_synth.py:207-236 | the trace goes on: that default run backfills a done marker for the source, which nothing has earned |
| `SynthProtocol.FailedPersistReopens` | src/dikw_core/api_synth.py:419-446 | on any log, a source whose page failed or was cancelled is skipped by the next default run iff its failure went unrecorded and it had been done, or the log still has no sentinel, a page row of the source and no failure row; a default run always reopens it, and so does a recorded failure |
| `SynthProtocol.StaleDoneMarkerCounterexample` | src/dikw_core/api_synth.py:499-522 | the first exception happens: the stale done marker of a finished source wins |
| `SynthProtocol.NeverDoneCounterexample` | src/dikw_core/api_synth.py:205-236 | the second one happens: a forced run on a log without a sentinel stores one page, breaks the next and dies, and the source that was never done is skipped |
| `SynthProtocol.DoneMarkersAreEarned` | src/dikw_core/api_synth.py:337-355 | outside the backfill a done marker means every group parsed, in whole or in a part that is kept, and every page was stored, or there was no group |
| `SynthProtocol.AttemptMarkers` | src/dikw_core/api_synth.py:499-537 | an attempt appends a done marker iff there was no group, or every group parsed, in whole or in a part that is kept, and every page was stored; a failure marker iff there was a group and a page was not stored |
| `SynthProtocol.FannedRows` | src/dikw_core/api_synth.py:330-537 | a source that was fanned out appends one note for each group that did not simply parse, one more for a surfaced list or for no group, then its page rows, and last its marker, each from the outcomes themselves |
| `SynthProtocol.GroupNotesCount` | src/dikw_core/api_synth.py:330-335 | as many notes as groups that did not simply parse, and as many errors as groups that were partial to be retried, unparsed or given up |
| `SynthProtocol.PageRowsAppend` | src/dikw_core/api_synth.py:399-471 | page by page: a row for a stored one, nothing for a broken one, the failure marker for a cancel and nothing after it |
| `SynthProtocol.SourceRowsAppend` | src/dikw_core/api_synth.py:240-601 | source by source: one that is not skipped appends its attempt's rows unless an earlier attempt ended the run by a cancel or a permanent error |
| `SynthProtocol.WalkRowsMean` | src/dikw_core/api_synth.py:240-601 | the rows of a walk are exactly those of the attempts it gets to |
| `SynthSource.GroupMeans` | src/dikw_core/api_synth.py:1459-1625 | each group keeps the pages of its answer, of a partial one too, and its outcome is decided by the reply: whole, partial to keep, partial to retry, unparsable, or never answered |
| `SynthSource.SourcePagesMean` | src/dikw_core/api_synth.py:1625 | the source's pages are those of its groups, one group after the other |
| `SynthSource.UnansweredBlocksDone` | src/dikw_core/api_synth.py:1578-1601 | one reply that was cut short, did not parse or never came leaves its source without a done marker, whatever its pages do |
| `SynthSource.AnsweredEarnsDone` | src/dikw_core/api_synth.py:337-537 | and if there is none and every page is stored, the source is marked done |
| `SynthSource.PromptShows` | src/dikw_core/api_synth.py:1368-1390 | a prompt shows title, file name and category of the first page of each title so far, in order, and at most five targets; while there is room no wanted target is left out |
| `SynthSource.KnownTitleMeans` | src/dikw_core/api_synth.py:1222-1239 | the titles a prompt knows: the snapshot's, and any other title of an emitted page, under the file of the first page that has it |
| `SynthSource.WantingMeans` | src/dikw_core/api_synth.py:1638-1657 | the count behind a target is the number of pages with such a wikilink whose target has a usable key and no single meaning among the titles known after their group |
| `Storage.UpsertVersionMeans` | src/dikw_core/storage/sqlite.py:1322-1388 | registering an identity finds its version, or appends one and activates it; earlier ids keep their identity |
| `Storage.UpsertVersionKeeps` | src/dikw_core/storage/sqlite.py:1322-1388 | registering keeps the tables well formed and the spaces apart |
| `Storage.EmbedManyMeans` | src/dikw_core/domains/info/embed.py:336-394 | embedding a batch adds vectors for exactly its chunks under its version, touches no other table, and keeps the spaces apart when the embedder is the version's own |
| `Storage.EmbedManyValues` | src/dikw_core/domains/info/embed.py:336-394 | each vector a batch adds is the cached one of its text if there was one and else the embedder's; the texts of the batch are cached afterwards, and no other vector or cache entry changes |
| `Storage.ElsewhereIsTheSame` | src/dikw_core/domains/data/persist.py:44-112 | a write to one document leaves every other document's row, chunks, links, provenance and completeness alone |
| `Storage.ApplyAllKeeps` | src/dikw_core/domains/data/persist.py:65-106 | any prefix of a document's writes keeps the tables well formed |
| `EmbedVersions.QualifiedProviderSeparates` | src/dikw_core/api_core.py:56-73 | two endpoints share a provider identity only if they are the same protocol and host |
| `EmbedVersions.SpacesTellConfigsApart` | src/dikw_core/api_core.py:56-105 | two configurations name one identity iff they agree in every setting |
| `EmbedVersions.ResolveIsExact` | src/dikw_core/api_core.py:108-158 | an inline writer gets a version iff the active one is the full identity its config names |
| `EmbedVersions.RegisterActivates` | src/dikw_core/api_core.py:76-105 | after registration the active version is the configured identity and inline writers resolve it |
| `EmbedVersions.SwitchingBackFindsTheOldVersion` | src/dikw_core/api_core.py:76-105 | switching the config away and back returns to the old version with its vectors |
| `EmbedVersions.VectorSpacesNeverMix` | src/dikw_core/api_core.py:76-158 | over every interleaving of config edits, ingests and inline writers, every stored vector was produced in the full identity of the version it is filed under |
| `EmbedVersions.OnlyIngestActivates` | src/dikw_core/api_core.py:108-138 | without an ingest start no step changes the active version |
| `EmbedVersions.StaleEmbedderMixesSpaces` | src/dikw_core/server/synth_op.py:61-71 | an inline embed keeps the spaces apart iff the embedder is the one the configuration names |
| `EmbedVersions.StartMeans` | src/dikw_core/api_core.py:76-158 | a started ingest has registered its embedder's space and aims at it; an inline writer aims at the active version iff an embedder is wired and that version is the configured identity; nobody else's aim moves |
| `EmbedVersions.StepMeans` | src/dikw_core/api_core.py:76-158 | what each other step changes: one document, the vectors of one batch, the configuration, or one process |
| `Ingest.PersistSource` | src/dikw_core/domains/data/persist.py:44-112 | the row, then the chunks, then each asset reference, cut at any fault |
| `Ingest.IngestFile` | src/dikw_core/api_ingest.py:188-376 | one turn of the loop, for every fate of the file: the skip rule, the handler that deactivates on the partial-row flag alone, queue and counters |
| `Ingest.ScanSources` | src/dikw_core/api_ingest.py:188-382 | the whole scan is its specification, file by file, stopping at a cancel |
| `IngestTheory.AfterWrites` | src/dikw_core/domains/data/persist.py:65-106 | the tables after any prefix of a document's writes |
| `IngestTheory.PersistCompletes` | src/dikw_core/domains/data/persist.py:65-106 | a persist that runs to its end leaves the row active and complete at its hash |
| `IngestTheory.WhenACompleteRowIsHidden` | src/dikw_core/api_ingest.py:334-360 | after a fault inside a persist the row was active and complete at the cut and is inactive now iff the deactivate call worked and nothing had landed over such a row, only the new row over equal chunks had, or everything had |
| `IngestTheory.HiddenOldRowExample` | src/dikw_core/api_ingest.py:351-360 | an instance: the first call of a changed file's persist fails and the complete row of its old content is hidden |
| `IngestTheory.FaultsOutsidePersistHideNothing` | src/dikw_core/api_ingest.py:253-262 | a fault before or after the persist leaves the old row or the new complete one active, whether or not a deactivate call would work |
| `IngestTheory.ScanKeepsActiveComplete` | src/dikw_core/api_ingest.py:253-368 | whatever the faults and cancels, a scan whose deactivations work keeps every active row complete |
| `IngestTheory.ScanLeavesPagesAlone` | src/dikw_core/api_ingest.py:384-392 | a scan changes no row, chunks, links, provenance or vectors of a knowledge or wisdom document |
| `IngestTheory.ReportBalances` | src/dikw_core/api_ingest.py:623-655 | scanned = added + updated + unchanged + errors whatever the faults, and it covers every file but those of an unsupported format |
| `IngestTheory.RunReportCounts` | src/dikw_core/api_ingest.py:370-376 | the report counts as added the files that landed without a row before, as updated those that landed over one, as errors those that failed, and the chunks of all that landed |
| `IngestTheory.LandedRow` | src/dikw_core/api_ingest.py:575-592 | a file that lands leaves an active complete row of its content, under its own mtime if usable, else the one on record for that content, else the clock's |
| `IngestTheory.SmoothScanSettles` | src/dikw_core/api_ingest.py:188-376 | from any state a smooth scan of distinct paths settles exactly the files that are not stuck beforehand: skipped over a row that is half written; a settled one is active and complete at the file's hash with a positive mtime |
| `IngestTheory.SmoothScanSettlesAll` | src/dikw_core/api_ingest.py:188-376 | everything is settled iff nothing was stuck, and nothing is where every active row is complete |
| `IngestTheory.StuckFileCounterexample` | src/dikw_core/api_ingest.py:345-360 | a fault between row and chunks whose deactivate call fails too leaves a file that a smooth scan reports unchanged and does not settle |
| `IngestTheory.QueueStaysLive` | src/dikw_core/api_ingest.py:312-329 | with distinct paths every queued chunk still exists when embedding starts |
| `IngestTheory.QueueAscends` | src/dikw_core/api_ingest.py:312-329 | the queue of a scan is strictly ascending, so no chunk is queued twice |
| `IngestTheory.QueueIsLiveIff` | src/dikw_core/api_ingest.py:312-329 | for any list of files and any faults: every queued chunk exists when embedding starts iff no file that queued chunks has them replaced by a later file of its path |
| `IngestTheory.SmoothQueueIsLiveIff` | src/dikw_core/api_ingest.py:239-329 | without faults, iff every later file of a path whose chunks were queued has the same content and no assets |
| `IngestTheory.CollidingSourcesNeedEqualContent` | src/dikw_core/api_ingest.py:239-251 | the plainest case, two files with one path at the start of a scan: the second keeps the first one's queue alive iff it is skipped: equal content, no assets |
| `IngestTheory.SecondScanIsQuiet` | src/dikw_core/api_ingest.py:239-251 | a second smooth scan on unchanged files reports every asset-free source unchanged and leaves every row and mtime as it is |
| `IngestRun.QueueMissing` | src/dikw_core/api_ingest.py:402-412 | the resume scan appends the missing chunks that are not queued yet, in their order, and no chunk twice |
| `IngestRun.EmbedBatch` | src/dikw_core/domains/info/embed.py:336-394 | one batch embeds all its chunks, or is refused iff one of them is gone |
| `IngestRun.EmbedQueue` | src/dikw_core/api_ingest.py:430-458 | the bulk pass goes on past skipped batches: what it embeds is the concatenation, in order, of the batches embedded before the first permanent error or vanished chunk, and it covers the queue iff none was skipped |
| `IngestRun.PassMeans` | src/dikw_core/domains/info/embed.py:152-566 | a pass adds vectors for exactly the chunks of the batches embedded before its stop |
| `IngestRun.PassReconciles` | src/dikw_core/domains/info/embed.py:548-566 | a live chunk lacks a vector afterwards only if it is queued and all its batches were skipped or lie at or after the stop |
| `IngestRun.ResumeAndEmbed` | src/dikw_core/api_ingest.py:394-458 | the run's own queue, then every live chunk without a vector by id, through one pass; a live chunk lacks a vector afterwards only if its batches were skipped or lie at or after the stop |
| `IngestRun.RegisterAndScan` | src/dikw_core/api_ingest.py:188-382 | registration before the scan, when an embedder is wired |
| `IngestRun.RunIngest` | src/dikw_core/api_ingest.py:107-573 | a whole run, any faults: complete rows and spaces apart are kept; a fault-free one with an embedder finishes from any state with a vector in the active version for every stored chunk of every layer, and settles all files iff none was stuck |
| `Pages.PersistPage` | src/dikw_core/domains/knowledge/page_index.py:65-218 | row, chunks, the vectors of every batch, links and provenance, cut at any fault |
| `Pages.TryPage` | src/dikw_core/api_synth.py:403-471 | a page write with its handler: all of it, or a prefix of it hidden |
| `Pages.WhenACompletePageIsHidden` | src/dikw_core/api_synth.py:419-458 | the handler hides a page that is active and complete at the cut iff the deactivate call works and nothing had landed over such a page, or each call that had not landed would have written what was there |
| `Pages.PersistSourcePages` | src/dikw_core/api_synth.py:399-471 | the loop goes on after a broken page and ends at the first cancel, with the outcome of each page it got to |
| `Pages.WriteWisdom` | src/dikw_core/api_wisdom.py:146-277 | one wisdom write: created iff no active row was there, the target resolved under the lock, the file first and then the persist; `Pages.LandedPageEmbeds` says which vectors that stores |
| `Pages.LandedPageEmbeds` | src/dikw_core/api_wisdom.py:151-172 | after a page write that lands, its i-th new chunk has a vector under a version iff an embedder is wired, that version is active and is the configured identity, and some batch kept the position; the vector is the cached one of its text or the embedder's |
| `Pages.LandedPageKeepsVectors` | src/dikw_core/domains/knowledge/page_index.py:130-150 | every vector stored before stays as it was, and a new one is for a chunk of the page |
| `Pages.PersistedWisdomMatchesItsFile` | src/dikw_core/api_wisdom.py:248-291 | once the persist has begun, a row that ends up active has the hash of the new file |
| `Pages.LandedPageIsComplete` | src/dikw_core/domains/knowledge/page_index.py:111-211 | a page write that lands leaves row, chunks, links and provenance of one content |
| `Pages.AfterPagesKeeps` | src/dikw_core/api_synth.py:399-471 | a source's page writes keep active rows complete and vector spaces apart |
| `Pages.DoneMeansEveryPageStands` | src/dikw_core/api_synth.py:499-537 | when an attempt earns its done marker every page it wrote is active and complete |
| `Pages.ActiveImpliesComplete` | src/dikw_core/api_ingest.py:253-368 | over every sequence of ingests, synths and wisdom writes, faulted anywhere, every vector is in its space, and every active row is complete if the deactivate calls of the faulted writes worked |
| `Pages.OneIngestRepairs` | src/dikw_core/api_ingest.py:394-458 | after any such history, failed deactivate calls included, one undisturbed ingest whose bulk pass writes what it owes leaves every stored chunk with a vector in the configured space, and every source settled iff none was stuck |
| `Graph.MeansIsUnique` | src/dikw_core/api_graph.py:520-532 | a link means at most one page |
| `Graph.MeansOfRows` | src/dikw_core/api_graph.py:515-532 | the meaning of a target told from the rows: the documents that carry it as their title, or for want of any those with its normalised title, exist and share one path |
| `Graph.ExactLinksNeverRebind` | src/dikw_core/api_graph.py:520-532 | new documents can break an exactly resolved link but never point it elsewhere |
| `Graph.FuzzyLinksRebindIff` | src/dikw_core/api_graph.py:520-532 | a fuzzily resolved link is rebound iff another document arrives as the only one with the target as its exact title |
| `Graph.BuildTitleIndex` | src/dikw_core/api_graph.py:462-465 | each title's bucket lists exactly the paths that carry it, once each |
| `Graph.BuildFuzzyIndex` | src/dikw_core/api_graph.py:466-480 | each normalised title's bucket lists every path of every title with that key, once each |
| `Graph.ResolverIsExact` | src/dikw_core/api_graph.py:520-532 | the index lookups resolve a link to a page iff it means that page |
| `Graph.ResolutionIgnoresOrder` | src/dikw_core/api_graph.py:462-532 | resolution does not depend on the order of the documents |
| `GraphLinks.RecordDocument` | src/dikw_core/api_graph.py:509-561 | the link loop of one document keeps every accumulator equal to its count over the links visited |
| `GraphLinks.BuildGraph` | src/dikw_core/api_graph.py:462-561 | the whole pass: indexes, edge weights and kinds, unresolved counts and neighbour sets agree with the links of all bodies; the `GraphBodies` rows count them at their places |
| `GraphLinks.RecordAgrees` | src/dikw_core/api_graph.py:533-561 | recording one occurrence keeps weights, kinds of first occurrences, unresolved counts, neighbour sets and sums in agreement |
| `GraphBodies.EdgeWeightMeans` | src/dikw_core/api_graph.py:509-561 | an edge is there iff some link of some readable body supports it, and its weight is the number of places, document and position, of such links |
| `GraphBodies.UnresolvedMeans` | src/dikw_core/api_graph.py:533-540 | an unresolved count is the number of places of wikilinks under that text and anchor that mean no page |
| `GraphBodies.EdgeKindMeans` | src/dikw_core/api_graph.py:555-559 | an edge has the kind of the first link that supports it, by document and then by position |
| `GraphBodies.NoLinkIsLost` | src/dikw_core/api_graph.py:487-561 | with distinct path keys weights and unresolved counts add up to the number of places of wikilinks and of markdown links that name a document |
| `GraphTheory.FateMeans` | src/dikw_core/api_graph.py:515-561 | an occurrence joins exactly the edge to the node its link leads to, under its own text and anchor, and is unresolved iff it is a wikilink that means no page |
| `GraphTheory.Conservation` | src/dikw_core/api_graph.py:509-561 | edge weights plus unresolved counts plus lost links equal wikilinks plus markdown links that name a document |
| `GraphTheory.DistinctKeysConserve` | src/dikw_core/api_graph.py:487-561 | with distinct path keys, which the unique `path_key` column of `src/dikw_core/storage/migrations/sqlite/schema.sql:45` supplies, edge weights and unresolved counts account for every wikilink and every markdown link that names a document |
| `GraphTheory.LostIff` | src/dikw_core/api_graph.py:487-554 | what the node-set check guards against: a wikilink would be lost iff it resolves to a document whose key another document has taken |
| `GraphTheory.KeysKeepTheLast` | src/dikw_core/api_graph.py:487 | the path index holds exactly the last document of each key |
| `GraphTheory.EdgesJoinNodes` | src/dikw_core/api_graph.py:548-554 | every edge joins two nodes of the response |
| `GraphTheory.EdgeHasOccurrence` | src/dikw_core/api_graph.py:555-559 | every edge comes from a link some document holds and carries the kind of the first such link |
| `GraphTheory.DegreesAreNeighbours` | src/dikw_core/api_graph.py:560-576 | a node's degrees are its numbers of distinct neighbours along the edges |
| `GraphTheory.DegreesBalance` | src/dikw_core/api_graph.py:560-576 | all in-degrees, all out-degrees and the distinct linked pairs are one number |
| `Revision.FeedBaseRevision` | src/dikw_core/api_graph.py:355-391 | the digest is fed exactly the stream of the documents' entries |
| `Revision.StreamReadsBack` | src/dikw_core/api_graph.py:378-390 | without bars in paths and titles the stream parses back to its entries |
| `Revision.StreamsTellEntriesApart` | src/dikw_core/api_graph.py:359-362 | such streams are equal iff the entries are |
| `Revision.SameRevisionIff` | src/dikw_core/api_graph.py:359-372 | two responses share a stream iff they agree document by document in path, title, layer, mtime, body digest and activity, an absent title being an empty one |
| `Revision.BarsCollide` | src/dikw_core/api_graph.py:379-382 | every entry with a bar in its path or title shares its bytes with another |
| `SynthGroups.Complete` | src/dikw_core/api_synth.py:1459-1545 | the first answer within the retry budget, a skip when all attempts are transient failures, an exception at a permanent error or a cancel between attempts |
| `SynthGroups.EndsOnce` | src/dikw_core/api_synth.py:1459-1545 | the outcome and the number of calls are determined |
| `SynthGroups.ExtendBatch` | src/dikw_core/api_synth.py:1625-1636 | the accumulator and the set of seen titles after a group |
| `SynthGroups.BatchIsFirstPages` | src/dikw_core/api_synth.py:1625-1636 | the in-batch list is exactly the first page of each emitted title, in order, no title twice |
| `SynthGroups.BuildKnownTitleIndex` | src/dikw_core/api_synth.py:1222-1239 | existing titles merged with the batch |
| `SynthGroups.KnownKeepsExisting` | src/dikw_core/api_synth.py:1222-1239 | an existing page keeps its path |
| `SynthGroups.KnownTakesFirst` | src/dikw_core/api_synth.py:1222-1239 | any other title has the path of its first batch entry |
| `SynthGroups.BuildFuzzyOver` | src/dikw_core/domains/knowledge/links.py:172-193 | the normalised index of a title map |
| `SynthGroups.ResolvesIsExact` | src/dikw_core/api_synth.py:1140-1158 | a target counts as satisfied iff it means one page of the map that keeps one path a title |
| `SynthGroups.GraphRefusesCrowded` | src/dikw_core/api_graph.py:520-532 | the base graph, which indexes the titles of all layers, resolves a target that counts as satisfied here iff no two of its documents share its title or, for want of one, its normalised form |
| `SynthGroups.GraphKnowsMore` | src/dikw_core/api_graph.py:433-532 | a target that is not satisfied here and resolves there leads to a document that the title map does not keep under its title, such as a source |
| `SynthGroups.UnresolvedTargets` | src/dikw_core/api_synth.py:1161-1194 | exactly the wikilink targets with a usable key that no known page satisfies |
| `SynthGroups.CountTargets` | src/dikw_core/api_synth.py:1646-1657 | each target of a page counts once however often the page repeats it |
| `SynthGroups.CountUnresolved` | src/dikw_core/api_synth.py:1638-1657 | each counter grows by the number of the group's pages that want the target |
| `SynthGroups.PickPriority` | src/dikw_core/api_synth.py:1376-1387 | at most five unsatisfied targets, most wanted first, nothing left out wanted more than anything listed |
| `SynthGroups.PromptFor` | src/dikw_core/api_synth.py:1368-1390 | a group's prompt shows the earlier groups' titles and the most wanted targets, counted by the earlier pages that wanted them while unsatisfied after their own group |
| `SynthGroups.Remember` | src/dikw_core/api_synth.py:1625-1657 | what the loop keeps after a group |
| `SynthGroups.RunGroup` | src/dikw_core/api_synth.py:1347-1657 | one group of the loop |
| `SynthGroups.SynthPagesFromSource` | src/dikw_core/api_synth.py:1252-1671 | the whole loop: pages, outcomes, error count and every prompt as specified, and an exception iff some group stops it; the `SynthSource` rows tell them from the provider's replies |
| `ExistingPages.BestDistances` | src/dikw_core/api_synth.py:1079-1096 | each document's least distance over the hits of all searches; none iff a search is not supported |
| `ExistingPages.TopK` | src/dikw_core/api_synth.py:1099-1101 | at most K documents, nearest first, none left out nearer than any chosen |
| `ExistingPages.FetchTitled` | src/dikw_core/api_synth.py:1102-1109 | the stored, titled rows of the chosen documents in their order |
| `ExistingPages.TitledRowsMeans` | src/dikw_core/api_synth.py:1102-1109 | one entry for each chosen document that is stored with a title, in the order of the choice, and no other |
| `ExistingPages.ExistingPagesForPrompt` | src/dikw_core/api_synth.py:1027-1109 | all pages while they fit, a prefix when no search is usable, else the titled rows of the top K |
| `ExistingPages.TotalSizeSplits` | src/dikw_core/api_synth.py:1053-1054 | the size tested against the budget holds every row's size once |
| `VectorSearch.VecSearch` | src/dikw_core/storage/sqlite.py:750-785 | the search loop: of the fetched chunks those of active documents of the layer, nearest first, cut to the limit |
| `VectorSearch.SearchMeans` | src/dikw_core/storage/sqlite.py:72-86 | cut or not, the hits are chunks of the layer, nearest first, and nothing nearer is missing; a short search reports the whole layer if its fetch took in the whole index |
| `VectorSearch.ExactIff` | src/dikw_core/storage/sqlite.py:72-86 | a search is exact iff it is full or misses nothing of its layer; so it is when it is full or its fetch took in the whole index |
| `GateTheory.GateIsTrueTopK` | src/dikw_core/api_synth.py:1055-1101 | the choice is a true top-K of every index that gives the results, with fetches that take in the whole of it or with ones that do not, iff some search took in the whole index and is not full, or k are chosen and every search reaches as far as the farthest of them |
| `GateTheory.GateBeyondTheFetch` | src/dikw_core/storage/sqlite.py:72-86 | for the indexes larger than the program's fetch, iff k are chosen and every search reaches as far as the farthest of them |
| `GateTheory.OneHitPerDocumentSuffices` | src/dikw_core/api_synth.py:1080-1101 | the choice is a true top-K of the index when no search names a document twice and all are full or the fetches took in the whole index |
| `GateExamples.ManyChunksCrowdOut` | src/dikw_core/api_synth.py:1080-1101 | a document with two near chunks crowds a nearer one out of full searches over the whole index, and the choice is no true top-K |
| `GateExamples.UnderFilledSearchMisleads` | src/dikw_core/storage/sqlite.py:80-84 | the group's own chunks use up a fetch of ten, the search comes back empty, and a nearer document is left out although no search names one twice |
| `PageDedup.DedupPagesBySlug` | src/dikw_core/domains/knowledge/synthesize.py:337-377 | one page a path in order of first appearance, each the fold of its path's pages |
| `PageDedup.DedupKeepsAttribution` | src/dikw_core/domains/knowledge/synthesize.py:366-375 | each source of each page is on the merged page of its path |
| `PageDedup.FoldKeepsSources` | src/dikw_core/domains/knowledge/synthesize.py:365-375 | a merged page has exactly the sources and tags of its pages, and the first one's title |
| `PageDedup.FoldGrows` | src/dikw_core/domains/knowledge/synthesize.py:366-369 | each page appends, in order, the tags and sources that the pages before it have not |
| `PageDedup.FoldKeepsText` | src/dikw_core/domains/knowledge/synthesize.py:365-375 | a merge loses no text: the merged body has the non-blank text of every page of the path, in order, a rule between each two |
| `PageDedup.KeepFirstKeepsIt` | src/dikw_core/domains/knowledge/synthesize.py:363-364 | where only the first page is kept it is kept whole |
| `PageDedup.PathsByAppearance` | src/dikw_core/domains/knowledge/synthesize.py:353-361 | the paths come in the order of their first pages |
| `PageDedup.DedupPathsAreDistinct` | src/dikw_core/domains/knowledge/synthesize.py:342-350 | no two results share a path |
| `PageDedup.FinalPages` | src/dikw_core/api_synth.py:674 | the self-check's view: one page a path, at its first position, the last one produced |
| `PageDedup.ViewAgainstBase` | src/dikw_core/api_synth.py:403-493 | over all writes of a run, landed or broken: every active page is in the view as stored, and a viewed path is active iff its last write landed |
| `PageDedup.ViewIsTheBaseIff` | src/dikw_core/api_synth.py:663-674 | the view is what the base holds iff no path was broken by its last write after an earlier one had landed |
| `PageDedup.BrokenRewriteCounterexample` | src/dikw_core/api_synth.py:447-493 | two sources give one path and the second persist breaks: the check looks at a page that is neither on disk nor active |
| `WisdomLocks.WriteLocks.Acquire` | src/dikw_core/api_wisdom.py:45-63 | the page's lock, made once and different from every other page's |
| `WisdomLocks.GuardedStepsAcquire` | src/dikw_core/api_wisdom.py:45-63 | the two interleaved steps under the guard have the effect of that method |
| `WisdomLocks.LocksMatchKept` | src/dikw_core/api_wisdom.py:45-63 | whatever lock a writer looks up, waits for or holds is the one lock of its page |
| `WisdomLocks.MutualExclusion` | src/dikw_core/api_wisdom.py:138-146 | two writers of one page share one lock and are never inside together |
| `WisdomLocks.WritersNeverOverlap` | src/dikw_core/api_wisdom.py:138-146 | so in every interleaving |
| `WisdomLocks.CreatedTellsTheRowAtEntry` | src/dikw_core/api_wisdom.py:146-150 | created is true iff the row was absent or inactive when the writer got its lock, whatever others did before it looked |
| `WisdomLocks.PageIsFrozen` | src/dikw_core/api_wisdom.py:138-146 | while a writer is inside, nobody else changes its page |
| `WisdomLocks.LastHolderWins` | src/dikw_core/api_wisdom.py:36-43 | when the last writer to enter has finished, row and file are both its own |
| `WisdomLocks.EveryRunPays` | src/dikw_core/api_wisdom.py:148-150 | each creation beyond the first of an inactive page is paid for by a failed writer |
| `WisdomLocks.CreatedExactlyOnce` | src/dikw_core/api_wisdom.py:108-110 | from an inactive start without failures, once a writer is done exactly one has reported creating the page, and that one is done |
| `WisdomLocks.AtMostOneClaims` | src/dikw_core/api_wisdom.py:140-146 | before that at most one writer claims the creation, as long as none failed |
| `WisdomProgress.StepsInOrder` | src/dikw_core/api_wisdom.py:138-275 | each writer takes its nine steps in order and none twice: one that is done has taken them all |
| `WisdomProgress.SomebodyMoves` | src/dikw_core/api_wisdom.py:45-146 | as long as a writer is not out somebody can take a step that is no failure: guard and locks never wait for each other |
| `WisdomProgress.StuckRunsAreOver` | src/dikw_core/api_wisdom.py:138-275 | a run that cannot go on has every writer done or failed |
| `WisdomProgress.FailuresStrikeAnywhere` | src/dikw_core/api_wisdom.py:138-275 | where a failure can strike, and that one inside the persist leaves the row inactive |
| `WisdomProgress.ActiveRowsLanded` | src/dikw_core/api_wisdom.py:232-275 | an active row of a writer of the run is on its page and comes from a persist that landed, or is about to |
| `AtomicFiles.Directory.PrepareTemp` | src/dikw_core/domains/_atomic.py:40-44 | the temporary file with the whole text and the path's mode, the path untouched |
| `AtomicFiles.Directory.AtomicWriteText` | src/dikw_core/domains/_atomic.py:26-49 | one call is a run of its own steps: the whole text and the old mode on success, the old file on failure, no temporary file left unless its removal failed |
| `AtomicFiles.Directory.ReservePath` | src/dikw_core/domains/_atomic.py:52-68 | claims the name iff it is free |
| `AtomicFiles.PathIsARegister` | src/dikw_core/domains/_atomic.py:26-49 | in every interleaving, faults included, the path is an atomic register written by renames and claims |
| `AtomicFiles.ReadersSeeWholeWrites` | src/dikw_core/domains/_atomic.py:26-49 | a reader finds the initial file, a claimed placeholder, or the whole text of one finished writer |
| `AtomicFiles.FailuresLeaveThePath` | src/dikw_core/domains/_atomic.py:41-49 | without a rename an existing file is untouched |
| `AtomicFiles.ModeSurvives` | src/dikw_core/domains/_atomic.py:34-45 | an existing file keeps its mode through any rewrites |
| `AtomicFiles.OneClaimWins` | src/dikw_core/domains/_atomic.py:52-68 | at most one claimant wins a name, none wins a taken one |
| `AtomicFiles.ExactlyOneClaimant` | src/dikw_core/domains/_atomic.py:52-68 | racing claimants of an absent name that nobody renames onto: exactly one returns true |
| `Welch.VarianceNonNegative` | evals/tools/ab_experiment.py:50-59 | the sample variance is not negative |
| `Welch.StdSquared` | evals/tools/ab_experiment.py:50-59 | the standard deviation squared is the variance |
| `Welch.FreedomBounds` | evals/tools/ab_experiment.py:152-157 | the degrees of freedom lie between the smaller arm's and both arms' together, and reach the upper bound iff the spreads are in the ratio of the sizes |
| `Welch.FreedomStaysInBounds` | evals/tools/ab_experiment.py:131-158 | so for every pair of arms with two values or more |
| `Welch.EvenP` | evals/tools/ab_experiment.py:116-128 | the two-sided p-value does not see the sign of the statistic |
| `Welch.SwappingNegates` | evals/tools/ab_experiment.py:131-158 | swapping the arms negates the statistic and keeps degrees of freedom and p-value |
| `AbCompare.UnitsDoNotMatter` | evals/tools/ab_experiment.py:131-158 | a shift and any non-zero scale shared by both arms keep degrees of freedom and p-value, and the statistic up to the scale's sign |
| `AbCompare.EffectSwaps` | evals/tools/ab_experiment.py:161-179 | swapping the arms negates the effect size |
| `AbCompare.TestMatchesEffect` | evals/tools/ab_experiment.py:131-179 | for arms of one size n, twice the squared statistic is n times the squared effect size |
| `AbCompare.ConstantArms` | evals/tools/ab_experiment.py:131-179 | two arms that do not vary: an infinite statistic with the sign of the difference and p-value zero, or zero and one if they agree; a standardised effect only if they agree |
| `AbCompare.VaryingArms` | evals/tools/ab_experiment.py:131-158 | otherwise arms with different means give a finite non-zero statistic with the sign of the difference, and the p-value is both tails at it |
| `AbCompare.ViewIsIgnored` | evals/tools/ab_experiment.py:187-192 | a view prefix does not change a metric's direction |
| `AbCompare.GateSwaps` | evals/tools/ab_experiment.py:230-250 | what ships one way round regresses the other way round |
| `AbCompare.DirectionMeans` | evals/tools/ab_experiment.py:187-192 | lower is better for exactly the names that end in `_max`, whatever their view |
| `AbCompare.ShipsMeans` | evals/tools/ab_experiment.py:243-250 | what ships has a small p-value and moved in the metric's better direction by more than the noise floor; what regresses, in the other |
| `AbCompare.GateIsExclusive` | evals/tools/ab_experiment.py:246-250 | a metric both ships and regresses only under a negative noise floor, and with a p-value bound of at most one does neither on an arm of fewer than two runs |
| `Subsample.JudgedQueries` | evals/tools/prep_cmteb_t2.py:108-115 | exactly the queries with a positive judgement on a corpus document |
| `Subsample.RelevantDocuments` | evals/tools/prep_cmteb_t2.py:125-129 | exactly the corpus documents positively judged for a drawn query |
| `Subsample.PickDistractors` | evals/tools/prep_cmteb_t2.py:138-150 | the drawn distractors fill the sample to the target, or all are taken |
| `Subsample.SubsampleQueries` | evals/tools/prep_cmteb_t2.py:70-167 | the drawn queries, all their gold documents and the drawn distractors, in exact numbers, the judgement rows in their order, the statistics, and each refusal with its count exactly when it is due |
| `Subsample.SampledQueriesKeepTheirGold` | evals/tools/prep_cmteb_t2.py:97-167 | each sampled query keeps a positive judgement, and all it had on the corpus |
| `Convert.StratifiedSample` | evals/tools/convert_cmteb.py:60-77 | the relevant ids always, the size never exceeded beyond them, and everything once there is room for every listing |
| `Convert.DistinctIdsLeaveRoom` | evals/tools/convert_cmteb.py:70-77 | of distinct ids the sample has exactly the size asked for, within what there is and never below the relevant ids, and is everything iff there is room or nothing to add |
| `Convert.RepeatedIdsCanPushOut` | evals/tools/convert_cmteb.py:73-76 | an instance: a sample of two out of a, a, b can be a alone |
| `Convert.NothingPushedOutIff` | evals/tools/convert_cmteb.py:70-77 | of any ids, the sample is everything under every shuffle iff fewer listings are left out than any other id has |
| `Convert.LoadQrels` | evals/tools/convert_beir.py:83-106 | the positive judgements of each query in row order |
| `Convert.WriteCorpus` | evals/tools/convert_cmteb.py:122-139 | every kept document under its stem, or the error of the first kept line that has no stem or shares one |
| `Convert.EmitQuestions` | evals/tools/convert_cmteb.py:141-162 | exactly the asked queries with a written answer, the others counted as dropped |
| `Convert.SurvivorsMean` | evals/tools/convert_cmteb.py:150-162 | the questions are, in order, those of the queries with an id, a text and a written answer, each with its text and, once a judgement, the stems of its written answers |
| `Convert.ConvertBundle` | evals/tools/convert_cmteb.py:110-168 | the whole conversion |
| `TwoStage.EveryDocumentIsKept` | evals/tools/convert_cmteb.py:60-77 | with room for the first stage's target the second keeps every document |
| `TwoStage.EveryQueryIsAnswerable` | evals/tools/convert_cmteb.py:150-162 | each sampled query has a written answer |
| `TwoStage.ConvertSample` | evals/tools/convert_cmteb.py:87-168 | on a sample of the first stage, with room for its target, every document is written and no query with an id and a text is dropped; an error iff a sampled id has no stem or shares one, or no query has both, and each error names what is there |
| `TwoStage.PrepareAndConvert` | evals/tools/convert_cmteb.py:87-168 | both stages lose no document and no query with an id and a text; the first refuses iff too few queries are judged or their gold exceeds the target, the second fails iff a sampled id has no stem, two share one, or no sampled query has an id and a text |
| `CachedEmbedder.Cached.Embed` | evals/tools/run_phase15_from_snapshot.py:89-106 | the plain embedder's answer, with at most one inner call, for exactly the texts the cache lacks; a failed call leaves the cache as it was |
| `CachedEmbedder.Cached.Lookup` | evals/tools/run_phase15_from_snapshot.py:90-99 | hits fill their slots, misses are listed with their positions |
| `CachedEmbedder.MissesMean` | evals/tools/run_phase15_from_snapshot.py:89-99 | text by text: a cached one is not asked for, any other is listed where it stands |
| `CachedEmbedder.Cached.Store` | evals/tools/run_phase15_from_snapshot.py:101-104 | the new vectors fill the slots of the misses and join the cache |
| `CachedEmbedder.Batches` | evals/tools/run_phase15_from_snapshot.py:109-111 | batches of the size asked for that join back to their input |
| `CachedEmbedder.PrebatchQueryEmbeds` | evals/tools/run_phase15_from_snapshot.py:114-130 | each distinct query is embedded once, batch by batch up to the first call that raises, and the cache is given up iff one does |
| `CachedEmbedder.ServeWarm` | evals/tools/run_phase15_from_snapshot.py:89-106 | on a warm cache any requests get the plain answers without an inner call |
| `CachedEmbedder.Replay` | evals/tools/run_phase15_from_snapshot.py:114-130 | the plain answers, each distinct query asked for once and never again; no answers iff a warm-up call raises, after which no more are made |

## Left out

- LLM prompts and answers as text, response parsing, link parsing, title and path normalisation: functions and values given to the model.
- Order of the backfill: any order is allowed where the program sorts.
- Two cancels inside one handler's suppressed append (`src/dikw_core/api_synth.py:431`): the second window is not modelled.
- A process killed inside a persist: faults and cancels there are modelled, kills only between log appends.
- Concurrency between writers of one base other than the vector-space machine, the wisdom locks and the atomic files: the server serialises them with one lock.
- Pages.ActiveImpliesComplete: holds for histories whose suppressed deactivate calls succeeded, as the program's handlers assume.
- Pages.WriteWisdom: a cancel polled after the persist, when the write has landed and only the caller's answer is lost.
- PageDedup.ViewAgainstBase: the handler's deactivate call works; what a failed one leaves is studied in `Pages`.
- GateTheory.GateIsTrueTopK: distances are any numbers, so an index may be one that no set of embeddings realises.
- VectorSearch.SearchMeans: every chunk in the index has a distance; zero vectors, which use up places of a fetch and are then dropped, and the error for an embedding of another dimension are not modelled.
- Assets and multimodal vectors: only the chunk-to-asset bridge of a document is modelled, with its counts of wanted and written references.
- Embedding cache failures and the contents of vectors: a vector is read as its space and its text.
- Hash collisions: a content hash stands for its content, and only the stream behind the revision digest is studied.
- SynthGroups.PickPriority: the order among targets with equal counts is not fixed, because the program takes it from the iteration order of a set.
- ExistingPages.TopK: the order among documents at equal distance is not fixed.
- Revision.FeedBaseRevision: texts are sequences of characters; UTF-8 maps them injectively and writes a bar or a line break for nothing else.
- Revision.BarsCollide: the twin entry need not sort at the same place among several documents; for one document it is a collision of two responses.
- Welch: floating-point rounding, the continued fraction and the logarithmic gamma function; the square root is any function with its defining equation and the incomplete beta function is any function.
- CachedEmbedder.Cached.Embed: the inner embedder answers a text the same way in every batch.
- Subsample.SubsampleQueries: random draws are any functions that return the asked number of members of their pool.
- TwoStage.PrepareAndConvert: the corpus has no document with an empty id; the second stage drops such a line.
- AtomicFiles.PathIsARegister: one path and writers with distinct temporary names; nobody deletes the path.
- Collecting runs and comparing all metrics of two arms, which maps `compare_metric` over the shared names.
- Sorting nodes, edges and unresolved links in the graph response, timestamps, and the safety filter on paths.
- Lint, retrieval, query answering, storage adapters beyond the tables above, HTTP server, client, configuration and telemetry.
