# Verification of the air quality collectors

A Dafny model of the parts of the repository whose correctness depends on order, crashes or late
data, with proofs about every input and every run. `dafny verify dfyconfig.toml` checks all of it.

| file | what it models |
|---|---|
| `Storage.dfy`, `Publication.dfy` | the write-ahead journal of the billing archive: staging, publishing and recovery over a disk whose directory changes become durable only when the directory is synchronised |
| `Collector.dfy` | `collect` and `main` around that journal: the SQL tables, the commit whose outcome may be unknown, pruning, interrupted attempts, any sequence of processes and power losses |
| `Window.dfy` | which days a billing run aggregates: backfill, incremental and refresh, with a watermark that also moves in failed runs |
| `CronEpisodes.dfy`, `CronTracker.dfy` | the watchdog's outage tracker: takeover runs, episodes, persistent records and their reports |
| `LogArchive.dfy` | the log archiver: merging by identity, windows, both checkpoints, crashes between them |
| `ViewTokens.dfy`, `ViewGrammar.dfy` | the SQL lexer that compares deployed views, and what its tokens look like character by character |
| `Timeline.dfy`, `DisplayDays.dfy`, `Families.dfy` | the Breathe London identity timeline: trimmed intervals, sampled days, the graph of linked sites |
| `LocalCache.dfy` | the two-file cache of remote objects beside other writers |
| `Reports.dfy`, `ReportMeaning.dfy` | report totals, and what a report shows said of the rows alone |
| `AckChunks.dfy` | acknowledgement batches |
| `IntSets.dfy`, `Orders.dfy`, `Texts.dfy`, `Times.dfy`, `Options.dfy` | least elements, sorting, string order, days, missing values |

## How the model is built

Code that changes state is a class with methods, or a method with a loop, tied by its `ensures` to
a predicate or function; what the source promises is then proved of that predicate or function.

* **Failures.** A step that can fail ends with `ok := *`: an exception or the death of the process.
  Whatever a method promises without `ok` therefore holds at every point where it can stop. Where it
  is promised that nothing else makes a run fail, a ghost counter `faults` notes each failed step,
  and `Explains(old(faults), ok)` says that `ok` is false only if the counter has grown.
* **Power loss.** A billing directory is its current listing and every older one since its last
  synchronisation; a crash leaves any one of them, directory by directory. A file being written
  shows as `Torn`. A log archive keeps the visible and the durable file of each day.
* **The invariant of the journal**, `Publishing.Inv`, speaks of every pair of a runtime listing and
  an archive listing a crash could leave, so recovery works from each of them, and recovery keeps
  it at every step, so recovery may itself be interrupted any number of times. It also says that in
  every such listing evidence claims a success only if its run committed.
* **The clock and other processes** are parameters, nondeterministic values, or, in the cache, a
  method `Others` that runs between any two steps.

## Where the code falls short

* `publication.json.new` can stay in the runtime directory: recovery removes only the journal
  (`local/gcp_billing/publication.py:72-101`). `Publishing.InterruptedSaveIsOne` is a disk that an
  interrupted save leaves and `Publishing.RecoverLeavesJournalNew` the recovery that completes there
  with the file still present. Exactly: `Publishing.Recover` ensures, however it ends, that the file
  is there afterwards if and only if it was there before. The archive directories are always left
  clean.
* Pruning can drop a decision that a journal still needs. If the journal was unlinked but the
  runtime directory not synchronised (`local/gcp_billing/publication.py:100-101`), and then
  `run_history_limit - 1` attempts fail before writing a journal, the next attempt prunes the
  success row (`local/gcp_billing/collector.py:231-234`); a power loss may bring the journal back,
  and recovery then removes files of a committed run.
  * `Collecting.PruneHazardExample` is that state after the first run of a source, over any days and
    rows, with the journal of everything the run staged; `Collecting.UnsafePruneLosesFile` gives the
    power loss and a committed file that recovery removes, in any such state.
  * `Collecting.PruneSafeExactly` is the exact condition on disk and rows. The journal of a committed
    run that could come back is always that of the newest success of its source, so what can be
    read from `sync_runs` beforehand decides it too: by `Collecting.NewestKeptExactly` pruning is safe on every consistent
    disk if and only if no success row is dropped or a newer one of the source is kept.
  * `Collecting.Collector.Prune` keeps consistency exactly when it is safe. A run reported as done
    restores safety for every source (`Collecting.Collector.Collect`), and
    `Collecting.Collector.Lifetime` holds up to the first process that would prune unsafely.
* After a refresh run not every visible row up to its cutoff is counted: the rows of other days
  wait for the next incremental run (`local/gcp_billing/collector.py:200-206`).
  `Windows.RefreshIsNotEnough` is a backfill, a row exported after it, and a refresh of another day.
  By `Windows.RefreshCoversExactly` a refresh has counted everything if and only if the rows an
  incremental run would look at, `export_time` at or after the watermark less the overlap, were
  counted already unless they lie on a day it refreshes; `Windows.RefreshCovers` says the same
  without the watermark. Incremental runs and the last backfill batch do count everything.
* A cache hit is only as good as the digest: `LocalCache.CollisionIsNotCaught`.

## Model

| member | source | states |
|---|---|---|
| Storage.Disk.Write | local/gcp_billing/publication.py:15-22 | a file changes in its directory alone, or the step fails and nothing changes |
| Storage.Disk.Rename | local/gcp_billing/publication.py:21-22 | a rename needs its source, replaces its target, and stays undoable by a crash |
| Storage.Disk.FsyncDir | local/gcp_billing/publication.py:25-30 | synchronising forgets the older listings, so a crash keeps the current one |
| Storage.Disk.Atomic | local/gcp_billing/publication.py:15-22 | an atomic write leaves, wherever it stops, only listings on the way to its result, and on success the result, durable and with no temporary file |
| Storage.Disk.Crash | local/gcp_billing/publication.py:25-30 | a power loss leaves in each directory one of the listings it may still show |
| Publishing.CrashKeepsInv | local/gcp_billing/publication.py:39-101 | a crash at any moment keeps the invariant |
| Publishing.NoJournalMeansPristine | local/gcp_billing/publication.py:72-75 | without a journal the archive holds exactly the committed content, with no incoming, `.new` or backup file, in every state a crash could leave |
| Publishing.PristineListing | local/gcp_billing/publication.py:72-75 | each archive directory then lists the committed files that belong there and nothing else |
| Publishing.IntentKeeps | local/gcp_billing/publication.py:47-49 | adding an item to the journal before its file exists keeps the invariant at every step of the save |
| Publishing.IncomingKeeps | local/gcp_billing/publication.py:50 | writing the incoming file after the intent keeps it too |
| Publishing.MovingKeeps | local/gcp_billing/publication.py:62-69 | so does each rename of publication, before the directory is synchronised |
| Publishing.MovedOn | local/gcp_billing/publication.py:65-69 | after the renames and the synchronisation the destination durably has its new content, and earlier destinations are undisturbed |
| Publishing.CommitKeeps | local/gcp_billing/collector.py:271-282 | once everything is published, the commit alone changes what recovery will do, from undoing to keeping, whichever listing survives |
| Publishing.RollBackFits | local/gcp_billing/publication.py:85-93 | every step of undoing one item keeps what any journal that could survive promises |
| Publishing.RollBackSettles | local/gcp_billing/publication.py:85-93 | undoing an item restores the old content, or its absence, with nothing beside it |
| Publishing.RecoverItemKeeps | local/gcp_billing/publication.py:81-93 | recovering one item, wherever it stops, keeps the invariant and the items already recovered |
| Publishing.AnnotateKeeps | local/gcp_billing/publication.py:94-99 | rewriting the evidence as a success can be interrupted and repeated |
| Publishing.FinishedIsPristine | local/gcp_billing/publication.py:94-101 | after the last item and the annotation the archive is exactly as the decision calls for |
| Publishing.JournalGone | local/gcp_billing/publication.py:100-101 | removing the journal then keeps the invariant even before the runtime directory is synchronised |
| Publishing.RecoverItem | local/gcp_billing/publication.py:81-93 | the three unlinks and the optional rename of an item, with every listing on the way |
| Publishing.RecoverFiles | local/gcp_billing/publication.py:81-93 | all items, last first, and the journal untouched meanwhile |
| Publishing.AnnotateEvidence | local/gcp_billing/publication.py:94-99 | evidence becomes a success only when the row committed |
| Publishing.Recover | local/gcp_billing/publication.py:71-101 | a completed recovery leaves, durably, the new content if the row committed and the old otherwise, and no journal; an interrupted one can be started again and leaves a journal; it completes unless a step fails; `publication.json.new` stays if and only if it was there |
| Publishing.InterruptedSaveIsOne | local/gcp_billing/publication.py:59-60 | a save of the second item, stopped before its rename, leaves a recoverable disk with `publication.json.new` |
| Publishing.RecoverLeavesJournalNew | local/gcp_billing/publication.py:72-101 | a recovery that completes there removes the journal and leaves that file |
| Publishing.Publication.Save | local/gcp_billing/publication.py:59-60 | the journal is replaced as a whole |
| Publishing.Publication.Intend | local/gcp_billing/publication.py:39-49 | the intent is durable before any new file, with the right `existed` |
| Publishing.Publication.StageIncoming | local/gcp_billing/publication.py:50-51 | the staged content waits beside its destination |
| Publishing.Publication.Stage | local/gcp_billing/publication.py:39-57 | staging appends one item and keeps the invariant wherever it stops |
| Publishing.Publication.PublishItem | local/gcp_billing/publication.py:63-69 | one destination moved aside and replaced; if it appeared or vanished since it was staged, refused with nothing changed |
| Publishing.Publication.Publish | local/gcp_billing/publication.py:62-69 | on success every staged destination durably holds its new content, and the journal is untouched; it fails only if a step does |
| Collecting.PruneSafeExactly | local/gcp_billing/collector.py:231-234 | pruning keeps every decision recovery may need if and only if it drops no success row of a journal a crash could bring back |
| Collecting.UnsafePruneLosesDecision | local/gcp_billing/collector.py:231-234 | otherwise a committed journal that could survive has no row |
| Collecting.UnsafePruneLosesFile | local/gcp_billing/publication.py:77-90 | and some power loss then brings back a journal by which recovery removes a committed file that is there |
| Collecting.UnsyncedInv | local/gcp_billing/publication.py:100-101 | an archive settled as committed, its journal unlinked and the directory not synchronised, is recoverable |
| Collecting.PruneHazardExample | local/gcp_billing/collector.py:231-234 | the first run of a source over any days and rows, left so, and as many failed attempts as rows are kept: everything is consistent and pruning is unsafe |
| Collecting.NoJournalLeftIsPruneSafe | local/gcp_billing/publication.py:100-101 | pruning is safe once the removal of the journal is durable |
| Collecting.NewestKeptIsSafe | local/gcp_billing/collector.py:231-234 | pruning is safe on every disk when no success row is dropped or a newer one is kept |
| Collecting.NewestKeptExactly | local/gcp_billing/collector.py:231-234 | that is the weakest condition on the rows of `sync_runs`: otherwise some consistent disk is unsafe to prune |
| Collecting.ReplacedDayRows | local/gcp_billing/collector.py:158-165 | replacing days changes their rows and no others |
| Collecting.PlanLookup | local/gcp_billing/collector.py:252-270 | what a run stages for each destination |
| Collecting.ReportNamesExactly | local/gcp_billing/reports.py:39-54 | every report but that on Cloud Run resources, and that too for the detailed source |
| Collecting.FilesExactly | local/gcp_billing/collector.py:252-270 | the evidence names exactly what else the run stages |
| Collecting.CommitMatches | local/gcp_billing/collector.py:248-282 | tables and archive change together: every day file, report and evidence says what the tables say after the commit |
| Collecting.CommitComplete | local/gcp_billing/collector.py:248-282 | and every day with rows, every report and every committed run's evidence keeps or gets its file |
| Collecting.CommitConsistent | local/gcp_billing/collector.py:271-282 | the commit keeps disk, rows, tables and archive consistent |
| Collecting.CommitRowsOk | local/gcp_billing/collector.py:271-282 | after the commit the only journal that can survive is that of the newest success of its source |
| Collecting.EvidenceIsCreated | local/gcp_billing/collector.py:260-270 | a run that has not committed finds no evidence of its own in the archive, so its journal creates it |
| Collecting.DecisionsAgree | local/gcp_billing/publication.py:77-80 | recovery's question to `sync_runs` has the right answer for every journal that could survive |
| Collecting.InsertRowsOk | local/gcp_billing/collector.py:236-238 | a new `running` row changes no decision |
| Collecting.UpdateRowsOk | local/gcp_billing/collector.py:277-301 | marking an undecided run as failed changes no decision |
| Collecting.InterruptRowsOk | local/gcp_billing/collector.py:357-360 | marking interrupted attempts after recovery changes no decision |
| Collecting.PruneSafeElsewhere | local/gcp_billing/collector.py:366-374 | collecting one source leaves pruning another as safe as it was |
| Collecting.CrashKeepsConsistent | local/gcp_billing/collector.py:224-310 | consistency survives a power loss at any moment |
| Collecting.QuiescentArchive | local/gcp_billing/collector.py:248-282 | with no journal pending every file is a published one and says what the committed tables say |
| Collecting.NothingMissing | local/gcp_billing/collector.py:248-282 | and every day with rows, every report of a committed source and the evidence of every committed run is there |
| Collecting.Collector.StageDays | local/gcp_billing/collector.py:252-256 | each day's rows replaced in the transaction and its archive staged |
| Collecting.Collector.StageReports | local/gcp_billing/collector.py:257-259 | every report of the source staged over the new table |
| Collecting.Collector.StageEvidence | local/gcp_billing/collector.py:260-270 | prepared evidence, staged last, claims no success |
| Collecting.Collector.Commit | local/gcp_billing/collector.py:273-302 | all or nothing, whatever the client is told |
| Collecting.Collector.Attempt | local/gcp_billing/collector.py:241-282 | a run that stops anywhere has either its whole effect or none |
| Collecting.Collector.Prune | local/gcp_billing/collector.py:231-234 | the newest rows are kept, and everything stays consistent exactly when pruning was safe |
| Collecting.Collector.Begin | local/gcp_billing/collector.py:225-238 | pruning and the new row precede any journal; if pruning is safe all stays consistent and the new row is the newest of its source |
| Collecting.Collector.HandleFailure | local/gcp_billing/collector.py:283-302 | after a failure the durable decision is read before any file is touched: unless another step fails, a committed run is finished and leaves no journal, and any other is undone and then marked failed |
| Collecting.Collector.MarkFailed | local/gcp_billing/collector.py:296-302 | only an undecided run is marked failed |
| Collecting.Collector.AttemptAndFinish | local/gcp_billing/collector.py:241-308 | the attempt, its handler and the final recovery: the whole effect or none, and a success leaves no journal that could come back |
| Collecting.Collector.Collect | local/gcp_billing/collector.py:224-310 | started without a journal, a run has all its effect if its row committed and none otherwise, and so has its row in `sync_runs`; it is reported done exactly if it committed and no journal can come back, and then every source is safe to prune; it is done unless a step fails or the state belongs to another account or view |
| Collecting.Collector.RecoverNow | local/gcp_billing/collector.py:295-308 | recovery with the rows of the database |
| Collecting.Collector.MarkInterrupted | local/gcp_billing/collector.py:358-363 | interrupted attempts become failed, after recovery has read the rows |
| Collecting.Collector.RunSources | local/gcp_billing/collector.py:338-377 | recovery, marking, then every source in turn: one is left out only behind a source that ended the process or left a journal pending; no attempt but its own is left marked as running; the exit code is zero exactly if all were done, and then all have committed; without a failing step all are tried |
| Collecting.Collector.CollectAll | local/gcp_billing/collector.py:364-375 | the loop over the sources, and which outcome stops it |
| Collecting.Collector.Lifetime | local/gcp_billing/collector.py:313-377 | any sequence of processes, failures and power losses, up to the first process that would prune unsafely, keeps consistency and every committed run |
| Windows.IncrementalCovers | local/gcp_billing/collector.py:207-221 | what lies before the overlap was visible to the run that last counted everything, so an incremental run misses no row, even when failed runs moved `newest_export_time` |
| Windows.NothingLost | local/gcp_billing/collector.py:158-165 | re-aggregating a day never loses a counted row |
| Windows.FetchedHas | local/gcp_billing/collector.py:133-155 | a day query with a cutoff counts each row of its day visible by then, and only those |
| Windows.RefreshCovers | local/gcp_billing/collector.py:200-206 | a refresh has counted everything if and only if the rows of other days were already counted |
| Windows.RefreshCoversExactly | local/gcp_billing/collector.py:200-221 | of the rows an incremental run would look at, those of other days decide whether a refresh has counted everything |
| Windows.RefreshIsNotEnough | local/gcp_billing/collector.py:200-206 | a backfilled source, a row exported later, and a refresh of another day that leaves it out |
| Windows.BatchDone | local/gcp_billing/collector.py:193-198 | a backfill batch adds exactly its days to what is counted, and keeps the rest |
| Windows.Increment | local/gcp_billing/collector.py:207-221 | the days of exactly the rows seen, and a watermark and newest export time that move up to everything seen and to nothing else |
| Windows.Collector.Discover | local/gcp_billing/collector.py:175-192 | the first batch fixes the cutoff, the first and last day with rows and the newest export time; an accepted history has rows within its bounds, one refused for its rows does not |
| Windows.Collector.SelectBackfill | local/gcp_billing/collector.py:173-198 | a whole batch of days or those that are left, and the watermark with the last one |
| Windows.Collector.SelectIncremental | local/gcp_billing/collector.py:207-221 | exactly the days with a row in the window, a watermark that moves up to the latest export time seen, and a refusal exactly when a row is outside the history |
| Windows.Collector.SelectRefresh | local/gcp_billing/collector.py:199-206 | the days asked for, the watermark as it was; refused exactly without a watermark or dates, or outside the bounds |
| Windows.Collector.SelectWindow | local/gcp_billing/collector.py:168-221 | the plan of each mode |
| Windows.Collector.FetchDays | local/gcp_billing/collector.py:248 | each day's query at its own time, never before the run began |
| Windows.Collector.Collect | local/gcp_billing/collector.py:224-282 | no row once counted is lost; an incremental run, and the last backfill batch for its cutoff, have counted every visible row exactly in its day; the watermark moves to the latest export time seen, backfills advance by whole batches; a failed run changes no fact, and fails only if refused or if a step failed |
| CronEpisodes.TakeoverRuns | scripts/mbpro_scheduler_watchdog/uk_aq_scheduler_watchdog.py:381-399 | exactly the maximal runs of consecutive takeover minutes, in order, with their lengths |
| CronEpisodes.MaximalRunsMeet | scripts/mbpro_scheduler_watchdog/uk_aq_scheduler_watchdog.py:381-399 | maximal runs that overlap are equal |
| CronEpisodes.LengthCounts | scripts/mbpro_scheduler_watchdog/uk_aq_scheduler_watchdog.py:387-399 | the length of a run is the number of its observed slots |
| CronEpisodes.FirstAfterIsFirst | scripts/mbpro_scheduler_watchdog/uk_aq_scheduler_watchdog.py:477-480 | the recovery slot is the first Cloudflare slot after the run |
| CronEpisodes.MergeRun | scripts/mbpro_scheduler_watchdog/uk_aq_scheduler_watchdog.py:481-496 | only the last episode can share a run's recovery, and it takes the run with no Cloudflare slot between |
| CronEpisodes.StartEpisode | scripts/mbpro_scheduler_watchdog/uk_aq_scheduler_watchdog.py:482-491 | a run with another recovery is separated from the episodes so far by a Cloudflare slot |
| CronEpisodes.CollectEpisodes | scripts/mbpro_scheduler_watchdog/uk_aq_scheduler_watchdog.py:471-496 | the loop over the qualifying runs |
| CronEpisodes.QualifyingEpisodes | scripts/mbpro_scheduler_watchdog/uk_aq_scheduler_watchdog.py:462-508 | episodes contain no Cloudflare slot, any two are separated by one, every qualifying run is in one, and counts and gaps are as observed |
| CronEpisodes.EpisodesDetermined | scripts/mbpro_scheduler_watchdog/uk_aq_scheduler_watchdog.py:462-508 | that description has one solution |
| CronEpisodes.NoGapsIsOneRun | scripts/mbpro_scheduler_watchdog/uk_aq_scheduler_watchdog.py:501-507 | an episode without gaps is one fully observed run, its count `(end - start) / 60 + 1` |
| CronTracking.Anchors | scripts/mbpro_scheduler_watchdog/uk_aq_scheduler_watchdog.py:523-537 | the episode that contains each identity anchor |
| CronTracking.MatchOutages | scripts/mbpro_scheduler_watchdog/uk_aq_scheduler_watchdog.py:539-598 | every episode goes to the first free record anchored in it, else to the first that lost its anchor and overlaps it, and only else to a new one, which has the identity and payload of the episode; identities and payloads never change, a recovery is noted once over, other records stay as they were |
| CronTracking.AnchorsGrow | scripts/mbpro_scheduler_watchdog/uk_aq_scheduler_watchdog.py:519-537 | late evidence never disturbs an anchor or merges two |
| CronTracking.AllAreAnchored | scripts/mbpro_scheduler_watchdog/uk_aq_scheduler_watchdog.py:523-537 | every anchor is in one episode, no two in the same |
| CronTracking.RecomputeCorresponds | scripts/mbpro_scheduler_watchdog/uk_aq_scheduler_watchdog.py:510-599 | after a recompute records and episodes correspond one to one with equal start, end and count |
| CronTracking.ShownDetermined | scripts/mbpro_scheduler_watchdog/uk_aq_scheduler_watchdog.py:510-599 | what records show depends on the observations only |
| CronTracking.RecordsApart | scripts/mbpro_scheduler_watchdog/uk_aq_scheduler_watchdog.py:539-598 | a Cloudflare slot lies between any two shown outages |
| CronTracking.InactiveExactly | scripts/mbpro_scheduler_watchdog/uk_aq_scheduler_watchdog.py:544-595 | a matched record, whatever was pruned, shows an outage as over exactly if every minute of it was observed and a Cloudflare slot follows, the first of which is its recovery |
| CronTracking.InactiveIsFullyObserved | scripts/mbpro_scheduler_watchdog/uk_aq_scheduler_watchdog.py:544-595 | a matched record, whatever was pruned, shows an outage as over only when it is one fully observed run with a later recovery slot |
| CronTracking.PrunedExactly | scripts/mbpro_scheduler_watchdog/uk_aq_scheduler_watchdog.py:601-610 | the slots of the last two hours are kept, and no others |
| CronTracking.AcceptAllKeys | scripts/mbpro_scheduler_watchdog/uk_aq_scheduler_watchdog.py:623-635 | conflict-free observations are all accepted, and nothing else is |
| CronTracking.OrderIndependent | scripts/mbpro_scheduler_watchdog/uk_aq_scheduler_watchdog.py:612-637 | the same observations in any order and with repetitions lead to the same outages |
| CronTracking.SubmitAccounted | scripts/mbpro_scheduler_watchdog/uk_aq_scheduler_watchdog.py:638-648 | submitting a due report keeps at most one pending and none after success |
| CronTracking.FinishAccounted | scripts/mbpro_scheduler_watchdog/uk_aq_scheduler_watchdog.py:695-749 | a finished report was one of at most five |
| CronTracking.CronHealthTracker.Recompute | scripts/mbpro_scheduler_watchdog/uk_aq_scheduler_watchdog.py:510-599 | the recompute on the tracker's own state |
| CronTracking.CronHealthTracker.Record | scripts/mbpro_scheduler_watchdog/uk_aq_scheduler_watchdog.py:612-648 | a conflict changes nothing; otherwise the slot is added, old slots pruned, every episode shown, identities and reports kept, and exactly the due reports handed over, a new outage at once and none already reported |
| CronTracking.CronHealthTracker.SubmitDue | scripts/mbpro_scheduler_watchdog/uk_aq_scheduler_watchdog.py:638-648 | exactly the records that have not succeeded, are not in flight, have an attempt left and are past its time are submitted, and only flags change |
| CronTracking.CronHealthTracker.SubmitFailed | scripts/mbpro_scheduler_watchdog/uk_aq_scheduler_watchdog.py:678-683 | a refused job is no longer pending and may be submitted again |
| CronTracking.CronHealthTracker.FinishReport | scripts/mbpro_scheduler_watchdog/uk_aq_scheduler_watchdog.py:695-749 | a report ends once, at most five end for an outage, attempts only grow, success is final, and a failure waits 120, 300, 900, then 1800 seconds |
| CronTracking.CronHealthTracker.Interleave | scripts/mbpro_scheduler_watchdog/uk_aq_scheduler_watchdog.py:612-749 | any interleaving of observations, refused jobs and finished reports: at most one report pending and five finished per outage, attempts only grow, and nothing is submitted after success |
| CronTracking.CronHealthTracker.Replay | scripts/mbpro_scheduler_watchdog/uk_aq_scheduler_watchdog.py:612-637 | any arrival order inside the retention window keeps every observation and the correspondence |
| LogArchive.RedeliveryKeepsIdentity | local/gcp_logging_archive/collector.py:178-186 | redelivery, which changes the time of receipt, keeps identity and day |
| LogArchive.IdentityExactly | local/gcp_logging_archive/collector.py:178-186 | two entries have one identity exactly if log, resource and insertId agree, or, of entries without one, all but the time of receipt |
| LogArchive.DayExactly | local/gcp_logging_archive/collector.py:390-395 | the file of an entry is that of the UTC day of its timestamp, else of its receipt |
| LogArchive.MergeKeys | local/gcp_logging_archive/collector.py:347-351 | merging keeps every published identity and adds the incoming ones |
| LogArchive.MergeKeepsLast | local/gcp_logging_archive/collector.py:347-351 | the last entry of an identity is kept and other lines stay |
| LogArchive.MergeExactly | local/gcp_logging_archive/collector.py:342-351 | the lines after a merge, told without identities: the last incoming entry of each message, the old lines of other messages, nothing else and none twice |
| LogArchive.MergeInParts | local/gcp_logging_archive/collector.py:347-351 | merging in two windows is merging in one |
| LogArchive.MergeAgain | local/gcp_logging_archive/collector.py:347-351 | merging the same entries again changes nothing |
| LogArchive.FilesDetermined | local/gcp_logging_archive/collector.py:338-362 | with one content per identity, which entries are archived fixes the files |
| LogArchive.TiledOnce | local/gcp_logging_archive/collector.py:600-614 | each event time up to the cursor is in exactly one completed window |
| LogArchive.BackfillCovers | local/gcp_logging_archive/collector.py:600-614 | everything visible when the backfill began, from its start to its cursor, is archived |
| LogArchive.BackfillsAgree | local/gcp_logging_archive/collector.py:584-614 | complete backfills leave the same files whatever their windows, restarts and repeats |
| LogArchive.IncrementalCovers | local/gcp_logging_archive/collector.py:561-577 | with a lag of at most overlap plus settling, every entry received since the first window, before the checkpoint and visible at its run, is archived |
| LogArchive.MergedHas | local/gcp_logging_archive/collector.py:386-397 | after publication every dated entry of the window is in its daily file |
| LogArchive.WindowFiled | local/gcp_logging_archive/collector.py:386-397 | each dated entry of a window is a line of its day, unless a later entry of that day is the same message |
| LogArchive.AppliedSound | local/gcp_logging_archive/collector.py:338-371 | wherever publication stops, every line is an entry of the source under its own identity and day |
| LogArchive.AppliedKeeps | local/gcp_logging_archive/collector.py:338-371 | and no identity is gone |
| LogArchive.SurvivedOk | local/gcp_logging_archive/collector.py:363-371 | a power loss that undoes some replacements leaves sound files that keep all that was durable |
| LogArchive.GroupByDay | local/gcp_logging_archive/collector.py:387-395 | entries by day in order of arrival, those without a time left out |
| LogArchive.MergeDay | local/gcp_logging_archive/collector.py:342-384 | the merged file, and counts that add up: each returned entry is new, a duplicate or was present, and the unique ones are the distinct identities |
| LogArchive.Archiver.Publish | local/gcp_logging_archive/collector.py:338-384 | day after day each file is untouched or merged as a whole; on success all are merged and durable, with exactly the lines of `MergeExactly` and one balanced report each; it fails only if a step does |
| LogArchive.Archiver.RunWindow | local/gcp_logging_archive/collector.py:386-397 | on success everything the window returned is durable and filed as it was returned, and nothing else is new; a failure loses nothing and has a failed step for its reason |
| LogArchive.Archiver.SaveBackfill | local/gcp_logging_archive/collector.py:606-610 | the cursor moves only behind a durable window |
| LogArchive.Archiver.Incremental | local/gcp_logging_archive/collector.py:561-577 | the receive checkpoint is written after the files and claims only what they hold, including when a crash falls between; a run that succeeds reaches the settled end of the log unless its overlap already does |
| LogArchive.Archiver.DiscoveredAll | local/gcp_logging_archive/collector.py:592-614 | a completed backfill from the discovered boundary leaves no visible earlier entry out |
| LogArchive.Archiver.Range | local/gcp_logging_archive/collector.py:578-583 | a range run archives its window, adds nothing outside and moves no checkpoint |
| LogArchive.Archiver.BackfillStart | local/gcp_logging_archive/collector.py:588-598 | the cursor, else the given start, else the earliest time of a visible entry; fails only if there is none |
| LogArchive.Archiver.BackfillLoop | local/gcp_logging_archive/collector.py:602-614 | whole windows follow each other from the start to the limit, and nothing outside is added |
| LogArchive.Archiver.Backfill | local/gcp_logging_archive/collector.py:584-614 | a backfill goes on from its cursor, else the given start, and ends at its limit; a first one that completes has archived everything visible when it began, up to that limit |
| LogArchive.Archiver.PowerLoss | local/gcp_logging_archive/collector.py:53-70 | files and checkpoints may fall back, and what the checkpoints claim is still archived |
| LogArchive.Archiver.Lifetime | local/gcp_logging_archive/collector.py:556-614 | no durable line is lost over any sequence of runs and power losses |
| ViewTokens.PrintLexRoundTrip | local/gcp_billing/queries.py:61-125 | joining the tokens of a statement with spaces and lexing again gives the same tokens |
| ViewTokens.PrintedLexes | local/gcp_billing/queries.py:61-125 | any list of tokens the lexer can emit survives printing and lexing |
| ViewTokens.EmittedIsCanonical | local/gcp_billing/queries.py:80-119 | the text of an emitted token lexes to that token alone |
| ViewTokens.NextExtends | local/gcp_billing/queries.py:66-119 | what follows a space or newline never changes the token before it |
| ViewTokens.LexAppends | local/gcp_billing/queries.py:65-120 | lexing `a`, a newline and `b` gives the tokens of `a` and then those of `b`, or the failure of `b` |
| ViewTokens.LexSeparated | local/gcp_billing/queries.py:67-79 | after a complete text, blanks and comments that begin with white space add no token and keep the tokens of what follows |
| ViewTokens.BlanksDoNotMatter | local/gcp_billing/queries.py:67-79 | which white space and comments stand between two parts changes nothing |
| ViewTokens.SameStep | local/gcp_billing/queries.py:66-119 | the case of letters decides neither where a token ends nor what kind it has |
| ViewTokens.WordCaseDoesNotMatter | local/gcp_billing/queries.py:101-105 | a statement that differs only in the case of words, and inside comments, has the same tokens |
| ViewTokens.SkipQuoted | local/gcp_billing/queries.py:80-98 | the loop over a quoted value ends at its closing quote, past escapes and doubled quotes, or fails as the scanner says |
| ViewTokens.LexAll | local/gcp_billing/queries.py:65-120 | the loop over `pos` computes the recursive lexer |
| ViewTokens.ViewSqlTokens | local/gcp_billing/queries.py:61-125 | the whole function: the lexer, one final semicolon dropped, any other refused |
| ViewGrammar.SpellsExactly | local/gcp_billing/queries.py:80-119 | the lexer takes a whole text as one token exactly if the text spells it: a value between any of the three quotes with escapes and doubled quotes, a word in lower case, a number, one of nine operators, one of fifteen marks |
| ViewGrammar.OneToken | local/gcp_billing/queries.py:61-125 | such a text lexes to that token and nothing else |
| ViewGrammar.QuotedText | local/gcp_billing/queries.py:80-98 | a text free of the quote and of backslashes is one token in each of the three quotes |
| ViewGrammar.TakesLongest | local/gcp_billing/queries.py:80-119 | every token is spelled by the longest text at the front that spells one |
| ViewGrammar.RefusedExactly | local/gcp_billing/queries.py:119-120 | input is unfamiliar exactly if no blank, no quote and no token begins it |
| ViewGrammar.BlankExactly | local/gcp_billing/queries.py:67-79 | a turn emits nothing exactly at white space and comments |
| ViewGrammar.LineComment | local/gcp_billing/queries.py:70-73 | a comment after `--` or `#` ends with its line or the statement |
| ViewGrammar.BlockComment | local/gcp_billing/queries.py:74-79 | a block comment ends at the first `*/`, and without one fails |
| ViewGrammar.StatementExactly | local/gcp_billing/queries.py:121-124 | a statement has no semicolon but one at its end, which is dropped |
| Timelines.LastDayMeaning | scripts/blondon_identity_timeline.py:208-213 | a day is covered exactly when it begins before the end |
| Timelines.InsertOrdered | scripts/blondon_identity_timeline.py:738 | inserting keeps the records ordered by start, device and installation |
| Timelines.SortRawIsStable | scripts/blondon_identity_timeline.py:738 | the sort is stable: records with equal keys keep their order |
| Timelines.SortedByKey | scripts/blondon_identity_timeline.py:738 | sorted records are ordered by start, then by the characters of device and installation |
| Timelines.SortedIsChronological | scripts/blondon_identity_timeline.py:687-739 | sorted records start on days that never go back |
| Timelines.TrimmedPointwise | scripts/blondon_identity_timeline.py:741-756 | a trimmed interval covers the days on which its record is the last to have started, of those it covered, and is otherwise the same |
| Timelines.TrimmedDisjoint | scripts/blondon_identity_timeline.py:741-756 | the result is pairwise disjoint |
| Timelines.OverlapExactly | scripts/blondon_identity_timeline.py:894-899 | the lookup raises exactly when two intervals cover the day |
| Timelines.LookupOfTrimmed | scripts/blondon_identity_timeline.py:741-756 | on trimmed intervals it never raises, and returns the last record started by the day if that covered it, otherwise none |
| Timelines.CollectRaw | scripts/blondon_identity_timeline.py:687-736 | exactly the used records, in order, each with its own start instant and days, and last the current one |
| Timelines.Trim | scripts/blondon_identity_timeline.py:741-756 | the in-place loop trims every interval by its successor and drops what is empty |
| Timelines.BuildNodesIntervals | scripts/blondon_identity_timeline.py:680-756 | the records sorted by their start instants, trimmed, and without the empty ones |
| DisplayDays.EarlierBegins | scripts/blondon_identity_timeline.py:861-864 | months begin in order |
| DisplayDays.FirstDayExactly | scripts/blondon_identity_timeline.py:861-864 | the ordinal of the first day of a month in the Gregorian calendar |
| DisplayDays.NoneBetween | scripts/blondon_identity_timeline.py:861-864 | no month begins between one and the next |
| DisplayDays.CoverageSampled | scripts/blondon_identity_timeline.py:867-891 | an interval covers a day of the report exactly when it covers the last display day up to then |
| DisplayDays.SamplingLosesNothing | scripts/blondon_identity_timeline.py:867-899 | the lookup on a day is that on the last display day up to it |
| DisplayDays.DisplayDaysSample | scripts/blondon_identity_timeline.py:867-899 | every day of the report has such a display day, on which the timeline of every station says the same |
| DisplayDays.AddMonthStarts | scripts/blondon_identity_timeline.py:872-878 | every first day of a month in the range is displayed |
| DisplayDays.AddBoundaries | scripts/blondon_identity_timeline.py:880-889 | the boundaries of each interval and the days next to them |
| DisplayDays.BuildDisplayDays | scripts/blondon_identity_timeline.py:867-891 | exactly the displayed days, ascending, and enough of them to sample the timeline of every day |
| Families.BuildFamilyIndex | scripts/blondon_identity_timeline.py:475-560 | exactly which references find a station and which stations are linked |
| Families.IndexOwner | scripts/blondon_identity_timeline.py:505-537 | the references and links of one owner's records |
| Families.InstallationExactly | scripts/blondon_identity_timeline.py:498-503 | a match id names an installation when it begins with the prefix in any case, and its alias is the rest without spaces around it |
| Families.LinkMatches | scripts/blondon_identity_timeline.py:539-550 | links between stations with the same installation match, both ways |
| Families.IndexIsSymmetric | scripts/blondon_identity_timeline.py:521-550 | the graph is symmetric |
| Families.ClosedHolds | scripts/blondon_identity_timeline.py:575-584 | a set closed under links holds all that is reached |
| Families.ResolveFamily | scripts/blondon_identity_timeline.py:563-586 | fails exactly without seeds; otherwise the worklist ends with exactly the reachable sites, in order |
| Families.KeyLessExactly | scripts/blondon_identity_timeline.py:574-586 | sites are ordered by connector, then by the characters of the reference |
| Texts.StripExactly | scripts/blondon_identity_timeline.py:500 | nothing but spaces is taken away, and none is left at either end |
| Texts.TextLessIsBefore | scripts/blondon_identity_timeline.py:586 | texts are ordered by the first character in which they differ, a beginning before what continues it |
| Families.FamilyIsDuplicateFree | scripts/blondon_identity_timeline.py:586 | no site twice |
| Families.SameComponentSameFamily | scripts/blondon_identity_timeline.py:563-586 | queries with seeds in one component give the same list |
| LocalCache.StoredSidecarOk | workers/uk_aq_latest_snapshot_cloud_run/local_r2_cache.ts:165-183 | a stored sidecar names the digest of the content of its etag |
| LocalCache.HitIsSound | workers/uk_aq_latest_snapshot_cloud_run/local_r2_cache.ts:135-162 | whoever wrote the two files, a hit has the bytes of the object whose etag was observed |
| LocalCache.StoreThenHit | workers/uk_aq_latest_snapshot_cloud_run/local_r2_cache.ts:135-183 | what was stored whole is a hit while the remote keeps its etag |
| LocalCache.ValidateDecides | workers/uk_aq_latest_snapshot_cloud_run/local_r2_cache.ts:135-162 | the decision of a read, told by the two files and the remote etag |
| LocalCache.CountedOnce | workers/uk_aq_latest_snapshot_cloud_run/local_r2_cache.ts:113-160 | a read adds one to the counter of its outcome and nothing to the others |
| LocalCache.CollisionIsNotCaught | workers/uk_aq_latest_snapshot_cloud_run/local_r2_cache.ts:144-147 | with a colliding body a hit is wrong, so the assumption is needed |
| LocalCache.World.OtherStep | workers/uk_aq_latest_snapshot_cloud_run/local_r2_cache.ts:65-77 | any step of another writer, or damage, keeps the sidecar invariant |
| LocalCache.Cache.ReadValidated | workers/uk_aq_latest_snapshot_cloud_run/local_r2_cache.ts:108-163 | under interference between any two steps a hit is the remote object observed, and each read counts once; undisturbed, which of the five outcomes it has is decided by the two files and the remote etag |
| LocalCache.Cache.Store | workers/uk_aq_latest_snapshot_cloud_run/local_r2_cache.ts:165-189 | body, then sidecar, and nothing else is written; skipped without an etag; failures counted; undisturbed it stores the pair |
| LocalCache.Cache.LoadDurable | workers/uk_aq_latest_snapshot_cloud_run/run_job.ts:437-470 | the object returned is the content of an etag the remote had during the call; undisturbed it is returned if it exists, and the next read is a hit |
| LocalCache.Cache.UpdateAfterPut | workers/uk_aq_latest_snapshot_cloud_run/run_job.ts:472-484 | after a PUT the object put is stored under the etag of its response, or the failure only counted |
| Reports.Group | local/gcp_billing/reports.py:62-70 | the dictionary has one entry per key, with the exact totals of its rows |
| Reports.KeyLessIsOrder | local/gcp_billing/reports.py:72-74 | the sort key, NULL first, is a total order |
| Reports.Summary | local/gcp_billing/reports.py:39-79 | the lines of a report |
| ReportMeaning.LinesExactly | local/gcp_billing/reports.py:39-79 | a report has a line for the columns of each row it reads and for nothing else, with the exact totals of all rows that agree on them |
| ReportMeaning.LinesInOrder | local/gcp_billing/reports.py:71-74 | lines are ordered by their first different column, NULL first, texts by their characters, days and months by the calendar |
| Reports.ReportIsDeterministic | local/gcp_billing/reports.py:62-79 | a report does not depend on the order of the streamed rows |
| Reports.RollUp | local/gcp_billing/reports.py:39-79 | a coarser total is the sum of the finer groups that go into it |
| Reports.CurrencyTotals | local/gcp_billing/reports.py:39-79 | every report sums to the totals of its rows, currency by currency |
| Reports.MonthlyFromDaily | local/gcp_billing/reports.py:39-45 | monthly usage is the roll-up of daily |
| Reports.ServicesFromSkus | local/gcp_billing/reports.py:39-45 | services is the roll-up of SKUs |
| Reports.NetOnEveryLine | local/gcp_billing/collector.py:138-143 | net is gross plus credits on every line because it is in every stored row |
| AckChunks.PartFits | workers/uk_aq_latest_snapshot_cloud_run/run_job.ts:857-877 | a part of a list within the limits is within them |
| AckChunks.FitsExactly | workers/uk_aq_latest_snapshot_cloud_run/run_job.ts:864-867 | what is measured is the UTF-8 length of the JSON request, at most 450000 bytes and 1000 ids |
| AckChunks.NoBetterCut | workers/uk_aq_latest_snapshot_cloud_run/run_job.ts:862-873 | starting a new chunk when the limits force it stays ahead of every other split |
| AckChunks.ChunkPubsubAckIds | workers/uk_aq_latest_snapshot_cloud_run/run_job.ts:857-877 | the chunks join to the input, none is empty or over a limit unless a single id, and no admissible split in order has fewer |

## Left out

- BigQuery, MySQL, Dropbox, R2, Pub/Sub and Cloud Logging clients: each is the contract used here (a transaction with its decision row, an append-only source, a HEAD with an etag).
- CSV, gzip, JSON, SHA-256 and XLSX encodings: values stand for encoded files; the digest of the cache is a function assumed injective.
- Directory creation, permissions, path checks (`ARCHIVE_ESCAPE`, `JOURNAL_BOUNDARY`) and the locks: one collector runs at a time.
- `sync_runs` rows are kept per source in order of `started_at`; a failed transaction is taken to leave no trace; run ids are new.
- Collecting.Collector.Collect: requires `PruneSafe`, since consistency fails without it (see above; `Prune` itself is proved for every state).
- Collecting.Collector.RunSources: requires `PruneSafe` for its sources when it starts, for the same reason.
- Collecting.Collector.Lifetime: says nothing of what follows the first process that would prune unsafely.
- Windows.Collector.Collect: facts are sets of source rows per day, so that a row counts once; money is in `Reports`. A wrong account or a failed query is a nondeterministic refusal.
- CronTracking.OrderIndependent: for observations inside the 120-slot retention window; `Record` states what still holds when slots are pruned. One worker's records are modelled; logging and the payload text are not.
- LogArchive.Archiver.Backfill: the window length is positive (a configured length of zero would loop for ever). Discovery takes the least timestamp of the visible entries. Paging, quota retries, redaction and the identity manifest are not modelled; the lines of a file are a map from identity to entry.
- LogArchive.Archiver.Incremental: overlap and settling do not change between runs, and the clock does not go back.
- ViewTokens.ViewSqlTokens: regular expressions, `find` and `casefold` are functions on strings.
- Timelines.BuildNodesIntervals: text is taken as already cleaned, and upper case is that of ASCII letters; station keys are not carried in intervals. `build_snapshot_device_intervals` is left out, as its intervals can overlap.
- `scripts/sos_identity_timeline.py`, whose display days omit the day after an end.
- Families.BuildFamilyIndex: aliases and link evidence for display are not modelled, and the dictionary of match groups is a test on pairs of stations.
- LocalCache.Cache.ReadValidated: `trim` is that of spaces; the 64-digit check is a flag of the sidecar text.
- Reports.Summary: headings and cell formatting are not modelled.
- The latest-state merge of the snapshot worker (its module is not part of this model), the WHO 2021 worker, dashboards, argument parsing and the geography validator's floating point.
