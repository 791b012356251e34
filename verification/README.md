# Verified model of the Serena V8 runtime

A Dafny model of the stateful core of the Serena V8 runtime layer over language servers, with proofs over all
inputs and all runs. Check it with `dafny verify dfyconfig.toml`.

Each program file with mutable objects is modelled twice. A specification describes every operation as a function
on values; a class has the program's fields, and its methods are proved to compute that function. What the program
promises is then proved about the functions, over sequences of events that stand for every interleaving of its
atomic steps.

- **Request scheduler** (`Scheduler`, `SchedulerInvariants`, `SchedulerRuns`, `SchedulerTheorems`,
  `SchedulerProgress`, `SchedulerService`, `DeadlineThread`, `SmartScheduler`): three lanes, bounded queues, single
  flight, deadlines, cancellation. The atomic steps are its critical sections, a caller's own `Future.cancel`, and the
  worker's unlocked check-then-set. The scheduled functions read and write a versioned store, so that freshness can be
  stated. Being active is kept apart from having an answer: a timed-out read still runs and still counts.
  `DeadlineThread` splits the timeout section further, at the two places where callers and workers can change the
  future without the lock, and the worker's check-then-set into its two halves.
- **File change notifier** (`SourceTree`, `ChangeNotifier`, `NotifierRuns`, `KnownChanges`, `NotifierTheorems`,
  `NotifierQuiet`): a tree of entries with contents and stamps, its scan, the incremental comparison, and runs of
  arbitrary edits, directory moves, announced edits and polls. Modification times can be forged; change times are the
  time of the edit rounded down to a clock tick; a move stamps the directory and the two that held its entry, nothing
  below it.
- **Symbol cache, name paths, grouping** (`SymbolCache`, `SymbolCacheRuns`, `SymbolCacheUse`, `NamePaths`,
  `NameMatching`, `SymbolGrouping`).
- **Code-graph indexer** (`CgcIndexer`, `CgcIndexerRuns`, `CgcIndexerAnswers`): job registry, snapshots, dirty paths,
  the graph itself.
- **Two-tier cache** (`L1Cache`, `L1CacheUse`, `TieredCache`, `TieredCacheRuns`, `TieredCacheOverlaps`,
  `TieredCacheRaces`, `TieredCacheUse`): any number of gets, puts and invalidations in flight, each in sections that
  hold the lock of one tier.
- **Compact JSON printer** (`JsonText`, `CompactJson`, `CompactJsonShape`), read back by a reader after sections 2 to
  7 of RFC 8259.
- **Reminder hook and restart limiter** (`ReminderHook`, `RestartLimiter`).

`Options`, `Sequences`, `Strings`, `Decimal` and `OrderedMaps` hold what several of these share.

## What fails, and exactly when

- The scheduler can stall: a lane that may queue requests but run none keeps them for ever. It never stalls exactly
  when no tool's lane is like that (`NeverStallsIff`).
- A section of the deadline thread can raise `InvalidStateError`, which nothing handles: exactly when the caller of
  the waiting request it expires cancels the future between the section's test and its `set_exception`, or the worker
  of an overdue read passes its check before the section marks the request and sets its result between the test and
  the `set_exception` (`ThreadDiesIff`, `RunDiesIff`). Nothing expires afterwards (`NothingExpiresAfterDeath`).
- A poll can leave the server with a wrong view. With a clock that never goes back it never does exactly when hashing
  is strict, or no directory is moved and the clock tick exceeds the hash window by at most one unit; and, if edits are
  announced through `notify_known_change`, no directory is moved and each announced edit is the only change in its
  chain of directories and has a stamp older than the tick of its announcement, or an empty file
  (`PollsAlwaysCurrentIff`). Announced files are stamped without a digest even when hashing is strict.
- For one announcement in a run without moves: later polls are right exactly when the tick of the file's stamp has
  passed, or the file is empty or gone (`KnownChangeSafeIff`).
- A hit of the two-tier cache need not be the last put. It always is exactly when one tier is switched off, or calls on
  one query never overlap of which one is a put or invalidation and the other a get or put (`AlwaysLastPutIff`). For a
  single get: what it promotes is the last put exactly when no section between its look on disk and its promotion
  invalidates the query or puts another value for it, unless the same value is put again (`PromotionIsLastPutIff`).
- A skipped index job may leave files out of the graph. Skipping is sound in every run exactly as long as no failed
  promotion also fails to put the old graph back, no edit gives a file back a stamp (modification time, size and digest)
  that it had before, and no submit falls between the two renames of a promotion (`AlwaysSkipsSoundlyIff`). A file that
  is gone while its surroundings are indexed, and then back as it was, is skipped and missing
  (`RevertedFileIsSkipped`).
- The other way round, a file that changed while it was indexed and is gone before the next job stays dirty, so that no
  target above it is skipped again until the file is back (`VanishedStaysDirty`).
- Grouping makes up the value "unknown" for a missing key, so it conserves symbols exactly when every symbol has
  every key it is grouped by (`GroupingConservesIff`).
- "/" and a printed name path match their own symbol exactly when no name holds a slash, no name without an index ends
  in a bracketed number, and of several components neither the first nor the last prints as nothing
  (`PrintedPathMatchesItselfIff`; for one component `ShowReadsBackIff`).
- Printing what was read back is stable exactly when the string limit is not negative, or is minus three
  (`ReprintIsStableIff`).

Where the code is other than its names or comments suggest:

- Project or tool names with colons share cache keys (`ColonsCollide`); without colons keys are distinct
  (`KeysDistinct`).
- The hour of the restart limit is half-open: a closed hour can hold six restarts (`ClosedHourHoldsSix`).
- The comment on the grep and read reset periods speaks of a ten-second example; the periods in the code are 1000
  and 2000 seconds, and the model follows the code. `max_depth` of the compact serializer is never used.

## Model

| member | source | states |
|---|---|---|
| SchedulerTheorems.WritesRunAlone | src/serena_v8/scheduler.py:281-321 | in every run, while a write is between dispatch and release no other request is, timed-out reads included |
| SchedulerTheorems.StoreConstantDuringRead | src/serena_v8/scheduler.py:281-321 | no step of any run changes the store while a read is between dispatch and release |
| SchedulerTheorems.DeliveredValuesAreFresh | src/serena_v8/scheduler.py:213-255 | whatever a caller is given, also by joining a read in flight, was computed from a store at least as new as at its submit, and a read's value from one single version |
| SchedulerTheorems.RunFresh | src/serena_v8/scheduler.py:213-329 | the freshness invariant of every caller and every read holds in every run |
| SchedulerTheorems.RunExtends | src/serena_v8/scheduler.py:213-255 | callers are never forgotten and later callers start from a store at least as new |
| SchedulerService.SingleFlight | src/serena_v8/scheduler.py:181-255 | in every run no two reads with one key are unanswered while both wait or run in their lane |
| SchedulerService.SubmitJoinsLiveRead | src/serena_v8/scheduler.py:220-231 | in every run a submit of the key of such a read is given that read, and adds no request |
| SchedulerService.SubmitOpensRequest | src/serena_v8/scheduler.py:213-255 | in every run any other submit is refused exactly when its queue is full, and otherwise opens one new request with the deadline it asks for or its lane's, which waits or runs |
| SchedulerService.RunNamed | src/serena_v8/scheduler.py:181-329 | in every run the single-flight table names every such read |
| SchedulerTheorems.AnsweredOnce | src/serena_v8/scheduler.py:304-329 | over any extension of a run a function is called at most once, a done future never changes, and the value set is the one the worker brought back |
| SchedulerTheorems.StartedWriteKeepsItsOutcome | src/serena_v8/scheduler.py:262-279 | a dispatched write is never cancelled or timed out and ends with the outcome of its one call |
| SchedulerTheorems.DrainedRunAnswersEveryone | src/serena_v8/scheduler.py:262-350 | once nothing is queued or under way every future is done |
| SchedulerTheorems.BooksBalance | src/serena_v8/scheduler.py:213-350 | accepted requests are exactly queued + dispatched + cancelled in queue + expired in queue + skipped, by the program's own counters |
| SchedulerTheorems.NothingOverdueAtSleep | src/serena_v8/scheduler.py:192-211 | when the deadline thread goes to sleep no request it could still expire is due |
| SchedulerTheorems.RunEvolves | src/serena_v8/scheduler.py:262-350 | a request only moves forward through its states |
| SchedulerProgress.NeverStallsIff | src/serena_v8/scheduler.py:281-350 | in every run either something is active or nothing is queued, exactly when every lane that may queue may run |
| SchedulerProgress.UnservedToolStalls | src/serena_v8/scheduler.py:281-302 | one submit to a lane that may not run stalls |
| SchedulerProgress.RunFlows | src/serena_v8/scheduler.py:281-350 | queues stay within their bounds and no step stalls |
| SchedulerProgress.WaitingWriteStartsInTurn | src/serena_v8/scheduler.py:281-302 | while a write waits, fewer than (active + its place in the queue) workers finish: no later read overtakes it |
| SchedulerProgress.BacklogPaysForCompletions | src/serena_v8/scheduler.py:281-321 | every completion takes one from the backlog of a waiting write and no step adds to it |
| SchedulerService.LanesKeepTheirLimits | src/serena_v8/scheduler.py:281-321 | in every run at most `max_concurrent` requests of a lane are between dispatch and release |
| SchedulerService.DispatchUsesTheLane | src/serena_v8/scheduler.py:281-302 | dispatching a lane leaves a request waiting only if the limit of the lane is reached or a write is in its way |
| SchedulerService.UnknownToolsRunAlone | src/serena_v8/scheduler.py:173-179 | in every run nothing is active beside a tool that nobody has classified |
| SchedulerService.NothingExpiresEarly | src/serena_v8/scheduler.py:192-279 | in every run a request times out only in a pass of the deadline thread at or after its deadline |
| SchedulerService.DueRequestsAreAnswered | src/serena_v8/scheduler.py:192-279 | once the deadline thread has gone to sleep at a time, every request due by then is answered, but for writes that have started |
| SchedulerService.CancelWithdraws | src/serena_v8/scheduler.py:331-350 | in every run cancelling takes a waiting request out of its queue for good, and leaves one that was handed out alone |
| SchedulerService.WorkersFinish | src/serena_v8/scheduler.py:304-329 | in any run the steps of a worker that was handed a request end with the request answered and the worker gone; the function is called unless the request was marked, and its outcome is set unless there is an answer |
| SchedulerService.RefusalsAreCounted | src/serena_v8/scheduler.py:227-231 | in every run the count of refusals is the number of submits that were given no future |
| SchedulerInvariants.InitInv | src/serena_v8/scheduler.py:143-171 | a new scheduler satisfies the invariant |
| SchedulerInvariants.EnqueueInv | src/serena_v8/scheduler.py:232-253 | enqueueing keeps the invariant, the deadline order included |
| SchedulerInvariants.SubmitInv | src/serena_v8/scheduler.py:213-255 | submitting keeps the invariant |
| SchedulerInvariants.DispatchOneInv | src/serena_v8/scheduler.py:294-302 | handing out or dropping the head of a queue keeps the invariant |
| SchedulerInvariants.TryDispatchInv | src/serena_v8/scheduler.py:281-302 | dispatching a lane keeps the invariant |
| SchedulerInvariants.ExpireInv | src/serena_v8/scheduler.py:268-278 | expiring a request keeps the invariant |
| SchedulerInvariants.TimeoutInv | src/serena_v8/scheduler.py:262-279 | the timeout section keeps the invariant |
| SchedulerInvariants.DeadlinePassInv | src/serena_v8/scheduler.py:196-209 | a pass of the deadline thread keeps the invariant |
| SchedulerInvariants.SleepMeansNothingDue | src/serena_v8/scheduler.py:197-206 | a sleeping deadline thread has nothing due in any state that satisfies the invariant |
| SchedulerInvariants.WithdrawInv | src/serena_v8/scheduler.py:340-347 | withdrawing a queued request keeps the invariant |
| SchedulerInvariants.CancelInv | src/serena_v8/scheduler.py:331-350 | cancelling keeps the invariant |
| SchedulerInvariants.CallerCancelInv | src/serena_v8/scheduler.py:64-66 | a caller cancelling its pending future keeps the invariant |
| SchedulerInvariants.BeginInv | src/serena_v8/scheduler.py:304-311 | a worker that begins keeps the invariant |
| SchedulerInvariants.FinishInv | src/serena_v8/scheduler.py:316-318 | leaving the lane keeps the invariant |
| SchedulerInvariants.ReleaseInv | src/serena_v8/scheduler.py:314-321 | the worker's locked section keeps the invariant |
| SchedulerInvariants.ResolveInv | src/serena_v8/scheduler.py:323-328 | the worker's check-then-set keeps the invariant |
| SchedulerRuns.NextInv | src/serena_v8/scheduler.py:192-350 | every atomic step keeps the invariant |
| SchedulerRuns.RunInv | src/serena_v8/scheduler.py:192-350 | the invariant holds in every reachable state |
| SchedulerRuns.NextFramed | src/serena_v8/scheduler.py:192-350 | only reading the store and setting a result change what a request has observed |
| SchedulerRuns.NextEvolves | src/serena_v8/scheduler.py:192-350 | every step moves every request forward |
| SmartSchedulers.SmartScheduler.constructor | src/serena_v8/scheduler.py:143-171 | starts in the initial state |
| SmartSchedulers.SmartScheduler.RemoveInFlightOf | src/serena_v8/scheduler.py:187-190 | removes the single-flight entry only if it is the request's own |
| SmartSchedulers.SmartScheduler.DispatchHead | src/serena_v8/scheduler.py:294-302 | pops one request and drops it or hands it out, as the state machine does |
| SmartSchedulers.SmartScheduler.Dispatch | src/serena_v8/scheduler.py:281-302 | the loop computes the dispatch of the state machine and never fills a lane beyond its limit |
| SmartSchedulers.SmartScheduler.SubmitRequest | src/serena_v8/scheduler.py:213-255 | answer and new state are those of the state machine; the answer is a join exactly when the table names a waiting or running read with the key |
| SmartSchedulers.SmartScheduler.SubmitLocked | src/serena_v8/scheduler.py:220-255 | the same for the locked section |
| SmartSchedulers.SmartScheduler.EnqueueRequest | src/serena_v8/scheduler.py:232-252 | a request enters queue, single-flight table and deadline heap together |
| DeadlineThread.ThreadDiesIff | src/serena_v8/scheduler.py:262-329 | with anything callers and workers do in the two gaps of a section, the deadline thread dies exactly when the waiting request is cancelled by its caller in a gap, or the worker of the overdue read passes its check before the mark and sets its result before the exception; otherwise the request times out |
| DeadlineThread.RunDiesIff | src/serena_v8/scheduler.py:192-329 | in every run the thread is dead exactly when one of its sections was interrupted in that way, and while it lives the invariant holds between its sections |
| DeadlineThread.SurvivorInv | src/serena_v8/scheduler.py:262-279 | an interrupted section that survives restores the invariant of the scheduler |
| DeadlineThread.UninterruptedSection | src/serena_v8/scheduler.py:192-279 | a section without interruption is the single step of the state machine |
| DeadlineThread.WorkerSetIsOneStep | src/serena_v8/scheduler.py:323-328 | in every state that satisfies the invariant each half of the worker's check-then-set is the single step of the state machine or changes nothing |
| DeadlineThread.NothingExpiresAfterDeath | src/serena_v8/scheduler.py:192-211 | once the thread is dead no request times out, whatever its deadline |
| DeadlineThread.CancelInSectionKills | src/serena_v8/scheduler.py:262-279 | in every configuration whose lanes may run, the thread ends when a read waits behind an active write past its deadline and its caller cancels it inside the section |
| DeadlineThread.SetInSectionKills | src/serena_v8/scheduler.py:262-329 | in every such configuration it ends when the worker of an overdue read checks before the mark and sets before or after it |
| SmartSchedulers.SmartScheduler.TimeoutRequestLocked | src/serena_v8/scheduler.py:262-279 | without interruption the new state is that of the state machine |
| SmartSchedulers.SmartScheduler.MarkTimedOut | src/serena_v8/scheduler.py:268-275 | marks and counts the request and takes it out of the tables |
| SmartSchedulers.SmartScheduler.SetTimeoutError | src/serena_v8/scheduler.py:276-279 | raises and changes nothing if the future is done by then; otherwise times it out and dispatches its lane |
| SmartSchedulers.SmartScheduler.DeadlineTurn | src/serena_v8/scheduler.py:196-209 | a turn of the deadline thread sleeps or expires the earliest request, as the state machine does |
| SmartSchedulers.SmartScheduler.CancelRequest | src/serena_v8/scheduler.py:331-350 | answer and new state are those of the state machine |
| SmartSchedulers.SmartScheduler.CancelLocked | src/serena_v8/scheduler.py:333-350 | the search through the lanes finds the queue that holds the request |
| SmartSchedulers.SmartScheduler.WithdrawFrom | src/serena_v8/scheduler.py:340-347 | the request leaves queue and single-flight table |
| SmartSchedulers.SmartScheduler.ExecuteBegin | src/serena_v8/scheduler.py:304-311 | the function is called unless the request is marked cancelled |
| SmartSchedulers.SmartScheduler.ExecuteFinish | src/serena_v8/scheduler.py:314-321 | leaves the lane and dispatches writes before reads |
| SmartSchedulers.SmartScheduler.ExecuteResolve | src/serena_v8/scheduler.py:323-328 | sets the result unless the future is done |
| SmartSchedulers.RemoveFrom | src/serena_v8/scheduler.py:272-275 | drops the first occurrence from a queue |
| SmartSchedulers.PushDeadline | src/serena_v8/scheduler.py:251-252 | inserts a deadline after the equal ones |
| SourceTree.GatherSourceTree | src/serena/project.py:348-395 | the stack traversal lists exactly the reachable directories and wanted files of the recursive definition, each once, in any entry order; error and single-file cases included |
| SourceTree.SourcesAre | src/serena/project.py:369-395 | the discovered files are those with a supported name of which neither they nor a directory above them is ignored |
| SourceTree.ScanDirectory | src/serena/project.py:376-392 | sorts the entries of one directory into subdirectories to visit and wanted files |
| SourceTree.ScanStep | src/serena/project.py:372-390 | one turn of the traversal keeps its invariant |
| SourceTree.ScanComplete | src/serena/project.py:372-395 | with an empty stack every reachable directory has been listed |
| SourceTree.ListingsDetermineScan | src/serena/project.py:369-395 | discovery depends only on the listings of the directories it visits |
| ChangeNotifier.LanguageServerFileChangeNotifier.DirectoryTreeChanged | src/serena/ls_manager.py:402-423 | reports a change exactly when a watched fingerprint differs; otherwise renews all of them |
| ChangeNotifier.LanguageServerFileChangeNotifier.DiscoverSourceTree | src/serena/ls_manager.py:375-400 | discovers exactly the sources and fingerprints every visited directory |
| ChangeNotifier.LanguageServerFileChangeNotifier.FingerprintAll | src/serena/ls_manager.py:391-399 | a fingerprint for exactly the listed directories that can be read |
| ChangeNotifier.LanguageServerFileChangeNotifier.PollAndNotify | src/serena/ls_manager.py:518-582 | the new fingerprints, and the events: exactly the new, changed and gone files, each path once |
| ChangeNotifier.LanguageServerFileChangeNotifier.Compare | src/serena/ls_manager.py:529-572 | fingerprints and events of the discovered files, none for a file that fits its fingerprint |
| ChangeNotifier.LanguageServerFileChangeNotifier.CompareOne | src/serena/ls_manager.py:545-572 | fingerprint and event of one file, with the missing and unreadable cases; no event for a file that fits its fingerprint |
| ChangeNotifier.FindDeleted | src/serena/ls_manager.py:574-575 | a Deleted event for exactly the paths no longer tracked |
| ChangeNotifier.LanguageServerFileChangeNotifier.NotifyKnownChange | src/serena/ls_manager.py:446-476 | event and new fingerprints of an announced edit, and when nothing happens |
| ChangeNotifier.LanguageServerFileChangeNotifier.RefreshDirectoryChain | src/serena/ls_manager.py:425-444 | renews the fingerprints of the directories above a path |
| NotifierTheorems.PollsAlwaysCurrentIff | src/serena/ls_manager.py:446-582 | with a clock that never goes back, after every poll of every run the server's view is the discovered files with their contents, exactly when hashing is strict or directories are not moved and the tick is at most the window plus one, and edits are announced, if at all, without moves, one at a time and with settled stamps |
| NotifierTheorems.RunInv | src/serena/ls_manager.py:446-582 | with such a clock and under that condition the baseline is trustworthy after every run of edits, moves, announcements and polls |
| NotifierTheorems.LongTickMissesEdit | src/serena/ls_manager.py:549-565 | the run in which a longer tick misses an edit |
| NotifierTheorems.MoveMissed | src/serena/ls_manager.py:549-565 | the run in which a poll misses two directories that change places by renames |
| NotifierTheorems.AnnouncedMoveMissed | src/serena/ls_manager.py:461-466 | the same for an announced file when everything else is hashed |
| NotifierTheorems.HastyAnnouncementMissed | src/serena/ls_manager.py:461-466 | the run in which a file announced in the tick of its stamp is overwritten unseen |
| NotifierTheorems.CrowdedAnnouncementMissed | src/serena/ls_manager.py:425-444 | the run in which a file created beside an announced one is never discovered |
| NotifierRuns.FastPathRefinesRescan | src/serena/ls_manager.py:402-423 | without a changed directory fingerprint the tracked files are what full discovery would return |
| NotifierRuns.EventsOfPoll | src/serena/ls_manager.py:543-575 | Created and Deleted are the set differences, and Changed are exactly the files that do not fit their fingerprint, every file whose content the server has wrong among them |
| NotifierRuns.EditInv | src/serena/ls_manager.py:549-560 | no edit that is stamped, with any forged modification time, slips past the kept fingerprints |
| NotifierRuns.HashedInv | src/serena/ls_manager.py:549-567 | with digests kept everywhere no change of the tree does, stamped or not |
| NotifierRuns.PollInv | src/serena/ls_manager.py:518-582 | a poll re-establishes the invariant, with digests everywhere when hashing is strict, and leaves the view right |
| NotifierRuns.PollCurrent | src/serena/ls_manager.py:543-582 | delivering a poll's events makes the server's view right |
| NotifierQuiet.UnchangedIsNotNamed | src/serena/ls_manager.py:543-575 | in every run a poll names no file that is as it was when it was last polled or announced, whatever happened in between |
| NotifierQuiet.SecondPollIsSilent | src/serena/ls_manager.py:518-582 | in every run that polls can rely on, two polls with nothing changed between them give no event |
| NotifierQuiet.QuietTreeIsNotScanned | src/serena/ls_manager.py:402-423 | and no watched directory looks changed, so that the project is not scanned again |
| NotifierQuiet.PollRecords | src/serena/ls_manager.py:549-565 | a polled file or directory is recorded with its stamps, and with a digest exactly when hashing is strict or a stamp lies within the window |
| NotifierQuiet.UnreadableIsKept | src/serena/ls_manager.py:568-572 | a tracked path that cannot be read keeps its fingerprint and is not reported |
| NotifierQuiet.OldStampsAreNotRead | src/serena/ls_manager.py:549-560 | without a digest to keep or compare nothing is read, and only stamps and size count |
| NotifierQuiet.LostDirectoryIsNoticed | src/serena/ls_manager.py:402-423 | a watched directory that is gone, or cannot be listed when it must be, makes the poll scan |
| NotifierQuiet.AnnouncedKind | src/serena/ls_manager.py:446-476 | an announced edit is reported as the difference between what the server knows and what is there |
| NotifierTheorems.KnownChangeSafeIff | src/serena/ls_manager.py:446-476 | with a clock that never goes back, announcing an edit keeps the polls of all later runs of edits and announcements right exactly when the edited file's stamp is older than the current tick or the file is empty or gone |
| NotifierTheorems.UnsettledEditMissed | src/serena/ls_manager.py:461-466 | an announced edit with an unsettled stamp can be overwritten unseen |
| KnownChanges.KnownChangeInv | src/serena/ls_manager.py:446-476 | an announced edit with a settled stamp keeps the invariant |
| KnownChanges.ChainRefreshed | src/serena/ls_manager.py:425-444 | each directory of the chain is renewed from its own old fingerprint, no other is touched |
| KnownChanges.RebasedTree | src/serena/ls_manager.py:446-476 | an announced edit changes the discovered files by that file alone |
| SymbolCache.GenerationRecovered | src/serena/symbol.py:75-81 | token and generation are read back from a key exactly, even when its parts contain the marker |
| SymbolCache.GenerationTable.Bump | src/serena/symbol.py:50-55 | the project's generation grows by one, the others stay |
| SymbolCache.QueryCache.Get | src/serena/symbol.py:69-97 | returned value and new state, with outdated, unreadable and expired entries dropped |
| SymbolCache.QueryCache.Put | src/serena/symbol.py:99-105 | the youngest entries that leave room stay; fails on an emptied cache when none may be held |
| SymbolCache.QueryCache.InvalidateFile | src/serena/symbol.py:107-111 | drops exactly the keys that contain the path |
| SymbolCacheRuns.HitsAreCurrent | src/serena/symbol.py:50-124 | in every interleaving of building keys, running queries, invalidating and storing, a hit was computed entirely in the current generation |
| SymbolCacheRuns.NeverOverfull | src/serena/symbol.py:99-105 | the cache never exceeds its maximum, if that is at least one |
| SymbolCacheRuns.FetchedIsCurrent | src/serena/symbol.py:69-97 | a lookup in any reachable state finds only current work |
| SymbolCacheUse.EntriesInOrderOfUse | src/serena/symbol.py:69-105 | in every run the entries stand in the order in which they were last stored or answered |
| SymbolCacheUse.StoreHolds | src/serena/symbol.py:99-105 | a store keeps its own entry and, of the others, exactly those used last for which there is room |
| SymbolCacheUse.OthersStay | src/serena/symbol.py:69-111 | nothing else leaves the cache but what a lookup fails on and what names an invalidated file; that leaves entirely |
| SymbolCacheUse.FetchAnswers | src/serena/symbol.py:69-97 | a lookup is answered exactly when its key is held, at the project's current generation, and at most the time to live old; with what was stored last under it |
| SymbolCacheUse.ReadableKeyOutdatedIff | src/serena/symbol.py:75-88 | whatever the key holds before it, a token, a comma and digits after its last marker outdate it exactly when the token's generation is another |
| SymbolCacheUse.OtherKeysOutdated | src/serena/symbol.py:75-88 | anything else after the last marker outdates the key |
| SymbolCacheUse.UnmarkedKeyStays | src/serena/symbol.py:75-88 | a key without the marker is never outdated |
| SymbolCacheUse.GenerationCountsInvalidations | src/serena/symbol.py:50-55 | a project's generation is the number of its invalidations |
| SymbolCacheUse.FetchesAreCounted | src/serena/symbol.py:69-97 | hits and misses count the lookups that were answered and those that were not |
| NamePaths.MatchesReversedComponents | src/serena/symbol.py:324-340 | the loop decides component-wise suffix matching |
| NamePaths.ShowReadsBackIff | src/serena/symbol.py:254-292 | a printed component reads back as itself exactly when it has an index or its name does not end in a bracketed number |
| NamePaths.PrintedPathMatchesItselfIff | src/serena/symbol.py:305-340 | "/" and a printed name path match their own symbol exactly when no name holds a slash or, without an index, ends in a bracketed number, and of several components neither the first nor the last prints as nothing |
| NamePaths.AbsolutePathReadsBackIff | src/serena/symbol.py:305-316 | under the same condition, and only then, they read back as the symbol's own components |
| NamePaths.PrintedPathMatchesIff | src/serena/symbol.py:305-340 | and then they match exactly the symbols with the same names and printed indices |
| NamePaths.DroppingLeadingComponents | src/serena/symbol.py:305-340 | dropping leading components of a relative pattern loses no match |
| NameMatching.PatternMatchesIff | src/serena/symbol.py:305-340 | a pattern of non-empty names between slashes, absolute or not, matches exactly the symbols whose chain ends in them, with the index where one is given; with substring matching the last name may have more before and after |
| NameMatching.NameInsideMatchesIff | src/serena/symbol.py:294-303 | a single name with substring matching matches exactly the symbols whose last name has it inside |
| NameMatching.BracketedReads | src/serena/symbol.py:283-292 | a name with digits in brackets after it is read as the name and the number |
| NameMatching.PlainReads | src/serena/symbol.py:283-292 | any other name is read as it stands |
| SymbolGrouping.GroupingConservesIff | src/serena/symbol.py:1451-1478 | putting keys back and flattening gives a permutation at every level of children, exactly when every key is present |
| SymbolGrouping.FlattenRegroup | src/serena/symbol.py:1451-1478 | what grouping gives back in general: the items with missing keys filled in |
| SymbolGrouping.BucketsKeepOrder | src/serena/symbol.py:1461-1466 | bucket values are distinct and each bucket is the items of that value in original order |
| SymbolGrouping.GroupBy | src/serena/symbol.py:1451-1478 | the nested grouping loops compute the recursive definition, and end |
| SymbolGrouping.GroupBuckets | src/serena/symbol.py:1468-1470 | regroups every bucket by the remaining keys |
| SymbolGrouping.GroupChildren | src/serena/symbol.py:1473-1478 | regroups the children of every item |
| SymbolGrouping.PutInBucket | src/serena/symbol.py:1463-1466 | appends to the bucket of a value, opening it at the end if new |
| CgcIndexerRuns.SkippingIsSound | src/serena_v8/sidecars.py:626-720 | a submit is skipped whose target was recorded since a graph was last lost, and not between the two renames of a promotion; if no file under the target ever got back an earlier stamp, the graph holds the current version of every tracked file there, for overlapping targets, failed jobs and promotions, and any other edits at any moment |
| CgcIndexerRuns.AlwaysSkipsSoundlyIff | src/serena_v8/sidecars.py:626-720 | over all runs skipping is sound exactly when no promotion loses the graph, no edit gives a file back an earlier stamp and no submit falls between the two renames of a promotion |
| CgcIndexerRuns.LostGraphIsSkipped | src/serena_v8/sidecars.py:706-719 | the run in which a lost graph leaves a record behind and its target is skipped |
| CgcIndexerRuns.RevertedFileIsSkipped | src/serena_v8/sidecars.py:653-686 | the run in which a file is moved away, the workspace indexed, and the file put back as it was and skipped |
| CgcIndexerRuns.MidwayIsSkipped | src/serena_v8/sidecars.py:706-713 | the run in which a submit between the two renames is skipped while no graph is in place |
| CgcIndexerRuns.NoReturnsIff | src/serena_v8/sidecars.py:653-657 | the condition on edits, read off the events, is that no path under the target is among those that got back a stamp |
| CgcIndexerRuns.RunSound | src/serena_v8/sidecars.py:653-720 | what a snapshot recorded since the last loss still says, in every run, about the disk, graph and dirty paths of the files that never got back an earlier stamp |
| CgcIndexerRuns.RegistryBounded | src/serena_v8/sidecars.py:615-651 | in every run at most 8 jobs are unfinished, at most 64 kept, the tables have the same keys, and the running job is among them |
| CgcIndexerRuns.PruneEffect | src/serena_v8/sidecars.py:615-624 | pruning removes completed jobs only and leaves room for the reserve |
| CgcIndexerAnswers.SubmitIsAnswered | src/serena_v8/sidecars.py:626-657 | in every run a submit is turned away exactly when eight jobs are unfinished; otherwise its job is skipped exactly when it is not forced, its target was recorded, every tracked file under it is as when the recorded job began, and none is dirty; and queued without a note in every other case |
| CgcIndexerAnswers.RunDirties | src/serena_v8/sidecars.py:677-682 | in every run the dirty paths are those that the last recorded job that saw them saw change |
| CgcIndexerAnswers.VanishedStaysDirty | src/serena_v8/sidecars.py:653-682 | a dirty file that is gone before the next job begins stays dirty until it is back, whatever is indexed meanwhile, and no target above it is skipped |
| CgcIndexerAnswers.RunRecords | src/serena_v8/sidecars.py:677-681 | in every run the snapshot of a target tells the files under it as they were when the job began that was last recorded for it |
| CgcIndexerAnswers.RecordNotes | src/serena_v8/sidecars.py:677-686 | a recorded job notes exactly the files that differ between its start and its end, and is dirty when there are any |
| CgcIndexerAnswers.PruneKeeps | src/serena_v8/sidecars.py:615-624 | exactly which jobs pruning keeps: the unfinished ones, and of the completed ones those younger than an hour with enough older ones before them to make up for the excess |
| CgcIndexer.WorkspaceCgcIndexer.PruneJobs | src/serena_v8/sidecars.py:615-624 | new registry after the pruning loop |
| CgcIndexer.WorkspaceCgcIndexer.CountPending | src/serena_v8/sidecars.py:630 | counts the unfinished jobs |
| CgcIndexer.WorkspaceCgcIndexer.SubmitJob | src/serena_v8/sidecars.py:626-651 | refused when full; otherwise prunes, then skips or queues; a forced job that is accepted is queued without a note |
| CgcIndexer.WorkspaceCgcIndexer.RecordRun | src/serena_v8/sidecars.py:677-686 | records the snapshot taken before the run and marks what changed meanwhile |
| CgcIndexer.WorkspaceCgcIndexer.CompleteJob | src/serena_v8/sidecars.py:696-700 | marks the job completed |
| L1Cache.EvictsShortestPrefix | src/serena_v8/cache.py:65-69 | eviction drops the shortest least-recently-used prefix that makes room, everything if nothing does |
| L1CacheUse.SlotsInOrderOfUse | src/serena_v8/cache.py:41-89 | over any sequence of gets, puts and invalidations the entries stand in the order in which they were last put or answered |
| L1CacheUse.EvictedIsLeastRecent | src/serena_v8/cache.py:59-76 | so whatever a put evicts was last used before everything that stays |
| L1CacheUse.PutHolds | src/serena_v8/cache.py:59-76 | a put keeps its own entry and, of the others, exactly those that fit beside it with everything used later |
| L1CacheUse.OthersStay | src/serena_v8/cache.py:41-89 | nothing else leaves the cache but an expired entry that is asked for and what is invalidated; that leaves entirely |
| L1CacheUse.GetAnswers | src/serena_v8/cache.py:41-57 | a get is answered exactly when its key is held and was put at most the time to live ago, with what was put last |
| L1CacheUse.GetsAreCounted | src/serena_v8/cache.py:41-57 | hits and misses count the gets that were answered and those that were not |
| L1CacheUse.EvictionsAreCounted | src/serena_v8/cache.py:41-76 | evictions count the entries that made room and the expired ones that were asked for |
| L1Cache.PutBooked | src/serena_v8/cache.py:59-76 | after a put the bytes are the sum of the sizes, within budget unless the new entry is alone, and only old entries and the new one are held |
| L1Cache.GetBooked | src/serena_v8/cache.py:41-57 | a get keeps books and budget |
| L1Cache.InvalidateBooked | src/serena_v8/cache.py:78-82 | an invalidation keeps the books and removes the key |
| L1Cache.PrefixBooked | src/serena_v8/cache.py:84-89 | an invalidation by prefix keeps books and budget |
| L1Cache.L1MemoryCache.constructor | src/serena_v8/cache.py:30-39 | starts empty |
| L1Cache.L1MemoryCache.Get | src/serena_v8/cache.py:41-57 | returned value and new state; an answered key moves to the end |
| L1Cache.L1MemoryCache.Put | src/serena_v8/cache.py:59-76 | new state after the eviction loop |
| L1Cache.L1MemoryCache.MakeRoom | src/serena_v8/cache.py:65-69 | the eviction loop leaves what the specification leaves |
| L1Cache.L1MemoryCache.Invalidate | src/serena_v8/cache.py:78-82 | new state |
| L1Cache.L1MemoryCache.InvalidatePrefix | src/serena_v8/cache.py:84-89 | new state |
| TieredCache.KeysDistinct | src/serena_v8/cache.py:268-276 | without colons in the names different queries have different keys, shortened ones included |
| TieredCache.ColonsCollide | src/serena_v8/cache.py:268-276 | with colons two queries can share a key |
| TieredCache.PrefixesNameOwners | src/serena_v8/cache.py:326-335 | a key starts with a project's or tool's prefix exactly when it belongs to it |
| TieredCache.LikeCoversPrefix | src/serena_v8/cache.py:176-179 | deleting by pattern covers every key with the prefix, even when the prefix holds wildcards |
| TieredCache.L2DiskCache.Get | src/serena_v8/cache.py:138-160 | returned value; an expired row is deleted |
| TieredCache.L2DiskCache.Put | src/serena_v8/cache.py:162-169 | inserts or replaces one row |
| TieredCache.L2DiskCache.InvalidatePrefix | src/serena_v8/cache.py:176-179 | deletes exactly the keys like the pattern |
| TieredCache.L2DiskCache.InvalidateProject | src/serena_v8/cache.py:181-184 | deletes exactly the project's rows |
| TieredCache.L2DiskCache.CleanupExpired | src/serena_v8/cache.py:186-192 | deletes exactly the expired rows |
| TieredCache.MultiTierCache.constructor | src/serena_v8/cache.py:238-265 | the enabled tiers, empty |
| TieredCache.MultiTierCache.LookInMemory | src/serena_v8/cache.py:286-291 | the section of a get on memory: value, hit count and what the look leaves; nothing for a stored null |
| TieredCache.MultiTierCache.LookOnDisk | src/serena_v8/cache.py:293-297 | the section of a get on disk |
| TieredCache.MultiTierCache.Promote | src/serena_v8/cache.py:298-300 | the section that writes what was found on disk to memory |
| TieredCache.MultiTierCache.Get | src/serena_v8/cache.py:278-302 | the three sections in order, each with its own clock reading: memory before disk, promotion of what disk answers |
| TieredCache.MultiTierCache.Put | src/serena_v8/cache.py:304-316 | the section on memory, then the one on disk, where a zero time to live becomes the default |
| TieredCache.MultiTierCache.Invalidate | src/serena_v8/cache.py:318-335 | by key, by tool or by project, on memory, then on disk |
| TieredCacheRuns.HitsAreLastWrites | src/serena_v8/cache.py:278-335 | in every interleaving of sections, clean-ups and restarts a hit from a tier is the last value written to that tier for the query, of age at most the two times to live and the delay of its promotion |
| TieredCacheRuns.RunFaithful | src/serena_v8/cache.py:278-335 | every slot and row of every interleaving stands for the last write of its key in its tier |
| TieredCacheRuns.MemoryKeepsItsBooks | src/serena_v8/cache.py:41-89 | recorded bytes are the sum of the sizes and within budget in every interleaving, promotions included |
| TieredCacheOverlaps.HitsAreLastPuts | src/serena_v8/cache.py:278-335 | a hit is the last value put and not invalidated since, whatever overlaps on other queries, when on its own query no put or invalidation overlaps a get or put |
| TieredCacheOverlaps.InvalidatedQueryMisses | src/serena_v8/cache.py:318-335 | under that condition nothing put before an invalidation by key, tool or project returned is answered after it |
| TieredCacheOverlaps.PutIsFoundUntilExpiry | src/serena_v8/cache.py:278-316 | with the disk tier on, a put value is found until it expires, is overwritten or is invalidated, whatever overlaps, and is what is answered under that condition |
| TieredCacheOverlaps.PromotionIsLastPutIff | src/serena_v8/cache.py:292-300 | for any sections between a get's look on disk and its promotion: the promoted value is found in memory, and is the last put exactly when none of them invalidates the query or puts another value, or the same value is put last |
| TieredCacheRaces.AlwaysLastPutIff | src/serena_v8/cache.py:278-335 | over all runs with given kinds of overlaps hits are last puts exactly when one tier is off or no put or invalidation overlaps a get or put of the query |
| TieredCacheRaces.PromotionOutlivesInvalidation | src/serena_v8/cache.py:292-300 | an invalidation between disk lookup and promotion is undone by the promotion |
| TieredCacheRaces.PromotionOutlivesPut | src/serena_v8/cache.py:292-316 | a put of another value there is overwritten in memory by the old one |
| TieredCacheRaces.OverlappingPutsAgreeIff | src/serena_v8/cache.py:304-316 | two overlapping puts of a query leave the tiers with one value exactly when they write them in the same order or put the same value |
| TieredCacheUse.CleanUpIsUnseen | src/serena_v8/cache.py:186-192 | a clean-up leaves only rows that are in time, and no get from then on can tell that it took place |
| TieredCacheUse.ExpiredRowIsDeleted | src/serena_v8/cache.py:138-160 | a look on disk deletes the row it finds expired, and nothing else |
| TieredCacheUse.HitsAreCounted | src/serena_v8/cache.py:278-302 | in every interleaving the two counters tell the looks since the last restart that found a value in their tier |
| TieredCacheUse.GetIsItsSections | src/serena_v8/cache.py:278-302 | the sections of a get with nothing between them are the whole get |
| TieredCacheUse.LikeConcatIff | src/serena_v8/cache.py:176-179 | patterns in a row are like the texts that part into texts like each of them |
| TieredCacheUse.OneCharacterIs | src/serena_v8/cache.py:176-179 | a character of a pattern stands for itself in either case, an underscore for any one character |
| TieredCacheUse.PlainPrefixIff | src/serena_v8/cache.py:176-179 | deleting by a prefix without wildcards deletes exactly the keys that start with it, in either case of the letters |
| JsonText.CharReads | src/serena_v8/optimize.py:67-76 | every character, escaped in either of the two ways, is read back, surrogate pairs included |
| JsonText.StringReads | src/serena_v8/optimize.py:67-76 | so is every string, up to its closing quotation mark |
| CompactJson.PrintedTextReadsBack | src/serena_v8/optimize.py:56-78 | the output is a JSON text whose value is the input with None members dropped and long strings cut |
| CompactJson.EqualTextsIff | src/serena_v8/optimize.py:56-78 | outputs are equal exactly when the normalised inputs are |
| CompactJson.ReprintIsStableIff | src/serena_v8/optimize.py:64-67 | reading and printing again gives the same text for all values exactly when the limit is not negative or is minus three |
| CompactJson.TextIsPlainNorm | src/serena_v8/optimize.py:56-78 | printing is plain printing of the normalised value |
| CompactJson.PlainReads | src/serena_v8/optimize.py:56-78 | plain text reads back in any context that may follow a value |
| CompactJsonShape.CutIs | src/serena_v8/optimize.py:64-67 | a string over the limit is cut to it, or short of its end for a negative limit, and dotted; any other stays |
| CompactJsonShape.MembersKept | src/serena_v8/optimize.py:71-77 | exactly the members stay whose value is not None, or all of them when None is kept, in their order, each with its key |
| CompactJsonShape.ItemsKept | src/serena_v8/optimize.py:68-70 | all items of a list stay, in their order |
| CompactJsonShape.NothingLeftIsNone | src/serena_v8/optimize.py:56-78 | with None skipped no member that is None is left at any depth |
| CompactJsonShape.StringsLeftAreShort | src/serena_v8/optimize.py:64-67 | no string value left at any depth is longer than the limit and three dots |
| CompactJsonShape.NothingToDo | src/serena_v8/optimize.py:56-78 | a value without such members and strings is printed whole |
| CompactJsonShape.NoSpaceOutsideStrings | src/serena_v8/optimize.py:56-78 | outside of its strings the output has no white space |
| CompactJsonShape.OrdinaryTextStays | src/serena_v8/optimize.py:67-76 | text that needs no escape is written as it stands |
| CompactJsonShape.KeysAreAscii | src/serena_v8/optimize.py:67-76 | no control character is written raw, and nothing outside ASCII in a key |
| CompactJson.CompactSerializer.SerializeCompact | src/serena_v8/optimize.py:56-78 | the recursive method computes the text |
| CompactJson.CompactSerializer.SerializeItems | src/serena_v8/optimize.py:68-70 | texts of the list items |
| CompactJson.CompactSerializer.SerializeMembers | src/serena_v8/optimize.py:71-77 | texts of the members that are not skipped |
| ReminderHook.CountersAreRuns | src/serena/hooks.py:218-267 | in every session each counter is the longest gap-bounded run of its calls since the last symbolic call or deny, outside quiet intervals, and stays below its threshold |
| ReminderHook.AnswerFromHistory | src/serena/hooks.py:448-486 | what a call is answered, from the history alone: quiet after any recent deny, else a deny exactly when the call completes a burst |
| ReminderHook.AnswersInFigures | src/serena/hooks.py:448-486 | the same in figures: silence for 120 seconds after a deny, then a deny to the third grep and the third read in a row with gaps of at most 1000 seconds, and to the fourth of either with gaps of at most 2000 |
| ReminderHook.DeniesAreApart | src/serena/hooks.py:184-194 | any two denies are at least 120 seconds apart, whatever the clock does |
| ReminderHook.DenyNamesTheCall | src/serena/hooks.py:468-477 | the two fallback branches are never taken |
| ReminderHook.ToolUseCounter.Reset | src/serena/hooks.py:261-267 | clears all but the time of the last deny |
| ReminderHook.ToolUseCounter.Update | src/serena/hooks.py:218-259 | new counters after a call |
| ReminderHook.ToolUseCounter.Execute | src/serena/hooks.py:448-486 | answer and new counters |
| RestartLimiter.RestartsAreLimited | scripts/workspace-watchdog-v8.py:228-245 | with a clock that never goes back every half-open hour holds at most five restarts of a service and consecutive ones are a minute apart, although old stamps are discarded |
| RestartLimiter.RestartsExactlyWhenAllowed | scripts/workspace-watchdog-v8.py:228-245 | a check restarts exactly when the command works, the last restart is a minute old and fewer than five of all restarts ever made are in the last hour |
| RestartLimiter.OldStampsAreDropped | scripts/workspace-watchdog-v8.py:228-236 | a check within a minute of the last restart changes nothing; any other drops the stamps of an hour ago or earlier and keeps the later ones |
| RestartLimiter.ClosedHourHoldsSix | scripts/workspace-watchdog-v8.py:232-235 | a closed hour can hold six restarts |
| RestartLimiter.Watchdog.RestartService | scripts/workspace-watchdog-v8.py:228-245 | answer and new state |
| RestartLimiter.Watchdog.KeepRecent | scripts/workspace-watchdog-v8.py:233 | the stamps later than the cutoff |

## Left out

- Threads, locks and condition variables: the model takes each locked section as one step, apart from the timeout
  section, which `DeadlineThread` splits; the other scheduler theorems take it as one step, as it is when nothing
  interrupts it (`UninterruptedSection`).
- `shutdown`, `atexit` hooks, `BaseException`, and timing metadata such as wait and execution times.
- Object identity in the scheduler: a request, its future and its worker share one record in a table; the heap is a
  sorted sequence; single-flight keys are compared before they are joined into text.
- Scheduled functions: reads never write the store, and only functions in the write lane do.
- Hashes, digests, UUIDs and `realpath` are taken as injective or fresh; the MD5 of a long cache key as injective and
  never starting with a brace.
- Clocks that go back, for the file change notifier: every edit, move, announcement and poll is at or after the one
  before it.
- I/O errors during scans and polls, and file system changes during a poll. Ignore rules and language masks do not
  change during a run. Symbolic links and special files are one kind of entry that is never followed.
- NotifierTheorems.KnownChangeSafeIff: for runs without directory moves; with them and announcements no polls can be
  relied on (`PollsAlwaysCurrentIff`). A rename moves a directory to a free name inside the project.
- Announcements before the first poll: the notifier polls once when it is made, unless it is told not to.
- Discovery without `_gather_source_tree`, and the LSP traffic itself: the server's view is updated by the events.
- `isdigit` and `int` on digits outside ASCII, and the leniency of `int` about spaces, signs and underscores.
- The transformations and singleton collapsing of grouped symbols; items are values, not dictionaries changed in
  place; the children key is never a grouping key.
- Output parsing, subprocesses and the query cache of `SidecarRunner`. The snapshot of a target is taken in one step,
  its ignore rules are part of what is tracked, and the tool only ever writes versions that are on disk and
  drops files that are gone. Completion time and completion of a job are one step.
- Values survive their JSON text on disk unchanged. SQL text comparison beyond ASCII case, the third tier, which holds
  nothing, and lost updates of the cache's unlocked hit counters are not modelled.
- CompactJson.PrintedTextReadsBack: floats, keys that are not strings, other objects, lone surrogates, and the
  interpreter's limit on the digits of an integer are not modelled.
- The classification of tool calls by name and shell command, and the file that persists the counters: a call comes
  classified and its counters are loaded as they were saved.
- A restart command that runs into its timeout counts as one that failed; health evaluation and probes are left out.
- Task executor, language server manager, hardening, profiler, runtime glue, code editor, schema sanitising, CLI,
  dashboards, prompts, benchmarks and configuration: process control, or repeats of what is modelled here.
