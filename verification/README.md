# Salvager, verified

Salvager keeps the history of every file in a project: a content-addressed
store (`store/`), a watcher and a polling sweep that feed it (`watch/`), and a
guard that judges shell commands before an agent runs them (`guard/`). This
project models the three in Dafny and proves what they promise.

## How it is put together

| file | what it holds |
|---|---|
| `Base`, `Ordering` | revisions, labels, content signals; the (timestamp, path) order and its sort |
| `ContentSignal` | the line count, byte count and start signature of a content, whole and streamed |
| `Strconv`, `LogCodec`, `LogFiles` | numbers and quoted bytes as text, with UTF-8; log lines and log files: writing, parsing, rewriting; every revision a run forms fits a line |
| `TextLogs` | the store over its log files as text: histories read by parsing, written line by line, rewritten by collections |
| `Store` (module `StoreModel`) | the store as a state, and the effect of Record, Restore, RestoreAt, UndoRestoreAt and Get on it |
| `Retention`, `RetentionLaws` | both garbage collections and what they keep |
| `Collector`, `FileStore` (module `FileStores`) | the operations as the program runs them, step by step on mutable state, each proved to have exactly the effect `Store` and `Retention` give it |
| `Histories`, `Snapshots`, `Recovery`, `Batches` | runs of any operations: invariants, refinement of a store of full snapshots, reversibility |
| `LockProtocol`, `Crashes` | many processes, one effect at a time, under the shared/exclusive lock, each able to crash after every effect: whole batches too; what a crash at any point leaves |
| `Bursts` | the timeline over all files and the bursts of damage on it |
| `CaptureGate`, `GateAgreement` | the real-time gate's decision and its timing; the gate and the store together, over runs |
| `Debounce`, `Coverage` | the event loop; the tree walk with its polled remainder |
| `SweepAgreement`, `SweepPass` | the sweep among writers; one pass over the tree of `Coverage`, and what start-up and a pass together cover |
| `ShellScanner`, `ClauseLaws`, `OpenCommands` | splitting a command into clauses; the laws of the split; what an unclosed quote, backquote or parenthesis does to them |
| `Classifier` | cutting a clause into words, and the verdict on a command |

Operations the program carries out by changing things in place are methods with
loops and `modifies` clauses (`FileStores.FileStore`,
`GateAgreement.RealtimeGate`, `Debounce.Loop`, `Coverage.Watcher`,
`SweepPass.Sweeper`, the collector's and the scanner's loops). Each equals a
function of the old state or promises the law outright; the laws are proved of
those functions, over every input, run or reachable state.

## What is taken as given

- SHA-256 (section 6.2 of FIPS 180-4) is a function that never maps two contents
  to one hash and never to the empty string (`StoreModel.ValidEnv`). The store
  invariant and the log files (`Histories.RunKeepsStoreOk`, `TextLogs`) need only
  the second, and that a hash is 64 characters on one line.
- The clock is any sequence of readings, forwards or backwards. Only undo and
  idempotence of a batch ask for readings that do not go back
  (`Batches.ClockAdvances`), because those properties name instants.
- The working tree is a map from paths to contents; paths are relative to the
  root, clean, contained and free of symbolic links. The directory passed to a
  batch is already clean. The store directory exists.
- Appending a line, renaming a temporary file and removing a file are each one
  step. The only failures are crashes between steps and objects that are gone.
- Whether the backend takes a directory, what the ignore rules match, what Lstat
  returns, which runes are printable and when things happen are parameters.

## Where the code gives less than its comments or documents say

The model follows the code.

- docs/architecture.md:92-101 promises that neither collection separates a
  pre-restore from its restore. `gcLocked` protects only the newest pair
  (store/store.go:1242-1251). `RetentionLaws.GCKeepsPairs` gives the exact
  condition: a log's pairs stay together if and only if no pair behind which a
  newer revision exists has the cutoff strictly after its pre-restore and at or
  before its restore. `Histories.AgeCollectionSeparatesAPair` reaches such a store
  from an untracked project, for every file, clock and two contents: record, edit,
  restore, edit, record, then a collection with the cutoff at the restore.
  Collection by size keeps every pair (`RetentionLaws.GCBySizeKeepsPairs`).
- store/store.go:955-957 says a collected instant lands on the nearest surviving
  revision. Both collections keep a final stretch of each log, so the pick is the
  one made before or none (`RetentionLaws.PicksSurviveCollections`).
- store/store.go:541-543 says the streamed signature equals the whole-file one.
  `ContentSignal.StreamedSignalAgreesExactly` says when: the content fits the
  retained head, or is binary, or the head closes three non-blank lines, or the
  line it leaves open shows there what it shows in the whole content and, unless it
  is the third, no non-blank line follows. The condition store/store.go:394-401
  gives is sufficient (`StreamedSignalAgrees`), not necessary;
  `StreamedSignalCanDiffer` is a content outside the exact one.
- docs/architecture.md:10-15 and :80 say capture never excludes content by size; `record`
  skips a file over the cap (store/store.go:345-354). After Record the newest
  revision agrees with the disk if and only if the file is absent, within the cap or
  agreed before (`StoreModel.RecordAgreesExactly`); a changed file over the cap is
  not captured at all (`StoreModel.OverTheCapIsMissed`). What is said below of the
  gate and the sweep is therefore said of files within the cap.
- A restore to a deletion logs the deleted content's hash
  (store/store.go:838-846), and the safeguard of an absent file the last hash
  (store/store.go:332-338). A restore's newest revision describes the disk if and
  only if its target is no deletion (`Recovery.RestoreAgreesExactly`), a safeguard
  if and only if the file is there (`StoreModel.SafeguardAgreesExactly`). Undo of a
  batch therefore brings an absent file back with its last recorded content.
- The gate's stat is taken after the capture, not with it (watch/watch.go:259-289).
  `CaptureGate.GateSoundExactly` says which timing that tolerates;
  `GateAgreement.GateSkipsOnlyHeld` holds over every run with such timing, and over
  every run of writers that rewind mtime in which nothing is written between the
  read and the stat; `GateAgreement.WriteBeforeStatIsMissed` is what such a write costs.
- guard/guard.go:129-130 says that an unsure splitter errs towards more clauses.
  Behind a quotation mark that is never closed it makes one clause of everything
  (`ClauseLaws.OpenQuoteSwallowsTheRest`), and an unclosed backquote or `$(` takes
  what follows into its substitution. The clauses of `A;B` are those of A plus those
  of B for every B if and only if A is closed
  (`OpenCommands.ComposesExactlyWhenClosed`), and so for the tiers
  (`OpenCommands.TierComposesExactlyWhenClosed`). For some single B the law holds
  behind an A that is not closed.
- Behind an unescaped `>` a bar makes the redirection `>|` and does not separate
  (guard/guard.go:234-238). For a closed A the law holds with a separator, whatever
  follows, if and only if it is not such a bar (`ClauseLaws.ComposesExactly`).

## Model

| member | source | states |
|---|---|---|
| Ordering.SortSorts | store/store.go:1367-1374 | the library sort: the result is a rearrangement in which nothing follows a later (timestamp, path) |
| Ordering.SortForgetsOrder | store/store.go:1344-1376 | with distinct keys the sorted result is the same whatever order (of map iteration) the elements came in |
| ContentSignal.StreamedSignalAgrees | store/store.go:394-402 | the signal computed from the stream is the one of the whole content when the content fits the retained head or three non-blank lines end in it |
| ContentSignal.StreamedSignalAgreesExactly | store/store.go:541-564 | for every content, the two signals agree if and only if the head suffices: no tail, binary, three closed lines, or an open line that shows the same and hides nothing |
| ContentSignal.StreamedSignalCanDiffer | store/store.go:541-549 | a content outside that condition, whatever came before it: one line that fills the head hides the lines after it |
| ContentSignal.BuildStartSignature | store/store.go:585-615 | the picking loop returns the start signature: binary heads give none, lines clamped, blanks skipped |
| ContentSignal.PickLines | store/store.go:599-613 | the first `count` non-blank lines, each without its carriage returns and clamped |
| ContentSignal.NewlinesConcat | store/store.go:477-485 | counting newlines chunk by chunk counts those of the whole |
| ContentSignal.LineByteCounter.Write | store/store.go:477-485 | after any chunking the counter stands for exactly the bytes written so far |
| ContentSignal.LineByteCounter.Lines | store/store.go:489-498 | its line count is that of the whole content, with a final unterminated line |
| ContentSignal.PrefixSink.Write | store/store.go:508-516 | the sink holds the first `limit` bytes of everything written |
| ContentSignal.SignalFromStream | store/store.go:544-564 | the streamed signal depends only on the content, not on how it was cut into chunks |
| Strconv.ParseIntOfItoa | store/store.go:621-631 | every 64-bit number written in decimal is read back |
| Strconv.UnquoteOfQuote | store/store.go:629-630 | quoting loses no byte of the signature, whichever runes are printable: also where clamping a line at 120 bytes cut a UTF-8 sequence in two |
| Strconv.QuoteIsOnOneLine | store/store.go:583-584 | no byte of a signature can break the line or the column, and a byte takes at most four |
| Strconv.EncodedIsRead | store/store.go:629-630 | a decoded UTF-8 sequence is encoded as the very bytes it came from |
| LogCodec.SplitOfJoin | store/store.go:668-672 | splitting a line at its tabs gives the joined columns back |
| LogCodec.ParseOfFormat | store/store.go:621-682 | parsing inverts formatting, for revisions with and without a signal |
| LogCodec.ParseIsStable | store/store.go:615-620 | whatever line parses can be written again and reads the same then; a legacy or corrupt-signal line never gains a signal |
| LogCodec.ReadsBackExactly | store/store.go:701-724 | a formatted line is read back through the line scanner if and only if it is not a signal-less line whose label ends in a carriage return |
| LogCodec.ReadOfRewritten | store/store.go:1504-1530 | reading the log written for the kept revisions returns exactly those |
| LogCodec.AppendedLine | store/store.go:637-661 | an appended line adds its revision alone, with or without its newline; a line the parser refuses costs no other |
| LogCodec.ReadLogFile | store/store.go:701-724 | the reading loop: every parseable line in order, stopping at a line over the 4 MiB limit |
| LogCodec.RewriteLogFile | store/store.go:1504-1514 | the rewriting loop: one line for each kept revision, no file for none |
| TextLogs.ReachableLogsReadBack | store/store.go:637-724 | over every run whose clock and file sizes fit 64 bits, with every history read from its log file as text and written by appended lines and rewrites: each file is there exactly when the log is, holds one line per revision, reads back complete and as the log, and what is read in all of them is the store of `StoreModel` |
| TextLogs.RecordHolds | store/store.go:318-385 | Record on the files is Record on the histories they hold |
| TextLogs.RestoreHolds | store/store.go:813-884 | so is Restore, which reads the log a second time behind its safeguard |
| TextLogs.CollectHolds | store/store.go:1242-1261 | so is a collection: logs that lose nothing untouched, others rewritten |
| LogFiles.LinesOfAppend | store/store.go:621-631 | appending a revision's line to the text of a log gives the text of the longer log |
| LogFiles.TornAppend | store/store.go:633-661 | an append cut off at any character leaves every earlier revision readable and adds at most one; with only its newline missing it is whole |
| StoreModel.Increasing | store/store.go:637-650 | the timestamps of a log strictly increase, across any distance |
| StoreModel.FindAddresses | store/store.go:771-785 | a timestamp addresses its revision and no other |
| StoreModel.RecordOk | store/store.go:318-385 | Record keeps the store invariant, under any clock: increasing timestamps, no empty hash, no delete after a delete, every logged hash stored under its own hash |
| StoreModel.RestoreOk | store/store.go:813-884 | so does Restore, on each of its paths |
| StoreModel.RestoreFilesOk | store/store.go:982-1057 | so does a batch of restores, however far it gets |
| StoreModel.UndoFilesOk | store/store.go:1084-1129 | so does the undo of a batch |
| StoreModel.RecordAgrees | store/store.go:318-385 | after Record of a file within the size cap the newest revision agrees with the disk; nothing else changes |
| StoreModel.RecordAgreesExactly | store/store.go:345-354 | after Record the newest revision agrees with the disk if and only if the file is absent, within the cap, or agreed before |
| StoreModel.OverTheCapIsMissed | store/store.go:345-354 | Record of a changed file over the cap changes nothing and leaves it uncaptured |
| StoreModel.SafeguardAgreesExactly | store/store.go:328-338 | a forced safeguard describes the disk if and only if the file is there |
| Retention.AgeDropExact | store/store.go:1222-1251 | collection by age drops exactly the unpinned revisions older than the cutoff, as a beginning of the log |
| Retention.AgeKeptIsSuffix | store/store.go:1248-1252 | what it keeps is a final stretch |
| Retention.UnitsAreTheUnpinned | store/store.go:1344-1366 | a file's eviction units, put end to end, are its revisions up to the pinned ones |
| Retention.UnitsForgetOrder | store/store.go:1344-1376 | the ordered units do not depend on the order the files were visited in |
| Retention.UnitsOfPath | store/store.go:1344-1376 | sorting all units keeps each file's own units in their order |
| Retention.LogsAfterPrefix | store/store.go:1439-1493 | evicting any number of units leaves a final stretch of each log that includes its pinned revisions |
| Retention.EvictOneMore | store/store.go:1439-1460 | evicting one more unit takes the front of one log and nothing else |
| RetentionLaws.GCTrims | store/store.go:1222-1265 | collection by age leaves a non-empty final stretch of every log and exactly the objects those name |
| RetentionLaws.GCBySizeTrims | store/store.go:1405-1501 | so does collection by size |
| RetentionLaws.CollectAllTrims | store/store.go:1222-1501 | so does any number of collections of both kinds, and the store invariant holds after them |
| RetentionLaws.PicksSurviveCollections | store/store.go:955-957 | after any collections a point in time picks, for each file, the revision it picked before or none |
| RetentionLaws.GetSurvivesCollections | store/store.go:771-785 | Get of a surviving revision reads what it read before the collections |
| RetentionLaws.UnitsMissExactlyThePinned | store/store.go:1319-1376 | a revision is in no eviction unit if and only if `pinnedIndices` pins it: the two collections share one floor |
| RetentionLaws.GCKeepsPairs | store/store.go:1235-1251 | collection by age keeps pre-restore and restore together if and only if no pair that is not the newest straddles the cutoff |
| RetentionLaws.EvictionKeepsPairs | store/store.go:1344-1366 | evicting any number of units never leaves a restore without its pre-restore |
| RetentionLaws.GCBySizeKeepsPairs | store/store.go:1332-1343 | so collection by size keeps the pairs, for every budget |
| RetentionLaws.GCBySizeExact | store/store.go:1405-1501 | over budget, it evicts exactly the shortest beginning of the ordered units that fits, or all; the objects left are exactly the referenced ones and the returned size is theirs |
| RetentionLaws.EvictionCounts | store/store.go:1439-1452 | one unit's eviction takes exactly that unit's hashes out of the reference counts |
| Collector.PinnedIndices | store/store.go:1319-1330 | the method marks exactly the pinned indices |
| Collector.KeepRecent | store/store.go:1242-1251 | the filtering loop keeps what the age rule keeps |
| Collector.UnitsOfFile | store/store.go:1344-1366 | the loop with its two-step advance builds the file's units |
| Collector.BuildEvictionUnits | store/store.go:1344-1376 | over a map visited in any order, the units of all files in (timestamp, path) order |
| Collector.CountReferences | store/store.go:1412-1435 | refcount, size and total equal the number of references, the sizes and the deduplicated sum recomputed from the logs |
| Collector.EvictUnit | store/store.go:1443-1455 | decrementing member by member keeps them equal to the values of the surviving revisions |
| Collector.EvictNext | store/store.go:1443-1455 | after each unit refcount and total are those recomputed from the logs that survive so far |
| Collector.EvictUntilFits | store/store.go:1437-1460 | the walk stops at the first beginning that fits the budget, with its exact total |
| Collector.KeepUnmarked | store/store.go:1473-1488 | keeping the revisions whose timestamp is not marked |
| FileStores.FileStore.AppendLog | store/store.go:637-661 | the method has exactly the effect of the model's AppendLog: one revision, timestamp pushed past the newest |
| FileStores.FileStore.CaptureStream | store/store.go:420-465 | one pass over the source, in reads of any size, places its object and returns its hash and streamed signal |
| FileStores.FileStore.RecordFile | store/store.go:318-385 | exactly the model's Record: absent, over the cap, unchanged, forced and ordinary cases |
| FileStores.FileStore.RestoreLocked | store/store.go:813-884 | exactly the model's Restore, including the refusal of an unknown timestamp and a missing object |
| FileStores.FileStore.RestoreAtLocked | store/store.go:982-1069 | exactly the model's batch: per-file outcomes, window and stop at the first failure |
| FileStores.FileStore.UndoRestoreAt | store/store.go:1084-1129 | exactly the model's undo over a window |
| FileStores.FileStore.GetLocked | store/store.go:771-785 | exactly the model's Get |
| FileStores.FileStore.GcLocked | store/store.go:1222-1265 | exactly the model's collection by age, logs one by one, then objects one by one |
| FileStores.FileStore.GcBySizeLocked | store/store.go:1405-1501 | exactly the model's collection by size, with its returned size |
| Histories.RunKeepsStoreOk | store/store.go:160-184 | every run of edits, Record, Restore, RestoreAt, undo and both collections keeps the store invariant |
| Histories.ReachableLogs | store/store.go:318-385 | in every reachable store, under any clock: timestamps strictly increase, first-seen only first, no delete after a delete, a delete repeats its predecessor's hash, a modify repeats one only after a delete, every hash is stored |
| Histories.DeltasTelescope | store/store.go:551-564 | known deltas over any stretch of a log sum to the difference of its ends' line counts, also after collections |
| Histories.RunKeepsPairs | store/store.go:813-884 | in every run no restore stands without its pre-restore before it, unless a collection by age straddles a pair |
| Histories.AgeCollectionSeparatesAPair | store/store.go:1235-1251 | a store reached from an untracked project, all pairs whole, whose collection by age keeps a restore and drops its pre-restore |
| Snapshots.RunRefines | store/store.go:318-385 | the deduplicated store behaves, over every run, as a store that keeps every snapshot whole, a collection being the forgetting of each file's oldest |
| Snapshots.GetReadsSnapshot | store/store.go:771-785 | Get on every surviving revision returns the bytes the simple store holds, or says it is a deletion |
| Snapshots.RecordRefines | store/store.go:318-385 | Record of the one is Record of the other |
| Snapshots.RestoreRefines | store/store.go:813-884 | Restore of the one is Restore of the other, and it succeeds exactly for a known timestamp |
| Snapshots.RestoreAtRefines | store/store.go:982-1057 | and so for a batch |
| Recovery.SafeguardEffect | store/store.go:328-338 | the forced safeguard logs one pre-restore with the disk's hash, or the last one of an absent file |
| Recovery.RestoreEffect | store/store.go:813-884 | Restore of a known timestamp succeeds: safeguard and restore back to back, disk as the target says, no other file touched |
| Recovery.RestoreAgreesExactly | store/store.go:836-846 | after Restore of a known timestamp the newest revision describes the disk if and only if the target is no deletion |
| Recovery.StagesEndInRestore | store/store.go:813-884 | the crash points start at the old store and end in Restore's |
| Crashes.StagesAreEffects | store/store.go:813-884 | the k-th crash point is the store after the first k steps of the restoring process |
| Recovery.NothingLost | store/store.go:786-790 | at every crash point of a Restore the content on disk when it began is still there or named by a logged pre-restore whose object is present |
| Recovery.RestoreIsReversible | store/store.go:786-790 | after Restore and any collections and edits, restoring to the returned timestamp brings that content back |
| Recovery.PickAddresses | store/store.go:1000-1047 | the batch's pick is what its timestamp addresses, so a content pick never takes the branch that removes a file |
| Recovery.RestoreFilesPlanned | store/store.go:982-1057 | the batch restores exactly the in-scope files whose pick is a content that the disk does not hold |
| Batches.RestoreAtEffect | store/store.go:946-963 | per file: rewritten as one Restore would, or untouched in log and disk |
| Batches.RestoreAtReaches | store/store.go:946-954 | a batch completes with every in-scope file whose pick is a content holding that content; all others are as before; no file is removed |
| Batches.RestoreAtIsIdempotent | store/store.go:1028-1040 | run again with the instant below the batch's start it appends and writes nothing |
| Batches.UndoEffect | store/store.go:1084-1129 | undo puts back exactly the files with a pre-restore in the window, at their newest one |
| Batches.UndoReverts | store/store.go:1071-1083 | batch, any Records and edits, undo: every rewritten file is back byte for byte, or with its last recorded content when it was absent; no other file is touched |
| LockProtocol.NextOk | store/store.go:264-296 | every step of every process, every crash and every edit keeps the protocol invariant |
| LockProtocol.RunOk | store/flock_unix.go:43-80 | so it holds in every reachable state of any number of processes |
| LockProtocol.NeverDangling | store/store.go:766-785 | at every step of every run each logged hash has its object, a sweep in progress spares all of them, and a Get that found a content reads exactly its bytes |
| LockProtocol.HolderIsUndisturbed | store/store.go:264-273 | while a process holds the lock no other changes logs or objects |
| LockProtocol.RecordStepsCompose | store/store.go:318-385 | the effects of Record, one after the other, are the model's Record |
| LockProtocol.RestoreStepsCompose | store/store.go:813-884 | and those of Restore the model's Restore |
| Crashes.RestoreBatchComposes | store/store.go:972-1069 | the steps of a restore batch under its one lock are the model's RestoreAt |
| Crashes.UndoBatchComposes | store/store.go:1084-1129 | and those of an undo the model's UndoRestoreAt |
| Crashes.NothingLostAmongProcesses | store/store.go:786-790 | while a process restores, batch-restores or undoes, through every interleaving and crash, the content a file had when it took the lock is on disk or under a logged safeguard with its object |
| LockProtocol.CollectionOrderIsIrrelevant | store/store.go:1222-1293 | logs and objects processed in any order end in the model's collection |
| Bursts.ScanIsTheTimeline | store/timeline.go:17-46 | the scan holds every revision of every file under the directory as often as it is logged, nothing else, in order |
| Bursts.ScanRevisions | store/timeline.go:17-46 | the collecting loop and the sort return that scan |
| Bursts.SpansAreTheBursts | store/timeline.go:83-88 | the stretches found are exactly the maximal runs of destructive events with no gap over 2000 ms that hit three files, in order and disjoint |
| Bursts.DetectBursts | store/timeline.go:88-133 | the loop with its flush reports exactly those stretches: span, sorted files, deletions, restore instant |
| Bursts.DamageIsOrdered | store/timeline.go:39-81 | the damage is exactly the destructive events, in time order when the timeline is |
| Bursts.RestoreInstantSeparates | store/timeline.go:48-58 | of all the damage exactly the events before the burst lie at or before its restore instant |
| Bursts.RestoreInstantPicks | store/store.go:1000-1007 | restore-at there picks a file's newest revision older than every event of the burst, or none when there is none |
| CaptureGate.GateSoundExactly | watch/watch.go:228-254 | with clock readings rounded down to granularity g, skipping is sound in every scenario if and only if (capture read to capturedAt) + g <= slop + 1 |
| CaptureGate.SkipSeesNoLaterWrite | watch/watch.go:228-254 | within that bound a skip means that no write followed the read |
| CaptureGate.MissedIsMissed | watch/watch.go:246-250 | beyond it, a rewrite the gate skips, for every g, gap and slop |
| CaptureGate.RewoundMtimeIsSeen | watch/watch.go:200-206 | a writer that rewinds mtime is seen when ctime advances and nothing is written between read and stat |
| CaptureGate.RewoundMtimeCanHide | watch/watch.go:259-289 | with a write in between it can be hidden, whatever the slop |
| GateAgreement.GateSkipsOnlyHeld | watch/watch.go:207-289 | in every run of captures, stats, clock readings, edits, restores, records and collections in any order, an event the gate skips is of a file whose newest revision is what is on disk: among writers that stamp the rounded clock when the clock is read within the timing bound, among writers that rewind mtime when ctime advances and nothing is written between read and stat, for every slop |
| GateAgreement.WriteBeforeStatIsMissed | watch/watch.go:259-289 | a write between a capture and its stat leaves the file uncaptured, and the gate skips it from then on if and only if its mtime lies before the racy window |
| GateAgreement.RunsLeaveItReady | watch/watch.go:259-289 | every such run establishes what one event relies on |
| GateAgreement.RealtimeGate.ShouldCapture | watch/watch.go:207-221 | no skip unless the store already holds what is on disk; a file never captured is captured |
| GateAgreement.RealtimeGate.RecordRealtime | watch/watch.go:259-289 | unless the store's Record fails, the file's newest revision is what is on disk afterwards, skipped or not, and no other history changes |
| Debounce.RecordedWhenQuiet | watch/watch.go:390-441 | a file is handed to recordRealtime exactly at a tick later by more than the debounce time than its newest event, once per quiet spell |
| Debounce.NoEventForgotten | watch/watch.go:390-441 | after every accepted event its file is handed to recordRealtime by the first tick that late |
| Debounce.Loop.OnEvent | watch/watch.go:399-424 | ignored paths, links and directories never wait, everything else does from now; exactly a created directory that is not ignored is to be registered |
| Debounce.Loop.OnTick | watch/watch.go:432-439 | the loop over the waiting files, in any order, hands over and forgets exactly those that are due |
| Coverage.UnderIsAncestor | watch/sweep.go:363-368 | the string test says that one path is an ancestor of, or equal to, the other |
| Coverage.AddedRootCovers | watch/sweep.go:162-177 | adding a root keeps the roots an antichain and makes the covered set the old one plus the new subtree |
| Coverage.ScopeIsSwept | watch/sweep.go:302-349 | a sweep of a directory visits every file the watcher has in scope below it |
| Coverage.WalkCovers | watch/watch.go:334-358 | after the walk every in-scope file lies in a watched directory or under a root, whatever the backend refused |
| Coverage.WatchedOrPolled | watch/watch.go:327-358 | and that root is a directory whose sweep visits the file |
| Coverage.WatchedIsRecorded | watch/watch.go:334-358 | registering a directory hands every in-scope file of each directory it puts under a watch to recordRealtime |
| Coverage.Watcher.AddRoot | watch/sweep.go:162-177 | the two loops over the roots, in any order, make exactly that set |
| Coverage.Watcher.WalkAndRegister | watch/watch.go:334-358 | the recursive registration makes exactly the modelled walk |
| Coverage.Watcher.Start | watch/watch.go:364-376 | the event loop is entered with uncovered files only if partial coverage was allowed |
| SweepAgreement.GateNeverHides | watch/sweep.go:302-349 | under writers, removals, restores and collections between any two steps: a file whose stat is the remembered one agrees with its newest revision |
| SweepAgreement.RunsLeaveItReady | watch/sweep.go:302-349 | every such run establishes what an undisturbed pass relies on |
| SweepPass.Sweeper.WalkRecord | watch/sweep.go:302-349 | the walk of a directory settles exactly the files it visits, in the tree the watcher walks, and touches no other |
| SweepPass.Sweeper.SweepRoots | watch/sweep.go:231-267 | an undisturbed pass ends with the store agreeing with the disk for every file a sweep of a root visits and a delete recorded for every seen file that is gone |
| SweepPass.Sweeper.ReconcileTree | watch/sweep.go:275-295 | so does a one-shot rescan of a directory, against the store's own index |
| SweepPass.ResolveFinds | watch/sweep.go:302-309 | a root's path leads back to the node it was registered for |
| SweepPass.RecordAll | watch/watch.go:280-289 | recordRealtime for all files found: each, and each that was so before, has a newest revision equal to disk |
| SweepPass.StartAndSweep | watch/watch.go:360-388 | after start-up and one undisturbed pass every file in scope has a newest revision equal to disk; without polling, every one in a watched directory |
| ShellScanner.LiftShrinks | guard/guard.go:143-177 | every lifted substitution is strictly shorter than the command, the rest no longer than it |
| ClauseLaws.LiftAppend | guard/guard.go:143-177 | lifting distributes over a closed command and what follows it |
| ClauseLaws.SplitSeparated | guard/guard.go:204-249 | splitting at the top level distributes over each separator (`;`, newline, one or two `&`, one or two bars) outside quotes, but for a bar behind an unescaped `>` |
| ShellScanner.ClausesShrink | guard/guard.go:132-139 | splitting terminates on every command, with no clause longer than it |
| ClauseLaws.ComposesExactly | guard/guard.go:122-139 | for every closed A, every separator and any B: the clauses of the whole are, as a multiset, those of A plus those of B if and only if the separator is no bar behind an unescaped `>` |
| OpenCommands.ComposesExactlyWhenClosed | guard/guard.go:122-139 | the clauses of A;B are those of A plus those of B for every B if and only if A is closed |
| ClauseLaws.ParenthesisedIsSplit | guard/guard.go:126-130 | every clause of a command in `$(...)` is a clause of the whole |
| ClauseLaws.BackquotedIsSplit | guard/guard.go:163-170 | and so between backquotes |
| ClauseLaws.OpenQuoteSwallowsTheRest | guard/guard.go:129-131 | behind an unclosed quotation mark everything is one clause |
| ShellScanner.MatchParen | guard/guard.go:182-196 | the depth-counting loop finds the matching parenthesis, or the end |
| ShellScanner.LiftSubstitutions | guard/guard.go:143-177 | the scanning loop lifts exactly as specified |
| ShellScanner.EscapedAt | guard/guard.go:254-260 | the backwards loop: an odd run of backslashes |
| ShellScanner.SplitTopLevel | guard/guard.go:204-249 | the splitting loop, with its look-ahead and the exception for a bar behind an unescaped `>`, splits exactly as specified |
| ShellScanner.SplitClauses | guard/guard.go:132-139 | the recursive splitter returns exactly the clauses |
| Classifier.TokenizeFits | guard/guard.go:267-301 | the words of a clause with a space between any two are no longer than it |
| Classifier.TokenizeClause | guard/guard.go:267-301 | the word loop cuts exactly as specified |
| Classifier.SpellingRoundTrips | guard/guard.go:262-301 | any words, quoted and joined by spaces, are one clause and are cut back into the same words |
| Classifier.InnerShrinks | guard/guard.go:325-336 | the text inside `sh -c` and the joined arguments of `eval` are strictly shorter than their clause, so the mutual recursion ends |
| Classifier.FindCommand | guard/guard.go:379-401 | the loop drops exactly the leading wrappers and assignments |
| Classifier.FindDashC | guard/guard.go:427-434 | the loop finds the argument of the first -c that has one |
| Classifier.JudgeIsWorst | guard/guard.go:112-120 | the verdict outranks every clause's and comes from one of them, early stop included |
| Classifier.TierComposes | guard/guard.go:97-121 | the tier of A, a separator and B is the maximum of the tiers of A and B, for every closed A, any B and every separator that separates behind A |
| OpenCommands.TierComposesExactlyWhenClosed | guard/guard.go:97-121 | the tier of A;B is the maximum for every B and all rules if and only if A is closed: behind an open A a denied B can pass |
| Classifier.TierOfSubstitution | guard/guard.go:124-131 | putting a command into a substitution does not lower its tier |
| Classifier.WrapperIsTransparent | guard/guard.go:325-336 | a quoted `sh -c` or `eval` command, behind any wrappers, gets the very verdict of the command inside, unless a redirection among the words is denied first |
| Classifier.WrappersHold | guard/guard.go:376-401 | behind a wrapper word, `sh -c` of any of the five shells holds its argument and `eval` its own |
| Classifier.ClassifyRequest | guard/guard.go:103-121 | the loop over the clauses, mutually recursive with the clause classifier, terminates and returns the specified verdict |

## Left out

- The command line, the MCP server, hook and settings files, service integration, install and benchmark scripts: plumbing over the operating system.
- fsnotify, kqueue, inotify, file permissions, file descriptors, the probe of the file system's timestamp granularity: a directory's registration is an oracle, stats and times are given.
- Containment checks and symbolic links (`safeRel`, `resolveContained`): paths are taken as contained.
- A crash inside one append among the steps of `LockProtocol`: an append is atomic there; what a torn one costs is `LogFiles.TornAppend`, and a line that the next append joins is not followed further.
- The unlocked path of readers before the store exists (store/store.go:283-290).
- I/O errors other than crashes and missing objects, leftover temporary files, lock waits and their time-out: an operation that does not get the lock does not run.
- The per-verb tables of the guard, its redirection and path rules and the protected list: the verdict on one command without wrappers, on redirections and on a path are parameters.
- Strconv.UnquoteOfQuote: which runes outside ASCII are printable is a parameter; a signature column in single or back quotes, which the store never writes, is refused.
- LogCodec.AppendedLine: a file's last line, torn in the middle, is either refused or read as what is left of it; that what is left can be a shorter valid line is not ruled out.
- ShellScanner.Trim: the scanner works on characters, not UTF-8 bytes, so commands that are not valid UTF-8 are outside the model.
- LockProtocol.CollectionOrderIsIrrelevant: in the step model a collection may prune each log to any non-empty final stretch, which covers both collections; which stretch each picks is in `Retention`.
- Crashes.NothingLostAmongProcesses: an editor that writes the very file under restore between its safeguard and its rewrite is left out, as the source leaves it.
- Classifier.TierComposes: behind a bar that is part of `>|` the tiers may or may not compose, depending on the rules; only the clauses are settled there.
- SweepPass.Sweeper.WalkRecord: the sweeper's methods work on the store as a value and on a fixed tree, so they show a pass without concurrent writes; interleavings are in `SweepAgreement.Next`.
- SweepAgreement.GateNeverHides: assumes that every write gives a file a stat it never had, as the source's comment on coarse file systems does.
- Coverage.Watcher.Start: the walk runs over a fixed tree and notes the files it records; `SweepPass.StartAndSweep` records them once the walk is over, with no Record failing.
- Debounce.Loop.OnEvent: hands a created directory back to be registered; that walk is `Coverage.Watcher.WalkAndRegister`.
- List, TrackedUnder's non-recursive form, DeltaString, the pass duration back-off and the I/O counters of the sweep: they would only add easy members.
