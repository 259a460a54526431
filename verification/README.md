# MultiSend: a verified model of chunked transfer

MultiSend sends a file over a LAN in numbered chunks, over one or more channels, with a
manifest on each side, retries, lost acknowledgements, cancel, crash and resume; it also
downloads over HTTP in byte ranges. This project models the parts whose correctness rests on
how several functions fit together and proves what they promise.

The central result is end to end: over every interleaving of the sender's workers, late and
duplicate deliveries, lost acks, rejected payloads, early finalizations, sender restarts from
any saved manifest and receiver crashes, whenever the receiver reports its merge "done" the
final file is the source, byte for byte, and stays so. It holds for exactly the transfers
whose final file the receiver's own cleanup glob does not match (`Delivery.DoneIsTrueExactlyWhenSafe`,
and in terms of directory and file name `Delivery.DoneIsTrueByPath`). A transfer the sender has
finished is also merged, as long as no wake-up of the receiver's timer is lost: which states can
still finish, and which runs lose the last wake-up, is exact too (`Delivery.SuccessFinishesExactlyWhenAwake`,
`NoLostWakeUp`, `DeliveredAndLost`), and while a wake-up is left every way forward ends in done
(`Finalization.EveryWayEndsInDone`).

## How it is built

The concurrent parts appear twice. A state machine has one step per critical section (or per
durable file operation, so that a crash can fall between any two) and the theorems are about
all its runs. A class then has the program's own fields and loops; each of its methods keeps
a ghost history that is a run of the machine, so the theorems hold of the object.

| file | what it models |
|---|---|
| `Plan.dfy` | chunk geometry, `BuildPlan` with its int64 arithmetic |
| `Manifest.dfy` | the manifest's transitions, as functions and as the class that mutates its records |
| `SenderPool.dfy` | the worker pool as a state machine and its theorems |
| `SenderRun.dfy` | the same run as an object: manifest, inFlight, counters, throttled saver |
| `SessionFiles.dfy` | the receiver's directory: names, the cleanup glob, what a merge yields |
| `GlobPattern.dfy` | what the cleanup's glob makes of the session directory's own path |
| `ReceiverMachine.dfy` | the receiver as a state machine: handlers, the timer, publishing, finalizing, crashes |
| `Finalization.dfy` | which sessions can still be merged: wake-ups, how many it takes, when they can be lost |
| `ReceiverSession.dfy` | the receiver's session as an object that refines it |
| `Protocol.dfy` | sender, saved manifest, attempts in flight and receiver together |
| `Delivery.dfy` | whole transfers to the merge: finishing exactly, lost wake-ups, the file its own cleanup takes |
| `Scheduler.dfy` | channel choice, cooldown, smoothing |
| `StrictSplit.dfy` | the error-diffusion split of a download and its dispatch |
| `DownloadSizing.dfy` | chunk count target and chunk size of a download |
| `DownloadRestore.dfy` | plan validation and repair after a restart |
| `DownloadMerge.dfy`, `PartMerge.dfy` | byte ranges, part files, the merges |
| `DownloadRun.dfy` | a download's workers over part files and channels, with crashes, resumes and the merge, as a state machine |
| `DownloadCollision.dfy` | two of them with the same chunk: the runs that get there and what they publish |
| `Jobs.dfy`, `Pruning.dfy` | the life of a send job, and forgetting old ones |
| `Wire.dfy` | frames, header checks, a chunk over a connection |
| `Signature.dfy` | the signed payload, and which headers share one |
| `SessionNames.dfy` | the directory a header's chunks go to |
| `Decimal.dfy`, `Ordering.dfy`, `Sums.dfy` | number texts, sorting by index, sums over sequences |

## Assumptions

- The source file does not change during a transfer and, for the protocol, is not empty
  (what happens to an empty one is `SenderPool.EmptyFileSucceedsUnsent`).
- SHA-256 is treated as equality of contents. Headers without a digest (older senders) are modelled in
  `ReceiverSession.Session.Handle`; for them nothing but the transport vouches for the payload.
- Ids and temporary names are fresh. File names and staging paths are compared as texts; Windows names contain no `*` or `?`.
- The session is not a pull; the file is not named `manifest.json` or `manifest.json.tmp`; nobody
  outside the protocol edits the session directory; one sender run works on a transfer at a time.
- `filepath.Glob` and `filepath.Match` behave as Go documents them for Windows.
- A rename or a manifest save is atomic. I/O errors are steps of the machines; in the class
  methods a parameter says which operation fails.
- A throttled save may happen after any step of the protocol machine (the throttle itself is
  `SenderRun.ManifestSaver`). An armed timer may fire at any time, and its callback may start looking at the
  session any time after that; nothing else starts a finalization.
- The two atomic operations of `progressReader.Read`, and of its rollback, are one step each. Speeds are exact reals.
- Which channels a look finds up, and which free one the scheduler then prefers, is left open in `DownloadRun`
  (`Scheduler` and `StrictSplit` have the choice itself).
- A server honours ranges and its resource does not change during a download. A merge of parts reads them in one
  step. A part file opened anew is emptied for everyone, and a write past its end fills the gap with zeros.

## What the code does not promise

- The cleanup after a merge removes everything that matches `*.chunk*` except `.tmp` files
  (`cmd/multisend-agent/receiver.go:748-759`). A file whose own name contains `.chunk` and does not end in `.tmp`
  is removed with its chunks, and the session still reports done. `SessionFiles.Safe` is the exact condition; a `[` in the
  session's path makes the cleanup find nothing, or fail on a malformed pattern, and then it takes two finalizations to get to done.
- A delivered transfer is merged only if a wake-up is left. The timer is armed after an ack and nowhere else; a receiver
  that crashes after the last ack, or whose last finalization fails, keeps every chunk and, once the sender's connections
  are handled, never merges them, whatever sender and receiver do later (`Delivery.DeliveredAndLost`).
- Two workers of a download can hold the same chunk: the lock is released between the look at the pending chunks
  and the mark (`internal/download/manager.go:816-905`). The second empties the part file the first is writing; if it then fails,
  the first leaves a gap of zeros, of the right size, and the merge publishes it as done. This can happen for every resource
  with a nonzero byte in front of the last one of some chunk, and for no other, whatever the channels, the limit in flight and the
  split (`DownloadCollision.AlwaysTheResourceExactly`); with a strict split, or room for more than one chunk in flight, it takes no crash,
  cancel or resume (`DownloadCollision.SharedChunkCorrupts`). With one holder per chunk what is published is always the resource
  (`DownloadRun.PublishedIsResource`).
- The download's merge checks that the final path is free and then renames, which replaces: a file that appears between the two is lost.
- `validateReceiverManifestComplete` compares counts that always agree in a manifest this receiver
  wrote, so completeness rests on the size test alone; that test is proved sound and complete.
  An early finalization may publish a short final file for a while; it is always replaced.
- A run that is not an explicit resume may begin with a chunk that used up its attempts in an
  earlier run; it then ends in "transfer incomplete" without a hard error (`SenderPool.PoolDrain` gives the exact condition).
- An idle channel nobody has a rate for is scored as if it had ten megabits. A first report below that lowers its score, so a channel can lose
  to an unknown one for having been measured (`Scheduler.ScoreGrowsWithRate`, `FirstReportLowersScore`).
- Near the largest int64 the loop of `BuildPlan` steps past the range, and the rounding-up in the
  download's chunk sizing wraps; both have exact conditions below.
- `forgetJob` removes the staging directory before the history record. When the record cannot be
  removed the job stays listed, still resumable, with its staging gone. Two jobs may also name the same staging directory;
  an active job can lose it in the next step exactly when another job that names it is about to remove it or
  is finished and still listed. `docs/OPERATION_HISTORY.md:60-64` says that paths used by another flow are refused, which the code does not do.
- The signed payload separates its fields with NUL but does not escape NUL inside a field. An accepted header shares its
  payload with another accepted one exactly when the lab path, receive path, publish name or folder result
  has a NUL, or the file name embeds another acceptable header's name and numbers between NULs.
- Two different transfers share a session directory exactly when one id is a text, an underscore and the other id, and the
  other file's name is the first one's, an underscore and that text. Ids made by the sender have no underscore.

## Model

| member | source | states |
|---|---|---|
| Plan.BuildPlan | internal/chunk/chunk.go:51-69 | builds ChunkCount chunks that cut [0, total) exactly, all full but the last; errors for a negative total or a size that is not positive; the offset leaves int64 exactly when count * size does |
| Plan.CutLoop | internal/chunk/chunk.go:60-66 | the loop: consecutive full pieces, a shorter last one, and whether the step past the end overflows |
| Plan.EndsIncrease | internal/chunk/chunk.go:60-66 | chunk ends strictly increase and stay within the file |
| Plan.PartitionCoversOnce | internal/chunk/chunk.go:60-66 | every byte of the file lies in exactly one chunk, and no chunk reaches outside |
| Plan.AutoChunkCount | internal/chunk/chunk.go:23-38 | a file of automatic chunk size is cut in as many pieces of 2, 4, 8 or 16 MiB as it takes, by its size, and in at most 512 up to 4 GiB |
| Plan.AutoChunkCountBound | internal/chunk/chunk.go:23-38 | the automatic size stays within a million chunks exactly up to a million times 16 MiB |
| ManifestState.CrashEqualsCancel | internal/manifest/manifest.go:186-231 | crash, load, resume and cancel, save, load, resume give the same manifest; done records and geometry untouched, everything else pending with attempts left; loading is idempotent |
| ManifestState.InterruptionsCollapse | internal/manifest/manifest.go:186-231 | any nonempty series of crashes and cancels before work is done again ends like one crash |
| ManifestState.CancelStopsAll | internal/manifest/manifest.go:224-231 | after a cancel no record is pending or sending, each that was is canceled with its other fields kept, every other one is unchanged |
| ManifestState.FindNumbered | internal/manifest/manifest.go:233-240 | in a manifest numbered by position the lookup of index i finds record i |
| ManifestState.DoneBytesBounded | internal/manifest/manifest.go:169-177 | progress read off an exact cut is within the file, and is the file exactly when every chunk is done in full |
| ManifestState.Manifest.MarkAndGetSending | internal/manifest/manifest.go:108-122 | only the first record with the index changes, to sending on the channel with its last error cleared; nil exactly when there is none |
| ManifestState.Manifest.MarkDone | internal/manifest/manifest.go:137-148 | only that record changes, to done with its bytes and digest |
| ManifestState.Manifest.MarkFailed | internal/manifest/manifest.go:150-156 | only that record changes, to failed with one more attempt |
| ManifestState.Manifest.NormalizeForResume | internal/manifest/manifest.go:186-198 | sending, and failed with attempts left, become pending; nothing else changes |
| ManifestState.Manifest.ActivateResume | internal/manifest/manifest.go:209-222 | canceled, sending, pending and failed become pending, attempts reset when used up |
| ManifestState.Manifest.MarkCanceledPending | internal/manifest/manifest.go:224-231 | no record stays pending or sending; each that was is canceled with its other fields kept, every other one is unchanged |
| ManifestState.Manifest.DoneBytes | internal/manifest/manifest.go:169-177 | the sum over done records, which over an exact cut lies within the file |
| SenderPool.StepKeepsInv | internal/transfer/sender.go:241-376 | every critical section of every worker keeps ownership, counters, attempt budget and the drain property |
| SenderPool.RunKeepsInv | internal/transfer/sender.go:235-404 | so does every run, from any manifest a run may begin with |
| SenderPool.ExclusiveOwnership | internal/transfer/sender.go:258-286 | a chunk is sending exactly while one worker, and only one, holds it; none after the join |
| SenderPool.InFlightCountsHolders | internal/transfer/sender.go:258-286 | inFlight counts the holders of each channel, so its guard never bites and it ends at zero; the picked index is always found, so the nil branch is unreachable |
| SenderPool.PoolDrain | internal/transfer/sender.go:241-262 | although workers leave early, with no cancel and no hard error every chunk not exhausted at the start is done; success exactly when none was |
| SenderPool.BoundedWork | internal/transfer/sender.go:321-374 | a run starts at most the sum of (3 - attempts) over chunks not done, and no chunk exceeds three attempts |
| SenderPool.FinishedAttemptsDecrease | internal/transfer/sender.go:322-365 | every finished attempt strictly decreases that sum |
| SenderPool.FailedAttemptRetries | internal/transfer/sender.go:322-340 | a failed attempt costs the chunk one attempt: with fewer than three it is pending again and the run goes on, the third leaves it failed and stops the run; no other chunk changes |
| SenderPool.HardExactlyWhenUsedUp | internal/transfer/sender.go:322-352 | over every run without a hash failure, hardErr is set if and only if a chunk that had attempts left at the start has failed with exactly three |
| SenderPool.ProgressConservation | internal/transfer/sender.go:775-814 | the two counters always equal completed chunks plus live partial bytes, and never exceed the sizes of all chunks |
| SenderPool.CountersByChannel | internal/transfer/sender.go:783-791 | at any moment the cable counter is the bytes completed in this run by chunks whose record names cable, loopback or local plus what running attempts on those have streamed, and wifi likewise; other channels count nowhere |
| SenderPool.ProgressWithinFile | internal/transfer/sender.go:775-814 | over an exact cut of a file they stay within its length |
| SenderPool.FailedAttemptLeavesNoTrace | internal/transfer/sender.go:711-718 | after a failure the counters are as if the attempt had never streamed |
| SenderPool.ProgressEndsComplete | internal/transfer/sender.go:775-814 | at success of a run that took every chunk for a channel with a counter, the counters show exactly what the run had to send |
| SenderPool.DoneMoves | internal/transfer/sender.go:356-366 | done stays done, and only a successful attempt of its holder makes a chunk done |
| SenderPool.EmptyFileSucceedsUnsent | internal/transfer/sender.go:258-263 | a file without chunks never starts an attempt and is never incomplete, so the receiver hears nothing |
| SenderRun.ManifestSaver.Save | internal/transfer/sender.go:831-841 | writes exactly when forced, first, or 750 ms have passed, and the write succeeds; otherwise the old file stays |
| SenderRun.ManifestSaver.Flush | internal/transfer/sender.go:844-852 | writes the manifest or reports the failure |
| SenderRun.Run.RetryablePending | internal/transfer/sender.go:533-542 | the chunks pending or failed with fewer than three attempts, in index order; empty exactly when there is none |
| SenderRun.Run.Take | internal/transfer/sender.go:258-286 | marks the chunk sending and counts it in flight; the lookup succeeds; the object stays a run of the pool |
| SenderRun.Run.Leave | internal/transfer/sender.go:241-262 | a worker leaves exactly when the run was stopped or nothing is pending |
| SenderRun.Run.CountBytes | internal/transfer/sender.go:793-802 | n bytes go on the cable counter for cable, loopback and local, and on the wifi counter for wifi |
| SenderRun.Run.Rollback | internal/transfer/sender.go:806-814 | takes back exactly what the attempt counted |
| SenderRun.Run.Complete | internal/transfer/sender.go:357-366 | the chunk is done with its size and digest, no longer in flight |
| SenderRun.Run.FailAttempt | internal/transfer/sender.go:322-352 | the chunk has one attempt more: with fewer than three it is pending again and hardErr as it was, with three it is failed, hardErr is set and the manifest saved |
| SenderRun.Run.FailHash | internal/transfer/sender.go:288-301 | a source that cannot be hashed fails the chunk and ends the run, and the manifest is saved |
| SenderRun.Run.CancelContext | cmd/multisend-agent/send.go:508-527 | a cancel at any point leaves the object on a run of the pool, with the run canceled |
| SenderRun.Run.Conclude | internal/transfer/sender.go:378-404 | the outcome in the source's order; success exactly when nothing stopped the run, the flush worked and no chunk began exhausted, and then every chunk is done; whatever the outcome, a writable disk has the manifest, and after a cancel with a chunk pending or sending a plain send from it begins a fresh transfer |
| SessionFiles.ChunkPathInjective | cmd/multisend-agent/receiver.go:144-144 | different chunks have different files |
| SessionFiles.ChunkPathReads | cmd/multisend-agent/receiver.go:144-144 | the name, ".chunk", and the chunk's number from one in at least six digits |
| SessionFiles.PathsApart | cmd/multisend-agent/receiver.go:144-144 | chunk files, the final file and its temporary never share a name; the cleanup takes the chunk files and not the temporary |
| SessionFiles.SweptByName | cmd/multisend-agent/receiver.go:748-759 | the cleanup takes exactly the names with ".chunk" in them that do not end in ".tmp" |
| SessionFiles.SizeCheckIsComplete | cmd/multisend-agent/receiver.go:520-529 | the merge has the full length exactly when every chunk is recorded, and then it is the source |
| SessionFiles.ProperSubsetFails | cmd/multisend-agent/receiver.go:520-529 | finalizing any proper subset of the plan fails the size test or the merge |
| SessionFiles.MergedSucceeds | cmd/multisend-agent/receiver.go:716-746 | a merge whose recorded chunk files are all there does not fail |
| SessionFiles.MergedExactly | cmd/multisend-agent/receiver.go:716-746 | a merge fails exactly on a recorded chunk whose file is missing or of another size |
| ReceiverMachine.StepKeepsInv | cmd/multisend-agent/receiver.go:143-198 | every step of handlers, publishing and finalizing, including errors and crashes, keeps the files right and loses nothing a chunk is safe by |
| ReceiverMachine.StepMonotone | cmd/multisend-agent/receiver.go:286-340 | recorded chunks only grow, and a connection keeps its chunk |
| ReceiverMachine.FilesStayRight | cmd/multisend-agent/receiver.go:143-198 | on every path of the receiver, whatever the file's name and whatever the cleanup takes, each chunk file that exists holds its chunk |
| GlobPattern.ClassesShorten | cmd/multisend-agent/receiver.go:748-750 | a pattern with a bracket has fewer terms than characters, so it cannot match its own text |
| GlobPattern.FindsExactlyWithoutBracket | cmd/multisend-agent/receiver.go:748-750 | the cleanup's glob reaches the session directory if and only if its path has no opening bracket |
| GlobPattern.UnclosedBracketIsBad | cmd/multisend-agent/receiver.go:748-752 | with a bracket that is never closed it is malformed and the cleanup fails |
| GlobPattern.ClosedBracketMisses | cmd/multisend-agent/receiver.go:748-752 | with a bracket that is closed, as in a[1], it is sound and finds nothing |
| Finalization.FinishesExactlyWhenAwake | cmd/multisend-agent/receiver.go:369-467 | with every chunk recorded and every handler returned, the session can reach done without a new connection if and only if it is done or has wake-ups enough (one; two for a malformed pattern without the file in place), whatever earlier or interrupted finalizations left |
| Finalization.SmoothKeepsAwake | cmd/multisend-agent/receiver.go:369-467 | no step but a crash, a finalize error or a lost ack for a newly published chunk can lose the last wake-up |
| Finalization.StuckStays | cmd/multisend-agent/receiver.go:369-467 | a session without wake-ups enough stays without, until a new connection arrives |
| Finalization.EveryWayEndsInDone | cmd/multisend-agent/receiver.go:369-467 | from a session with every chunk recorded, every handler returned and a wake-up left, a continuation in which nothing goes wrong has a bounded number of steps, and until it is done it has another to take, so every maximal one ends in done |
| ReceiverSession.UpsertRecords | cmd/multisend-agent/receiver.go:286-324 | recording a chunk of the plan never fails and adds exactly that chunk |
| ReceiverSession.UpsertExactly | cmd/multisend-agent/receiver.go:286-324 | for any manifest on disk and any header: recorded exactly when there is no manifest or transfer, file and total agree, and the first record of the index has the header's offset and size; then that record, or a new one, is done and every other is as loaded |
| ReceiverSession.SortedMergeIsMerged | cmd/multisend-agent/receiver.go:724-744 | merging the sorted records is merging the recorded chunks of the plan in plan order |
| ReceiverSession.CleanupByName | cmd/multisend-agent/receiver.go:748-759 | an entry without ".chunk" in its name survives every cleanup unchanged; a complete one that finds the session leaves exactly those and the names ending in ".tmp" |
| ReceiverSession.FinalizationByName | cmd/multisend-agent/receiver.go:390-467 | besides the final file and its temporary, an entry without ".chunk" in its name survives every finalization, none is new or changed, and the temporary stays only if nothing changes |
| ReceiverSession.FinalizationExactly | cmd/multisend-agent/receiver.go:390-467 | when no operation fails and each recorded chunk's file is there, a finalization reports done if and only if the final file had the full size already or no chunk is missing, and then the final file of a safe name is the source |
| ReceiverSession.Session.FileMatches | cmd/multisend-agent/receiver.go:235-251 | right size, and right content when there is a digest |
| ReceiverSession.Session.UpdateManifestFile | cmd/multisend-agent/receiver.go:286-340 | the chunk is recorded and the session pending, or neither when the manifest cannot be saved |
| ReceiverSession.Session.Publish | cmd/multisend-agent/receiver.go:253-272 | the chunk file holds the payload, whatever was there before, unless it cannot be put in place; it is recorded unless the manifest cannot be saved |
| ReceiverSession.Session.AcknowledgeExisting | cmd/multisend-agent/receiver.go:149-165 | a chunk already on disk is recorded and acked, and the timer armed whether or not the ack got out; nothing of it when the record cannot be saved |
| ReceiverSession.Session.AcknowledgePublished | cmd/multisend-agent/receiver.go:186-198 | a newly published chunk whose ack cannot be written leaves the timer as it was |
| ReceiverSession.Session.MaybeSchedule | cmd/multisend-agent/receiver.go:369-388 | re-arms the timer unless a merge is running or done |
| ReceiverSession.Session.FireTimer | cmd/multisend-agent/receiver.go:386-386 | an armed timer starts one callback and is no longer armed |
| ReceiverSession.Session.Handle | cmd/multisend-agent/receiver.go:143-198 | with or without a digest, and with each of its operations able to fail: when the chunk file is in place, when it is recorded (a file may stay unrecorded when only the save fails), when done or a hash mismatch is acknowledged, and when the timer is armed |
| ReceiverSession.Session.MergeChunks | cmd/multisend-agent/receiver.go:716-746 | gives what merging the recorded chunks of the plan gives, or fails with it |
| ReceiverSession.Session.Cleanup | cmd/multisend-agent/receiver.go:748-759 | every entry without ".chunk" in its name stays as it was; when the glob finds the session and nothing is stuck exactly those and the ".tmp" names stay; some of the others when one cannot be removed, all when the glob finds nothing or is malformed |
| ReceiverSession.Session.Finalize | cmd/multisend-agent/receiver.go:390-467 | uses up one started callback and arms none; directory and status afterwards follow from directory, recorded chunks and which file operations fail; nothing happens while a merge is running or done; entries without ".chunk" other than the final file and its temporary stay, and unhindered it reports done exactly when the file was whole or no chunk is missing |
| ReceiverSession.Session.DoneIsSource | cmd/multisend-agent/receiver.go:390-467 | after any sequence of calls, a done session's final file is the source |
| ReceiverSession.Session.ValidateComplete | cmd/multisend-agent/receiver.go:504-518 | accepts exactly a positive total with every record done |
| Protocol.ReloadStarts | internal/transfer/sender.go:451-473 | whatever was saved, the run that starts from it starts well and knows the same chunks done; an explicit resume starts with no exhausted chunk |
| Protocol.ReloadExactly | internal/transfer/sender.go:451-487 | on the saved records: an explicit resume always continues; a plain send begins afresh if and only if some record is canceled or there are records and all are done, and otherwise, if there are any, one is not done |
| Protocol.ReloadedRecord | internal/manifest/manifest.go:186-222 | each record of a continued transfer: unfinished ones pending again, a failed one too with fewer than three attempts or an explicit resume, which clears a used-up count; nothing else changes |
| Protocol.CanceledStaysCanceled | internal/transfer/sender.go:378-385 | when a canceled run ends with a chunk pending or sending, the manifest it leaves makes the next plain send begin a fresh transfer |
| Protocol.RunKeepsInv | internal/transfer/sender.go:321-370 | every run of the whole protocol keeps the joint invariant |
| Protocol.DoneMeansSource | cmd/multisend-agent/receiver.go:390-467 | when the receiver reports done the final file is the source, and stays so ever after |
| Protocol.WholeStays | cmd/multisend-agent/receiver.go:150-166 | once whole, the final file survives later duplicates, finalizations, crashes and restarts |
| Protocol.DurabilityOrder | internal/transfer/sender.go:831-852 | done on the sender's disk implies done in memory implies recorded by the receiver implies held with the right bytes |
| Protocol.CleanupIsSafe | cmd/multisend-agent/receiver.go:748-759 | no chunk file goes before the final file is the whole source |
| Protocol.SenderSuccessIsDelivery | internal/transfer/sender.go:393-404 | a sender that reports success has every chunk safe with the receiver |
| Delivery.SuccessFinishesExactlyWhenAwake | cmd/multisend-agent/receiver.go:369-467 | after the sender's success, with its connections handled, some continuation of the whole protocol (restarts, resumes and crashes included) reaches done if and only if the receiver is done or has wake-ups enough |
| Delivery.NoLostWakeUp | cmd/multisend-agent/receiver.go:160-198 | in every run without a crash, a finalize error or a lost ack, once every chunk is recorded and every handler has returned the session is done, its timer is armed, or a finalization is on its way |
| Delivery.SmoothSuccessFinishes | cmd/multisend-agent/receiver.go:369-467 | so such a run, once the sender has succeeded, can be finished |
| Delivery.SmoothSuccessEndsInDone | cmd/multisend-agent/receiver.go:369-467 | and every way the receiver can go on from there ends in done |
| Delivery.DeliverEverything | internal/transfer/sender.go:241-404 | every file can be delivered, chunk by chunk, each acked and scheduled, by a run in which nothing goes wrong |
| Delivery.CrashAfterLastAck | cmd/multisend-agent/receiver.go:369-388 | a crash after the last ack and before the timer leaves a success with every chunk recorded and no wake-up |
| Delivery.DeliveredAndLost | cmd/multisend-agent/receiver.go:369-388 | from there every chunk is still held and no continuation reaches done |
| Delivery.UnsafeNameLosesFile | cmd/multisend-agent/receiver.go:748-759 | for a name the glob matches there is an error-free run, every chunk acked and the merge started by the armed timer, that reports done with the file gone |
| Delivery.DoneIsTrueExactlyWhenSafe | cmd/multisend-agent/receiver.go:390-467 | end-to-end safety over all runs holds if and only if the cleanup's glob leaves the final file alone |
| Delivery.DoneIsTrueByPath | cmd/multisend-agent/receiver.go:748-759 | that is, if and only if the output directory or the file name has an opening bracket, or the file name has no ".chunk" in it, or it ends in ".tmp" |
| Delivery.ReceiverDoneIsTrueExactlyWhenSafe | cmd/multisend-agent/receiver.go:462-466 | the same for the receiver alone, whatever its senders do |
| Scheduler.BestExists | internal/scheduler/scheduler.go:62-93 | a channel is held exactly when some channel is active and out of cooldown |
| Scheduler.BestBeats | internal/scheduler/scheduler.go:62-93 | the winner strictly beats every earlier candidate, no later one beats it by more than five percent, and it took over only with a five-percent lead |
| Scheduler.FirstCandidateStays | internal/scheduler/scheduler.go:87-89 | the first candidate keeps the choice exactly when none beats it by more than five percent |
| Scheduler.ScoreIsShare | internal/scheduler/scheduler.go:75-84 | a busy channel scores the greater of reported and measured rate over inFlight + 1, an idle one one and a half times that rate, and 15 with no rate at all |
| Scheduler.ScoreGrowsWithRate | internal/scheduler/scheduler.go:75-84 | more reported or measured never scores less, with exactly one exception: an idle channel with no rate, whose first rate is below ten |
| Scheduler.FirstReportLowersScore | internal/scheduler/scheduler.go:79-84 | such a channel: 15 before its first report, 3 after one of 2 Mbps |
| Scheduler.FasterIsTaken | internal/scheduler/scheduler.go:75-92 | between two equally busy channels nothing was measured of, the later is taken if and only if its reported rate exceeds 1.05 times the earlier's |
| Scheduler.WeightedScheduler.PicksRotate | internal/scheduler/scheduler.go:100-102 | over the object's history, any n successive successful calls on one list of n pending chunks returned each exactly once, in rotation |
| Scheduler.CooldownMonotone | internal/scheduler/scheduler.go:128-139 | the rest grows from ten to forty seconds and is forty exactly from the fifth failure on |
| Scheduler.CooldownOfRun | internal/scheduler/scheduler.go:105-141 | over any run of reports: failures since the last counted success, no cooldown below three, exactly min(10 s * 2^(f-3), 40 s) after the last failure from then on |
| Scheduler.RestingIsCooldown | internal/scheduler/scheduler.go:105-141 | a channel is in cooldown exactly when its reports have three or more failures since the last counted success, and the latest is under 10 s old after three, 20 s after four, 40 s after more |
| Scheduler.SinceSuccessExists | internal/scheduler/scheduler.go:105-121 | every run has such a last counted success, or none at all |
| Scheduler.RateWithinSamples | internal/scheduler/scheduler.go:105-121 | the smoothed rate lies between the least and greatest sample so far |
| Scheduler.WeightedScheduler.NextChunk | internal/scheduler/scheduler.go:54-103 | succeeds exactly when work is pending and some active channel is not resting by its own reports, and returns such a channel and the next chunk in turn; between two equally busy channels never measured, the later listed exactly when it reports over five percent more |
| Scheduler.WeightedScheduler.ReportSuccess | internal/scheduler/scheduler.go:105-121 | ends the rest; a first sample of bytes * 8000 / nanoseconds counts as it is, a later one for two fifths; a duration of zero counts nothing; no other channel changes |
| Scheduler.WeightedScheduler.ReportFailure | internal/scheduler/scheduler.go:123-141 | one failure more, and from the third a rest of 10, 20, then 40 s from now; no other channel changes |
| Scheduler.WeightedScheduler.Backoff | internal/scheduler/scheduler.go:129-137 | the capped doubling loop is min(10 s * 2^steps, 40 s) |
| StrictSplit.ScoresAreRoundingError | internal/download/manager.go:1661-1672 | the two scores always sum to zero and are the rounding error of the share |
| StrictSplit.WindowShare | internal/download/manager.go:1661-1672 | any window of consecutive chunks is within one chunk of its percentage |
| StrictSplit.BuildStrictPlan | internal/download/manager.go:1654-1674 | every prefix of n chunks in index order has exactly floor((n * pct + 50) / 100) on cable and the rest on wifi, pct being the given percentage in 1..99 and 50 for any other |
| StrictSplit.PickStrictPendingForChannel | internal/download/manager.go:1676-1683 | the first pending chunk planned on the channel, if there is one |
| StrictSplit.DispatchStrict | internal/download/manager.go:867-894 | what goes out is the first pending chunk planned on its channel; waits exactly when the chosen channel has nothing planned and the other cannot help |
| DownloadSizing.SizingMeetsTarget | internal/download/manager.go:598-609 | an accepted request gives a plan of at most the targeted number of chunks if and only if rounding up fits int64 |
| DownloadSizing.LargestLengthMisses | internal/download/manager.go:604-609 | the largest length misses it, for every request |
| DownloadSizing.AutomaticCount | internal/download/manager.go:598-609 | a download left to itself and larger than 128 MiB is cut in exactly the targeted number of chunks |
| DownloadSizing.CountByCases | internal/download/manager.go:1076-1096 | one chunk up to 128 MiB; above, over one channel 4, over more 3 up to 512 MiB and 6 beyond: exactly that many when automatic, at most when a size is asked for, which is never cut smaller |
| DownloadSizing.RequestKept | internal/download/manager.go:598-609 | the requested size is kept if and only if it already meets the target |
| DownloadSizing.Cut | internal/download/manager.go:574-614 | request errors; otherwise an exact cut into at most the targeted number of chunks, or, when rounding up leaves int64, no plan: an invalid size for an automatic request and a loop past int64 for a requested size |
| DownloadRestore.CheckPlan | internal/download/manager.go:317-331 | accepts exactly the exact cuts with counts in range and known statuses; a rejection names the first bad record's fault |
| DownloadRestore.PlansPass | cmd/multisend-agent/history.go:303-317 | every plan of a nonempty file passes, with any statuses and counts in range |
| DownloadRestore.RepairMatchesParts | internal/download/manager.go:333-361 | afterwards each done chunk has a part of exactly its size unless the final file is complete, and only done records without one changed, to pending with no bytes |
| DownloadRestore.StatusByRecords | internal/download/manager.go:362-385 | done exactly when the final file has the full size and every chunk is done, else failed when a chunk has failed eight times, else canceled; the manifest file reads back as what was restored |
| DownloadRestore.RestoreTwice | internal/download/manager.go:333-385 | restoring again changes nothing and says the same |
| DownloadRestore.RestoreManyTimes | internal/download/manager.go:333-385 | however many restarts, every later restore finds what the first left |
| DownloadRestore.SavedDownload.Restore | internal/download/manager.go:293-420 | refuses and keeps a manifest that is not this download's, not an exact cut, or needs a repair that cannot be saved; otherwise comes back done, canceled or failed, repaired and saved when repaired |
| DownloadRestore.SavedDownload.Repair | internal/download/manager.go:338-354 | the in-place repair loop |
| DownloadMerge.RangeIsChunk | internal/download/manager.go:1584-1584 | the range header of section 14.1.2 of RFC 9110 asks for exactly the chunk's bytes, inside the resource |
| DownloadMerge.RangesMakeResource | internal/download/manager.go:1523-1577 | with each part holding its range the merge is the remote resource |
| DownloadMerge.JoinedLength | internal/download/manager.go:1566-1568 | over an exact cut the parts already have the total length |
| DownloadMerge.Disk.StorePart | internal/download/manager.go:1600-1618 | a part is stored whole exactly for a 206 response with enough bytes |
| DownloadMerge.LosesExactlyWhenLate | internal/download/manager.go:1572-1577 | someone else's file is lost exactly when the parts fit, the path was free at both checks, no operation on the temporary fails and the file appeared after the second check; every merge that would publish can lose one |
| DownloadMerge.Disk.MergeParts | internal/download/manager.go:1523-1577 | with others free to write the final path before the first check, while copying and after the second check, and with creating, syncing and renaming the temporary able to fail: publishes exactly when the parts fit, the path was free at both checks and nothing fails, and touches nothing but the final path; which error is reported, and that what others wrote last stays unless it publishes |
| DownloadMerge.Disk.FetchParts | internal/download/manager.go:908-944 | from the parts found whole at the start and a server that honours ranges, chunks done are exactly those and the ones with a usable response, each part holds its range, and no other file changes |
| DownloadMerge.Disk.Download | internal/download/manager.go:1523-1577 | a run publishes exactly when the path stayed free up to the last check, every chunk was there or got a usable response and no operation on the temporary fails, and then the file is the remote resource |
| DownloadRun.StepKeepsInv | internal/download/manager.go:748-1020 | with one holder per chunk, every step of workers, saves, cancels, resumes, crashes and restores keeps each part file a prefix of its range |
| DownloadRun.PublishedIsResource | internal/download/manager.go:748-1020 | so over any series of those, what is published is the resource, and a merge that is reached publishes |
| DownloadRun.RunKeepsMixed | internal/download/manager.go:816-905 | with any number of holders, each byte of a part is right or a zero |
| DownloadRun.LookSees | internal/download/manager.go:829-861 | a worker that looks sees exactly the chunks pending or failed with fewer than eight attempts, in order, and the channels that are up with fewer workers in flight than the limit; it leaves when there is no such chunk |
| DownloadRun.PickTakes | internal/download/manager.go:862-890 | it takes the next of those in rotation, or under a strict plan the first one bound to the channel, on a channel it saw free |
| DownloadRun.FailedFetchRetries | internal/download/manager.go:920-924 | a failed fetch costs one attempt: pending again with fewer than eight, failed from the eighth; parts stay |
| DownloadRun.ResumeTakesUp | internal/download/manager.go:756-756 | a resume makes every chunk that is not done pending, with a clean count for those that failed three times or more |
| DownloadCollision.SharedChunkCorrupts | internal/download/manager.go:816-944 | for every configuration a run in which two workers hold one chunk and the server is honest publishes a wrong file of the right length; chunks go out in rotation, or first in line on the channel they are planned on, within the limit in flight; undisturbed by crash, cancel or resume unless only one chunk fits in flight |
| DownloadCollision.AlwaysTheResourceExactly | internal/download/manager.go:748-1020 | for every set of channels and configurations, rotating or strict, every run publishes the resource if and only if no chunk has a nonzero byte in front of its last |
| DownloadCollision.AssembledIsJoined | internal/download/manager.go:1541-1560 | what that machine merges is what the part files join to |
| PartMerge.AppendParts | internal/download/manager.go:1541-1560 | the copy loop succeeds exactly when every part fits its recorded size |
| Pruning.Prune | internal/download/manager.go:423-437 | keeps every unfinished job and the newest finished ones up to the limit |
| Jobs.StepKeepsInv | cmd/multisend-agent/send.go:408-527 | every operation keeps runners, staging paths and cleanups consistent |
| Jobs.OneRunnerPerActiveJob | cmd/multisend-agent/send.go:408-527 | over every sequence of operations a job has exactly one runner while running or canceling, none otherwise |
| Jobs.RunnerKeepsJob | cmd/multisend-agent/history.go:413-426 | a job with a runner is never dropped, and only its own runner ends it |
| Jobs.RunnerHasJob | cmd/multisend-agent/send.go:651-658 | a finishing goroutine always finds its job |
| Jobs.StagingOutlivesJob | cmd/multisend-agent/send.go:190-196 | staging goes only for a job that is done or being forgotten |
| Jobs.StagingIsLostExactlyWhenThreatened | cmd/multisend-agent/history.go:445-473 | an active job's staging can go in the next step if and only if another job that names it has its removal pending or is finished and in the table |
| Jobs.ActiveJobKeepsStaging | cmd/multisend-agent/send.go:190-196 | while none does, any step keeps it |
| Jobs.SharedStagingIsLost | cmd/multisend-agent/send.go:500-505 | wherever two active jobs share staging, however many jobs there are, one can lose it while it still runs |
| Jobs.JobsCanShareStaging | cmd/multisend-agent/send.go:60-90 | nothing keeps two jobs from naming the same staging |
| Jobs.DoneIsFinal | cmd/multisend-agent/send.go:450-470 | short of a restart a done job stays done |
| Jobs.RestartEndsEverything | cmd/multisend-agent/history.go:185-254 | after a restart nothing runs and the table has exactly the restored records: done when all chunks are, canceled and resumable when manifest and source check out, else failed; only those resumable, and with their request, can be resumed |
| Jobs.JobIdsAreClockReadings | cmd/multisend-agent/history.go:399-411 | ids made from a clock are valid, and a valid id is "job-" and the digits of a number below 2^63, with nothing a path could read |
| Jobs.HalfForgottenJob | cmd/multisend-agent/history.go:445-473 | a run in which a forgotten job stays listed as resumable with its staging gone |
| Jobs.JobTable.CreateJob | cmd/multisend-agent/send.go:408-448 | the job is in the table and, if that works, on disk, running, with one runner; old finished jobs may go |
| Jobs.JobTable.CancelJob | cmd/multisend-agent/send.go:508-527 | an active job becomes canceling, a finished one stays as it is |
| Jobs.JobTable.ResumeJob | cmd/multisend-agent/send.go:450-477 | resumes exactly a canceled or failed job that is resumable and has its request, and names the reason in order when not; otherwise nothing changes |
| Jobs.JobTable.SetJobManifest | cmd/multisend-agent/send.go:680-693 | an empty path changes nothing; otherwise the manifest path of a known job, and nothing else |
| Jobs.JobTable.UpdateProgress | cmd/multisend-agent/send.go:529-649 | a finished job no longer changes; an active one gets its resumable flag and a manifest path that is given, saved only when it is its first |
| Jobs.JobTable.FinishJob | cmd/multisend-agent/send.go:651-678 | the runner's job gets its final status, then the table is pruned |
| Jobs.JobTable.RemoveStaging | cmd/multisend-agent/send.go:190-196 | only the captured path goes |
| Jobs.JobTable.ForgetJob | cmd/multisend-agent/history.go:445-473 | every refusal in order (invalid id, unknown, active, no history, staging kept), and which of staging, record and entry go |
| Pruning.PrunedExists | cmd/multisend-agent/history.go:413-426 | every table can be pruned to the newest finished jobs |
| Jobs.JobTable.PruneJobs | cmd/multisend-agent/history.go:413-426 | at most 500 finished jobs stay, none of them older than one that goes; unfinished jobs stay, and with at most 500 finished nothing goes |
| Jobs.JobTable.RestoreJobHistory | cmd/multisend-agent/history.go:164-183 | the table is the restored records, all finished, with no goroutine |
| Wire.FrameReadsBack | internal/proto/proto.go:156-184 | a frame reads back with the remainder intact exactly when its length is 1 to 65536 |
| Wire.BigEndianOrders | internal/proto/proto.go:156-184 | the length prefix has its most significant byte first: lengths compare as their bytes do from the front |
| Wire.ReadIsFrame | internal/proto/proto.go:171-184 | what is read is what a writer must have written |
| Wire.FramesReadBack | internal/proto/proto.go:156-184 | any sequence of frames followed by payload reads back |
| Wire.FramesUnique | internal/proto/proto.go:156-184 | and uniquely |
| Wire.Pipe.WriteFrame | internal/proto/proto.go:156-169 | a body that is too large is refused before anything is written |
| Wire.Pipe.NextFrame | internal/proto/proto.go:171-184 | reads as the specification says and consumes what it read |
| Wire.CarryChunk | internal/transfer/sender.go:730-734 | header frame and payload written by the sender come out of the connection as header and the bytes the header names, exactly when the frame is readable and the payload long enough |
| Wire.SenderHeaderPasses | internal/transfer/sender.go:303-319 | the sender's headers pass ValidateHeader if and only if the file name is not blank and there are at most a million chunks |
| Wire.ValidatesExactly | internal/proto/proto.go:109-136 | the headers that pass, by field: type, id, a name not blank, a place among at most a million parts, a chunk inside the file, a digest absent or 64 hex digits; a refusal names the first of these that fails |
| Wire.AcceptedIdIsPlain | internal/proto/proto.go:113-117 | an accepted id has no separator, dot, colon, space or bracket |
| Wire.NewTransferIdValid | internal/transfer/sender.go:490-490 | the id made from the clock is a valid transfer id |
| Signature.PayloadText | internal/proto/proto.go:51-58 | the signed text written out: the version and all fifteen fields in their order, a NUL between each two |
| Signature.PayloadDeterminesHeader | internal/proto/proto.go:51-58 | no other header, with or without NULs, shares the payload of one whose text fields have none |
| Signature.PayloadAmbiguousExactly | internal/proto/proto.go:51-58 | an accepted header shares its payload with another accepted one if and only if an unchecked field has a NUL or the file name embeds an acceptable header's name and numbers |
| Signature.NumbersEndWithin | internal/proto/proto.go:51-58 | numbers read from inside a file name end inside it: a number is never printed as a truth value |
| Signature.NulMakesPayloadAmbiguous | internal/proto/proto.go:51-58 | from any accepted header, a NUL in the publish name gives an accepted and ambiguous one |
| Signature.FileNameAloneIsAmbiguous | internal/proto/proto.go:51-58 | so does one in the file name alone, with the four unchecked fields left as they are |
| SessionNames.AcceptedIdUnchanged | cmd/multisend-agent/receiver.go:103-111 | the receiver's id filter never changes an id ValidateHeader accepts |
| SessionNames.FilterDistributes | cmd/multisend-agent/receiver.go:103-108 | the filter looks at each character by itself and keeps the order |
| SessionNames.SafeIdIsPlain | cmd/multisend-agent/receiver.go:103-111 | whatever the id, what names the directory is never empty and has only letters, digits, hyphens and underscores |
| SessionNames.SessionsCollideExactly | cmd/multisend-agent/receiver.go:133-133 | for all accepted ids two transfers share a directory if and only if they are the same, or one id is a text, an underscore and the other id, and that text ends the other's file name |
| SessionNames.PlainIdsApart | cmd/multisend-agent/receiver.go:133-133 | accepted ids without an underscore keep transfers apart |
| SessionNames.SenderSessionsApart | cmd/multisend-agent/receiver.go:133-133 | so do ids made by the sender |
| SessionNames.UnderscoreCollides | cmd/multisend-agent/receiver.go:133-133 | an accepted id of the form a_b, b accepted and a possibly empty, always collides with another transfer's |
| Decimal.IntTextInjective | internal/proto/proto.go:52-57 | the %d rendering determines the number |
| Decimal.Padded6Injective | cmd/multisend-agent/receiver.go:144-144 | so does %06d, past six digits too |

## Left out

- DownloadMerge.Disk.FetchParts: takes the responses one after another; concurrent workers on part files are `DownloadRun`.
- DownloadMerge.Disk.Download: the same.
- DownloadRun.PublishedIsResource: leaves foreign files at the final path to `DownloadMerge`, and does not follow deletions of a download's own files by its cleanup.
- Two send jobs for the same file, target and chunk size share one manifest file; the model has one run per transfer at a time.
- Whether re-sending a chunk the receiver already has succeeds: the receiver answers without draining the payload, so the attempt may succeed or fail; both are steps.
- A restart that begins a fresh transfer under a new id is a new instance of the protocol machine, not a step of the old one.
- Pull sessions, extraction, and a foreign file of the same size at a pull target.
- ReceiverSession.Session.Handle: is about headers cut from the plan; headers that fail path, authentication or structural checks are turned away before it.
- ReceiverSession.UpsertExactly: does not compare the target a manifest was recorded for with the session's, which differs only for pulls.
- ReceiverSession.Session.Finalize: does not model an `os.Stat` that fails on a final file that is there.
- A session path with a bracket, read as a pattern, may match other directories; what the cleanup removes there is not modelled.
- A restored download counts as done when a file of the right size is at its final path, whoever put it there.
- Scheduler.WeightedScheduler.NextChunk: does not model the wrap of its position counter after 2^63 picks, nor float rounding.
- Case-insensitive file names, path containment, sockets, HTTP, JSON, SHA-256 and HMAC, ZIP.
- The content fingerprint as a change detector, telemetry, ETA figures, discovery, interfaces, configuration, the user interfaces.
