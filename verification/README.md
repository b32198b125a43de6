# A verified model of the sikaru CLI's native executor

The command-line client can serve an agent's tools from the user's own machine. Doing so safely is
the hard part of the repository: an operation's effect must not happen twice, a receipt must not
change, a process must not outlive its owner, and a crash at any moment must leave a state from which
the next process either continues correctly or refuses. This project models that executor in Dafny,
together with four small total algorithms of the same program, and proves what they promise.

| file | what it models |
|---|---|
| `Framing.dfy` | one serialized record to a line: reading, writing, torn writes |
| `Ledger.dfy` | the journal as a sequence of records: replay, snapshots, the restart gate |
| `Protocol.dfy` | any number of processes over one journal, as a machine of durable steps, failed appends and crashes |
| `Journal.dfy` | the journal object: memory, a file of bytes, and a ghost history reachable in the protocol |
| `Processes.dfy` | the registry of owned processes and the handles it journals |
| `Scheduler.dfy` | dispatch, completion, delivery and draining of operations |
| `Runtime.dfy` | reconciliation, the serving loop, cleanup and the final report |
| `Ownership.dfy` | the owner and the watcher of one process group, interleaved |
| `Capture.dfy` | bounded output capture, the announcement of exit, paging |
| `LogSearch.dfy` | incremental search of a growing artifact |
| `Edits.dfy` | several text replacements applied at once |
| `Replacement.dfy`, `Compaction.dfy` | staged replacement of a file at every crash point; compaction on top of it |
| `Controller.dfy` | the saved session: provisioning, claims, serving, turns, resume |
| `ErrorBody.dfy` | lifting a sentence out of an error body without losing the rest |
| `CommandTree.dfy` | merging command trees and finding a command's owner |
| `Glob.dfy` | hook patterns |
| `Csv.dfy` | CSV pages and the reader they are written for |
| `Wrappers.dfy` | optional values and results |

How the executor is put together. `Protocol` states every run as a list of durable steps and proves
the safety theorems over all of them. `JournalFile.Journal` is the object the program uses; each of
its methods moves a ghost `sys` by protocol steps, so `Reachable(sys)` holds at every exit, including
when an append fails after any byte and the process goes on. `Processes`, `Work` and the functions of
`Runtime` are methods over that object. The process can end at any append: every method then returns
`Crashed` at once, and nothing but the file carries over to the next executor in `Runtime.Life`. The
service, the lease, the scheduler of the operating system and the outcome of every system call are
arbitrary. SHA-256 and the JSON serializer are parameters; of the serializer only `Sound` is used: an
encoding is not empty, holds no newline and decodes to what was encoded; and a line put together from
parts of encodings, each from its start, is no record. The latter holds because every record is an
object that begins with a quoted key: begun anew inside another that was cut short, or behind one, it
leaves text that is not one JSON value.

What a process remembers and what the file says can differ once an append failed after its bytes were
written. `Protocol` keeps that difference as what is owed, and its theorems are about both.

## Where the code does not do what it or its documentation says

Each of these is stated by a lemma with the exact condition or a concrete run.

- `cli/sikaru/compute_process.rs:876-877` says each old text matches exactly once. The count skips
  overlapping matches, so `aa` is accepted in `aaa` (`Edits.AcceptedOnce`).
- The same comment says line endings are preserved. In a file that mixes both kinds every stretch
  outside the edits that holds a bare line feed is rewritten, and no other (`Edits.EditKeeps`,
  `Edits.MixedEndings`).
- `cli/sikaru/compute_runtime.rs:800-802` marks a journal clean that holds an intent without receipt,
  exactly when that intent's own append failed after it was written; no later executor is admitted
  (`Protocol.MarksAreEarned`, `Protocol.CleanPastLostIntent`, `Protocol.LostKeepsOut`).
- An executor whose append of a handle was cut goes on, answers, reports success and marks the journal
  clean behind the cut; the file is refused from then on (`Runtime.Run`, `Protocol.CleanBehindCut`,
  `Framing.DebrisStays`).
- `cli/sikaru/compute_process.rs:1020-1023` repeats the kill until absence is proven. The probe reads
  the process table entry by entry, so a member forked into a part already read survives unseen
  (`Ownership.DisownedDead`, `Ownership.MemberCanSurvive`).
- `cli/sikaru/compute_process.rs:656-665` joins the output collector, which tests for the stop only when
  it finds the pipe empty: a process outside the group that keeps writing keeps `finish` waiting
  (`Ownership.JoinEnds`, `Ownership.JoinCanBeProlonged`).
- `cli/sikaru/compute_diagnostics.rs:57` tells the user to resume after the service could not be
  reached. When the session's last executor had finished cleanly, the failed attempt itself is saved as
  not clean, and every later resume is refused (`Controller.Session.Execute`, `Controller.LockOut`).
- `cli/sikaru/compute_process.rs:100` says the exit event is set once the output drained or the job
  finished. A finish whose stop falls between the collector's empty read and its check ends with output
  uncollected (`Capture.StopKeepsOutput`, `Capture.OutputCanBeMissed`).
- The log search carries 4096 bytes between reads, so a match that needs more than 4097 bytes can be
  missed (`LogSearch.ScanIsExact`).
- Operation keys join run and call ids with a slash, so ids that hold one can collide
  (`Scheduler.KeysCollide`).
- A CSV row without cells reads as one empty cell, and headers are not escaped
  (`Csv.RowsRoundTrip`, `Csv.HeaderReadsBack`).
- A command at a prefix of another binding's path can no longer be run after the merge, as the code's
  own comment says (`CommandTree.OwnedLeafMerged`).

## Model

| member | source | states |
|---|---|---|
| `Framing.ReadNext` | cli/sikaru/compute_journal.rs:479-496 | the reader loop skips blank lines and returns the next record, end of file, or what is wrong: too long, interrupted, malformed |
| `Framing.WriteRecord` | cli/sikaru/compute_journal.rs:497-505 | a record is written if and only if its encoding is at most 1 MiB, as one newline-ended line that fits the reader's bound |
| `Framing.ReadFrame` | cli/sikaru/compute_journal.rs:479-496 | an accepted record followed by anything is read back as that record, leaving the rest |
| `Framing.RoundTrip` | cli/sikaru/compute_journal.rs:479-505 | reading the concatenation of any accepted records gives exactly those records |
| `Framing.TornFrame` | cli/sikaru/compute_journal.rs:486-491 | every proper nonempty prefix of a written record is reported as an interrupted write |
| `Framing.EveryPrefix` | cli/sikaru/compute_journal.rs:479-505 | any byte prefix of a file of accepted records reads as the records it wholly contains when it ends at a boundary, and as an interrupted write everywhere else; never as different records |
| `Framing.DebrisStays` | cli/sikaru/compute_journal.rs:479-505 | once a write was cut inside a record the file is refused, whatever is written behind it |
| `Ledger.RestoreAllConcat` | cli/sikaru/compute_journal.rs:154-171 | restoring a log in two parts is restoring it at once |
| `Ledger.ReplayAppend` | cli/sikaru/compute_journal.rs:279-310 | appending a record to a log changes what it replays to by exactly that record |
| `Ledger.EntryReplay` | cli/sikaru/compute_journal.rs:507-528 | the intent, receipt and acknowledgement written for one entry restore that entry |
| `Ledger.EntriesReplay` | cli/sikaru/compute_journal.rs:206-219 | writing the entries in any order restores exactly the entry map |
| `Ledger.HandlesReplay` | cli/sikaru/compute_journal.rs:220-225 | writing the handles in any order restores exactly the handle map |
| `Ledger.SnapshotReplays` | cli/sikaru/compute_journal.rs:206-230 | replay(write_snapshot(s)) == s: identity, entries, handles and clean mark |
| `Ledger.SnapshotFromLog` | cli/sikaru/compute_journal.rs:206-230 | every record of a snapshot of what a log replays to occurs in that log, so none can be refused for its size |
| `Protocol.StepKeepsInv` | cli/sikaru/compute_journal.rs:231-394 | every durable step of every process, every append that fails after nothing, part or all of it was written while its process lives on, and every stop keep journal, memory and history in agreement |
| `Protocol.LogRefinement` | cli/sikaru/compute_journal.rs:138-171 | for every live process, unless a write was cut, replaying the log gives its memory with exactly what slipped past it: each such fact is missing from memory and in a record whose append failed after it was written; the two are equal if and only if there is none |
| `Protocol.NothingOwed` | cli/sikaru/compute_journal.rs:318-324 | memory with what slipped past it is memory if and only if nothing did |
| `Protocol.HeardAllAgrees` | cli/sikaru/compute_journal.rs:138-171 | when no append ever failed after its record was written, replaying the log gives the live process's memory: binding, instance, entries, handles and clean mark |
| `Protocol.RestReplays` | cli/sikaru/compute_journal.rs:154-171 | what a reader can read of a journal, after any run, failure or crash, replays to a state |
| `Protocol.TornForGood` | cli/sikaru/compute_journal.rs:318-324 | once a write was cut and the process is gone, no run changes anything about the journal ever again |
| `Protocol.AtMostOnce` | cli/sikaru/compute_runtime.rs:384-434 | over every interleaving of dispatch, completion, repetition, failed append, crash, reopening, takeover and compaction an operation's effect is begun at most once, only after its intent is journaled and never after its receipt |
| `Protocol.UncertaintyIsFinal` | cli/sikaru/compute_journal.rs:231-264 | once no process holds an effect whose receipt is missing, no continuation ever begins it again or takes the journal over as a new process |
| `Protocol.ReceiptsImmutable` | cli/sikaru/compute_journal.rs:356-373 | all submissions of a key over all processes carry one value, the value of its only durable receipt |
| `Protocol.SubmittedReceipted` | cli/sikaru/compute_runtime.rs:703-721 | every submission comes after the record of the receipt it carries |
| `Protocol.OneReceipt` | cli/sikaru/compute_journal.rs:356-373 | an operation has one receipt record in the whole history |
| `Protocol.AcknowledgedAfterReceipt` | cli/sikaru/compute_journal.rs:374-381 | an acknowledgement is journaled only after a receipt was journaled and submitted |
| `Protocol.HeaderChain` | cli/sikaru/compute_journal.rs:231-258 | headers of one journal have strictly increasing epochs and agree on everything but epoch and credential |
| `Protocol.MarksAreEarned` | cli/sikaru/compute_journal.rs:240-257 | a header for a new process is written only when every intent has its receipt; a clean mark only when no journaled process is running, and past an intent without receipt exactly when that intent was journaled by an append that failed |
| `Protocol.CleanPastLostIntent` | cli/sikaru/compute_runtime.rs:800-802 | the run in which an intent's append fails after it was written and the journal is marked clean all the same |
| `Protocol.CleanBehindCut` | cli/sikaru/compute_runtime.rs:800-802 | the run in which the append of a handle is cut, the process goes on and marks the journal clean behind the cut |
| `Protocol.LostKeepsOut` | cli/sikaru/compute_journal.rs:240-257 | after an intent was lost to a failed append no later process is admitted |
| `JournalFile.FileRestoresReplay` | cli/sikaru/compute_journal.rs:154-171 | reading a file of whole records restores what its records replay to |
| `JournalFile.TornFileRefused` | cli/sikaru/compute_journal.rs:479-491 | a file whose last append was cut short is refused as a whole, whatever came before |
| `JournalFile.DebrisFileRefused` | cli/sikaru/compute_journal.rs:479-496 | a file with a cut write is refused as a whole, whatever was written before it and behind it |
| `JournalFile.Journal.Append` | cli/sikaru/compute_journal.rs:318-324 | a successful append makes exactly that record durable; a failed one leaves the log as it was, with the whole record, or with part of it, and the process goes on; a crash leaves one of these too |
| `JournalFile.Journal.LogRecord` | cli/sikaru/compute_journal.rs:318-324 | an append of the live process is one step of the protocol, whether it succeeds, fails or never returns |
| `JournalFile.Journal.LogIntent` | cli/sikaru/compute_journal.rs:325-355 | a new operation is journaled; a known one is answered with its receipt, refused when its arguments changed, refused when its effect is uncertain, and never journaled again; a failed append leaves memory without it |
| `JournalFile.Journal.LogReceipt` | cli/sikaru/compute_journal.rs:356-373 | a missing receipt is journaled, an equal one is accepted without effect, a different one, an oversized one and one without intent are refused; a failed append leaves the effect uncertain in memory |
| `JournalFile.Journal.LogAck` | cli/sikaru/compute_journal.rs:374-381 | an acknowledgement is journaled once; repeating it changes nothing; a failed append leaves it missing in memory |
| `JournalFile.Journal.LogHandle` | cli/sikaru/compute_journal.rs:382-389 | the handle state is journaled and remembered, or on a failed append not remembered |
| `JournalFile.Journal.MarkClean` | cli/sikaru/compute_journal.rs:390-394 | the clean mark is journaled and remembered, or on a failed append not remembered; lawful when memory knows no uncertain effect and neither memory nor file a running process |
| `JournalFile.Journal.HasUncertainEffects` | cli/sikaru/compute_journal.rs:262-264 | true if and only if some entry has no receipt |
| `JournalFile.Journal.RestoreRecords` | cli/sikaru/compute_journal.rs:154-171 | the restore loop computes the meaning of the file, or fails exactly as it does |
| `JournalFile.Journal.RestoreOne` | cli/sikaru/compute_journal.rs:279-310 | one record changes memory as replay says, and is refused without effect exactly when it has no intent |
| `JournalFile.Journal.Load` | cli/sikaru/compute_journal.rs:138-153 | an empty file is created with a header; otherwise the journal is entered only as the same process or as a new one the gate admits, with exactly the replayed state; a torn file, a stale epoch or unproven cleanup is refused and leaves the file alone |
| `JournalFile.Journal.ValidateRestart` | cli/sikaru/compute_journal.rs:231-258 | the restart gate: same process, stale epoch, unproven identity, cleanliness or effects, or takeover |
| `JournalFile.Journal.RecordExternalTeardown` | cli/sikaru/compute_journal.rs:265-278 | every handle recorded as running becomes cancelled by the confirmed teardown, all others stay |
| `JournalFile.Journal.Compact` | cli/sikaru/compute_journal.rs:172-194 | compaction replaces the log by a snapshot of memory and changes nothing that is remembered |
| `JournalFile.Journal.WriteSnapshot` | cli/sikaru/compute_journal.rs:206-230 | the snapshot written is the header, all entries, all handles and the clean mark, each record within the size limit |
| `Compaction.CompactOnDisk` | cli/sikaru/compute_journal.rs:172-194 | at every moment of a compaction, and after it succeeds or fails, every file a crash can leave restores exactly what the process remembers |
| `Compaction.BothRestore` | cli/sikaru/compute_journal.rs:206-230 | the old log and the snapshot restore the same state |
| `Replacement.Store.ReplaceSnapshot` | cli/sikaru/compute_state.rs:50-91 | at every crash point the authoritative file is wholly one of what it could be before or wholly new; on success it can only be the new one |
| `Replacement.Store.Stage` | cli/sikaru/compute_state.rs:54-62 | writing and syncing the staging file never touches the authoritative one, and success means the whole content is durable there |
| `Replacement.WhollyMeaning` | cli/sikaru/compute_state.rs:50-65 | what "wholly old or wholly new" says about every image a crash can leave |
| `Replacement.UnsyncedRenameIsUnsafe` | cli/sikaru/compute_state.rs:60-63 | without the sync before the rename a crash could leave neither version |
| `Replacement.LoadGivesSaved` | cli/sikaru/compute_state.rs:121-135 | loading a saved snapshot, after any older lines, gives the saved value exactly when the file is within 16 MiB |
| `Replacement.Saved.Create` | cli/sikaru/compute_state.rs:18-40 | until the first save succeeds a crash leaves no file, an empty one that does not load, or the whole initial value |
| `Replacement.Saved.Save` | cli/sikaru/compute_state.rs:41-49 | a save moves the durable value from the old to the new with nothing in between; an oversized one is refused untouched |
| `Replacement.Saved.Resume` | cli/sikaru/compute_state.rs:18-40 | an existing snapshot always loads, as one of the values a crash could have left |
| `Replacement.Saved.CrashLoads` | cli/sikaru/compute_state.rs:121-135 | whatever a crash leaves loads as one of the durable values |
| `ProcessRegistry.FinishJob` | cli/sikaru/compute_process.rs:617-646 | signal, proof of death, release, reaping and draining in this order; before the release a failure changes nothing, after it the job is never reported finished |
| `ProcessRegistry.Processes.constructor` | cli/sikaru/compute_process.rs:111-129 | handles recorded as running by an earlier executor are lost, the others kept as they were |
| `ProcessRegistry.Processes.StartJob` | cli/sikaru/compute_process.rs:225-265 | a started process is owned before it is journaled, and stays owned under its operation when journaling fails; a launch the shell rejects leaves nothing |
| `ProcessRegistry.Processes.FinishOne` | cli/sikaru/compute_process.rs:488-496 | one job is finished and its final state journaled; a failure leaves what memory knows of handles; the others are untouched |
| `ProcessRegistry.Processes.Maintenance` | cli/sikaru/compute_process.rs:130-138 | success means every job that was due is closed and newly finished ones are journaled as such; jobs not due are untouched and what was journaled up to date stays so |
| `ProcessRegistry.Processes.Begin` | cli/sikaru/compute_process.rs:161-224 | whatever fails short of a crash becomes the operation's result; only handles are journaled; a process reported started is owned and journaled under its operation, one that could not be journaled is owned still, one reported cancelled is journaled as stopped |
| `ProcessRegistry.Processes.Finish` | cli/sikaru/compute_process.rs:280-310 | an operation whose wait is over can still fail, in the sweep or in reading its page; nothing but handles is journaled |
| `ProcessRegistry.Processes.Cleanup` | cli/sikaru/compute_process.rs:497-519 | every job is finished whatever became of the others; success means each is journaled as stopped and neither memory nor file knows of a running process |
| `Scheduler.KeysCollide` | cli/sikaru/compute_runtime.rs:627-629 | calls of two runs can share a key, and with it one journal entry, if and only if one run id is the other's followed by a slash and more |
| `Scheduler.Work.constructor` | cli/sikaru/compute_runtime.rs:262-286 | a run starts with nothing running or waiting over a journal without uncertain effects |
| `Scheduler.Work.Settle` | cli/sikaru/compute_runtime.rs:496-507 | the run ends exactly when an operation's receipt was refused three times in a row |
| `Scheduler.Work.DeliverReceipt` | cli/sikaru/compute_runtime.rs:703-722 | a receipt is sent as journaled until it is recorded, refused, permanently rejected or the lease runs out, and is acknowledged exactly on success; nothing else is journaled |
| `Scheduler.Work.Deliver` | cli/sikaru/compute_runtime.rs:473-495 | delivery submits the durable receipt, acknowledges it and settles the answer; only that acknowledgement is journaled |
| `Scheduler.Work.Admit` | cli/sikaru/compute_runtime.rs:404-420 | a repeat joins the running operation, one beyond four waits once, the rest may start |
| `Scheduler.Work.Start` | cli/sikaru/compute_runtime.rs:421-434 | an operation begins only after its intent is durable, and is then running and counted |
| `Scheduler.Work.Intend` | cli/sikaru/compute_runtime.rs:396-399 | within a run the refusal of an uncertain effect is unreachable |
| `Scheduler.Work.Launch` | cli/sikaru/compute_runtime.rs:396-402 | an unknown operation is begun, a known one answered from its journaled receipt |
| `Scheduler.Work.Dispatch` | cli/sikaru/compute_runtime.rs:384-403 | exactly what a dispatched operation does: joins, waits, is answered from the journal or begins; an operation of another epoch or generation fails |
| `Scheduler.Work.FinishEffects` | cli/sikaru/compute_runtime.rs:456-472 | an operation that failed while a process it started is owned gets no receipt |
| `Scheduler.Work.Record` | cli/sikaru/compute_runtime.rs:456-472 | the receipt made is the operation's own, durable, and a failure receipt is made only when no process of the operation is owned |
| `Scheduler.Work.Retire` | cli/sikaru/compute_runtime.rs:437-444 | a finished operation leaves the running ones exactly when its receipt is durable; otherwise it stays |
| `Scheduler.Work.Answer` | cli/sikaru/compute_runtime.rs:445-450 | the receipt is delivered once, and once more for a repeat that joined unless the first was refused |
| `Scheduler.Work.Refill` | cli/sikaru/compute_runtime.rs:451-454 | waiting operations start in order while a slot is free, and none is dropped |
| `Scheduler.Work.Complete` | cli/sikaru/compute_runtime.rs:437-455 | every completion keeps the invariant, delivers the receipt, drops no waiting operation and leaves strictly fewer operations in hand |
| `Scheduler.Work.Drain` | cli/sikaru/compute_runtime.rs:508-514 | draining ends, with nothing running, nothing waiting and no effect without its receipt |
| `Scheduler.Work.DispatchPage` | cli/sikaru/compute_runtime.rs:351-381 | every operation of a page is afterwards journaled or waiting, and the turn moves on at once only if something was recorded and nothing refused |
| `Runtime.UncertainOperations` | cli/sikaru/compute_runtime.rs:148-162 | exactly the issued operations without a receipt; an error exactly when a receipt answers another request |
| `Runtime.ReplayReceipts` | cli/sikaru/compute_runtime.rs:163-188 | every receipt unacknowledged or issued again is submitted as journaled, and every receipt ends up acknowledged |
| `Runtime.Reconcile` | cli/sikaru/compute_runtime.rs:115-147 | reconciliation changes nothing but acknowledgements and succeeds only when every issued operation has a matching, acknowledged receipt and no process is lost |
| `Runtime.Recover` | cli/sikaru/compute_runtime.rs:541-553 | after a lost connection everything running is finished first, transient failures to reconnect are retried until the lease runs out, and success means agreement with the last page asked for and nothing in hand lost |
| `Runtime.Serve` | cli/sikaru/compute_runtime.rs:333-350 | one wake keeps the invariant and everything in hand; a page that ends the run is answered only after draining |
| `Runtime.WorkLoop` | cli/sikaru/compute_runtime.rs:262-303 | over any sequence of wakes, however the loop ends, nothing put on a page it served is lost, and a run the service ended leaves nothing running, waiting or uncertain |
| `Runtime.Conclude` | cli/sikaru/compute_runtime.rs:776-827 | the journal is marked clean exactly when local and remote cleanup are confirmed and nothing known is uncertain; anything else is reported as needing recovery; after any other report a newer process may take the journal over if and only if no write was cut and no intent was lost |
| `Runtime.Succession` | cli/sikaru/compute_journal.rs:231-258 | a clean journal without known uncertain effects admits a newer process if and only if no write was cut and no intent slipped past memory |
| `Runtime.Run` | cli/sikaru/compute_runtime.rs:37-101 | a whole executor life, from a failed preparation or not: without a report of recovery no process runs in memory or on file, no effect is uncertain, every operation served was answered when the service ended the run, and the journal is open to a successor if and only if no write was cut |
| `Runtime.Life` | cli/sikaru/compute_runtime.rs:37-101 | any number of executors one after the other over one file, each ending at any moment: at most one beginning for each operation, after its intent and before its receipt, and one submitted value |
| `Ownership.StepKeepsInv` | cli/sikaru/compute_process.rs:617-646 | every step of owner, watcher and kernel keeps the ownership invariant |
| `Ownership.SignalsAreOwned` | cli/sikaru/compute_process.rs:696-715 | in every interleaving a signal is sent only by the lock holder, while the group is owned and its leader unreaped |
| `Ownership.FinishedForGood` | cli/sikaru/compute_process.rs:617-646 | once finish has succeeded no signal is ever sent again and the group stays dead unless a fork fell behind the probe |
| `Ownership.DisownedForGood` | cli/sikaru/compute_process.rs:632-636 | once the group is disowned nothing is signalled, and a dead group stays dead |
| `Ownership.DisownedDead` | cli/sikaru/compute_process.rs:1066-1089 | what may live of a disowned group are members forked behind the probe, which reads the process table entry by entry; without such a fork it is dead |
| `Ownership.MemberCanSurvive` | cli/sikaru/compute_process.rs:1014-1027 | the interleaving in which a group is taken for dead and disowned with one member alive |
| `Ownership.ReapedAfterProof` | cli/sikaru/compute_process.rs:1014-1027 | a leader is reaped only after a probe of the whole process table found no live member and the group was disowned |
| `Ownership.JoinEnds` | cli/sikaru/compute_process.rs:656-665 | a join is never stuck, the watcher takes at most so many steps as the bytes in the pipe, those written since and the reads interrupted account for, and the join comes to its end if and only if the pipe is found empty once |
| `Ownership.JoinCanBeProlonged` | cli/sikaru/compute_process.rs:731-747 | a process outside the group that writes as fast as it is read keeps the owner joining through any number of rounds |
| `Ownership.LostForGood` | cli/sikaru/compute_process.rs:636-637 | a job disowned but not reaped is never reported finished |
| `Capture.Collector.CopyAvailable` | cli/sikaru/compute_process.rs:749-771 | one read is copied as far as the artifact has room and marks truncation when it has not |
| `Capture.Collector.CopyOutput` | cli/sikaru/compute_process.rs:722-748 | whatever the pipe does the artifact is the first mebibyte of the bytes read, truncated if and only if more was read; exit is announced exactly by a pass that saw the leader gone and then an empty pipe |
| `Capture.ArtifactGrows` | cli/sikaru/compute_process.rs:749-771 | an artifact only grows at its end and never beyond 1 MiB |
| `Capture.DrainedIsComplete` | cli/sikaru/compute_process.rs:731-746 | when the collector announces the exit the artifact holds all of the leader's retained output, in every interleaving |
| `Capture.StopKeepsOutput` | cli/sikaru/compute_process.rs:656-665 | after a stop the collector ends with all of the leader's output if and only if the stop did not fall between an empty read and the decision with output written in between |
| `Capture.OutputCanBeMissed` | cli/sikaru/compute_process.rs:637-645 | the interleaving in which finish announces the exit and the leader's output is in no artifact |
| `Capture.PageAccounts` | cli/sikaru/compute_process.rs:1095-1120 | omitted before, data and omitted after add up to the whole artifact, in place, for every offset |
| `Capture.DefaultIsTail` | cli/sikaru/compute_process.rs:1102-1103 | without an offset a page is the tail of the artifact |
| `Capture.FollowPages` | cli/sikaru/compute_process.rs:1095-1120 | following next_offset from 0 gives the artifact back with no gap and no overlap, in pages that all carry data |
| `LogSearch.CarryIsTail` | cli/sikaru/compute_process.rs:1472-1489 | the carry is always the last min(offset, 4096) bytes scanned |
| `LogSearch.ReportsOnlyMatches` | cli/sikaru/compute_process.rs:1481-1485 | a reported match is a match of the whole |
| `LogSearch.NothingMissed` | cli/sikaru/compute_process.rs:1472-1489 | no chunking hides a match when every match contains a short one |
| `LogSearch.ScanIsExact` | cli/sikaru/compute_process.rs:1453-1489 | for a position-independent pattern that cannot match nothing, incremental and whole search agree for all chunkings if and only if every match contains one of at most 4097 bytes |
| `LogSearch.LiteralIsExact` | cli/sikaru/compute_process.rs:1453-1489 | for a literal pattern that is: at most 4097 bytes |
| `LogSearch.EmptyMatchReported` | cli/sikaru/compute_process.rs:1472-1489 | a pattern that matches nothing is reported on the first read |
| `LogSearch.LogScanner.Scan` | cli/sikaru/compute_process.rs:1472-1489 | a scan ends, reports only matches, and without one has searched the whole artifact; a failed read loses nothing searched |
| `LogSearch.WatchLog` | cli/sikaru/compute_process.rs:1494-1523 | "exited" is returned only when the artifact holds no match, nor the leader's retained output when the collector announced the exit; a failed read ends the watch as an error |
| `Edits.RenderRestores` | cli/sikaru/compute_process.rs:883-884 | normalizing and restoring line endings gives a text back if and only if they are uniform |
| `Edits.AcceptedOnce` | cli/sikaru/compute_process.rs:891-904 | a text is accepted exactly when it occurs once, for every file, if and only if it cannot overlap itself |
| `Edits.BorderOverlaps` | cli/sikaru/compute_process.rs:891-904 | the file in which a self-overlapping text is counted once and occurs twice |
| `Edits.PlaceAll` | cli/sikaru/compute_process.rs:885-906 | the single place of every edit, or the first edit that is empty, missing or repeated, with its count |
| `Edits.FirstOverlap` | cli/sikaru/compute_process.rs:907-910 | in start order an overlap is found if and only if neighbours overlap |
| `Edits.SortSorts` | cli/sikaru/compute_process.rs:907 | ordering by start keeps exactly the same spans |
| `Edits.Substitute` | cli/sikaru/compute_process.rs:911-918 | the cursor loop computes the splice of the spans |
| `Edits.SpliceIsReplaced` | cli/sikaru/compute_process.rs:911-918 | the cursor loop is the simultaneous replacement of all spans in the original |
| `Edits.OverlapFound` | cli/sikaru/compute_process.rs:908-910 | neighbours that overlap are two different edits that do |
| `Edits.OrderedCompatible` | cli/sikaru/compute_process.rs:908-910 | without overlapping neighbours all edits are pairwise disjoint |
| `Edits.ApplyEdits` | cli/sikaru/compute_process.rs:876-926 | success if and only if every old text has one place, the places are disjoint and something changes; the value is the simultaneous replacement; otherwise the reason is true |
| `Edits.OrderIrrelevant` | cli/sikaru/compute_process.rs:876-926 | the order in which edits are listed changes neither success nor result |
| `Edits.OutsideUnchanged` | cli/sikaru/compute_process.rs:876-926 | a file with uniform line endings keeps everything outside the replaced spans to the character |
| `Edits.EditKeeps` | cli/sikaru/compute_process.rs:876-926 | the result of a successful edit is the file's own stretches outside the spans, byte order mark included, around the new texts, each stretch unchanged if and only if the file has no CRLF or the stretch no bare line feed |
| `Edits.MixedEndings` | cli/sikaru/compute_process.rs:876-926 | a file with both kinds of line ending: one edit rewrites a line feed far from it, another changes nothing outside itself |
| `Edits.EditedLength` | cli/sikaru/compute_process.rs:911-918 | the text grows by exactly the sum of new over old lengths |
| `Controller.LockOut` | cli/sikaru/compute_workflow.rs:125-157 | a new session whose first executor ended cleanly, resumed while the service is down, is refused to everybody from then on |
| `Controller.Session.Save` | cli/sikaru/compute_state.rs:41-49 | a save leaves the durable snapshot wholly old or new and keeps every safety fact |
| `Controller.Session.Provision` | cli/sikaru/compute_workflow.rs:234-288 | session, environment and attachment are each created at most once, each recorded before the next is asked for |
| `Controller.Session.AcquireClaim` | cli/sikaru/compute_workflow.rs:319-347 | the claim returned has never been served under; a new one is made only when there is none or the last executor finished cleanly |
| `Controller.Session.AcquireBootstrap` | cli/sikaru/compute_workflow.rs:348-370 | before anything is served the durable snapshot says an executor was started and is not clean |
| `Controller.Session.RunAttached` | cli/sikaru/compute_workflow.rs:384-429 | serving and submitting the turn interleave; serving begins only under a fresh claim with no other executor unaccounted for; cleanup is believed only when confirmed |
| `Controller.Session.Begin` | cli/sikaru/compute_workflow.rs:412-416 | at the moment serving begins the durable snapshot says started and not clean |
| `Controller.Session.Submit` | cli/sikaru/compute_workflow.rs:472-510 | an unanswered turn is retried under its own key; a new key is minted only once the last run id is recorded, whatever the executor does meanwhile |
| `Controller.Session.ExecuteSaved` | cli/sikaru/compute_workflow.rs:289-318 | how far a failed run got determines what it left in the snapshot |
| `Controller.Session.Execute` | cli/sikaru/compute_workflow.rs:125-157 | what each ending leaves of the durable snapshot, and that whoever could resume before can afterwards if and only if: no executor had been started, for a run that only opened; always, for one that failed claiming; cleanup was confirmed, for one that served |
| `Controller.Session.Resume` | cli/sikaru/compute_workflow.rs:198-233 | a session is taken up exactly when identity, model, cleanliness and agent allow, and then no executor is unaccounted for |
| `Controller.Session.Life` | cli/sikaru/compute_workflow.rs:125-157 | over any sequence of runs, failures, crashes and resumes executors never overlap, no claim serves twice, the session keeps its identity, at most one session, environment and attachment exist, and no accepted turn is forgotten |
| `ErrorBody.MessageResolves` | src/error.rs:661-698 | the path reported for a sentence leads to that sentence |
| `ErrorBody.FirstFieldWins` | src/error.rs:670-685 | the earliest of the sentence fields that holds a non-empty string is the one lifted |
| `ErrorBody.ScopeResolves` | src/error.rs:274-280 | the scope chosen is what its path leads to |
| `ErrorBody.RemoveTakesLeaf` | src/error.rs:504-533 | removing a leaf by its path removes exactly that leaf |
| `ErrorBody.RemoveElsewhere` | src/error.rs:504-533 | what lies elsewhere stays where it was, even when it reads the same |
| `ErrorBody.PruneKeeps` | src/error.rs:536-551 | pruning keeps every leaf, leaves no empty container, and gives nothing exactly when there was no leaf |
| `ErrorBody.LeavesConserved` | src/error.rs:255-327 | the leaves of the details with the lifted sentence are the leaves of the body; the code is the HTTP status |
| `ErrorBody.BareSentence` | src/error.rs:263-268 | a nonblank string body is the message, without surrounding space and without details |
| `ErrorBody.BlankKept` | src/error.rs:263-268 | a blank string body is kept as details |
| `CommandTree.MergeNodes` | src/app.rs:1463-1479 | a merged tree has exactly the nodes of both trees |
| `CommandTree.MergedNodes` | src/app.rs:1394-1400 | the merged tree has exactly the nodes of all bindings |
| `CommandTree.MergeDistinct` | src/app.rs:1463-1479 | merging keeps sibling names distinct |
| `CommandTree.LeafIffEnd` | src/app.rs:1429-1442 | with distinct siblings a leaf is a node nothing extends |
| `CommandTree.OwnedLeafMerged` | src/app.rs:1444-1462 | a binding's leaf survives the merge if and only if no command extends its path |
| `CommandTree.LeavesUnite` | src/app.rs:1329-1403 | the merged leaves are the union of the bindings' leaves if and only if no leaf path is a proper prefix of another |
| `CommandTree.CollectLeaves` | src/app.rs:1429-1442 | the walk adds exactly one subtree's leaf paths under its binding |
| `CommandTree.CollectAll` | src/app.rs:1354-1361 | the leaf map holds exactly the leaves of every binding with their owner |
| `CommandTree.Collisions` | src/app.rs:1363-1392 | exactly the paths, but the intrinsic one, that two bindings declare |
| `CommandTree.MergeBindings` | src/app.rs:1345-1403 | either exactly the contested paths are reported or the merge is returned with a leaf map in which every non-intrinsic leaf has one owner |
| `CommandTree.ResolveBinding` | src/app.rs:1408-1416 | the owner by the first entry for the path, None exactly when there is none |
| `Glob.MatchIsSplit` | src/hooks.rs:48-70 | a pattern matches if and only if the path splits into consecutive pieces its segments take |
| `Glob.SequenceIsCut` | src/hooks.rs:48-70 | a concatenated pattern matches if and only if some cut of the path satisfies both halves |
| `Glob.PlainPattern` | src/hooks.rs:28-41 | a pattern written without wildcards matches exactly the path it spells |
| `Glob.EmptyPath` | src/hooks.rs:59-63 | the empty path is matched by globstars alone |
| `Csv.CellRoundTrip` | src/formatter.rs:762-768 | reading an escaped cell gives it back, whatever it holds |
| `Csv.LineRoundTrip` | src/formatter.rs:744-757 | reading a written row gives its cells back |
| `Csv.RowsRoundTrip` | src/formatter.rs:708-760 | reading the written rows gives the matrix back if and only if every row has a cell |
| `Csv.HeaderReadsBack` | src/formatter.rs:739-742 | the header reads back as the columns if and only if there are any and none needs quoting |
| `Csv.CollectColumns` | src/formatter.rs:725-735 | the columns are every key of every object, once each |
| `Csv.FormatPage` | src/formatter.rs:692-760 | a page is an optional header and one line for each item of its cell matrix |
| `Csv.ExtractItems` | src/formatter.rs:423-437 | the page of a wrapper object is its first nonempty list under a key that is not bookkeeping |
| `Csv.FormatCsv` | src/formatter.rs:692-703 | any value is formatted as the list it is or wraps, or else as one cell |
| `Csv.PageReadsBack` | src/formatter.rs:708-760 | which pages read back as their matrix: tables with some key, lists without an empty list |

## Left out

- JournalFile.Journal.Append: a record written whole by an append whose sync failed is taken to stay in the file; what a power failure does to it is not modelled.
- JournalFile.Journal.Compact: the rename is one step here; its crash points are in `Compaction.CompactOnDisk`.
- Runtime.Run: asks that nothing be uncertain when it starts, which the restart gate gives a new process; a return of the very same instance, which is drawn at random, is skipped in `Runtime.Life`. Connecting, the heartbeat and checkpoint capture append nothing to the journal but acknowledgements and are left out.
- Scheduler.Work.DeliverReceipt: the lease is a finite, unknown patience and the service's answers are arbitrary; backoff times are not modelled.
- Scheduler.Work.Complete: what the service does with a submitted receipt is arbitrary, so exactly-once delivery is not claimed, only at-most-once effects and one receipt value.
- Runtime.WorkLoop: cancellation is modelled between wakes; a cancel inside a wake is a stop of the protocol machine in `Protocol`.
- ProcessRegistry.Processes.Maintenance: which jobs are due is a parameter; deadlines and the order of the sorted map are not modelled.
- ProcessRegistry.Processes.Begin: argument checks and the results of reads, waits and text operations are one arbitrary outcome; waits on several conditions are one wait.
- Ownership.DisownedDead: where in the process table a new member appears is arbitrary; that process ids usually grow is not used.
- Capture.DrainedIsComplete: the pipe delivers bytes in the order written; what processes outside the group write is not told apart from the group's own.
- Capture.PageAccounts: pages are bytes; the code shows them as text with undecodable bytes replaced.
- LogSearch.ScanIsExact: patterns are sets of byte strings, so anchors, word boundaries and look-around are not covered; the reported excerpt is not modelled.
- LogSearch.WatchLog: the same patterns as in `LogSearch.ScanIsExact`; the deadline of the watch is an unknown patience.
- Edits.ApplyEdits: texts are sequences of characters, not UTF-8 bytes, and the fixed message of each error is left out.
- Replacement.Store.ReplaceSnapshot: directory anchors, permissions and the lock are left out; a failed anchor check is one more way for a step to fail.
- Controller.Session.Request: the service answers a repeated key with what it made first; a service that did not would break the counts of sessions, environments, attachments and turns.
- Controller.Session.Identity: random identities are taken to be new.
- Controller.Session.Submit: the text of a turn is not modelled; a retried key may carry another text, which the service ignores.
- Controller.LockOut: the weather of a session, fair or down, stands for which calls succeed; in any weather every call is free to fail or crash.
- ErrorBody.LeavesConserved: bodies that are not JSON, and the order of fields after a removal, are left out; removal works on values, not through a mutable cursor.
- CommandTree.MergeBindings: command attributes, aliases and the order of siblings are left out.
- Csv.FormatCsv: the JSON text of an object cell is a parameter.
- The service, HTTP and WebSocket transports, server-sent events and lease renewal times.
- Workspace checkpoints, which are dominated by libgit2 and the network.
- Table and YAML rendering, colours, JMESPath, argument parsing, proxies, logging, completion and man pages.
- The hooks that run on a matched path: registration order and error duplication are one loop each.
