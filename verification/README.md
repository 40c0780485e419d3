# Verification of the durable-change core

The repository changes files that must never be lost or half-changed: it publishes a
replacement of one assessed file, upgrades and rolls back a whole installation, prunes
backups, edits configuration, appends to logs and keeps a budget ledger. This project is a
Dafny model of the code that makes those changes and decides, afterwards, what an
interrupted change has left behind. Every `.dfy` file is one module;
`dafny verify dfyconfig.toml` checks them all.

## What is modelled

**Durable publication and interrupted recovery** (`PublicationRecords`, `Volumes`, `Staging`,
`Transactions`, `Custody`, `Handles`, `PublicationSteps`, `StageRetention`, `RecordWrites`,
`ImagePublication`, `Completion`, `Outcomes`, `Publications`, `Opening`, `Lifecycles`, `Witnesses`). A write-ahead
protocol that replaces one file. `Volumes.Disk` holds three directories, each with the list of
entries that its published name may turn out to have after a power loss; every operation may fail,
and a rename or an unlink may also fail after it happened. `Publications.Publication` is the
handle with the source's mutable state, `Lifecycles.Run` drives it through any script of calls,
kills, power losses and recoveries. The ghost set `visited` collects every disk there has
been, so that contracts speak of every crash point inside every call. What is proved:

- After a crash at any moment of any run, the durable record phase stands beside one of the
  images it names, and a missing marker means a terminal record.
- A terminal record, once durable, stays the only one across all later calls, kills, power losses and
  recoveries of any run.
- In a run that takes two cares, the evidence a crash leaves is resolvable *if and only if* nothing is left
  staged beside the records and the replacement differs from the original. The cares: a handle is given up
  once an operation of it has failed, and a recovery reverses only when the directory of the active file is
  flushed (one `fsync` by the caller). Whatever comes next may come in the same uptime, and a process may be
  killed at any operation. Accepted evidence reaches its terminal record whenever no further operation fails.
- Neither care can be dropped. Without them only a `reverse_prepared` record can be stranded, exactly when
  some possible active file is not the recorded forward file (`ReverseWindowExact`). `Witnesses` gives a
  state for each of the three ways that lead there: a reverse recovery after a kill between the rename and
  its flush, with no failed operation at all (`KilledBeforeFlush`); restoring after a failed
  `forward_published` write, because the recorded forward identity keeps its staging change time
  (`FailedPublishedWrite`); and restoring after a failed directory flush (`FailedFlush`).

Two more facts deserve a maintainer's attention. A crash that leaves a staged record in the record
directory makes interrupted observation refuse, because the directory may hold nothing but
records (`LeftoverRecord`). And a begin accepts a replacement equal to the original, which a recovery request
then refuses.

**Installation planning and runs** (`TransitionPlans`, `TransitionRows`, `TransitionRuns`, `TransitionResume`,
`TransitionWitnesses`). The planner classifies each reviewed row from the journal and the files; a transition
then records all intents, moves the rows one by one and commits. What a reader sees need not be durable: a
`State` has, beside the record and the files, what else a power loss may bring back to each name, and only
flushing the directory settles it. A process may start from any such state, so a kill at any moment and a
recovery in the same uptime are covered. What is proved:

- Plans move only files that the record proves to be theirs. Every power loss during a run shows at each moved
  name what it could show at the start or what the plan asked for, changes nothing else, and keeps the
  evidence qualified in every allowed direction.
- The crashes of a completed run can all be planned again *if and only if* those that were possible at its
  start can, no row strands and no row lingers (`TransitionResume.Transition`). For the "only if", what may come
  back to a moved name must not be known only by a staged identity (`Definite`).
- A moved row *strands* when a recorded file is removed (between the removal and its record nothing accounts
  for the absence), or when its name may show what is neither the original nor an observed file: the absence that
  a removal left when the file is created again, or a file known only by its staged identity when the row is
  turned back. A retained row *lingers* when its name may show what the record, once turned in the run's
  direction, does not trust, or when its name is still in doubt and no moved row in the same directory has it
  flushed: a run only reads such a row, commits what it sees, and a
  power loss then brings back what the committed record does not account for. `TransitionWitnesses.LostRename`
  is such a run without any failing operation: a kill between a rename and its flush, a forward recovery in the
  same uptime, and a later power loss after which every plan, rollback included, preserves and reports the row.
- One flush of each managed directory before the plan is enough against lingering (`FlushedSecure`,
  `TransitionWitnesses.FlushedFirst`); then only moves that strand what a reader sees are left.

In all these cases the next plan preserves the row and reports it: as
`docs/adr/0098-whole-installation-upgrade-and-rollback.md` puts it, an absence alone is no proof of ownership.

**Backup pruning** (`RetentionRows`, `RetentionPrune`, `RetentionResume`). The removal order, the
intent-logged removal loop, and the separate validator that accepts what a crash leaves.

**Configuration editing** (`ConfigText`, `ConfigFiles`, `ConfigLaws`, `EditPlanText`,
`EditPlanSteps`, `EditPlans`). The indexed batch editor equals repeated simple rewriting, with the
unterminated last line that merges with an appended row. One reading law is false as usually
stated: writing the key `a:b` makes `a` readable. `OtherKeysExact` says what any other colon-free key reads
after a rewrite of terminated data, and `OtherKeysUnchanged` exactly when it reads as before: unless the
key with its colon begins the written key and its first row was absent or a row of the written key.

**Budget ledger** (`BudgetRecords`, `BudgetPlans`, `BudgetLedger`). Rows, admission plans and the
locked steps, under any interleaving of locked steps with stale unlocked checks. Each step is granted exactly
when it may be and no write fails.

**Smaller algorithms**: log retention by backward scanning (`EventLog`), the crash-inert activation
of an exclusion rule (`LocalExclude`), the POSIX checksum (`Checksum`), and the comparison of a saved
tree with its manifest (`RecoveryTree`). The manifests that the parser accepts list paths of at most
four parts, so their tries lie within the depth limit, and the verdict is the highest-priority
finding as long as the shared entry total stays within its limit.

`Basics` holds the shared types. SHA-256 is an injective function, JSON records are structured
values, Git's answers and other calls into code outside the model are parameters or arbitrary
values, and the transition guard is the assumption that one live handle at a time changes the files.

## Model

| member | source | states |
|---|---|---|
| `Lifecycles.Run` | internal/assessment/publication.go:115-207 | over any script of Apply, Restore, Finish, Close, kill at any operation, power loss, flush and recovery after a durable begin: every crash shows a phase beside one of its images, and a terminal record, once durable, is the only one after every later step; when handles are given up once an operation has failed and reverse recoveries start from a flushed active directory, the crash evidence is resolvable iff nothing is staged beside the records and the image really changes |
| `Witnesses.KilledBeforeFlush` | internal/assessment/publication_storage.go:339-350 | a consistent disk, left by a kill between rename and flush, from which a granted reverse recovery writes a record that a power loss strands |
| `Witnesses.FailedPublishedWrite` | internal/assessment/publication_storage.go:350-356 | restoring with the forward intent still recorded strands a crash although the directory is flushed |
| `Witnesses.FailedFlush` | internal/assessment/publication_storage.go:347-349 | restoring after a failed directory flush strands a crash although the recorded identity is right |
| `Witnesses.LeftoverRecord` | internal/assessment/interrupted_recovery_observe.go:73-276 | sound evidence with a record still staged beside the records is refused in both directions |
| `Lifecycles.Resolve` | internal/assessment/interrupted_recovery.go:86-187 | accepted evidence and intact saved bytes reach the terminal record of the requested direction when no operation fails; success always means the only state a later crash can show is the terminal record, its image and no marker; a terminal record that is already durable is never replaced, whatever fails |
| `Lifecycles.BeginDurable` | internal/assessment/durable_publication_storage.go:86-137 | a fitting request is granted when no operation fails, refusal before the reservation changes no entry, and every crash in between is consistent |
| `Lifecycles.BeginRecovery` | internal/assessment/interrupted_recovery.go:86-175 | a handle is granted only over accepted evidence and matching saved bytes, and always then when no operation fails |
| `Lifecycles.Complete` | internal/assessment/interrupted_recovery.go:179-187 | a granted recovery ends in the terminal record of its direction when no operation fails, and never replaces a terminal record that is already there |
| `Outcomes.OutcomeKnown` | internal/assessment/publication.go:122-160 | a handle that passes a whole check knows the durable terminal record and has chosen its direction, so no call can start anew |
| `Transactions.CrashKeepsConsistent` | internal/assessment/publication_storage.go:306-356 | losing power in a consistent disk leaves a consistent disk whose phase names its image, with the marker gone only beside a terminal record |
| `Transactions.StrictCrashResolvable` | internal/assessment/interrupted_recovery_observe.go:73-276 | strict evidence is accepted in some direction iff the record directory holds nothing staged and the replacement differs from the original |
| `Transactions.OnlyReverseStrands` | internal/assessment/interrupted_recovery_observe.go:341-377 | in any run the only evidence that no direction accepts is a reverse record beside a file that is neither the recorded forward file nor the recorded candidate |
| `Transactions.StrictCrashDirections` | internal/assessment/interrupted_recovery_observe.go:341-377 | strict evidence is taken forward exactly when the replacement is in place beside a forward_prepared, forward_published or forward_completed record, and in reverse exactly when the original is in place or the replacement beside a forward_prepared, forward_published or reverse_prepared record; the request gets that image |
| `Transactions.GrantedExactly` | internal/assessment/interrupted_recovery_observe.go:73-377 | whatever the evidence, a request is granted an image and a record exactly when the marker and a valid record of the request are there, nothing is staged beside it, and the record identifies the file that is in place as that image |
| `PublicationSteps.ReverseWindowExact` | internal/assessment/publication_storage.go:306-356 | once a reverse record is durable, every crash is resolvable iff every file a crash could bring back is the recorded forward file |
| `PublicationSteps.ForwardPreparedWritable` | internal/assessment/publication_storage.go:314-334 | the forward intent is a valid record beside every file a crash could show |
| `PublicationSteps.ReversePreparedWritable` | internal/assessment/publication_storage.go:314-334 | the reverse intent is a valid record beside every file a crash could show, under exactly the window condition in careful runs |
| `PublicationSteps.RenameReconcilable` | internal/assessment/publication_storage.go:377-462 | an attempted rename, whether or not it happened, can always be reconciled when no operation fails |
| `Custody.Locate` | internal/assessment/publication_storage.go:377-420 | the name denotes the staged inode or the prior one; which of the two is decided from the directory alone |
| `Custody.CheckPins` | internal/assessment/recovery_write.go:86-130 | the check succeeds exactly when every pin is where it was, up to failing operations |
| `Publications.Publication.ReconcileImage` | internal/assessment/publication_storage.go:377-462 | published means the name denotes the staged inode, unpublished that it still denotes the prior one, and the promoted view is intact |
| `Publications.Publication.Reconcile` | internal/assessment/publication_storage.go:361-373 | the handle takes the candidate over exactly when the directory shows it, and is unchanged on any error |
| `Publications.Publication.ReconcileJournal` | internal/assessment/durable_publication_storage.go:172-184 | the same for an offered record |
| `Publications.Publication.WriteRecord` | internal/assessment/durable_publication_storage.go:188-225 | every record handed over is valid and fits the direction; success makes it the only possible record after a crash |
| `Publications.Publication.Publish` | internal/assessment/publication_storage.go:306-356 | success leaves the new image, flushed, as the only possible one; every failure keeps the invariants of the handle |
| `Publications.Publication.RemovePending` | internal/assessment/publication_storage.go:464-496 | the marker is removed only beside a decided terminal record, and success makes the removal durable |
| `Publications.Publication.Apply` | internal/assessment/publication.go:122-135 | success leaves the after-image durable with the forward identity recorded; a second call is refused with nothing changed |
| `Publications.Publication.Restore` | internal/assessment/publication.go:146-194 | success concludes the reverse direction, a forward direction is refused, and a terminal record is never replaced |
| `Publications.Publication.Finish` | internal/assessment/durable_publication.go:74-107 | success concludes the forward direction exactly when the after-image is in place, and an invalid call latches no direction |
| `Publications.Publication.Close` | internal/assessment/publication.go:209-263 | no published name changes, unpublished stages are swept, every descriptor is closed exactly once, and success means finished with no failure |
| `Completion.Release` | internal/assessment/publication.go:209-263 | detached and pinned descriptors partition the open ones and each is closed exactly once, failed closes included |
| `Completion.Sweep` | internal/filepublish/stage.go:185-200 | every unpublished stage's name is gone when no operation fails, and published names never change |
| `Completion.ConcludedImage` | internal/assessment/publication.go:146-194 | after a concluded direction every crash shows no marker, the same record and the image of that direction |
| `Handles.AdoptKept` | internal/assessment/publication_storage.go:440-462 | taking a candidate over keeps the whole handle invariant, the descriptor partition included |
| `Handles.AcceptKept` | internal/assessment/durable_publication_storage.go:172-184 | taking an offered record over keeps the whole handle invariant |
| `Handles.CustodyMoved` | internal/assessment/publication_storage.go:255-262 | moving one descriptor between pins, detached and closed keeps each descriptor in exactly one place |
| `StageRetention.RetainStage` | internal/assessment/publication_storage.go:264-304 | a retained stage is pinned under a name no other pin has and holds exactly the flushed content; a refused one leaves nothing pinned |
| `Staging.Prepare` | internal/filepublish/stage.go:42-118 | a prepared stage is a fresh, flushed sibling with exactly the requested bytes; no published name changes at any moment |
| `Opening.BeginKept` | internal/assessment/publication_storage.go:21-120 | a freshly opened handle satisfies the invariant, is settled, and may write the prepared record |
| `Opening.RecoveryKept` | internal/assessment/interrupted_recovery.go:123-140 | a handle rebuilt from accepted evidence satisfies the invariant, and the reverse window is open when one active file is possible |
| `TransitionPlans.Index` | internal/installation/storage.go:119-135 | record rows are indexed unless a path repeats or is not a selected one |
| `TransitionPlans.Matching` | internal/installation/reference.go:80-104 | a before-image is matched iff the qualified predecessor knows it or one of its historical version markers equals it |
| `TransitionPlans.Preserved` | internal/installation/recovery.go:207-241 | the four refusing cases together are exactly the rows whose file the record does not account for |
| `TransitionPlans.Classify` | internal/installation/recovery.go:221-270 | an accounted row gets the one move, with its payload, that brings its file to the image its purpose is for: the original for a rollback and a backward recovery, the target for a repetition and a forward recovery; any other is left alone |
| `TransitionPlans.PurposesByRecord` | internal/installation/recovery.go:55-66 | a finished forward installation may be repeated, rolled back or cleaned up forward, a finished reversal only cleaned up, and an unfinished one recovered in either direction |
| `TransitionPlans.PlanRow` | internal/installation/recovery.go:154-273 | a row is refused iff its record, target, baseline or saved copy disagrees |
| `TransitionPlans.BuildPlan` | internal/installation/recovery.go:48-331 | the plan is refused iff the evidence is unqualified, and no row is blocked iff the record accounts for every managed file; every other managed row is moved to the image of its purpose |
| `TransitionPlans.OnlyOwnedMoved` | internal/installation/recovery.go:449-458 | a moved row's file is the recorded original, the last observed image, or the staged one: the same inode with the same content, up to its change time |
| `TransitionPlans.DirectionFree` | internal/installation/recovery.go:207-241 | which rows are blocked does not depend on the direction asked for |
| `TransitionRows.EveryCrashResumes` | internal/installation/recovery.go:207-241 | every power loss in a state can be planned again iff the record accounts for everything each managed row may show |
| `TransitionRows.LegalSafe` | internal/installation/transaction.go:236-392 | at every state of a run the reviewed images are kept and each name shows what it could show at the start or what the plan asked for |
| `TransitionRows.LegalResumes` | internal/installation/recovery.go:207-241 | every power loss within a run, and after it completed, can be planned again when no row strands or lingers |
| `TransitionRows.StrandedBlocked` | internal/installation/recovery.go:219-220 | in its window a stranding move may show a file that the record does not account for |
| `TransitionRows.CommittedBlocked` | internal/installation/recovery.go:219-236 | a committed record accounts for nothing but the file it observed, so a lost rename blocks the row |
| `TransitionRuns.Installation.ApplyRow` | internal/installation/transaction.go:519-579 | every power loss during the steps of one row lies between its recorded intent and its recorded result; success records what is really there, with its directory flushed |
| `TransitionRuns.Installation.ObserveRetained` | internal/installation/transaction.go:427-447 | every retained managed row is at the requested image and recorded as observed, or the run stops; nothing is flushed |
| `TransitionRuns.Installation.Complete` | internal/installation/transaction.go:236-392 | from any names in doubt: every later state is safe, all of them can be planned again unless a row strands or lingers, a completed run has met one that cannot when one does, and it completes iff no operation and no health check fails, with every managed row at the requested image under a committed record |
| `TransitionRuns.InsecureVisited` | internal/installation/recovery.go:219-236 | a completed run in which a row strands or lingers has passed through a state that no new plan accounts for |
| `TransitionResume.Transition` | internal/installation/transaction.go:55-392 | a transition starts iff its plan is qualified and unblocked, and then completes iff nothing fails, with every managed file at its original image after a rollback or a backward recovery and at its target otherwise; at every power loss the evidence is still qualified in every allowed direction, and all crashes of a completed run can be planned again iff those possible at its start could and no row strands or lingers |
| `TransitionResume.StillQualified` | internal/installation/recovery.go:151-206 | no power loss of a run costs the qualification of the evidence |
| `TransitionResume.FlushedSecure` | internal/installation/transaction.go:427-447 | when the managed directories are flushed before the plan no row lingers, and only moves that strand the visible file are left |
| `TransitionResume.UnflushedLingers` | internal/installation/transaction.go:427-447 | a row killed between its rename and the flush, carried on, lingers iff no moved row shares its directory |
| `TransitionResume.FreshReady` | internal/installation/transaction.go:263-272 | a fresh installation may start, and from flushed directories it is secure iff it removes nothing |
| `TransitionResume.RollbackStrands` | internal/installation/recovery.go:244-256 | a rollback strands exactly the rows whose old file the forward run removed |
| `TransitionResume.UnrecordedStrands` | internal/installation/recovery.go:209-219 | a row stopped between naming and recording its staged file is stranded by turning it back, not by carrying it on |
| `TransitionWitnesses.LostRename` | internal/installation/storage.go:219-228 | a qualified recovery that strands nothing and completes, after which one power loss is blocked in every direction because an earlier rename was never flushed |
| `TransitionWitnesses.FlushedFirst` | internal/installation/storage.go:226-228 | the same recovery is secure once the directory is flushed |
| `RetentionRows.Arrange` | internal/installation/retention_prune.go:37-137 | the removal order exists iff the selection is recognized |
| `RetentionRows.RowsUnique` | internal/installation/retention_prune.go:138-160 | a selection has one removal order, so comparing with a recomputed one recognizes a saved list |
| `RetentionRows.RowsOrdered` | internal/installation/retention_prune.go:37-136 | the saved assets in byte order, then hold.json, retention.json and installation.manifest; files before directories, longer directory paths before shorter and equal ones in falling byte order, every entry before the directory that holds it, the journal last; every private file and directory of the selection once and nothing else |
| `RetentionRows.Sort` | internal/installation/retention_prune.go:78-112 | the result is the sorted listing of the same names |
| `RetentionPrune.ReadProgress` | internal/installation/retention_prune.go:138-160 | accepted iff it is a progress value this engine writes |
| `RetentionPrune.NextEmpty` | internal/installation/retention_prune.go:215-226 | a directory is empty when its turn comes |
| `RetentionPrune.RemoveRow` | internal/installation/retention_prune.go:203-275 | removes only the recorded entry of the announced row and makes its absence durable; every moment stays sound |
| `RetentionPrune.PruneRows` | internal/installation/retention_prune.go:202-286 | removes all remaining rows in order and terminates; on success the cleanup is durably complete and the tally counts exactly what was there |
| `RetentionPrune.ExecutePrune` | internal/installation/retention_prune.go:165-292 | only rows disappear, every crash leaves sound evidence, and without failure or refusal the cleanup completes |
| `RetentionPrune.CrashSound` | internal/installation/retention_prune.go:165-292 | losing any of the unflushed removals leaves evidence that the saved progress covers |
| `RetentionResume.ValidateRemaining` | internal/installation/retention_resume.go:16-99 | accepts iff each absent row is durably or announcedly removed, each present one is the recorded entry, and nothing unknown is left |
| `RetentionResume.CrashAccepted` | internal/installation/retention_resume.go:16-54 | whatever a crash undoes, the reader and the validator accept the evidence, and the rows before the next one are absent |
| `RetentionResume.Resume` | internal/installation/retention_prune.go:165-292 | a cleanup interrupted at any moment and resumed without another failure is durably complete |
| `ConfigText.RewriteEdits` | internal/config/write.go:162-199 | rewriting bytes is editing lines: all rows of the key are replaced, or one is appended to the last line |
| `ConfigFiles.RewriteConfig` | internal/config/write.go:162-199 | the loop computes the rewriting, and fails iff the result exceeds the limit |
| `ConfigFiles.GetBytes` | internal/config/readers.go:58-74 | the loop returns the normalized value of the first line with the key, or the fallback |
| `ConfigFiles.NormalizeValue` | internal/config/readers.go:76-98 | the result is the quoted text or the text before a comment, trimmed, and the fallback when empty |
| `ConfigLaws.QuotedText` | internal/config/write.go:201-203 | reading undoes the quoting of a value without quote, NUL or newline |
| `ConfigLaws.QuotedUntil` | internal/config/readers.go:76-85 | a quoted value reads as what stands before the next quote, whatever follows it, or as the rest when there is none |
| `ConfigLaws.UnquotedText` | internal/config/readers.go:86-94 | any other value reads as exactly one part of itself: it neither begins nor ends with a blank, holds no '#' after a blank, and is surrounded only by blanks and perhaps a '#' comment behind them |
| `ConfigLaws.NulDropped` | internal/config/readers.go:77-79 | behind the first visible byte a NUL counts for nothing |
| `ConfigLaws.ReadBack` | internal/config/readers.go:58-98 | a written value is read back iff it is not empty and there was a row to replace or a terminated end to append to |
| `ConfigLaws.ReadBackAnyKey` | internal/config/readers.go:58-98 | the same in one direction for keys that hold colons |
| `ConfigLaws.OtherKeys` | internal/config/write.go:162-199 | every other colon-free key that, with its colon, does not begin the written key reads as before |
| `ConfigLaws.OtherKeysExact` | internal/config/write.go:162-199 | after a rewrite of terminated data any other colon-free key reads the rest of the written row iff it begins the written key up to a colon and its first row was absent or a row of the written key; otherwise it reads as before |
| `ConfigLaws.OtherKeysUnchanged` | internal/config/readers.go:58-98 | it reads as before under every fallback iff the written row does not answer for it or shows the same text |
| `ConfigLaws.SharedRow` | internal/config/write.go:162-199 | a key in the excluded family reads the appended row when nothing else answered for it |
| `ConfigLaws.OtherKeyChanges` | internal/config/write.go:162-199 | a concrete pair of keys for which the unrestricted law fails |
| `EditPlans.NewEditPlan` | internal/config/editplan.go:41-93 | refused iff the input or the selection is unacceptable; otherwise the plan stands for the input |
| `EditPlans.EditPlan.Get` | internal/config/editplan.go:106-127 | equals reading the rendered bytes for every selected key, and is refused for any other |
| `EditPlans.EditPlan.Set` | internal/config/editplan.go:131-187 | refused, with nothing changed, iff the key or value is unacceptable or the rewriting exceeds the limit; otherwise the plan stands for the rewriting |
| `EditPlans.EditPlan.Render` | internal/config/editplan.go:191-233 | renders exactly what the plan stands for, at the tracked size |
| `EditPlans.Batch` | internal/config/editplan.go:41-233 | a batch of edits renders to the folded simple rewritings |
| `EditPlanSteps.IndexedFirst` | internal/config/editplan.go:106-127 | the index gives the value that a reader of the bytes would see |
| `EditPlanSteps.EditedSize` | internal/config/editplan.go:131-187 | the size after an edit follows from the counted rows alone |
| `BudgetRecords.HasActive` | internal/budget/history.go:259-272 | true iff some row is active |
| `BudgetRecords.HasUnresolved` | internal/budget/history.go:276-289 | true iff some row is active or has an outcome that is still open |
| `BudgetRecords.GeneratedValid` | internal/budget/lifecycle.go:88-95 | every generated identifier is a valid one |
| `BudgetRecords.IdentifierShape` | internal/budget/config.go:87-101 | a valid identifier is one short word that names no other directory and looks like no option |
| `BudgetRecords.TotalsPositive` | internal/budget/plan.go:61-99 | nothing that an accepted history counts is negative |
| `BudgetRecords.UnresolvedActive` | internal/budget/history.go:259-289 | on every ledger grown from an empty one it is equivalent to an active row |
| `BudgetPlans.MakePlan` | internal/budget/plan.go:14-135 | no blocker iff the run is admissible, each blocker exactly for its reason, with exact remainders; undecided iff an owner cannot be observed |
| `BudgetPlans.ConcernsExact` | internal/budget/plan.go:100-133 | each concern about costs is raised exactly by a harness without estimates, an unreported or an unknown cost of the session, or a known cost that reaches the threshold |
| `BudgetPlans.ConcernsClear` | internal/budget/plan.go:100-133 | there is no concern iff no threshold is set, or every row of the session is completed with a known cost and their sum stays below it |
| `BudgetPlans.FirstRun` | internal/budget/plan.go:14-99 | a valid configuration that is switched on admits a first run |
| `BudgetPlans.Tally` | internal/budget/plan.go:61-99 | one pass computes the counts, charges and costs of the session |
| `BudgetLedger.Ledger.Admit` | internal/budget/lifecycle.go:34-107 | granted iff the request is admissible at the unlocked check and again under the lock, its identifier is new and no write fails; then it appends one running row of the caller with the next attempt number, which reserves the least of the timeout and what the session has left |
| `BudgetLedger.Ledger.PublishPID` | internal/budget/lifecycle.go:152-181 | records the process of the caller's active row once and never replaces it; succeeds iff there is such a row, without another process, and no write fails |
| `BudgetLedger.Ledger.Finalize` | internal/budget/lifecycle.go:185-281 | patches only the caller's active row; it stays reserved iff its process may still be there; exactly the reported usage is recorded of a complete report of a run that ended by itself with its exit confirmed, and none otherwise; success is recorded iff it was reported, complete, not failed and confirmed, and any other outcome as reported; every concern about the session's costs becomes a warning; succeeds iff the caller holds such a row, the completion fits it, the other owners can be observed when costs are checked, and no write fails |
| `BudgetLedger.AdmitKeeps` | internal/budget/plan.go:61-99 | an admission keeps the attempt, run, concurrency and time limits |
| `BudgetLedger.PatchKeeps` | internal/budget/lifecycle.go:185-281 | so does every patch of a row, with time conserved up to the overrun |
| `BudgetLedger.Serve` | internal/budget/lifecycle.go:34-281 | any interleaving, with any configuration at each step, loses and rewrites nothing and numbers each task's attempts in order; when the admissions agree on a configuration all its limits hold and session time is conserved |
| `BudgetLedger.NoOverrunWithin` | internal/budget/plan.go:94-96 | without overrun the session limit itself holds |
| `EventLog.RetainedStart` | internal/eventlog/event.go:107-138 | for every chunk size, trims iff terminated rows exceed the maximum, and then at the start of the last rows, half the maximum in number and at least one |
| `EventLog.StartUnique` | internal/eventlog/event.go:107-138 | that start is determined by the log |
| `EventLog.Log.Append` | internal/eventlog/event.go:19-103 | the log stays a whole-row suffix of everything written, within its bound after success; a failed or short write leaves the written part of the row, a failed retention the appended log; succeeds iff no operation fails |
| `EventLog.AppendAll` | internal/eventlog/event.go:19-103 | after any sequence of appends under one maximum the log is within it, whatever it held before, and a whole-row suffix of everything appended |
| `LocalExclude.PartialInert` | internal/assessment/recovery_git.go:213-235 | every prefix of the staged append leaves the active patterns as they were |
| `LocalExclude.FlipActivates` | internal/assessment/recovery_git.go:236-239 | the single-byte change adds exactly the one rule |
| `LocalExclude.RerunActivates` | internal/assessment/recovery_git.go:182-253 | running again after any partial append keeps the original bytes first and ends with the rule active |
| `LocalExclude.Exclude.EnsureIgnored` | internal/assessment/recovery_git.go:182-265 | from any harmless state, every content a crash could show has the base file's patterns with at most the rule added; success means the rule is active and flushed, and comes iff no operation fails and the rule is there or fits the size limit |
| `LocalExclude.FlipUnflushed` | internal/assessment/recovery_git.go:224-236 | flipping the byte before the append is flushed could leave another pattern active, so the flush is needed |
| `Checksum.Checksum` | internal/evalcmd/files.go:17-41 | the register is the complement of the remainder of the data and its length octets, times x^32, divided by the generator |
| `Checksum.RemainderUnique` | internal/evalcmd/files.go:17-41 | only one polynomial below degree 32 is congruent to a given one |
| `Checksum.ChecksumUnique` | internal/evalcmd/files.go:17-41 | the checksum is determined by the division alone |
| `Checksum.LengthMinimal` | internal/evalcmd/files.go:37-39 | the length octets are the shortest little-endian form of the length |
| `Checksum.OctetBits` | internal/evalcmd/files.go:19-28 | the bits that enter the register are the binary digits of the octet |
| `Checksum.GeneratorOctets` | internal/evalcmd/files.go:23-24 | the generator is x^32 and the polynomial whose octets are 0x04c11db7 |
| `RecoveryTree.Walk` | internal/assessment/recovery_set.go:119-193 | the verdict is the worst finding while the shared entry total stays within its limit and the manifest within the depth limit; beyond the limit it is the limit, or an error that the tree holds |
| `RecoveryTree.WorstMatches` | internal/assessment/recovery_set.go:112-193 | no finding at all iff the tree is exactly the manifest's |
| `RecoveryTree.WorstTame` | internal/assessment/recovery_set.go:112-193 | at most incomplete iff every entry reached is observed, of an acceptable kind and within the limits: changed, unknown and missing files are no more than incomplete, an unsafe one always is |
| `RecoveryTree.WorstSpared` | internal/assessment/recovery_set.go:107-193 | an error outranks a limit and a limit every other finding, and each is reported iff some observation on the way ended in it |
| `RecoveryTree.CleanExactly` | internal/assessment/recovery_set.go:77-193 | a clean verdict iff the tree is exactly the manifest's, within its limits |
| `RecoveryTree.BuildTrie` | internal/assessment/recovery_set.go:77-91 | the trie has a leaf exactly at each listed path, with its reference, and lies within the depth limit when every path has at most four parts |
| `RecoveryTree.Inspect` | internal/assessment/recovery_set.go:77-105 | for an accepted manifest: clean iff the tree is exactly the manifest's within the entry limit, and otherwise the highest-priority finding; once the total would exceed the limit, the limit, or an error that the tree holds |

## Left out

- Publication without a journal, the older form that the durable one supersedes.
- Ancestor and directory pins beyond a version number per directory, repeated evidence reads within one
  step, and the device, user, group and type fields of identities: they are checked alike everywhere.
- JSON text, size bounds and the 64-record bound of the record directory.
- Context cancellation: it is one more way for a step to fail.
- The fields of `publicationState` are one value `h` of the handle, and pins are an unordered map, so
  the order in which descriptors are closed is not modelled. The flag that only selects the message of a failed close is left out.
- Descriptors of a begin that fails before the record slot exists.
- The file to be replaced is assumed flushed when a publication begins, and record files are never unlinked.
- Lifecycles.Run: the resolvability of every crash is stated for runs that take the two cares, because it fails without either (Witnesses.KilledBeforeFlush, Witnesses.FailedPublishedWrite, Witnesses.FailedFlush); for other runs Transactions.OnlyReverseStrands and PublicationSteps.ReverseWindowExact give the exact exceptions.
- Installation: how a fresh plan is built and authenticated, health checks and the candidate's proof (arbitrary
  answers), the pending marker, check records, staged trees, legacy state issues, and the order of the
  actions by path.
- Installation images are of regular files; their identity is an inode, a change time and one value for
  everything else.
- TransitionRuns.Installation.Complete: the journal's replacement is one atomic step that a crash does or undoes, because its own staging repeats what the publication model shows; a flush settles all names of one directory, the creation of directories and the marker's own flush of `.factory` (which settles the rows beside it) are not modelled.
- TransitionResume.Transition: that a run which strands or lingers met a crash that cannot be planned again is stated under `Definite`, because whether a file known only by a staged identity is accounted for depends on which inode the next stage gets; one flush per managed directory before the plan implies it (TransitionResume.FlushedSecure).
- TransitionResume.FreshReady: the journal of a fresh installation exists only from its first save on, so a run from it has no earlier states (`first` is empty); a crash before that save leaves a preparation, whose abandonment is not part of this model.
- The fixed tables of roles and catalogs: the model holds for any list of distinct, prefix-free paths.
- Retention: identifier, role and canonical-metadata checks are one answer `known`; the staged sibling of
  the progress file and its expected image; the custody of the directory tree.
- Configuration: publishing the edited file, `Transform`, and 64-bit overflow of sizes; row pointers are indices.
- Budget: seconds and costs are reals without the source's finiteness bounds; the state file's own
  replacement, its size bound (one more failing write), read retries, reports, and the filtering of message text, which is a kind of concern here.
- Event log: the temporary file and the detection of concurrent change; entries end in a newline.
- Checksum: the decimal rendering of the result.
- Recovery tree: pins and rechecks of the directories walked, and the manifest parser.
- Local exclusion: Git's own answers before and after, and the flush of the directory that holds the file.
