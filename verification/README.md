# MetaList: a verified model

MetaList keeps a person's outline of notes in encrypted SQLite databases, one pair (notes and files) per
namespace. This project models the parts of it whose correctness is hard to see by reading, and proves what
they promise for every input, every run or every reachable state:

1. **The rollback journal** around a change to the two live databases. `LiveRecovery` is a machine with one step
   for each call that reaches the disk; a power loss or the death of the process may follow any step, those of
   recovery included. `Durability` says which names and contents may survive. `RecoverySafety` holds the
   invariant, `RecoveryTheorems` the promises over all runs, `RecoveryLimits` the runs that break them and the
   exact conditions. `LivePages` says what a reader sees, page by page. `LiveChange` is the class itself, each
   of whose disk calls is proved to be a step of that machine. `Ownership` puts several processes and threads
   around the journal, `Deadlock` says when they can wait for each other, and `RequestTransaction` is the
   request that opens, commits and undoes changes.
2. **Migrations against the encryption audit.** The audit lets old databases pass on the promise that the
   migrations will repair them. `EncryptionAudit` states what it lets through, `StoredForms` that this is what
   the program stores, `StoredReady` that it can be migrated; `AuditRun` and `NamespaceAudit` are the audit as
   it runs, `MigrationSteps` says what each of the ten steps needs and leaves, the `Migration*` modules are the
   steps, `MigrationConservation` is what a run leaves of every stored text, and
   `MigrationRun.AuditMigrateAudit` joins the two halves.
3. **Importing a legacy outline** (`Outline`, `ImportTree`, `Conversion`), the independent analyzer of sibling
   links (`LinkAnalysis`, `TreeSnapshot`) and its tree printer (`TreePrinter`, `Preorder`), with the end-to-end
   round trip in `Conversion.ConvertThenInspect`; the tag bar (`TagBar`, `TagGrammar`, `LatexMarks`) and the
   rule lines (`RuleChain`).
4. **Shared-prefix warm-up** of model calls (`Scheduling`) and the pool that runs the cases (`CaseQueue`).
5. **Smaller components**: the identity-keyed property registry (`ContractRegistry`), the two checks of
   exception handlers (`HandlerChecks`), Base64 and the encrypted log (`Base64`, `EncryptedLog`), the body
   relays of the HTTPS listener (`BodyRelay`), the stack traversals of notes (`Worklist`) and the two passes
   over style and class attributes (`StyleFilter`, `StyleText`).

Parts that change things step by step in the program (the journal, the migrations, the audit, the importer,
the adapter, the registry, the log, the request) are classes and loops here, each proved against a
specification; the properties are then proved of the specification.

## What is assumed

- *Power loss.* A directory entry survives as its state allows: contents only after fsync, names only after the
  directory, or the file on systems where that suffices (`Config.names`), was synced. A copy made by SQLite's
  backup is a torn copy, then the finished one, then an fsync. A database file is a map of pages with a log of
  newer pages over it. The `-shm` file carries no data and is left out. The digest of an image may be any
  function. The methods of `LiveChange` meet no I/O error other than power loss; the machine lets a commit be
  abandoned at any of its steps. What is written outside a change (`OrdinaryWrite`) counts as settled on disk,
  and a log is only ever written beside its database.
- *Killed processes.* A kill settles nothing: the next process sees the disk as it was left, and a power loss may
  still undo what was not synced. A process may be killed after any step; for the three gaps between a rename and
  its syncs `Config.kills` says whether it may be killed there too. `Config.settles` is a remedy that the program
  does not have: recovery first syncs the journal directory and the directory that holds it. `LiveChange` is the
  program, without it, for kills outside those gaps and names made durable by fsync.
- *Encryption.* AES-GCM is any pair of functions in which opening undoes sealing, the tag has 16 bytes and only
  the empty text has an empty ciphertext. Nonces and uuid4 identifiers are given in advance as sequences of
  different values, new to the database. `json.loads` and `json.dumps` are any pair in which loading undoes
  dumping. Primary keys are unique. Of the JSON values that are read, entries are an object's keys and texts.
- *Python.* Texts are sequences of characters. Case folding is a parameter that leaves the property names of the
  style policy alone and takes `LaTeX` and `latex` for the same. The order in which a lock or a semaphore serves
  its waiters is left open. Conditions of statements in exception handlers may come out either way, and any call
  may raise.

## Where code and promise differ

- A database file that a change creates can be lost after a successful commit, on a file system where fsync of a
  file does not also make its name durable, because commit does not sync the parent directory before it writes
  the marker (`RecoveryLimits.CreatedFileLost`); one that a change removes can come back (`RemovedFileReturns`);
  and on such file systems the ready manifest can outlive the name of an image, so that recovery raises at every
  start (`ImageNameLost`).
- A process killed between two calls that belong together leaves work that the next process does not make up for.
  Killed after a finished journal is renamed and before its parent is synced, it lets the next process delete the
  marker first; if power is then lost the journal returns without it and a committed change is undone
  (`RecoveryLimits.CommittedChangeUndone`), or with an image missing and recovery raises at every start
  (`HalfDeletedJournalRefused`). Killed after `ready.json` is renamed and before journal and parent are synced,
  it lets the next process restore from a journal that a power loss can still take away, and a torn copy stays
  (`UnsyncedJournalUsed`). This last run, and with it the part of the condition that is about these two gaps,
  rests on the assumption that a copy can be found half made after a power loss; a SQLite that makes its backup
  in one transaction would not show it.
- `ExactlyWhenAllOrNothing` and `ExactlyWhenNeverStuck` give the exact conditions for all of these, over all runs
  with power losses and kills. To sync the journal directory and its parent before recovery is enough against the
  kills.
- A request over two databases is not all-or-nothing: if the second commit raises, the first stays
  (`RequestTransaction.SecondCommitCanFail`). `RequestIsAllOrNone` says for which failures, and
  `SureForOneDatabase` that a request is safe from all of them exactly if it changes at most one database.
- The audit accepts, and the migrations refuse, a client-state value `''` with nonce and tag
  (`MigrationMeaning.EmptyCiphertextIsStuck`) and one that is not text (`DeferredNumberIsStuck`).
  `AuditMigrateAudit` shows that being readable is exactly what is missing.
- The analyzer does not notice `prev` links that disagree with `next` (`TreeSnapshot.PrevIsNotChecked`). In a
  group that it accepts they agree exactly if every row with a `prev` is the `next` of the row it names
  (`PrevMatchesExactly`): one look-up per row is all that it lacks.
- The JavaScript handler check accepts an unbraced `if` or loop over a throw under an allow-listed guard
  (`HandlerChecks.UnbracedBranchIsUnsafe`).
- The JavaScript check refuses a catch that throws in both branches of an if with a braced else
  (`HandlerChecks.BracedElseIsRefused`).
- Neither handler check looks for jumps. In a loop, `if c: continue` before a `raise` is accepted and need not
  raise (`HandlerChecks.JumpIsUnsafe`, `JumpIsUnsafeInCatch`). An accepted handler does what the check is for
  exactly if no break or continue out of it can be reached (`AcceptedPythonHandlerRaises`,
  `AcceptedCatchIsSafe`).
- Two requests that open the same two databases in opposite orders can wait for each other for ever
  (`Deadlock.OppositeOrdersDeadlock`, `DeadlockLasts`). `NeverDeadlockedExactly` gives the exact condition on the
  orders in which databases are opened.
- Appending a token to a tag bar adds exactly that token only if the bar leaves no comment open and no bracket
  run that the token would close (`TagBar.AppendAddsOneToken`, both ways). So a note with LaTeX can miss one of
  its two marks; `LatexMarks.LatexNotesAreMarked` says exactly when.

## Model

| member | source | states |
|---|---|---|
| RecoveryTheorems.SoundIsAllOrNothing | app/db/live_recovery.py:105-136 | Over every run, with power losses and killed processes anywhere, any number of them inside recovery, and changes that begin over the journal of a dead one: whenever no change or recovery is under way, both databases are on disk and are exactly the original pair (absent ones absent) if the marker was never written, exactly the written pair if it was; this and the promises below under the condition of the next row |
| RecoveryLimits.ExactlyWhenAllOrNothing | app/db/live_recovery.py:211-222 | That promise holds exactly if a created live file has its name made durable by fsync, no live file is removed, and no process is killed between a rename and its syncs (or recovery first makes up for that) |
| RecoveryTheorems.SoundNeverFails | app/db/live_recovery.py:113-123 | With durable names, no removed files and kills outside the gaps, recovery never raises: every ready manifest it meets validates, and the rename target is free |
| RecoveryLimits.ExactlyWhenNeverStuck | app/db/live_recovery.py:187-209 | All-or-nothing together with never raising holds exactly when fsync makes names durable, no live file is removed, and no process is killed between a rename and its syncs (or recovery first makes up for that) |
| RecoveryTheorems.MarkerDecides | app/db/live_recovery.py:211-222 | Only a commit writes a marker; a durable one is found wherever its journal is found, through crashes, kills and recoveries; and the pair owed stays the same until a change begins, with exactly that pair |
| RecoveryTheorems.JournalNeverReturns | app/db/live_recovery.py:132-136 | Once deletion has begun no power loss brings the journal back under its own name, whoever deletes it, and the name it is renamed to is free |
| RecoveryTheorems.RecoveryAdvances | app/db/live_recovery.py:105-136 | Every step of recovery lowers a rank, raises nothing and leaves the owed pair alone |
| RecoveryTheorems.CrashRecovers | app/db/live_recovery.py:139-148 | From every state that a power loss or a kill leaves, the steps of recovery alone reach its end with the pair that the marker decides, be it run at startup or by a change about to begin, which then starts from that pair |
| RecoverySafety.StepKeeps | app/db/live_recovery.py:105-236 | Every step of the machine, of a change, a commit, a rollback, a recovery, a kill or a power loss, keeps the invariant |
| RecoverySafety.PowerLossKeeps | app/db/live_recovery.py:1-6 | A power loss after any step leaves a state from which the owed pair can still be had |
| RecoverySafety.ValidImagesAreGood | app/db/live_recovery.py:118-123 | A manifest that validates records images of the original pair |
| LivePages.LogWriteIsRead | app/db/live_recovery.py:65-79 | A page written to the log is read back at once; every other page is read from the main file, and the other database reads as before |
| LivePages.MainWriteIsRead | app/db/live_recovery.py:65-79 | After a write to the main file a page that the log holds still reads as the log has it, any other as written |
| LivePages.RemovalIsRead | app/db/live_recovery.py:128-130 | Without the log the main file is read, and without both files there is no database |
| LivePages.ImageHoldsWhatIsRead | app/db/live_recovery.py:65-79 | The finished image of a database holds each page as a reader sees it, the log included |
| LivePages.UnfitJournalIsRefused | app/db/live_recovery.py:113-123 | Recovery raises, touching nothing, exactly if version, number of entries, a name, the presence of an image or a digest does not fit, and otherwise restores |
| LivePages.OtherJournalIsRetired | app/db/live_recovery.py:113-133 | Without a ready manifest, or with the marker, recovery restores nothing |
| RecoveryLimits.CreatedFileLost | app/db/live_recovery.py:211-222 | Without durable names a created database file is lost after a durable marker: a run that breaks the promise |
| RecoveryLimits.RemovedFileReturns | app/db/live_recovery.py:211-222 | A database file removed by the change comes back after a durable marker: a run that breaks the promise |
| RecoveryLimits.ImageNameLost | app/db/live_recovery.py:187-209 | Without durable names the manifest can outlive an image, and recovery raises |
| RecoveryLimits.CommittedChangeUndone | app/db/live_recovery.py:107-136 | A process killed between renaming a finished journal and syncing its parent, a successor that deletes the marker first, a power loss: a run in which a committed change is undone |
| RecoveryLimits.HalfDeletedJournalRefused | app/db/live_recovery.py:107-136 | The same with an image deleted first: a run after which recovery raises |
| RecoveryLimits.UnsyncedJournalUsed | app/db/live_recovery.py:206-208 | A process killed between publishing the manifest and syncing journal and parent, a successor that restores from it, a power loss: a run that leaves a torn copy and no journal |
| LiveChange.CutAnywhere | app/db/live_recovery.py:1-6 | Cut the methods below after any disk call, by losing power in any way or by killing the process outside the gaps: the next recovery, at startup or before a change, ends with both databases as they were, or both as written, as the marker decides |
| LiveChange.KillIsPossible | app/db/live_recovery.py:1-6 | Those kills can happen: after each call that is not in a gap the process may be killed |
| LiveChange.LiveDatabaseRecovery.RecoverLocked | app/db/live_recovery.py:105-136 | Each disk call of recovery is a step of the machine; it ends without raising, with the journal gone and the owed pair on disk, whoever left the journal and whether at startup, before a change or after one |
| LiveChange.LiveDatabaseRecovery.RecoverPendingChange | app/db/live_recovery.py:139-148 | Touches nothing while this process has the change open; otherwise ends with the owed pair on disk and no journal |
| LiveChange.LiveDatabaseRecovery.CopyBack | app/db/live_recovery.py:65-79 | Restoring an image is the torn copy, the finished copy and the fsync of the machine |
| LiveChange.LiveDatabaseRecovery.RemoveTarget | app/db/live_recovery.py:128-130 | A target that did not exist goes together with its log |
| LiveChange.LiveDatabaseRecovery.RestoreTargets | app/db/live_recovery.py:124-131 | Both targets are put back as the manifest records them, then their directory is synced |
| LiveChange.LiveDatabaseRecovery.RemoveFinished | app/db/live_recovery.py:107-109 | Deleting a finished journal, in any order of its entries, ends and touches no live file |
| LiveChange.LiveDatabaseRecovery.RetireJournal | app/db/live_recovery.py:132-136 | Rename, sync, delete, sync: the journal is gone and both databases keep their values |
| LiveChange.LiveDatabaseRecovery.CopyImage | app/db/live_recovery.py:65-79 | Taking an image is a run of machine steps that changes no live file |
| LiveChange.LiveDatabaseRecovery.SnapshotTarget | app/db/live_recovery.py:192-201 | The entry records whether the target existed and the digest of its image |
| LiveChange.LiveDatabaseRecovery.WriteManifest | app/db/live_recovery.py:202-208 | Writing, flushing, renaming and syncing the manifest opens the change and changes no value |
| LiveChange.LiveDatabaseRecovery.WriteSnapshot | app/db/live_recovery.py:187-209 | The journal of a new change is complete on disk and both databases have the values they had |
| LiveChange.LiveDatabaseRecovery.Begin | app/db/live_recovery.py:165-185 | Raises exactly if the change is already active; otherwise recovers whatever journal a dead owner left, and what rollback owes is the pair that recovery owed |
| LiveChange.LiveDatabaseRecovery.Write | app/db/live_recovery.py:240-247 | One write of the body changes one file of one database |
| LiveChange.LiveDatabaseRecovery.SyncLive | app/db/live_recovery.py:213-217 | The four live files are flushed in order before the marker |
| LiveChange.LiveDatabaseRecovery.Mark | app/db/live_recovery.py:218-221 | After the marker and its syncs recovery keeps what was written |
| LiveChange.LiveDatabaseRecovery.Commit | app/db/live_recovery.py:211-222 | Both databases are on disk as the change left them, the marker was durable, and the journal is gone |
| LiveChange.LiveDatabaseRecovery.Rollback | app/db/live_recovery.py:224-227 | Both databases are the original pair, or the new one if the marker was already written; a second call changes nothing |
| LiveChange.LiveDatabaseRecovery.Finish | app/db/live_recovery.py:229-236 | Recovery runs, the change is finished and no longer active |
| Ownership.OpenChangeOwnsItsJournal | app/db/live_recovery.py:175-209 | In every interleaving of processes and threads, an open change has its own published journal and nobody else has that database open |
| Ownership.OnlyTheOwnerTouches | app/db/live_recovery.py:139-148 | While a change is open no other thread, process or recovery creates, replaces or removes its journal |
| Ownership.RecoveryMeetsNoOpenChange | app/db/live_recovery.py:143-148 | Recovery under the file lock meets no open change, whatever happened after its look at the disk |
| Ownership.CrashedJournalIsRecovered | app/db/live_recovery.py:139-148 | A free thread that asks for recovery of a journal whose lock is free gets to run it, and the journal goes |
| Ownership.CrashFreesItsLocks | app/db/live_recovery.py:83-102 | A crash leaves the journal and frees its lock, so that the next taker can recover it |
| Ownership.CallTurnsBack | app/db/live_recovery.py:139-148 | A call for a database that this process has open, or a recovery without a journal, ends at once and touches no lock or journal |
| Ownership.CallGoesOn | app/db/live_recovery.py:139-148 | Any other call goes on to the lock of its database |
| Ownership.FailedOpeningReleases | app/db/live_recovery.py:165-185 | An opening that fails gives back both locks and leaves its journal to the next taker |
| Ownership.FinishReleases | app/db/live_recovery.py:229-236 | The end of a change or a recovery gives back both locks; the journal goes unless recovery raised |
| Deadlock.NeverDeadlockedExactly | app/db/live_recovery.py:165-185 | Over every run of any processes and threads, no set of threads ever waits for itself, exactly if the databases asked for while others are open form no cycle |
| Deadlock.OneOrderIsSafe | app/db/live_recovery.py:165-185 | Opening databases in one order is enough |
| Deadlock.OppositeOrdersDeadlock | app/db/live_recovery.py:83-102 | A reachable state in which two processes that open two databases in opposite orders wait for each other |
| Deadlock.DeadlockLasts | app/db/live_recovery.py:83-102 | Whatever else happens, a deadlock stays and its threads do not move until one of its processes dies |
| Deadlock.WaitsExactly | app/db/live_recovery.py:83-102 | A thread waits for someone exactly as long as it cannot get the lock it asks for |
| RequestTransaction.RequestTransaction.Finish | app/db/session.py:151-177 | However the request ends, the session is closed, the changes have the outcome below, the callbacks run exactly when it did not succeed, and it returns normally exactly when all commits and the close did |
| RequestTransaction.EveryChangeIsFinished | app/db/session.py:158-177 | Every change is finished; the databases that keep their changes are the first so many begun, all if the request succeeded |
| RequestTransaction.RequestIsAllOrNone | app/db/session.py:162-166 | The databases of a request are kept or undone together exactly unless a commit after the first raises before its marker or one before the last raises after it |
| RequestTransaction.SureForOneDatabase | app/db/session.py:162-166 | Whatever may fail, a request is kept or undone as a whole exactly if it changes at most one database |
| RequestTransaction.SecondCommitCanFail | app/db/session.py:164-166 | A request over two databases that raises and keeps the change to one of them |
| RequestTransaction.RequestTransaction.RunRollbackCallbacks | app/db/session.py:117-125 | Every callback runs once, last registered first, whatever raises, and the error that comes out is the one of the first registered among those that raise |
| RequestTransaction.FirstRaisedIsFirst | app/db/session.py:117-125 | That error is none exactly if no callback raises, and else belongs to the lowest position that raises |
| RequestTransaction.ReversedAt | app/db/session.py:120-125 | The run order is the registration order backwards |
| RequestTransaction.UndoLast | app/db/session.py:120-125 | Running the callback registered last leaves the work of the others as it was |
| RequestTransaction.CommitThenRollback | app/db/live_recovery.py:211-236 | What each way of committing, and the rollback after it, leave of a change: rollback raises only while the change is unfinished |
| RequestTransaction.SecondRollbackIsInert | app/db/live_recovery.py:224-227 | A second rollback changes nothing and raises nothing |
| RequestTransaction.CallbackRaises | app/db/session.py:117-125 | A rollback raises only while its change is unfinished; any other callback whenever it does |
| RequestTransaction.RequestTransaction.RecoverableDatabaseChange | app/db/session.py:129-147 | A database is begun once and has one rollback callback; a change after the first write is refused; a begin that raises leaves nothing behind |
| RequestTransaction.RequestTransaction.CommitAll | app/db/session.py:164-165 | Commits run in the order begun, up to the first that raises |
| RequestTransaction.MarkedArePrefix | app/db/session.py:164-165 | The changes whose marker is written are a prefix in that order |
| RequestTransaction.RequestTransaction.AfterRequestRollback | app/db/session.py:107-110 | A callback is added after those already there |
| EncryptionAudit.ExpectedMainIsAdmits | app/encryption_audit.py:508-545 | The schema resolved for a version equals the actual one exactly if every table has a variant admitted at that version |
| EncryptionAudit.ExpectedFilesIsAdmits | app/encryption_audit.py:915-946 | The same for the files database |
| AuditRun.AuditState.AuditSchema | app/encryption_audit.py:567-605 | Adds no finding exactly when the actual schema is the expected one |
| AuditRun.AuditState.RecordNonce | app/encryption_audit.py:177-197 | A nonce is a finding exactly when an earlier payload has it, and keeps its first owner |
| AuditRun.AuditState.AuditPayloadRow | app/encryption_audit.py:634-707 | A row adds a fatal finding, or any, exactly when it fails the stated condition, with and without deferral, or repeats a nonce |
| AuditRun.AuditState.AuditEncryptedRow | app/encryption_audit.py:672-707 | A row with metadata passes exactly if nonce and tag have their sizes, the value is canonical Base64 or a blob, and the nonce is new |
| AuditRun.AuditState.AuditField | app/encryption_audit.py:710-745 | The rows of one column, with their nonces owned |
| AuditRun.AuditState.AuditPayloads | app/encryption_audit.py:710-745 | All columns of one database in their order |
| NamespaceAudit.AuditNamespace | app/encryption_audit.py:957-1060 | Nothing fatal is reported exactly for an admitted namespace, and nothing at all exactly for a clean one; without encryption there are no findings; the audit cannot be made exactly without readable settings or with a version it does not know |
| NamespaceAudit.UnvisitedMain | app/encryption_audit.py:710-745 | A payload column that the audit does not visit holds nothing if the schema is admitted |
| StoredForms.StoredIsClean | app/encryption_audit.py:957-1060 | The audit reports nothing about a current namespace that is stored as the program stores it: texts as Base64 of their ciphertext, the three kinds of file contents as raw ciphertext, six columns perhaps empty |
| StoredForms.OldIsAdmitted | app/encryption_audit.py:462-505 | Nothing fatal about an older one either, if what is not sealed yet is what a migration will seal |
| StoredForms.StoredPasses | app/encryption_audit.py:369-459 | Each field passes in the form in which it is stored |
| StoredForms.OtherFormsAreRefused | app/encryption_audit.py:634-707 | Each field refuses every other form: bytes for text, text for bytes, nothing where something must be, plain text that no migration waits for, half of the metadata |
| StoredForms.OwnedExactly | app/encryption_audit.py:177-197 | The nonces have one owner each exactly if no two payloads share one |
| StoredForms.CurrentFieldsAreThere | app/encryption_audit.py:710-745 | Under the current schema every field of the version has its table and columns, so that its rows are looked at |
| StoredReady.ReadableExactly | app/encryption_audit.py:846-861 | The settings can be read exactly if the column is there and exactly one row has id 1 |
| MigrationRun.AuditMigrateAudit | app/db/migrations.py:390-421 | If the audit reports nothing fatal, the migrations succeed exactly when the payloads they read are readable, apply consecutive versions up to the current one, and a second audit reports nothing at all |
| MigrationRun.RunDatabaseMigrations | app/db/migrations.py:390-421 | From any version the run ends at the current one with consecutive applied versions and with every stored text conserved as stated below; at the current version it changes nothing; nonces stay unique |
| MigrationConservation.StepConserves | app/db/migrations.py:390-421 | Over any part of a run: tags, rules, tabs, links, files and backup settings are untouched; an API key, proposed tags and tag prefixes keep their texts; notes lose exactly the placements of retired documents; reminders, preferences and palette exactly the retired keys |
| MigrationConservation.StepTouches | app/db/migrations.py:106-370 | A step leaves every payload of the other fields as it was |
| MigrationConservation.StepKeepsRows | app/db/migrations.py:106-370 | No step reorders, adds or removes notes, reminders or settings rows, or drops a column of their tables |
| MigrationRun.StepFrom | app/db/migrations.py:374-387 | The step of a version succeeds exactly when its needs are met, and then has its effect |
| MigrationRun.StepCarries | app/db/migrations.py:390-421 | What later steps need survives the earlier ones |
| MigrationRun.StepKeepsKeys | app/db/migrations.py:106-370 | No step adds or removes a note or a reminder, changes the version number or turns encryption on or off |
| StoredReady.StoredIsReady | app/db/migrations.py:69-370 | What the program stored in any version is ready for every migration, if no client state was sealed empty and the JSON texts that are read hold objects |
| StoredReady.DecryptsExactly | app/services/encryption.py:312-345 | A stored text is opened exactly if it is canonical Base64 with a nonce and a whole tag that fit the key |
| StoredReady.SoundKeysGo | app/db/retire_sounds.py:8-32 | Of reminders, preferences and palette exactly the named sound keys go; every other entry stays |
| StoredReady.RetiredIdsAre | app/db/migrations.py:362-362 | The retired documents are exactly the rows of their table |
| StoredReady.SettingsRowIs | app/db/migrations.py:78-82 | The settings are the first row with id 1, if there is one |
| MigrationTheorems.CurrentIsClean | app/encryption_audit.py:493-505 | At the current version nothing is deferred: admitted means clean |
| MigrationMeaning.EncryptingKeepsTexts | app/db/migrations.py:69-126 | Steps 0→1 and 5→6 leave the text behind every payload as it was; new proposals are empty |
| MigrationMeaning.RetiringRemovesPlacements | app/db/migrations.py:322-370 | Step 7→8 takes the placements of retired documents out of every note and leaves all other text and payloads alone |
| MigrationMeaning.EmptyCiphertextIsStuck | app/db/migrations.py:83-90 | An admitted namespace that step 0→1 rejects: an empty ciphertext with metadata |
| MigrationMeaning.DeferredNumberIsStuck | app/db/migrations.py:83-90 | An admitted namespace that step 0→1 rejects: a deferred value that is not text |
| MigrationProgram.RewriteClientState | app/db/migrations.py:69-103 | One column is encrypted in place with a fresh nonce, or left if blank or already encrypted and readable; fails exactly when it cannot be read |
| MigrationProgram.Migrate0To1 | app/db/migrations.py:106-126 | Succeeds exactly when its three columns can be read, and then all three are encrypted or blank |
| MigrationSchemaSteps.Migrate1To2 | app/db/migrations.py:129-136 | Adds the content-migrations table and nothing else |
| MigrationSchemaSteps.Migrate2To3 | app/db/migrations.py:163-199 | Replaces a legacy search history by an empty opaque one; refuses any other schema |
| MigrationSchemaSteps.Migrate3To4 | app/db/migrations.py:202-219 | Empties the opaque search history; refuses any other schema |
| MigrationSchemaSteps.Migrate4To5 | app/db/migrations.py:222-244 | Adds the three key columns, or leaves them; refuses a partial set |
| MigrationPayloadSteps.Migrate5To6 | app/db/migrations.py:247-305 | Adds and encrypts the proposed tags of every note; succeeds exactly when ids and values are as it needs them |
| MigrationSchemaSteps.Migrate6To7 | app/db/migrations.py:308-319 | Adds the documents table and nothing else |
| MigrationPayloadSteps.RemoveReferences | app/db/migrations.py:322-354 | Every note is rewritten exactly if it names a retired document |
| MigrationPayloadSteps.Migrate7To8 | app/db/migrations.py:357-370 | Succeeds exactly when the notes can be read; references and the documents table go |
| MigrationSoundStep.CleanJson | app/db/retire_sounds.py:14-32 | The text without the removed keys, only when there is something to remove |
| MigrationSoundStep.RetireReminderSounds | app/db/retire_sounds.py:35-62 | All reminders are cleaned or none is reported done |
| MigrationSoundStep.RetireSounds | app/db/retire_sounds.py:35-70 | Succeeds exactly when every JSON payload it reads is an object; keys and the sounds table go, nothing else |
| MigrationSchemaSteps.Migrate9To10 | app/db/editable_files_migration.py:21-52 | The files database ends with the revision column and the previews table; refused exactly if the files table has no id |
| RetiredReferences.RemovesExactlyRetired | app/db/migrations.py:322-354 | The text is cut from the left into pieces; exactly those that place a retired document go, and a text without one is unchanged |
| RetiredReferences.PlacementGoes | app/db/migrations.py:328-341 | `[[id]]` and `![[id]]` of 36 hexadecimal digits and dashes go exactly if the id, with A to F as a to f, is that of a retired document; else they stay, and the text after them is cleaned |
| RetiredReferences.OtherTextStays | app/db/migrations.py:328-341 | A character at which no such placement starts stays |
| Conversion.ConvertThenInspect | convert-from-legacy.py:821-973 | Import, link, print: the lines are exactly the kept rows of all items in input order, each at its number of kept ancestors; it fails exactly on an item the format does not allow |
| Conversion.ImportAll | convert-from-legacy.py:1026-1033 | Succeeds exactly if every item is allowed, and then the tree is valid and its depths are those of the kept rows |
| ImportTree.Importer.ImportItem | convert-from-legacy.py:821-948 | For every choice of dropped rows the underflow, stack and root-count errors cannot happen, and each kept row hangs under its nearest kept ancestor |
| ImportTree.Importer.ImportRow | convert-from-legacy.py:848-943 | The two stacks stand for the ancestors of the row, dropped and kept |
| ImportTree.Importer.KeepRow | convert-from-legacy.py:905-943 | A kept row becomes the last child of its nearest kept ancestor |
| ImportTree.Importer.InsertNote | convert-from-legacy.py:915-941 | A new note is added to the table, to its parent's children list and to the tree |
| ImportTree.PopStack | convert-from-legacy.py:870-873 | Popping leaves the stack at the effective indent |
| ImportTree.Importer.ApplyOrder | convert-from-legacy.py:951-973 | Every children list is linked both ways and parents stay as they were |
| ImportTree.Importer.LinkGroup | convert-from-legacy.py:955-973 | One list is linked from first to last; no other row changes |
| ImportTree.ParentsAreEarlier | convert-from-legacy.py:875-878 | The parent relation is acyclic: a parent comes before its children |
| Preorder.PreorderIsInputOrder | convert-from-legacy.py:863-941 | Depth-first traversal of an imported forest is the input order with depth equal to the effective indent |
| LinkAnalysis.CollectChildren | db_analysis.py:93-101 | Every note has an entry, and each entry holds exactly the children of its key in order |
| LinkAnalysis.ValidateParentGroup | db_analysis.py:51-90 | No issue is reported exactly for a group with one head, one tail, links inside the group and one chain through all of it |
| LinkAnalysis.WalkChain | db_analysis.py:69-89 | The walk from the head reports nothing exactly if the links form one chain |
| LinkAnalysis.MissingLinks | db_analysis.py:62-68 | No link is reported missing exactly if every link that is not blank names a row of the group |
| LinkAnalysis.ChainCovers | db_analysis.py:69-89 | A chain visits every child exactly once and ends at the unique tail |
| LinkAnalysis.NextOnChain | db_analysis.py:73-86 | Along a chain the next row exists and has not been visited |
| LinkAnalysis.WalkStuck | db_analysis.py:73-89 | A walk that ends early, repeats or leaves the group shows that there is no chain |
| TreeSnapshot.BuilderPassesAnalysis | convert-from-legacy.py:951-973 | What the builder writes raises no issue in any group, and prev is the inverse of next |
| TreeSnapshot.PrevUndoesNext | convert-from-legacy.py:955-971 | Within a group a points on to b exactly if b points back to a |
| TreeSnapshot.PrevIsNotChecked | db_analysis.py:62-68 | A group that passes although its prev links disagree with next |
| TreeSnapshot.PrevMatchesExactly | db_analysis.py:51-90 | In every group that passes, prev is the inverse of next exactly if each row with a prev is the next of the row that it names |
| TreePrinter.PrintTree | db_analysis.py:104-140 | Ends on every table with distinct ids; on an imported one it prints the outline below its parent |
| TreePrinter.PrintSiblings | db_analysis.py:118-140 | The sibling loop follows next from the head and prints each child with everything below it |
| TreePrinter.PrintSnapshot | db_analysis.py:179-202 | From the root: fails exactly without a root group, and on an imported table prints every note in order at its depth |
| TreePrinter.PathGrows | db_analysis.py:127-127 | Going down never meets a row twice, so the recursion ends |
| TagBar.TokenizeTagBar | convert-from-legacy.py:447-485 | The cursor loop computes the recursive token function |
| TagBar.AppendAddsOneToken | convert-from-legacy.py:771-775 | Appending a token adds exactly that token exactly when the bar leaves open no comment and no bracket run that it would close |
| TagBar.TokensOfStripped | convert-from-legacy.py:771-775 | Stripping the bar keeps its tokens |
| TagBar.MarkedOnce | convert-from-legacy.py:905-910 | Adding the markdown marker leaves nothing open that the LaTeX marker could close |
| PythonText.SplitWords | convert-from-legacy.py:557-561 | Words are what stands between any spaces |
| PythonText.SpacesAre | convert-from-legacy.py:450-453 | Tabs, line ends and the like are spaces, and no printing ASCII character is |
| TagGrammar.WrappedIsOneToken | convert-from-legacy.py:462-478 | One to three square, curly or round brackets wrap whatever is between them, spaces included, into one token |
| TagGrammar.DeeperIsAWord | convert-from-legacy.py:462-484 | More than three wrap nothing: what they begin is a word up to the next space |
| TagGrammar.CommentGoes | convert-from-legacy.py:455-460 | A comment goes, up to its first end after two characters; one without an end takes the rest of the bar |
| TagGrammar.WordThenSpace | convert-from-legacy.py:480-484 | Any other token ends at the next space |
| TagGrammar.UnwrapsExactly | convert-from-legacy.py:488-523 | A token is unwrapped exactly if it begins with up to three brackets, ends with as many of the closing kind, and has something between |
| TagGrammar.OthersStayBare | convert-from-legacy.py:488-523 | Brackets around nothing, and tokens without an opening bracket, stay as they are |
| TagGrammar.ScopesExactly | convert-from-legacy.py:752-768 | A wrapped token scopes a renderer exactly if it has the brackets, so many of them, and the name after "@" among the words between |
| TagGrammar.GlobalExactly | convert-from-legacy.py:723-733 | A token without brackets is a global tag exactly if it is the name after "@" |
| LatexMarks.LatexNotesAreMarked | convert-from-legacy.py:905-910 | A note with LaTeX is then seen as global markdown and scoped LaTeX exactly if: it already names the renderer and has the markdown tag or room for it; or its bar leaves open no comment and no bracket run that the LaTeX marker closes; or that run is a double bracket with the renderer's name after it and the markdown tag before it |
| RuleChain.ExtractRulesFromLine | convert-from-legacy.py:545-589 | The rules of the chain that the line is read into, or none if an operator lacks a token on either side |
| RuleChain.LineRoundTrip | convert-from-legacy.py:545-556 | A line is read into given segments and operators exactly if it is those segments with "=>" and "=" between them, no segment has "=", and none after "=" begins with ">" |
| RuleChain.RulesExactly | convert-from-legacy.py:563-587 | A rule is there exactly if some operator says it: from each token carried into it to each of the next group, after "=" from the last token of a group only, and for "=" both ways |
| RuleChain.NothingLeadsBack | convert-from-legacy.py:578-587 | In a line of "=>" only, nothing leads from a later group to an earlier one, or from a token to another of its group, unless tokens repeat |
| RuleChain.EarlierReachesLater | convert-from-legacy.py:563-587 | Each token of an earlier group reaches each token of any later one through the emitted rules |
| RuleChain.EqualsReachAll | convert-from-legacy.py:567-575 | In a line of equalities every token reaches every other, though only the last token of a group is carried on |
| RuleChain.AddPairs | convert-from-legacy.py:568-581 | All pairs of two groups except a token with itself, in one or both directions |
| Scheduling.NeverTooManyNeverCold | evals/scheduling.py:45-63 | At every moment of every interleaving of calls, failures and cancellations: at most `concurrency` bodies run, two bodies with one prefix overlap only if it is primed, and it is primed exactly if a call with it succeeded |
| Scheduling.WarmCallsPass | evals/scheduling.py:45-63 | At every moment of every run nobody holds the lock of a primed prefix, and a call with that prefix waits for no other: it passes the lock without keeping it and then waits for a slot only |
| Scheduling.ColdCallsQueue | evals/scheduling.py:45-63 | A call with a cold prefix needs the lock, gets it exactly if no other call with the prefix goes ahead, and keeps it |
| Scheduling.NeverStuck | evals/scheduling.py:45-63 | While a call is unfinished some step other than a cancellation can happen |
| Scheduling.FailedPrimerHandsOver | evals/scheduling.py:48-62 | After a primer fails or is cancelled a waiting call can take the lock, and primes unless the prefix is primed |
| Scheduling.EveryCallFinishes | evals/scheduling.py:45-63 | A run of n calls has at most 4n steps, and one that cannot go on has finished every call |
| Scheduling.CacheAwareAdapter.Arrive | evals/scheduling.py:65-82 | A new call starts outside all locks |
| Scheduling.CacheAwareAdapter.Begin | evals/scheduling.py:47-50 | A call with a primed prefix goes for a slot, any other for the prefix lock |
| Scheduling.CacheAwareAdapter.TakeLock | evals/scheduling.py:50-54 | A call that finds the prefix primed under the lock gives the lock back |
| Scheduling.CacheAwareAdapter.TakeSlot | evals/scheduling.py:55-57 | A slot is taken for the body |
| Scheduling.CacheAwareAdapter.LeaveContext | evals/scheduling.py:57-63 | Success primes the prefix; slot and lock are given back whatever the outcome |
| CaseQueue.AllReportedOnce | evals/scheduling.py:85-113 | When every worker has come to the end of the queue, every case has been reported exactly once |
| CaseQueue.NoneReportedTwice | evals/scheduling.py:94-113 | Whatever breaks, no case is reported twice or goes on after its report |
| CaseQueue.RunConserves | evals/scheduling.py:94-113 | Cases waiting, in hand, reported and given up are always together the cases there were |
| CaseQueue.TakenInOrder | evals/scheduling.py:90-98 | Cases are begun in the order of the queue |
| ContractRegistry.Registry.Recorded | app/contracts.py:106-111 | For every live object the answer is exactly what was declared for that very object, through id reuse and late callbacks |
| ContractRegistry.Registry.Forget | app/contracts.py:82-92 | A late callback never removes the entry of a newer object at the same address |
| ContractRegistry.Registry.Collect | app/contracts.py:66-79 | An object held by no entry can go at any time; stale entries do no harm |
| ContractRegistry.Registry.Allocate | app/contracts.py:66-79 | A new object at a reused address carries nothing |
| ContractRegistry.Registry.Put | app/contracts.py:113-121 | A new entry at an address replaces whatever was there |
| ContractRegistry.Registry.MakeReference | app/contracts.py:113-121 | A new weak reference disturbs no entry |
| ContractRegistry.Registry.Record | app/contracts.py:113-121 | Declares for one object and no other; objects that cannot carry properties get none |
| ContractRegistry.Registry.Tracked | app/contracts.py:123-139 | Refused exactly for a value that cannot carry and something to follow; otherwise the followed properties |
| ContractRegistry.Registry.Verified | app/contracts.py:141-150 | No problem exactly if every followed property with a predicate holds of the value |
| ContractRegistry.Registry.Produces | app/contracts.py:228-235 | The value carries its old properties and the followed ones; refused, with nothing changed, exactly for a value that cannot carry them or does not satisfy them |
| ContractRegistry.Registry.Preserves | app/contracts.py:238-258 | The result gets what the source carries, less what is dropped or static; refused, with nothing changed, exactly for a result that cannot carry what is left |
| ContractRegistry.Registry.Requires | app/contracts.py:210-225 | Passes exactly when this very object carries everything that is followed and the predicates hold |
| HandlerChecks.AcceptedPythonHandlerRaises | app/startup_sanity.py:151-169 | Every completed run of an accepted Python handler raises, exactly if no break or continue out of it can be reached |
| HandlerChecks.AcceptedCatchIsSafe | app/startup_js_sanity.py:467-494 | Every completed run of an accepted, braced catch throws or has passed a true allow-listed test, exactly if no break or continue out of it can be reached |
| HandlerChecks.PythonCheckIsComplete | app/startup_sanity.py:151-162 | For bodies of raises, plain statements and ifs the check accepts exactly those that nothing gets past |
| HandlerChecks.CatchCheckIsComplete | app/startup_js_sanity.py:467-494 | For straight code the check accepts exactly if nothing gets past some statement and no if stands before it |
| HandlerChecks.BracedElseIsRefused | app/startup_js_sanity.py:467-494 | A safe catch that throws in both braced branches is refused |
| HandlerChecks.ReturnIsFound | app/startup_sanity.py:165-169 | The walk for returns finds one exactly if there is one, in nested functions too |
| HandlerChecks.SafeExactly | app/startup_js_sanity.py:417-420 | Any statement is safe in this sense exactly if its text lets runs without a true test end by throwing only |
| HandlerChecks.EndsExactly | app/startup_js_sanity.py:467-494 | The ways of ending that are read off the text are exactly those that runs without a true test have |
| HandlerChecks.ClosedStaysIn | app/startup_js_sanity.py:467-494 | A handler whose breaks and continues are all inside loops of its own cannot be left by one |
| HandlerChecks.UnbracedBranchIsUnsafe | app/startup_js_sanity.py:467-494 | An accepted unbraced catch that completes with nothing thrown and no test true |
| HandlerChecks.JumpIsUnsafe | app/startup_sanity.py:151-169 | An accepted Python handler that continues the loop around it and raises nothing |
| HandlerChecks.JumpIsUnsafeInCatch | app/startup_js_sanity.py:467-494 | The same for a catch block |
| Base64.CanonicalIsEncoding | app/encryption_audit.py:625-631 | The audit accepts a text exactly when it is the encoding of some bytes, and of no others (sections 3.5 and 4 of RFC 4648) |
| Base64.DecodeEncode | app/encryption_audit.py:21-23 | Decoding undoes encoding |
| Base64.EstimateIsExact | app/security/note_html.py:119-124 | On such texts the size estimate is the decoded length |
| Base64.EstimateSkipsSpace | app/security/note_html.py:119-124 | White space anywhere does not change the estimate |
| Base64.AlphabetIs | app/encryption_audit.py:21-23 | The alphabet is that of section 4 of RFC 4648 |
| Base64.GroupsAreBigEndian | app/encryption_audit.py:625-631 | Four characters are the 24 bits of three bytes, most significant first, padded with zero bits and "=" |
| EncryptedLog.RecordRoundTrip | app/security/authenticated_logging.py:41-72 | A sealed record opens to its text, with or without its line end |
| EncryptedLog.AppendRecord | app/security/authenticated_logging.py:174-183 | One more record is one more text at the end of what the file decrypts to |
| EncryptedLog.LogSink.Write | app/security/authenticated_logging.py:99-106 | What was in a readable file, and then whatever has been written, reads back line by line; no earlier content goes, and a closed sink writes nothing |
| EncryptedLog.LogSink.Close | app/security/authenticated_logging.py:108-114 | Closing loses nothing, however often |
| EncryptedLog.DecryptLogRecords | app/security/authenticated_logging.py:174-183 | The loop gives the records of the lines, up to the first that is refused |
| EncryptedLog.OpensExactly | app/security/authenticated_logging.py:54-72 | A record is opened exactly if it has room for nonce and tag and the key fits; shorter ones and wrong keys are refused as such |
| EncryptedLog.OthersAreRefused | app/security/authenticated_logging.py:59-62 | A line without the prefix, or with no Base64 after it, is refused |
| EncryptedLog.EndsAreDropped | app/security/authenticated_logging.py:59-59 | Any line ends after a record are dropped |
| EncryptedLog.LineEnds | app/security/authenticated_logging.py:179-182 | A line of the file ends at a line feed, a carriage return, or both together; the last may have no end |
| BodyRelay.RelayResponseBody | app/https_proxy.py:123-136 | For every sequence of reads the output, if nothing failed, decodes to the joined reads and leaves following bytes alone, and else is no complete body (section 7.1 of RFC 9112) |
| BodyRelay.RelayDecodes | app/https_proxy.py:123-136 | Chunks and last chunk are read back as the joined data, whatever follows |
| BodyRelay.CutShortIsIncomplete | app/https_proxy.py:126-134 | A relayed body cut short anywhere, between chunks or inside one, cannot be taken for a complete body |
| BodyRelay.HexIsBaseSixteen | app/https_proxy.py:133-133 | Chunk sizes are written in upper-case hexadecimal and read in either case |
| BodyRelay.WrongFrameIsRefused | app/https_proxy.py:133-133 | A chunk without a line end after its size or after its data is no chunk |
| BodyRelay.ExchangeBody | app/https_proxy.py:58-74 | The upstream gets exactly the declared length, a prefix of what the client sent, or the exchange fails: because the client sent less, or because the deadline passed, which it reports only when it has; with time enough exactly the short bodies fail |
| Worklist.VisitInOrder | app/models/utils.py:244-269 | Ends on every finite object graph, raises exactly when a note is reached twice, and otherwise visits the recursive preorder of the tree that the notes form |
| Worklist.Grow | app/models/utils.py:24-65 | If no note is reached twice, what hangs below each note is a finite tree |
| Worklist.RenderReadOnly | app/models/utils.py:272-296 | Raises exactly when a note is reached twice; else the copy is a new tree of the same shape that shares nothing with the old |
| Worklist.AllWalked | app/models/utils.py:24-65 | When the stack is empty and nothing was refused, no two ways lead to one note |
| StyleFilter.SanitizeStyle | app/security/note_html.py:158-194 | The loop keeps exactly the declarations that are allowed, placed and safe, in order, and drops the attribute when none is left |
| StyleFilter.StoredIsStable | app/security/note_html.py:158-194 | Cleaning a stored style again changes nothing |
| StyleFilter.RenderedKeepsStored | app/security/rendered_html.py:99-112 | The rendered pass leaves every stored style exactly as it is |
| StyleFilter.RenderedIsStable | app/security/rendered_html.py:99-112 | Cleaning a rendered style, size factors included, again changes nothing |
| StyleFilter.ParseWritten | app/security/note_html.py:169-191 | A declaration that was kept reads back as itself, and is no size factor |
| StyleFilter.ClassesAreStable | app/security/rendered_html.py:87-96 | A class attribute that was filtered passes every later filter that lets through at least as many names, the rendered one after the stored one included |
| StyleFilter.ShippedPolicyOk | app/static/note-html-policy.json:155-171 | The property names of the shipped policy meet what the theorems above ask of a policy |
| StyleText.FirstIsKept | app/security/note_html.py:168-190 | A declaration, with any space around its parts, is kept exactly if its folded name is allowed and known, its value safe, and block and image properties stand on such elements; then the next ones are read |
| StyleText.NoColonNothing | app/security/note_html.py:170-172 | Text without a colon declares nothing |
| StyleText.StoredIsWritten | app/security/note_html.py:191-194 | What is kept is written with "; " between and ";" at the end; nothing kept means no attribute |
| StyleText.SizeFactorExactly | app/security/rendered_html.py:82-82 | A size factor is that property with digits, or digits, a point and digits, and nothing else |
| StyleText.ClassesExactly | app/security/rendered_html.py:87-96 | Of the words of a class attribute exactly those let through stay, in their order |

## Left out

- A value of `encryption_enabled` other than 0 or 1, on which the audit raises: a namespace is encrypted or not.
- The lock of a database blocks without limit; on Windows the program gives up after some tries and raises.
- SQLite itself: SQL parsing, pages and locks. A database is a value per file, or a map of tables; `_copy_sqlite` is torn, done, flushed.
- `MemoryDatabaseRecovery` and in-memory databases: two assignments without crashes.
- LiveChange.LiveDatabaseRecovery.Begin: an I/O error while the snapshot is written, which releases both locks, is a step of `Ownership` and not of this method.
- LiveChange.LiveDatabaseRecovery.RecoverLocked: proved for file systems where fsync makes a name durable and for kills outside the gaps, which is where it never raises; the others are in `RecoveryLimits`.
- `session.py`: readers, writers outside a request, the guard against reads after startup, and `did_write`.
- RequestTransaction.RequestTransaction.Finish: which error comes out is stated for the callbacks only; before them it is the last one raised.
- Vault settings and metadata columns: how many of them are wrong is a number of the namespace, since no migration touches them.
- `purge_migration_residue`, the discovery of namespaces, report texts and counts per finding.
- NamespaceAudit.AuditNamespace: says whether there are findings, fatal or not, and not how many, nor how many payloads were looked at.
- MigrationRun.RunDatabaseMigrations: the number of rewritten payloads that it reports is left open; search history and retired tables, which the steps empty, are not conserved.
- Wrapping of LaTeX segments in note contents (`_wrap_latex_segments`) and which notes have some: a note comes with that answer.
- `@monospace` and `@copyable`: the same append once more.
- TagBar.AppendAddsOneToken: for tokens that stand alone, which the three appended by the importer do.
- HTML line splitting and the validity filter of legacy rules, dates, passwords and namespaces of the converter.
- Printed text of the analyzer beyond the order and depth of its lines, and `summarize` and `inspect_note`.
- Streaming of `stream_text`, model calls, judging and prices in `evals`.
- `skips` and `report` of the contract registry: counters only.
- Finding handlers in source files, suppressions and all other rules of the two startup checks; the parsers that give the statement trees.
- Try statements inside handlers are statements whose handler may run from any point of their body; `finally` is not modelled.
- Decrypting a stored value: only canonical Base64 opens here; the program's decoder also skips characters outside the alphabet, which matters only for values that the audit refuses.
- `EncryptedTextStream`, key derivation and the check of the key's length.
- Request and status lines, header fields, chunk extensions and trailers, TLS and sockets of the proxy.
- The check of one style value (a parameter of `StyleFilter`), MathML, link and image attributes, and the HTML cleaner around them.
- Network, routes, templates, release scripts and the JavaScript front end.
