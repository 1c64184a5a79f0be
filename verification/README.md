# Premonition: a model of its transaction, its service and its encodings

Premonition proposes patches to a Git worktree and, on an explicit request, applies one of them. This
project models the parts of its Rust crates on which the user's files depend, and proves what they keep.

- **The Apply transaction** (`World`, `Staging`, `Apply`, `Recoverable`, `Undisturbed`, `TransactionState`,
  `Journal`, `Lifetime`). The disk is a map from places to files, journals and symbolic links. `Path::exists`
  follows links (`TransactionState.Exists`), so one that leads nowhere reads as absent; renames, removals and
  `symlink_metadata` act on the link itself. Every rename, removal, creation, write, probe and
  sync is one step, and a schedule of fates decides of each step whether it happens, fails without effect, or
  is cut off by a crash; this covers the steps of recovery, and every entry that `remove_dir_all` takes away.
  Some directories may besides refuse every sync (`unsyncable`). Each look at the repository sees whatever
  others have made of it by then (`sight`), Git's answers are given (`verdicts`), and `failures` counts the
  operations that failed, so that no success can pass over one.
  A crash keeps what was done so far, in program order. The methods are the program's own, loop for loop.
  The central invariant is `Recoverables.Recoverable`: what a transaction may look like on disk from the
  creation of its directory to its removal. `committed` is a ghost record of the transactions whose Committed
  journal was put in place.
- **The proposal service** (`ServiceState`, `Service`, `ServiceRuns`, `ServiceInvariants`, `ServiceLaws`,
  `ServiceHistory`, `ServiceAnswers`).
  `ServiceState` says what each locked section does to the memory, `Service` is the class that does it in
  place, and `ServiceRuns` interleaves the sections: one request at a time holds the gate and moves through
  its phases, and a background job can finish between any two of them. The record of everything that ever
  happened is part of the state, so that the bounded queues can be compared with it, and every answer is told
  by the history and not by the memory.
- **Daemon and engine together** (`System`, `Refinement`): requests, jobs, transactions, kills, restarts and
  edits by others, in any order, over one worktree. `Refinement` shows that calling the modelled `Apply` and
  `Recover` makes exactly the steps that `System` allows.
- **The unified-diff parser** (`DiffGrammar`, `DiffReader`, `Diff`, `PatchParser`, `Patch`, `SafePath`)
  against a declarative grammar, and what a validated proposal is (`Candidate`).
- **The snapshot** (`Stream`, `NulPaths`, `Snapshot`): the byte stream fed to the hash decides the listing.
- **Path containment** (`Containment`): the ancestor walk against path resolution that follows links.

One character stands for one byte. SHA-256 is an arbitrary function, collision-free only where a statement
says so. The JSON form of a journal is abstract; only its size (`sizeOf`) matters. What `git apply` makes of
the staged files is a parameter (`posts`). The transaction's own file names are assumed to be free and to be
used by nobody else (`FreshNames`); that they are different from each other is proved. Wall-clock time is an
arbitrary input.

## Where the code and its intent differ

- `dismiss` takes the active record out before looking at it (crates/premonition-daemon/src/lib.rs:362), and
  line 366 puts back only a proposal. A Dismiss during a running job therefore drops the job's record and
  leaves the state Working. `ServiceLaws.EveryReachableState` proves that state and slot agree in a run
  exactly as long as this has not happened, and always with the record put back on any mismatch;
  `ServiceLaws.MishapHappens` gives a run in which it happens, and `ServiceLaws.WedgedForever` shows that
  nothing but a restart ends it.
- Recovery is to stop at a target that holds anything but the recorded post-image. It looks with `exists()`
  (crates/premonition-core/src/apply.rs:358-375), so a target that somebody has made a link leading nowhere
  reads as absent, and a waiting backup is renamed over it. `Undisturbed.LinkIsOverwritten` is the input.
  `Undisturbed.RecoverySparesExactly` proves, for every journal and disk, that foreign targets are spared iff
  rollback does not get to such an entry; `Undisturbed.OverwritesWhatIsVeiled` that, where nothing stops
  rollback earlier, this means iff no Modify or Delete entry whose backup is on disk has such a link at its
  target; `Undisturbed.StopsExactly` that rollback stops iff some obstructing target is not such a link.
- A failure after the Committed journal is answered as RecoveryRequired even when the recovery inside Apply
  then completes: the worktree holds the whole patch and the answer does not say Applied.
  `Lifetimes.DoneButNotSaid` is a run of Apply that ends so, in a repository whose root cannot be opened for a
  sync; `Refinements.AnswerWithoutApplied` takes the daemon there from any state in which it has called the
  engine; `Apply.ApplyEngine.StateTellsNothing` proves that under the error State the disk is the post-image
  iff the Committed journal was put in place or the patch changes nothing.
- The staleness check rests on the metadata's length field, because nothing terminates a link target or a
  file's content in the stream: `Stream.WrongLengthsCollide` gives two listings that feed the same bytes when
  a length is wrong, `Stream.StreamDecidesListing` excludes it for all others.

## Model

| member | source | states |
|---|---|---|
| Lifetimes.LiveThroughCrashes | docs/threat-model.md:49-58 | Crash atomicity: after an Apply cut or failing anywhere, any number of recoveries each cut or failing anywhere, and one undisturbed recovery, the whole disk is exactly what it was, or exactly that with every change of the patch made, the latter precisely when a Committed journal was put in place, which it never is unless all three looks saw what the snapshot saw |
| Lifetimes.Restart | crates/premonition-core/src/apply.rs:59-79 | One start keeps the transaction resolvable wherever it is cut; as soon as it succeeds the outcome is all or nothing; undisturbed it succeeds |
| Lifetimes.ApplyOnce | crates/premonition-core/src/apply.rs:87-112 | One Apply leaves a state a start resolves, and commits only what is fresh at all three looks |
| Lifetimes.FreshMeansSameFiles | docs/threat-model.md:40-41 | Nothing stale is published over: with a collision-free hash, where a fresh look reflects the disk every listed file has the content it had when the snapshot was taken |
| Lifetimes.RestartAfterEdits | crates/premonition-core/src/apply.rs:218-241 | A start after a crash of Apply and any edits of the worktree: with a collision-free hash every target that is not the post-image keeps its content unless recovery overwrites a link; a blocked transaction is left with its journal; undisturbed the disk is exactly `Recovered` |
| Lifetimes.JournalSurvivesEdits | crates/premonition-core/src/apply.rs:414-483 | Whatever was edited in the worktree, the journal Apply left is still there, valid, and names different places |
| Lifetimes.DoneButNotSaid | crates/premonition-core/src/apply.rs:209-212 | The witness: Apply makes the whole change, resolves the transaction, and answers State |
| Apply.ApplyEngine.Apply | crates/premonition-core/src/apply.rs:87-112 | The fault contract: Ok means every change made, nothing else, and no operation failed; an error other than RecoveryRequired means all or nothing; RecoveryRequired or a crash leaves nothing done or a state recovery resolves; whatever any check refuses, a stale look included, nothing is changed, and undisturbed the first refusal is the answer; a stale third look commits nothing; with nothing in the way it succeeds, or answers State with the patch committed, exactly as the repository root can be synced or not |
| Apply.ApplyEngine.Transact | crates/premonition-core/src/apply.rs:106-111 | The same from the creation of the directory on |
| Apply.ApplyEngine.StateTellsNothing | crates/premonition-core/src/apply.rs:209-212 | Under the error State the disk is the post-image iff the Committed journal was put in place or the patch changes nothing, and the old disk otherwise |
| Apply.ApplyEngine.Precheck | crates/premonition-core/src/apply.rs:92-103 | The checks before the directory exists change nothing; they pass only if identifier, repository, both looks, paths and Git all agree, and undisturbed the first refusal decides |
| Apply.ApplyEngine.Revalidate | crates/premonition-core/src/snapshot.rs:124-129 | Passes only, and undisturbed exactly, when the look gives the proposal's token; Stale if another, Snapshot if none |
| Apply.ApplyEngine.CheckPaths | crates/premonition-core/src/apply.rs:95-97 | Passes only, and undisturbed exactly, when every target fits |
| Apply.ApplyEngine.PrepareAndPublish | crates/premonition-core/src/apply.rs:114-216 | From an empty transaction directory: wherever it stops the transaction is recoverable; success means staged on a fresh look, cleaned up, synced and committed; a failure once committed is `State` |
| Apply.ApplyEngine.Stage | crates/premonition-core/src/apply.rs:119-171 | Touches the transaction directory alone; success means that Git took the patch twice, the third look was fresh, and the entries are the journal of the transaction |
| Apply.ApplyEngine.Publish | crates/premonition-core/src/apply.rs:173-215 | The same from the first journal on |
| Apply.ApplyEngine.Prepare | crates/premonition-core/src/apply.rs:173-202 | From the first journal to the Publishing one: every entry ready, or a recoverable stop |
| Apply.ApplyEngine.Conclude | crates/premonition-core/src/apply.rs:209-212 | Once every entry is published, the Committed journal and the clearing up keep the transaction recoverable |
| Apply.ApplyEngine.PublishAll | crates/premonition-core/src/apply.rs:204-208 | The publication loop keeps the transaction recoverable through every entry, flag and journal write, and ends with every entry published |
| Apply.ApplyEngine.PublishNext | crates/premonition-core/src/apply.rs:204-208 | One turn of that loop: entry published, flag set, journal written |
| Apply.ApplyEngine.MoveEntry | crates/premonition-core/src/apply.rs:205-206 | `publish_entry` in its turn never leaves a state rollback could not undo |
| Apply.ApplyEngine.CopyTemporaries | crates/premonition-core/src/apply.rs:180-201 | The temporaries hold the post-images, and a cut copy stays recoverable |
| Apply.ApplyEngine.CopyTemporary | crates/premonition-core/src/apply.rs:180-200 | One temporary |
| Apply.ApplyEngine.PutJournal | crates/premonition-core/src/apply.rs:444-463 | Replacing the journal keeps the transaction recoverable whether or not the new one is in place |
| Apply.ApplyEngine.PutProgress | crates/premonition-core/src/apply.rs:202-207 | A Publishing journal keeps what has been published |
| Apply.ApplyEngine.PublishEntry | crates/premonition-core/src/apply.rs:331-350 | The exact disks it can leave; none but the old one unless the pre-image was verified; success means the directory was synced; without faults it succeeds when the pre-image holds and the temporary is there |
| Apply.ApplyEngine.RollbackEntry | crates/premonition-core/src/apply.rs:352-382 | The exact disks it can leave, links included; without faults what it leaves, and that it succeeds exactly when no probe sees anything but the recorded post-image in its way and the directory can be synced |
| Apply.ApplyEngine.RollBack | crates/premonition-core/src/apply.rs:226-231 | Reverse-order rollback from any publish prefix restores every pre-image; on any disk it leaves what `Unwound` says, spares every foreign target unless it gets to a veiled one, and never lengthens the backlog |
| Apply.ApplyEngine.RecoverOne | crates/premonition-core/src/apply.rs:218-241 | Kept recoverable wherever it is cut, backlog never longer, resolved when undisturbed; on any disk, links included, an undisturbed call leaves exactly `Recovered`, a cut one spares every foreign target too unless recovery overwrites one, a blocked transaction keeps its journal and gets RecoveryRequired, and a record that is no valid journal is left alone with RecoveryRequired |
| Apply.ApplyEngine.RecoverJournal | crates/premonition-core/src/apply.rs:224-240 | The same for a journal that was read |
| Apply.ApplyEngine.Settle | crates/premonition-core/src/apply.rs:224-239 | What happens before the clearing up, by phase |
| Apply.ApplyEngine.FinishRecovery | crates/premonition-core/src/apply.rs:485-501 | The clearing up keeps the transaction recoverable wherever it is cut and leaves exactly `Swept` |
| Apply.ApplyEngine.Recover | crates/premonition-core/src/apply.rs:59-79 | Success empties the state root, counts what it resolved, and means that nothing failed; a foreign entry, an unreadable record, or a transaction that does not resolve, stops it; on one transaction of any disk foreign targets are spared unless one is overwritten, a blocked one stays with its journal, and an undisturbed start leaves exactly `Recovered` |
| Apply.ApplyEngine.RecoverNext | crates/premonition-core/src/apply.rs:73-75 | One turn of that loop |
| Apply.ApplyEngine.VerifyPre | crates/premonition-core/src/apply.rs:384-397 | Passes only, and without faults exactly, when the target is the recorded pre-image, for an Add as far as `exists()` sees |
| Apply.ApplyEngine.VerifyPost | crates/premonition-core/src/apply.rs:399-412 | Passes only, and without faults exactly, when the target is the recorded post-image, for a Delete as far as `exists()` sees |
| Apply.ApplyEngine.VerifyAll | crates/premonition-core/src/apply.rs:233-238 | Roll-forward passes only when every target is its post-image |
| Undisturbed.RecoverySparesExactly | crates/premonition-core/src/apply.rs:352-382 | For every journal and disk an undisturbed recovery keeps every foreign target iff rollback does not get to an entry whose backup is there and whose target is a link that leads nowhere |
| Undisturbed.UnwoundSpares | crates/premonition-core/src/apply.rs:226-231 | The same of the rollback loop from any entry on |
| Undisturbed.OverwritesWhatIsVeiled | crates/premonition-core/src/apply.rs:352-382 | Nothing is overwritten without such an entry, and if nothing stops rollback every such entry is |
| Undisturbed.LinkIsOverwritten | crates/premonition-core/src/apply.rs:362-371 | The concrete disk: a Modify cut between its renames, its target made such a link; recovery completes and the link is gone |
| Undisturbed.StopsExactly | crates/premonition-core/src/apply.rs:352-382 | Rollback stops iff some foreign target stands where it is to put something and is not such a link |
| Undisturbed.BlockedKeepsJournal | crates/premonition-core/src/apply.rs:226-239 | A stopped recovery leaves the journal in place |
| Undisturbed.FlagsDoNotMatter | crates/premonition-core/src/apply.rs:226-231 | Recoveries from journals that differ only in the published flags stop alike and leave the same disk, but for the journal itself |
| Apply.ApplyEngine.WriteJournal | crates/premonition-core/src/apply.rs:444-463 | Only the two journal names are touched; the record is the old one or the new one, never anything else, and never oversized |
| Apply.ApplyEngine.CleanupTransaction | crates/premonition-core/src/apply.rs:485-497 | Removes only the transaction's own names, and the journal only after every temporary and backup |
| Apply.ApplyEngine.RemoveTransaction | crates/premonition-core/src/apply.rs:499-501 | Whatever the order and wherever it is cut, only files of the directory go; success removes them all and the directory |
| Recoverables.ResolvedIsAllOrNothing | docs/adr/0001-omarchy-first-architecture.md:40-51 | With the directory gone the whole disk equals the old one or the full post-image, by whether a Committed journal was put in place; no temporary, backup or stage remains |
| Recoverables.NothingChanged | crates/premonition-core/src/apply.rs:331-350 | The post-image of the disk is the old disk iff every entry has its pre-image for post-image |
| Recoverables.PreimagesAreConserved | crates/premonition-core/src/apply.rs:331-382 | Until Committed every Modify and Delete pre-image is unaltered at its target or in its backup, and at both iff the entry is published and the patch does not change it |
| Recoverables.UndoneIsOld | crates/premonition-core/src/apply.rs:352-382 | One whole rollback of any undoable entry is allowed and restores the pre-image, touching nothing else |
| Recoverables.HalfUndoneIsUndoable | crates/premonition-core/src/apply.rs:362-371 | Between the two moves of a Modify rollback the entry is still undoable |
| Recoverables.ReadyPublishes | crates/premonition-core/src/apply.rs:331-350 | A prepared entry passes its check and is published with its pre-image kept in the backup |
| Recoverables.HalfPublishedIsUndoable | crates/premonition-core/src/apply.rs:337-344 | Between the two renames of a Modify the entry is undoable, and the rename back restores the disk exactly |
| Recoverables.ClearedIsRecoverable | crates/premonition-core/src/apply.rs:485-501 | Clearing up cut anywhere keeps the transaction recoverable |
| Recoverables.RollbackShortensBacklog | crates/premonition-core/src/apply.rs:352-382 | Rollback, whole or cut, adds nothing to the unrestored targets and leftover files |
| Recoverables.ClearingShortensBacklog | crates/premonition-core/src/apply.rs:485-501 | Clearing up, whole or cut, adds nothing to them either |
| Recoverables.ResolvedHasNoBacklog | crates/premonition-core/src/apply.rs:218-241 | After a complete recovery none is left |
| Recoverables.RollbackSpares | crates/premonition-core/src/apply.rs:352-382 | One rollback, whole or cut, keeps every target that is not the recorded post-image, content and all, unless its own is veiled |
| Recoverables.ForeignIsNotThePostImage | crates/premonition-core/src/apply.rs:399-412 | With a collision-free hash the only target content recovery may remove is the post-image itself |
| Recoverables.ChecksSeeTheImages | crates/premonition-core/src/apply.rs:384-412 | With a collision-free hash the checks before and after publication pass iff the target is the very pre-image or post-image |
| TransactionState.PlacesAreApart | crates/premonition-core/src/apply.rs:136-144 | Targets, temporaries and backups of a transaction are pairwise different places |
| Staging.StageFiles | crates/premonition-core/src/apply.rs:122-145 | The stage holds the pre-images and the entries their hashes; the worktree is untouched |
| Staging.PatchStage | crates/premonition-core/src/apply.rs:147-163 | Git may stop after any file; nothing outside the stage changes |
| Staging.HashStage | crates/premonition-core/src/apply.rs:166-172 | The finished entries are the journal of the transaction; an oversized post-image is refused |
| Worlds.World.CopyFileBounded | crates/premonition-core/src/lib.rs:214-244 | Reads of any size, through a link if the source is one: success copies the whole content within the bound; an existing destination is never touched; a cut changes the destination only |
| Worlds.World.HashFile | crates/premonition-core/src/apply.rs:503-529 | The hash of an ordinary file within the bound, read in pieces of any size, or the error State; links are not followed |
| Journals.WrittenJournalsAreValid | crates/premonition-core/src/apply.rs:414-433 | Every journal Apply writes for a parsed patch under an accepted identifier passes validation, in any phase and with any hashes and flags |
| Journals.ValidateJournal | crates/premonition-core/src/apply.rs:414-433 | Accepts exactly the valid journals; no path of theirs enters `.git` in any spelling |
| Journals.ValidJournalsArePlain | crates/premonition-core/src/apply.rs:414-442 | Validity in plain terms, both ways: version 1, absolute root, 1 to 8 entries, different paths that only step down, and names of a transaction alone |
| Journals.TransactionIdsArePlain | crates/premonition-core/src/apply.rs:531-541 | The accepted identifiers in plain terms, both ways |
| Journals.StemInjective | crates/premonition-core/src/apply.rs:136-140 | A name tells its transaction and its index, although identifiers may themselves hold dashes and digits |
| Journals.OwnNamesAreRecognised | crates/premonition-core/src/apply.rs:435-442 | The generated names are transaction file names |
| Systems.WorktreeIsWhatWasReported | crates/premonition-daemon/src/lib.rs:280-346 | In every run of the whole system, edits by others at any time included, at most one transaction is unresolved; whenever the gate is free and the state is not RecoveryRequired none is, and the worktree is what it was plus, in order, the edits of others and exactly the transactions answered as applied, each whole |
| Systems.NextStartResolves | crates/premonition-daemon/src/lib.rs:40-60 | From wherever a run has got to, a start whose recovery succeeds empties the state root; the open transaction is then all or nothing, or, if others have edited the worktree meanwhile, every foreign target is spared unless one was overwritten |
| Systems.RecoveryRequiredHoldsOut | crates/premonition-daemon/src/lib.rs:108-115 | RecoveryRequired is absorbing in the whole system: until the process is killed no request, job or edit changes it or the state root |
| Systems.WholeButRecoveryRequired | crates/premonition-daemon/src/lib.rs:319-345 | After such an Apply the daemon stands in RecoveryRequired over a whole patch and an empty state root and has recorded no Applied |
| Systems.EngineStartsClean | crates/premonition-daemon/src/lib.rs:299-318 | The engine is only ever started on an empty state root |
| Systems.LeavesByCode | crates/premonition-daemon/src/lib.rs:732-740 | Read through the daemon's codes: Applied means the full post-image, any code but RecoveryRequired an unchanged worktree |
| Systems.UnresolvedStays | crates/premonition-daemon/src/lib.rs:108-115 | Nothing the daemon does alone gets it out of RecoveryRequired |
| Systems.RecordsKept | crates/premonition-daemon/src/lib.rs:319-346 | The daemon's own steps put on record exactly what the engine published |
| Refinements.EngineIsCalledProperly | crates/premonition-daemon/src/lib.rs:311-318 | The daemon hands Apply a well-formed patch, an absolute root and an identifier it accepts |
| Refinements.RunEngine | crates/premonition-core/src/apply.rs:87-112 | Calling Apply from any reachable state makes a step the system allows, and never fails with Identifier; with nothing else in the way the sync of the root decides the answer |
| Refinements.AnswerWithoutApplied | crates/premonition-daemon/src/lib.rs:311-345 | With a root that cannot be synced, from any state in which the engine has been called: the whole patch in the worktree, an empty state root, RecoveryRequired for an answer |
| Refinements.BootEngine | crates/premonition-daemon/src/lib.rs:40-60 | Calling Recover at any start makes a step the system allows |
| ServiceLaws.EveryReachableState | crates/premonition-daemon/src/lib.rs:133-199 | In every interleaving all invariants hold; state and slot agree iff no Dismiss dropped a running job, and always with the restoring Dismiss |
| ServiceLaws.DismissWhileRunning | crates/premonition-daemon/src/lib.rs:360-364 | From any reachable state with a job running, an ordinary Dismiss wedges the daemon |
| ServiceLaws.MishapHappens | crates/premonition-daemon/src/lib.rs:360-364 | The concrete run: one submission and one Dismiss after a start |
| ServiceLaws.WedgedForever | crates/premonition-daemon/src/lib.rs:348-369 | After such a Dismiss no later run leaves Working, accepts a submission, proposes or applies |
| ServiceLaws.DismissFormsDiffer | crates/premonition-daemon/src/lib.rs:348-380 | The two forms of Dismiss differ exactly on a running job whose given identifier is not on record as dismissed |
| ServiceLaws.RecoveryRequiredStays | crates/premonition-daemon/src/lib.rs:108-115 | RecoveryRequired is absorbing: no job is outstanding, and no run accepts, proposes, applies or leaves it |
| ServiceLaws.OneEndPerProposal | crates/premonition-daemon/src/lib.rs:280-380 | Below 2^64 proposals the engine is called at most once for an identifier, and none ends twice or both ways |
| ServiceLaws.BodiesLeaveNoTrace | crates/premonition-daemon/src/lib.rs:243-278 | Show and Copy hand out the active patch and change neither memory nor cache |
| ServiceHistory.EveryEndIsRecorded | crates/premonition-daemon/src/lib.rs:319-380 | In every run whoever is answered that a proposal is applied or dismissed can find it on record, and the job or proposal at hand is the last one submitted with all it was submitted and found with |
| ServiceHistory.HeldStep | crates/premonition-daemon/src/lib.rs:133-606 | Every step keeps the slot what the last submission, the last finding and the last identifier make of it |
| ServiceHistory.BackedStep | crates/premonition-daemon/src/lib.rs:280-380 | Every step keeps every answer, sent or cached, backed by the record |
| ServiceAnswers.AskedAgain | crates/premonition-daemon/src/lib.rs:280-361 | Idempotence: a new Apply or Dismiss of what is among the last twenty ends is answered that it is already done, whatever jobs finish meanwhile; no engine call, no end, and memory unchanged but for the cache |
| ServiceAnswers.AppliedStaysAmongLast | crates/premonition-daemon/src/lib.rs:319-334 | A successful Apply is answered and recorded at once, and stays among the last ends until twenty more |
| ServiceAnswers.DismissedStaysAmongLast | crates/premonition-daemon/src/lib.rs:369-380 | And so does a Dismiss |
| ServiceAnswers.AnsweredIsOnRecord | crates/premonition-daemon/src/lib.rs:319-380 | Who was answered that a proposal has ended finds it on record |
| ServiceAnswers.StatusTells | crates/premonition-daemon/src/lib.rs:201-241 | Status reports state, code, the last twenty outcomes, and of the slot exactly what was submitted, issued and found |
| ServiceAnswers.BodiesTell | crates/premonition-daemon/src/lib.rs:243-278 | Show gives the whole proposal and Copy the patch of what the last job found, to who names it, and nothing to anybody else |
| ServiceAnswers.CancelTells | crates/premonition-daemon/src/lib.rs:382-404 | Cancel flags the running job and says false, otherwise says true and changes nothing |
| ServiceAnswers.HealthTells | crates/premonition-daemon/src/lib.rs:406-433 | Health and Repositories answer what they are asked |
| ServiceAnswers.RefusedAtDispatch | crates/premonition-daemon/src/lib.rs:108-131 | In RecoveryRequired only Status and Health are served; without an executor no submission |
| ServiceAnswers.SubmitTells | crates/premonition-daemon/src/lib.rs:133-153 | Busy exactly while something is under way |
| ServiceAnswers.ApplyClaims | crates/premonition-daemon/src/lib.rs:299-318 | The engine is handed what the last job found, under its own name only |
| ServiceAnswers.ApplyEnds | crates/premonition-daemon/src/lib.rs:319-346 | How an Apply ends, result by result |
| ServiceAnswers.ApplyRefusals | crates/premonition-daemon/src/lib.rs:732-740 | The code of every engine error |
| ServiceAnswers.AttemptThatCounts | crates/premonition-daemon/src/lib.rs:627-633 | The Medium attempt counts iff the Low one failed in one of three ways |
| ServiceAnswers.JobEnds | crates/premonition-daemon/src/lib.rs:524-606 | The running job ends with what it was submitted and found with, or with the state, code and outcome of its failure |
| ServiceAnswers.ExecutorFailures | crates/premonition-daemon/src/lib.rs:561-581 | State, code and outcome of every executor failure |
| ServiceAnswers.CandidateRefusals | crates/premonition-daemon/src/lib.rs:582-593 | And of every refused candidate |
| ServiceAnswers.RefusedUnseen | crates/premonition-protocol/src/lib.rs:116-130 | Which requests are refused unseen, and how |
| ServiceInvariants.CoherentStep | crates/premonition-daemon/src/lib.rs:133-606 | Working iff exactly one job, the active one; Ready or Applying iff a proposal; failure codes exactly with failed states: kept by every step but the dropping Dismiss |
| ServiceInvariants.WedgedStep | crates/premonition-daemon/src/lib.rs:348-369 | No event leads out of the wedged state |
| ServiceInvariants.HistoriesStep | crates/premonition-daemon/src/lib.rs:479-499 | The three bounded queues stay the newest 20, 20 and 64 entries of everything recorded |
| ServiceInvariants.AccountingStep | crates/premonition-daemon/src/lib.rs:524-606 | Accepted submissions = recorded outcomes + failed Applies + one if something is under way |
| ServiceInvariants.GeneratedIdIsSafe | crates/premonition-daemon/src/lib.rs:540-549 | Every generated identifier is safe and accepted by Apply, so the failure branch is never taken |
| ServiceInvariants.CachingStep | crates/premonition-daemon/src/lib.rs:63-106 | Cached request identifiers stay distinct, each answer under its own request, and no body is ever kept |
| ServiceInvariants.Replayed | crates/premonition-daemon/src/lib.rs:63-80 | A request whose identifier is among the last 64 recorded changes nothing and gets the same answer if it is the same request, RequestIdReuse if not |
| ServiceInvariants.IssuingStep | crates/premonition-daemon/src/lib.rs:280-346 | Proposals are numbered in order, given to the engine at most once and ended at most once, and the active one is the latest |
| ServiceInvariants.EndsOnce | crates/premonition-daemon/src/lib.rs:479-499 | Hence no identifier is issued, called or ended twice |
| ServiceInvariants.ProposalIdInjective | crates/premonition-daemon/src/lib.rs:540-542 | An identifier tells its sequence number |
| ServiceInvariants.AnswersStep | crates/premonition-daemon/src/lib.rs:201-240 | No answer is ever ApplyInProgress, and a Status shows a proposal exactly when it says Ready |
| ServiceState.PushedIsNewest | crates/premonition-daemon/src/lib.rs:479-499 | A bounded queue holds the newest entries of everything pushed |
| Services.Service.HasEndedIn | crates/premonition-daemon/src/lib.rs:283-286 | Finds exactly the ends on record |
| Services.Service.Lookup | crates/premonition-daemon/src/lib.rs:67-80 | Answers exactly what the first cached entry under the identifier says |
| Services.Service.Remember | crates/premonition-daemon/src/lib.rs:94-104 | Files every answer but a body, evicting the oldest of 64 |
| Services.Service.BeginWork | crates/premonition-daemon/src/lib.rs:154-163 | The slot is the new job, and state, slot and failure code agree |
| Services.Service.ApplyLookup | crates/premonition-daemon/src/lib.rs:281-298 | The answers Apply has without a proposal |
| Services.Service.TakeProposal | crates/premonition-daemon/src/lib.rs:299-310 | Applying exactly when the active proposal bears the identifier; agreement is kept |
| Services.Service.CloseApply | crates/premonition-daemon/src/lib.rs:319-346 | Whatever was there before, state, slot and code agree again; success is put on both records |
| Services.Service.Dismiss | crates/premonition-daemon/src/lib.rs:348-380 | As written, with what is taken lost unless it is a proposal; agreement is kept iff no running job is dropped |
| Services.Service.Cancel | crates/premonition-daemon/src/lib.rs:382-404 | Flags the running job, or says there is none; agreement is kept |
| Services.Service.FinishJob | crates/premonition-daemon/src/lib.rs:524-606 | Does nothing unless the job is still the active one; otherwise the state, code and record its completion demands; agreement is kept |
| Diff.ParserIsGrammar | crates/premonition-core/src/diff.rs:108-244 | The reading succeeds with a section list iff the text is a rendering of that list in the grammar, within the limits |
| Diff.PatchIsUnambiguous | crates/premonition-core/src/diff.rs:108-244 | A text renders at most one section list, although body lines may look like headers |
| Diff.RejectedTextsAreNotPatches | crates/premonition-core/src/diff.rs:108-244 | What is rejected is no rendering of any list |
| PatchParser.Parse | crates/premonition-core/src/diff.rs:108-244 | The program's parser returns that reading's files and hunk total, a well-formed patch none of whose paths enters `.git` in any spelling, and an error iff there is no section list |
| PatchParser.ParseFiles | crates/premonition-core/src/diff.rs:125-234 | The loop over sections reads what the reader reads |
| PatchParser.ParseSection | crates/premonition-core/src/diff.rs:126-230 | The body of that loop |
| PatchParser.ParseHunks | crates/premonition-core/src/diff.rs:184-225 | The loop over hunks |
| PatchParser.ParseHunk | crates/premonition-core/src/diff.rs:186-222 | One hunk: header, body, and both counts |
| PatchParser.ParseBody | crates/premonition-core/src/diff.rs:191-213 | The loop over body lines, with its two counters |
| PatchParser.ParseMetaLines | crates/premonition-core/src/diff.rs:132-151 | The loop over mode and index lines |
| Diff.NamesRead | crates/premonition-core/src/diff.rs:152-182 | The two name lines are read as a kind iff they are the rendered names of that kind, as the declared modes demand |
| DiffReader.RangeReads | crates/premonition-core/src/diff.rs:370-381 | A range is read iff it is a rendering of one |
| DiffReader.HunkHeaderComplete | crates/premonition-core/src/diff.rs:359-368 | Every rendered hunk header is read back |
| DiffReader.HunkHeaderSound | crates/premonition-core/src/diff.rs:359-368 | Every accepted hunk header is the rendering of what was read |
| DiffReader.DiffHeaderReads | crates/premonition-core/src/diff.rs:329-341 | A heading is read as a path iff it is the rendering of that safe path |
| DiffReader.IndexReads | crates/premonition-core/src/diff.rs:343-357 | An index line is accepted iff it is a rendering of one |
| Patches.ParsedPatchesAreWellFormed | crates/premonition-core/src/diff.rs:227-243 | An accepted patch has 1 to 8 files, distinct safe paths, and hunks that add up within the ceiling |
| Patches.PatchesConcatenate | crates/premonition-core/src/diff.rs:115-243 | Two accepted patches one after the other are the patch of both lists iff paths are disjoint and the byte, file and hunk sums stay inside the ceilings |
| Patches.PatchesSplit | crates/premonition-core/src/diff.rs:125-243 | Every section of an accepted patch is an accepted patch by itself |
| Patches.OnlyHeadingsStartSections | crates/premonition-core/src/diff.rs:125-131 | The lines starting with `diff --git ` are exactly the section headings |
| Patches.SumOfFiles | crates/premonition-core/src/diff.rs:227-243 | The hunk total is the sum over the files |
| SafePaths.ParseSafePath | crates/premonition-core/src/diff.rs:24-49 | Accepts exactly the safe paths: at most 240 bytes, every component 1 to 120 portable bytes, not `.`, not `..`, and not `.git` in any case |
| SafePaths.SafePathsStepDown | crates/premonition-core/src/diff.rs:24-49 | The grammar of safe paths in plain terms, both ways |
| SafePaths.SafePathsOutsideGit | crates/premonition-core/src/diff.rs:40 | No component of a safe path is `.git`, in any case |
| SafePaths.SafePathShape | crates/premonition-core/src/diff.rs:24-49 | A safe path has no slash at either end, no empty component and only name bytes |
| SafePaths.EarlyTestsRedundant | crates/premonition-core/src/diff.rs:24-49 | The tests on the whole path follow from those on its components |
| Candidates.ValidateCandidate | crates/premonition-core/src/lib.rs:67-88 | A proposal for that very root, snapshot and text, exactly when the repository is the same, both looks are fresh, the text a patch, every path accepted and Git content; otherwise the error of the first that fails |
| Candidates.AcceptedTargetsFit | crates/premonition-core/src/lib.rs:77-87 | What the walk accepted fits the disk at the proposal's own root, where Apply takes it |
| Candidates.TargetsStandApart | crates/premonition-core/src/lib.rs:67-88 | Targets of one validated patch are different, never inside one another, and resolve to root plus path |
| Containment.ValidateChangePath | crates/premonition-core/src/repository.rs:231-272 | Accepts exactly: same identity, every ancestor a real directory without `.git`, and a fitting target |
| Containment.AcceptedPathsStayInside | crates/premonition-core/src/repository.rs:231-272 | With links followed an accepted path resolves to exactly root joined with its components, and at no depth lies in a `.git` in any spelling |
| Containment.AcceptedIsPlain | crates/premonition-core/src/repository.rs:231-272 | Acceptance in plain terms, both ways: directories without `.git` above, and nothing for an Add, otherwise one file of mode 0644, one name and at most 2 MiB |
| Containment.AcceptedTargetsDoNotNest | crates/premonition-core/src/repository.rs:239-252 | No accepted target is a proper prefix of another |
| Stream.StreamDecidesListing | crates/premonition-core/src/snapshot.rs:75-106 | Two honest listings that feed the same bytes are equal |
| Stream.MetadataInjective | crates/premonition-core/src/snapshot.rs:250-260 | The fixed-width fields decide the metadata |
| Stream.WrongLengthsCollide | crates/premonition-core/src/snapshot.rs:94-101 | Without the right length two different listings feed the same bytes |
| Snapshots.TokenMeansUnchanged | crates/premonition-core/src/snapshot.rs:108-129 | With a collision-free hash two captures give the same token iff they read the same head, reference, index and listing, metadata and contents included |
| Snapshots.TokenTellsWorktree | crates/premonition-core/src/snapshot.rs:38-129 | With a collision-free hash two repositories that can be captured give the same token iff they have the same head, branch, index content and names, and at every name the same file, link or nothing, metadata, content and link target included |
| Snapshots.CaptureSucceeds | crates/premonition-core/src/snapshot.rs:38-116 | A capture succeeds iff the repository is safe, head and branch read, the index is a steady file of bounded size, the names are plain and at most 4096, everything at them can be read whole and unchanging, and the sizes add up within the ceiling |
| Snapshots.CaptureRefuses | crates/premonition-core/src/snapshot.rs:39-73 | Which refusal comes first, up to the listing |
| Snapshots.CaptureIsNeverStale | crates/premonition-core/src/snapshot.rs:124-129 | Only the comparison finds a snapshot stale |
| Snapshots.CaptureSnapshot | crates/premonition-core/src/snapshot.rs:38-116 | The program's capture is the specified one, error for error |
| Snapshots.FeedEntry | crates/premonition-core/src/snapshot.rs:82-105 | Feeds tag, metadata and content of what stands at a path |
| Snapshots.Hasher.UpdateFile | crates/premonition-core/src/snapshot.rs:229-248 | Reads of any size feed the whole content, and a changed file is refused |
| Snapshots.Revalidate | crates/premonition-core/src/snapshot.rs:124-129 | Passes exactly when a new capture gives the same token; a failed capture is its own error, another token Stale |
| NulPaths.NulPathsAreTheNames | crates/premonition-core/src/snapshot.rs:193-217 | The paths returned are the names listed, each once, in ascending order, or an error iff some name is bad or repeated |
| NulPaths.ListedNamesStayInside | crates/premonition-core/src/snapshot.rs:201-211 | No name read is absolute or climbs, at its end or on its way |
| NulPaths.CollectDecides | crates/premonition-core/src/snapshot.rs:193-217 | The loop accepts iff every name is good, new, and unlike the others |
| NulPaths.PrintOrderIrrelevant | crates/premonition-core/src/snapshot.rs:193-217 | The order in which Git lists the names does not matter |
| NulPaths.ParseNulPaths | crates/premonition-core/src/snapshot.rs:193-217 | The program's loop returns that reading |

## Left out

- How the file tree of the walk, the looks of the snapshot and the disk of Apply come from one file system: stated where it is needed (`Pictures`, `Reflects`).
- Git, TOML configuration, repository identity, permissions, ownership and user checks: foreign processes and system calls; their answers are parameters or steps that may fail.
- SHA-256 and JSON: an arbitrary function, and a journal as a value whose size may be anything.
- Power loss and the reordering of writes: the claim is for a killed process whose completed operations persist in order.
- Mode bits of the published files (`set_permissions` is a step without effect on the modelled disk).
- Probes that fail: `Path::exists` reads any error as absence; the model has only the one cause that a link leads nowhere.
- A target edited into a directory: no node of the model; a probe sees it, and neither hashing nor removal takes it.
- A cut write of a journal leaves the new file empty or whole in the model; a partial one is never read under that name.
- The executor's process, time limit and output parsing; an attempt is an arbitrary result, a job that panics is one that never finishes.
- The socket host, frame codec, command line, QML and error texts: plumbing.
- Apply.ApplyEngine.RecoverOne: asks that the names in a recorded journal be different places, which Apply's own journals satisfy (`PlanEntriesApart`) and `validate_journal` does not check.
- Lifetimes.LiveThroughCrashes: nobody else edits the worktree between the cuts; for edits see `RestartAfterEdits`.
- Systems.WorktreeIsWhatWasReported: others edit the worktree and not the state root, and not during a call of the engine; the account of applied transactions starts anew with each process.
- ServiceLaws.OneEndPerProposal: for one life of the process; the sequence starts anew with the next.
- ServiceInvariants.Replayed: the two requests are told apart by a digest assumed collision-free.
- Snapshots.TokenMeansUnchanged: assumes the length the file system reports is the length read.
