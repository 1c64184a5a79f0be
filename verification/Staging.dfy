/** The first half of `prepare_and_publish` (crates/premonition-core/src/apply.rs:119-171): the
    post-images, made inside the transaction directory. */
module Staging {
  import opened Text
  import opened SafePaths
  import opened DiffGrammar
  import opened Diff
  import opened Patches
  import opened Journals
  import opened TransactionState
  import opened Recoverables
  import opened Worlds
  import Snapshots

  /** A validated proposal: a parsed patch for the repository at `root`, and the snapshot it was
      made for. */
  datatype Proposal = Proposal(root: string, patch: ParsedPatch, snapshot: Snapshots.Snapshot)

  function StageLoc(p: Plan, i: nat): Loc
    requires i < Size(p)
  {
    Tx(p.id, Staged(p.patch.files[i].path))
  }

  lemma StagesApart(p: Plan, i: nat, k: nat)
    requires WellFormed(p.patch) && i < Size(p) && k < Size(p)
    ensures StageLoc(p, i) == StageLoc(p, k) ==> i == k
  {
    assert forall x, y | 0 <= x < y < Size(p) :: p.patch.files[x].path != p.patch.files[y].path;
  }

  /** What the staging loop has copied for entry `i`. */
  ghost predicate IsStaged(p: Plan, d: Disk, i: nat)
    requires i < Size(p)
  {
    At(d, StageLoc(p, i)) == if Kind(p, i) == Add then None else Pre(p, i)
  }

  /** What Git leaves in the stage for entry `i`. */
  ghost predicate IsPatched(p: Plan, d: Disk, i: nat)
    requires i < Size(p) == |p.posts|
  {
    At(d, StageLoc(p, i)) == Post(p, i)
  }

  /** The entry the loop pushes, before the post-image is known. */
  ghost predicate DraftEntry(p: Plan, e: JournalEntry, i: nat, digest: string -> string)
    requires i < Size(p)
  {
    && EntryFor(e, p.id, i, p.patch.files[i])
    && (Pre(p, i).Some? ==> Pre(p, i).value.Data?)
    && e.preHash == (if Kind(p, i) == Add || Pre(p, i).None? then None
                     else Some(digest(Pre(p, i).value.bytes)))
    && e.postHash == None && !e.published
  }

  /** `BeforeJournal` survives any change to the stage. */
  lemma StageChange(p: Plan, d: Disk, d': Disk, l: Loc)
    requires BeforeJournal(p, d) && InTx(p.id, l) && l != RecordLoc(p.id) && d' - {l} == d - {l}
    requires l in d' ==> !d'[l].Link?
    ensures BeforeJournal(p, d')
    ensures forall x {:trigger At(d', x)} :: x != l ==> At(d', x) == At(d, x)
  {
    forall x ensures x != l ==> At(d', x) == At(d, x) {
      assert x != l ==> (x in d' <==> x in d' - {l}) && (x in d <==> x in d - {l});
      assert x != l && x in d ==> d[x] == (d - {l})[x];
      assert x != l && x in d' ==> d'[x] == (d' - {l})[x];
    }
    assert At(d', RecordLoc(p.id)) == At(d, RecordLoc(p.id));
    forall x | x in d' && InTx(p.id, x) ensures !d'[x].Link? {
      assert x != l ==> At(d', x) == At(d, x);
    }
  }

  /** One turn of the staging loop: an existing file is copied in and hashed. */
  method StageOne(w: World, p: Plan, i: nat) returns (r: Outcome<JournalEntry>)
    requires PlanOk(p) && BeforeJournal(p, w.disk) && i < Size(p) && StageLoc(p, i) !in w.disk
    modifies w`fates, w`failures, w`disk
    ensures r.Success? ==> w.failures == old(w.failures)
    ensures BeforeJournal(p, w.disk)
    ensures forall k | 0 <= k < Size(p) && k != i :: At(w.disk, StageLoc(p, k)) == At(old(w.disk), StageLoc(p, k))
    ensures r.Failure? ==> r.error == State
    ensures r.Success? ==> IsStaged(p, w.disk, i) && DraftEntry(p, r.value, i, w.digest)
    ensures old(w.Quiet()) ==> w.Quiet() && r.Success?
  {
    var change := p.patch.files[i];
    assert TargetFits(p.base, p.root, change);
    assert WellFormed(p.patch);
    hide PlanOk, Temporary, Backup, WellFormed;
    var source, staged := PathLoc(p, i, Target), StageLoc(p, i);
    assert At(w.disk, source) == Pre(p, i);
    var io := w.Step();
    var _ :- Try(io, State);
    var preHash: Option<string> := None;
    if change.kind != Add {
      ghost var before := w.disk;
      var copied := w.CopyFileBounded(source, staged, MAX_RESULT_FILE_BYTES);
      StageChange(p, before, w.disk, staged);
      OtherStages(p, before, w.disk, i);
      if copied.IsFailure() {
        return copied.PropagateFailure();
      }
      assert At(w.disk, source) == Pre(p, i);
      var hash :- w.HashFile(source);
      preHash := Some(hash);
    }
    return Success(JournalEntry(change.path, change.kind, Temporary(p.id, i), Backup(p.id, i), preHash, None, false));
  }

  method StageFiles(w: World, p: Plan) returns (r: Outcome<seq<JournalEntry>>)
    requires PlanOk(p) && BeforeJournal(p, w.disk)
    requires forall item :: Tx(p.id, item) !in w.disk
    modifies w`fates, w`failures, w`disk
    ensures r.Success? ==> w.failures == old(w.failures)
    ensures BeforeJournal(p, w.disk)
    ensures r.Failure? ==> r.error == State
    ensures r.Success? ==> |r.value| == Size(p)
    ensures r.Success? ==> forall i | 0 <= i < Size(p) ::
              IsStaged(p, w.disk, i) && DraftEntry(p, r.value[i], i, w.digest)
    ensures old(w.Quiet()) ==> w.Quiet() && r.Success?
  {
    hide PlanOk, BeforeJournal, DraftEntry;
    var entries: seq<JournalEntry> := [];
    for i := 0 to Size(p)
      invariant BeforeJournal(p, w.disk)
      invariant |entries| == i
      invariant forall k | 0 <= k < i :: IsStaged(p, w.disk, k) && DraftEntry(p, entries[k], k, w.digest)
      invariant forall k | i <= k < Size(p) :: StageLoc(p, k) !in w.disk
      invariant old(w.Quiet()) ==> w.Quiet()
      invariant w.failures == old(w.failures)
    {
      ghost var before := w.disk;
      var entry :- StageOne(w, p, i);
      forall k | i < k < Size(p) ensures StageLoc(p, k) !in w.disk {
        assert At(w.disk, StageLoc(p, k)) == At(before, StageLoc(p, k));
      }
      forall k | 0 <= k < i ensures IsStaged(p, w.disk, k) {
        assert IsStaged(p, before, k) && At(w.disk, StageLoc(p, k)) == At(before, StageLoc(p, k));
      }
      entries := entries + [entry];
    }
    return Success(entries);
  }

  lemma OtherStages(p: Plan, d: Disk, d': Disk, i: nat)
    requires WellFormed(p.patch) && i < Size(p)
    requires forall x {:trigger At(d', x)} :: x != StageLoc(p, i) ==> At(d', x) == At(d, x)
    ensures forall k | 0 <= k < Size(p) && k != i :: At(d', StageLoc(p, k)) == At(d, StageLoc(p, k))
  {
    forall k | 0 <= k < Size(p) && k != i ensures At(d', StageLoc(p, k)) == At(d, StageLoc(p, k)) {
      StagesApart(p, i, k);
    }
  }

  /** `git apply` in the stage: a foreign process that may stop after any file. */
  method PatchStage(w: World, p: Plan) returns (r: Outcome<()>)
    requires PlanOk(p) && BeforeJournal(p, w.disk)
    modifies w`fates, w`failures, w`disk
    ensures r.Success? ==> w.failures == old(w.failures)
    ensures BeforeJournal(p, w.disk)
    ensures r.Failure? ==> r.error == Git
    ensures r.Success? ==> w.verdicts.stageApply && forall i | 0 <= i < Size(p) :: IsPatched(p, w.disk, i)
    ensures old(w.Quiet()) ==> w.Quiet() && !r.Crashed? && (r.Success? <==> w.verdicts.stageApply)
  {
    var io := w.Ask(w.verdicts.stageApply);
    var _ :- Try(io, Git);
    for i := 0 to Size(p)
      invariant BeforeJournal(p, w.disk)
      invariant forall k | 0 <= k < i :: IsPatched(p, w.disk, k)
      invariant old(w.Quiet()) ==> w.Quiet()
      invariant w.failures == old(w.failures)
    {
      ghost var before := w.disk;
      var staged := StageLoc(p, i);
      io := w.Replace(staged, if Kind(p, i) == Delete then None else Some(Data(p.posts[i])));
      var _ :- Try(io, Git);
      StageChange(p, before, w.disk, staged);
      OtherStages(p, before, w.disk, i);
      assert IsPatched(p, w.disk, i);
      forall k | 0 <= k < i ensures IsPatched(p, w.disk, k) {
        assert IsPatched(p, before, k) && At(w.disk, StageLoc(p, k)) == At(before, StageLoc(p, k));
      }
    }
    return Success(());
  }

  /** The post-image hashes. */
  method HashStage(w: World, p: Plan, drafts: seq<JournalEntry>) returns (r: Outcome<seq<JournalEntry>>)
    requires PlanOk(p) && |drafts| == Size(p)
    requires forall i | 0 <= i < Size(p) :: IsPatched(p, w.disk, i) && DraftEntry(p, drafts[i], i, w.digest)
    modifies w`fates, w`failures
    ensures r.Success? ==> w.failures == old(w.failures)
    ensures r.Failure? ==> r.error == State
    ensures r.Success? ==> JournalOf(p, Journal(JOURNAL_VERSION, p.root, Prepared, r.value), w.digest)
    ensures old(w.Quiet()) ==> w.Quiet() && !r.Crashed?
    ensures old(w.Quiet()) && PostsFit(p) ==> r.Success?
  {
    var entries := drafts;
    for i := 0 to Size(p)
      invariant |entries| == Size(p)
      invariant forall k | i <= k < Size(p) :: entries[k] == drafts[k]
      invariant forall k | 0 <= k < i ::
                  && entries[k] == drafts[k].(postHash := entries[k].postHash)
                  && entries[k].postHash == (if Kind(p, k) == Delete then None else Some(w.digest(p.posts[k])))
                  && (Kind(p, k) != Delete ==> |p.posts[k]| <= MAX_RESULT_FILE_BYTES)
      invariant old(w.Quiet()) ==> w.Quiet()
      invariant w.failures == old(w.failures)
    {
      assert DraftEntry(p, drafts[i], i, w.digest) && IsPatched(p, w.disk, i);
      if entries[i].kind != Delete {
        assert At(w.disk, StageLoc(p, i)) == Some(Data(p.posts[i]));
        var hash :- w.HashFile(StageLoc(p, i));
        entries := entries[i := entries[i].(postHash := Some(hash))];
      }
    }
    DraftsBecomeJournal(p, drafts, entries, w.digest);
    return Success(entries);
  }

  /** Every post-image is small enough to be hashed and copied. */
  predicate PostsFit(p: Plan)
    requires |p.posts| == Size(p)
  {
    forall i | 0 <= i < Size(p) :: Kind(p, i) != Delete ==> |p.posts[i]| <= MAX_RESULT_FILE_BYTES
  }

  lemma DraftsBecomeJournal(p: Plan, drafts: seq<JournalEntry>, entries: seq<JournalEntry>, digest: string -> string)
    requires |p.posts| == |drafts| == |entries| == Size(p)
    requires forall i | 0 <= i < Size(p) ::
               && DraftEntry(p, drafts[i], i, digest)
               && entries[i] == drafts[i].(postHash := entries[i].postHash)
               && entries[i].postHash == (if Kind(p, i) == Delete then None else Some(digest(p.posts[i])))
               && (Kind(p, i) != Delete ==> |p.posts[i]| <= MAX_RESULT_FILE_BYTES)
    ensures JournalOf(p, Journal(JOURNAL_VERSION, p.root, Prepared, entries), digest)
  {
    forall i | 0 <= i < Size(p) ensures EntryFor(entries[i], p.id, i, p.patch.files[i]) {
      assert DraftEntry(p, drafts[i], i, digest);
    }
  }
}
