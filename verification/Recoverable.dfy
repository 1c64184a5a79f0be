/** The invariant of a transaction on disk, from its directory's creation to its removal, and the
    laws that keep it through every publish and rollback move (crates/premonition-core/src/apply.rs). */
module Recoverables {
  import opened Text
  import opened SafePaths
  import opened DiffGrammar
  import opened Diff
  import opened Patches
  import opened Journals
  import opened TransactionState

  // ---- one entry ----

  /** As before the transaction. */
  ghost predicate IsOld(p: Plan, d: Disk, i: nat)
    requires i < Size(p)
  {
    At(d, PathLoc(p, i, Target)) == Pre(p, i) && PathLoc(p, i, Back) !in d
  }

  /** As after the transaction. */
  ghost predicate IsNew(p: Plan, d: Disk, i: nat)
    requires i < Size(p) == |p.posts|
  {
    At(d, PathLoc(p, i, Target)) == Post(p, i)
  }

  /** The pre-image waits in the backup; the target is gone or already new. */
  ghost predicate IsHeld(p: Plan, d: Disk, i: nat)
    requires i < Size(p) == |p.posts|
  {
    && Kind(p, i) != Add
    && At(d, PathLoc(p, i, Back)) == Pre(p, i)
    && (PathLoc(p, i, Target) !in d || IsNew(p, d, i))
  }

  /** What rollback can bring back to the pre-image. */
  ghost predicate Undoable(p: Plan, d: Disk, i: nat)
    requires i < Size(p) == |p.posts|
  {
    || IsOld(p, d, i)
    || IsHeld(p, d, i)
    || (Kind(p, i) == Add && IsNew(p, d, i) && PathLoc(p, i, Back) !in d)
  }

  ghost predicate NoScrap(p: Plan, d: Disk, i: nat)
    requires i < Size(p)
  {
    PathLoc(p, i, Temp) !in d && PathLoc(p, i, Back) !in d
  }

  // ---- all entries ----

  ghost predicate Touched(p: Plan, l: Loc) {
    InTx(p.id, l) || exists i, s | 0 <= i < Size(p) :: PathLoc(p, i, s) == l
  }

  ghost predicate Framed(p: Plan, d: Disk) {
    forall l {:trigger At(d, l)} :: !Touched(p, l) ==> At(d, l) == At(p.base, l)
  }

  ghost predicate AllOld(p: Plan, d: Disk) {
    forall i | 0 <= i < Size(p) :: IsOld(p, d, i)
  }

  ghost predicate AllNew(p: Plan, d: Disk)
    requires |p.posts| == Size(p)
  {
    forall i | 0 <= i < Size(p) :: IsNew(p, d, i)
  }

  ghost predicate AllUndoable(p: Plan, d: Disk)
    requires |p.posts| == Size(p)
  {
    forall i | 0 <= i < Size(p) :: Undoable(p, d, i)
  }

  ghost predicate AllClean(p: Plan, d: Disk) {
    forall i | 0 <= i < Size(p) :: NoScrap(p, d, i)
  }

  function RecordLoc(id: string): Loc {
    Tx(id, Record)
  }

  /** The worktree fits the phase the journal records. */
  ghost predicate PhaseHolds(p: Plan, d: Disk, phase: Phase, done: bool)
    requires |p.posts| == Size(p)
  {
    match phase
    case Prepared => !done && AllOld(p, d)
    case Publishing => !done && AllUndoable(p, d)
    case Committed => done && AllNew(p, d)
  }

  ghost predicate IsLeftover(p: Plan, l: Loc) {
    InTx(p.id, l) || exists i | 0 <= i < Size(p) :: l == PathLoc(p, i, Temp) || l == PathLoc(p, i, Back)
  }

  /** No name of the transaction's own is a link, so every probe of one tells the truth. */
  ghost predicate Solid(p: Plan, d: Disk) {
    forall l | l in d && IsLeftover(p, l) :: !d[l].Link?
  }

  /** The invariant.  `done` says whether a Committed journal was ever put in place. */
  ghost predicate Recoverable(
    p: Plan, d: Disk, dirs: set<string>, done: bool, digest: string -> string, sizeOf: Journal -> nat)
  {
    && PlanOk(p) && PlanApart(p)
    && Framed(p, d) && Solid(p, d)
    && (dirs == p.dirs || dirs == p.dirs + {p.id})
    && (p.id !in dirs ==> forall item :: Tx(p.id, item) !in d)
    && (RecordLoc(p.id) !in d ==> AllClean(p, d) && if done then AllNew(p, d) else AllOld(p, d))
    && (RecordLoc(p.id) in d ==>
          && d[RecordLoc(p.id)].Log?
          && JournalOf(p, d[RecordLoc(p.id)].journal, digest)
          && sizeOf(d[RecordLoc(p.id)].journal) <= MAX_JOURNAL_BYTES
          && PhaseHolds(p, d, d[RecordLoc(p.id)].journal.phase, done))
  }

  // ---- moves inside one entry leave the rest alone ----

  ghost predicate OnlyEntry(p: Plan, d: Disk, d': Disk, i: nat)
    requires i < Size(p)
  {
    forall l {:trigger At(d', l)} ::
      (forall s :: l != PathLoc(p, i, s)) ==> At(d', l) == At(d, l)
  }

  lemma OtherEntries(p: Plan, d: Disk, d': Disk, i: nat, k: nat, s: Slot)
    requires PlanApart(p) && i < Size(p) && k < Size(p) && k != i && OnlyEntry(p, d, d', i)
    ensures At(d', PathLoc(p, k, s)) == At(d, PathLoc(p, k, s))
  {
    var l := PathLoc(p, k, s);
    assert forall u :: l != PathLoc(p, i, u);
  }

  lemma OtherEntryStates(p: Plan, d: Disk, d': Disk, i: nat, k: nat)
    requires PlanApart(p) && i < Size(p) == |p.posts| && k < Size(p) && k != i && OnlyEntry(p, d, d', i)
    ensures IsOld(p, d', k) <==> IsOld(p, d, k)
    ensures IsNew(p, d', k) <==> IsNew(p, d, k)
    ensures Undoable(p, d', k) <==> Undoable(p, d, k)
    ensures NoScrap(p, d', k) <==> NoScrap(p, d, k)
    ensures forall s :: At(d', PathLoc(p, k, s)) == At(d, PathLoc(p, k, s))
  {
    hide PathLoc;
    OtherEntries(p, d, d', i, k, Target);
    OtherEntries(p, d, d', i, k, Temp);
    OtherEntries(p, d, d', i, k, Back);
    forall s ensures At(d', PathLoc(p, k, s)) == At(d, PathLoc(p, k, s)) {
      OtherEntries(p, d, d', i, k, s);
    }
  }

  lemma FrameKept(p: Plan, d: Disk, d': Disk, i: nat)
    requires i < Size(p) && OnlyEntry(p, d, d', i) && Framed(p, d)
    ensures Framed(p, d')
    ensures forall item :: At(d', Tx(p.id, item)) == At(d, Tx(p.id, item))
  {
    hide PathLoc;
    forall l ensures !Touched(p, l) ==> At(d', l) == At(p.base, l) {
      if !Touched(p, l) {
        assert forall s :: l != PathLoc(p, i, s);
        assert At(d, l) == At(p.base, l);
      }
    }
    forall item ensures At(d', Tx(p.id, item)) == At(d, Tx(p.id, item)) {
      assert forall s :: Tx(p.id, item) != PathLoc(p, i, s) by { TxIsNoPath(p, i, item); }
    }
  }

  lemma TxIsNoPath(p: Plan, i: nat, item: Item)
    requires i < Size(p)
    ensures forall s :: Tx(p.id, item) != PathLoc(p, i, s)
  {
  }

  // ---- rollback ----

  /** One complete `rollback_entry` brings an undoable entry back to its pre-image, and it is
      always allowed to. */
  lemma UndoneIsOld(p: Plan, d: Disk, j: Journal, i: nat, digest: string -> string)
    requires PlanOk(p) && PlanApart(p) && JournalOf(p, j, digest) && i < Size(p)
    requires Undoable(p, d, i)
    ensures MayUndo(d, j.root, j.entries[i], digest)
    ensures IsOld(p, Undone(d, j.root, j.entries[i]), i)
    ensures OnlyEntry(p, d, Undone(d, j.root, j.entries[i]), i)
  {
    PlacesOf(p, j, digest, i, Target);
    PlacesOf(p, j, digest, i, Back);
    assert EntryFor(j.entries[i], p.id, i, p.patch.files[i]);
    assert TargetFits(p.base, p.root, p.patch.files[i]);
    assert PathLoc(p, i, Target) != PathLoc(p, i, Back);
    hide PathLoc, Place, PlanOk, FreshNames, WellFormed;
  }

  /** Between the two moves of a Modify rollback the entry is still undoable. */
  lemma HalfUndoneIsUndoable(p: Plan, d: Disk, i: nat)
    requires PlanOk(p) && PlanApart(p) && i < Size(p)
    requires Undoable(p, d, i) && Kind(p, i) == Modify && PathLoc(p, i, Back) in d
    ensures Undoable(p, d - {PathLoc(p, i, Target)}, i)
    ensures OnlyEntry(p, d, d - {PathLoc(p, i, Target)}, i)
  {
    assert PathLoc(p, i, Target) != PathLoc(p, i, Back);
    hide PathLoc, PlanOk;
  }

  // ---- publication ----

  ghost predicate TempReady(p: Plan, d: Disk, i: nat)
    requires i < Size(p) == |p.posts|
  {
    At(d, PathLoc(p, i, Temp)) == Post(p, i)
  }

  ghost predicate IsReady(p: Plan, d: Disk, i: nat)
    requires i < Size(p) == |p.posts|
  {
    IsOld(p, d, i) && TempReady(p, d, i)
  }

  ghost predicate IsPublished(p: Plan, d: Disk, i: nat)
    requires i < Size(p) == |p.posts|
  {
    && IsNew(p, d, i)
    && PathLoc(p, i, Temp) !in d
    && At(d, PathLoc(p, i, Back)) == (if Kind(p, i) == Add then None else Pre(p, i))
  }

  /** The first `k` entries are published, the others ready. */
  ghost predicate PublishedTo(p: Plan, d: Disk, k: nat)
    requires |p.posts| == Size(p)
  {
    && (forall i | 0 <= i < k && i < Size(p) :: IsPublished(p, d, i))
    && forall i | k <= i < Size(p) :: IsReady(p, d, i)
  }

  lemma PublishedToUndoable(p: Plan, d: Disk, k: nat)
    requires |p.posts| == Size(p) && PublishedTo(p, d, k)
    ensures AllUndoable(p, d)
    ensures k == Size(p) ==> AllNew(p, d)
  {
    hide PathLoc;
    forall i | 0 <= i < Size(p) ensures Undoable(p, d, i) {
      if i < k {
        assert IsPublished(p, d, i);
      } else {
        assert IsReady(p, d, i);
      }
    }
    if k == Size(p) {
      forall i | 0 <= i < Size(p) ensures IsNew(p, d, i) {
        assert IsPublished(p, d, i);
      }
    }
  }

  lemma ReadyPublishes(p: Plan, d: Disk, j: Journal, i: nat, digest: string -> string)
    requires PlanOk(p) && PlanApart(p) && JournalOf(p, j, digest) && i < Size(p) && IsReady(p, d, i)
    ensures PreHolds(d, j.root, j.entries[i], digest)
    ensures IsPublished(p, Published(d, j.root, j.entries[i]), i)
    ensures OnlyEntry(p, d, Published(d, j.root, j.entries[i]), i)
  {
    PlacesOf(p, j, digest, i, Target);
    PlacesOf(p, j, digest, i, Temp);
    PlacesOf(p, j, digest, i, Back);
    assert EntryFor(j.entries[i], p.id, i, p.patch.files[i]);
    assert TargetFits(p.base, p.root, p.patch.files[i]);
    assert PathLoc(p, i, Target) != PathLoc(p, i, Back) && PathLoc(p, i, Target) != PathLoc(p, i, Temp)
        && PathLoc(p, i, Temp) != PathLoc(p, i, Back);
    hide PathLoc, Place, PlanOk, PlanApart, FreshNames, WellFormed;
  }

  /** Between the two renames of a Modify the entry is undoable, and the rename back restores
      the disk exactly. */
  lemma HalfPublishedIsUndoable(p: Plan, d: Disk, i: nat)
    requires PlanOk(p) && PlanApart(p) && i < Size(p) && IsReady(p, d, i) && Kind(p, i) == Modify
    ensures var t, b := PathLoc(p, i, Target), PathLoc(p, i, Back);
            && Undoable(p, Moved(d, t, b), i)
            && OnlyEntry(p, d, Moved(d, t, b), i)
            && Moved(Moved(d, t, b), b, t) == d
  {
    assert TargetFits(p.base, p.root, p.patch.files[i]);
    assert PathLoc(p, i, Target) != PathLoc(p, i, Back);
    hide PathLoc, PlanOk, PlanApart;
  }

  lemma PublishedStep(p: Plan, d: Disk, d': Disk, k: nat)
    requires PlanApart(p) && k < Size(p) == |p.posts|
    requires PublishedTo(p, d, k) && OnlyEntry(p, d, d', k) && IsPublished(p, d', k)
    ensures PublishedTo(p, d', k + 1)
  {
    forall i | 0 <= i < Size(p) && i != k
      ensures IsPublished(p, d', i) <==> IsPublished(p, d, i)
      ensures IsReady(p, d', i) <==> IsReady(p, d, i)
    {
      OtherEntryStates(p, d, d', k, i);
    }
  }

  /** A move that leaves one entry undoable leaves all undoable. */
  lemma UndoableStep(p: Plan, d: Disk, d': Disk, k: nat)
    requires PlanApart(p) && k < Size(p) == |p.posts|
    requires AllUndoable(p, d) && OnlyEntry(p, d, d', k) && Undoable(p, d', k)
    ensures AllUndoable(p, d')
  {
    forall i | 0 <= i < Size(p) ensures Undoable(p, d', i) {
      if i != k {
        OtherEntryStates(p, d, d', k, i);
      }
    }
  }

  // ---- clearing up ----

  /** Only names of the transaction were removed, and the journal only after all the others. */
  ghost predicate Cleared(d: Disk, d': Disk, j: Journal, id: string) {
    && (forall l | l in d' :: l in d && d'[l] == d[l])
    && (forall l | l in d && l !in d' :: (IsScrap(j, l) && Exists(d, l)) || InTx(id, l))
    && (RecordLoc(id) in d && RecordLoc(id) !in d' ==> forall l | l in d' :: !(IsScrap(j, l) && Exists(d, l)))
  }

  lemma SolidSubset(p: Plan, d: Disk, d': Disk)
    requires Solid(p, d) && forall l | l in d' :: l in d && d'[l] == d[l]
    ensures Solid(p, d')
  {
  }

  /** A move inside one entry that leaves no link in its own names. */
  lemma SolidStep(p: Plan, d: Disk, d': Disk, i: nat)
    requires PlanApart(p) && i < Size(p) && OnlyEntry(p, d, d', i) && Solid(p, d)
    requires forall s | s != Target && PathLoc(p, i, s) in d' :: !d'[PathLoc(p, i, s)].Link?
    ensures Solid(p, d')
  {
    hide PathLoc, IsLeftover;
    forall l | l in d' && IsLeftover(p, l) ensures !d'[l].Link? {
      LeftoverOf(p, i, l);
      if forall s :: l != PathLoc(p, i, s) {
        assert At(d', l) == At(d, l);
      }
    }
  }

  lemma LeftoverOf(p: Plan, i: nat, l: Loc)
    requires PlanApart(p) && i < Size(p) && IsLeftover(p, l)
    ensures l != PathLoc(p, i, Target)
  {
  }

  lemma ScrapIsTouched(p: Plan, j: Journal, digest: string -> string, l: Loc)
    requires |p.posts| == Size(p) && JournalOf(p, j, digest) && PlanApart(p) && IsScrap(j, l)
    ensures Touched(p, l)
    ensures forall i | 0 <= i < Size(p) :: l != PathLoc(p, i, Target)
  {
    var i :| 0 <= i < |j.entries|
        && (l == Place(j.root, j.entries[i], Temp) || l == Place(j.root, j.entries[i], Back));
    PlacesOf(p, j, digest, i, Temp);
    PlacesOf(p, j, digest, i, Back);
  }

  lemma EntryScrap(p: Plan, j: Journal, digest: string -> string, i: nat)
    requires |p.posts| == Size(p) && JournalOf(p, j, digest) && i < Size(p)
    ensures IsScrap(j, PathLoc(p, i, Temp)) && IsScrap(j, PathLoc(p, i, Back))
  {
    PlacesOf(p, j, digest, i, Temp);
    PlacesOf(p, j, digest, i, Back);
  }

  /** Clearing up keeps every target and every foreign path. */
  lemma ClearedKeepsTargets(p: Plan, d: Disk, d': Disk, j: Journal, digest: string -> string)
    requires |p.posts| == Size(p) && JournalOf(p, j, digest) && PlanApart(p)
    requires Cleared(d, d', j, p.id)
    ensures Framed(p, d) ==> Framed(p, d')
    ensures forall i | 0 <= i < Size(p) ::
              && At(d', PathLoc(p, i, Target)) == At(d, PathLoc(p, i, Target))
              && (PathLoc(p, i, Back) !in d ==> PathLoc(p, i, Back) !in d')
  {
    hide PathLoc, IsScrap;
    forall l ensures !Touched(p, l) ==> At(d', l) == At(d, l) {
      if IsScrap(j, l) {
        ScrapIsTouched(p, j, digest, l);
      }
    }
    forall i | 0 <= i < Size(p) ensures At(d', PathLoc(p, i, Target)) == At(d, PathLoc(p, i, Target)) {
      var t := PathLoc(p, i, Target);
      if IsScrap(j, t) {
        ScrapIsTouched(p, j, digest, t);
      }
      TargetsAreWork(p, i);
    }
  }

  lemma TargetsAreWork(p: Plan, i: nat)
    requires i < Size(p)
    ensures forall s :: PathLoc(p, i, s).Work?
  {
  }

  lemma ClearedStates(p: Plan, d: Disk, d': Disk, j: Journal, done: bool, digest: string -> string)
    requires |p.posts| == Size(p) && JournalOf(p, j, digest) && PlanApart(p) && Cleared(d, d', j, p.id)
    requires Solid(p, d) && RecordLoc(p.id) in d && if done then AllNew(p, d) else AllOld(p, d)
    ensures RecordLoc(p.id) !in d' ==> AllClean(p, d')
    ensures if done then AllNew(p, d') else AllOld(p, d')
  {
    ClearedKeepsTargets(p, d, d', j, digest);
    forall i | 0 <= i < Size(p)
      ensures IsScrap(j, PathLoc(p, i, Temp)) && IsScrap(j, PathLoc(p, i, Back))
      ensures PathLoc(p, i, Temp) in d ==> Exists(d, PathLoc(p, i, Temp))
      ensures PathLoc(p, i, Back) in d ==> Exists(d, PathLoc(p, i, Back))
    {
      EntryScrap(p, j, digest, i);
      OwnNamesExist(p, d, i);
    }
    hide PathLoc, IsScrap, PlanApart, JournalOf, Solid, Exists, Framed;
    forall i | 0 <= i < Size(p)
      ensures RecordLoc(p.id) !in d' ==> NoScrap(p, d', i)
      ensures if done then IsNew(p, d', i) else IsOld(p, d', i)
    {
      assert if done then IsNew(p, d, i) else IsOld(p, d, i);
    }
  }

  /** The probes of the transaction's own names tell the truth. */
  lemma OwnNamesExist(p: Plan, d: Disk, i: nat)
    requires Solid(p, d) && i < Size(p)
    ensures PathLoc(p, i, Temp) in d ==> Exists(d, PathLoc(p, i, Temp))
    ensures PathLoc(p, i, Back) in d ==> Exists(d, PathLoc(p, i, Back))
  {
    assert IsLeftover(p, PathLoc(p, i, Temp)) && IsLeftover(p, PathLoc(p, i, Back));
  }

  lemma ClearedIsRecoverable(p: Plan, d: Disk, d': Disk, dirs: set<string>, done: bool,
                             digest: string -> string, sizeOf: Journal -> nat)
    requires Recoverable(p, d, dirs, done, digest, sizeOf) && RecordLoc(p.id) in d && p.id in dirs
    requires Cleared(d, d', d[RecordLoc(p.id)].journal, p.id)
    requires !done ==> AllOld(p, d)
    ensures Recoverable(p, d', dirs, done, digest, sizeOf)
  {
    var j := d[RecordLoc(p.id)].journal;
    ClearedKeepsTargets(p, d, d', j, digest);
    ClearedStates(p, d, d', j, done, digest);
    SolidSubset(p, d, d');
    OldIsUndoable(p, d');
    hide PathLoc, IsScrap, PlanOk, PlanApart, JournalOf, Framed, Solid, AllOld, AllNew, AllClean, AllUndoable;
  }

  lemma OldIsUndoable(p: Plan, d: Disk)
    requires |p.posts| == Size(p)
    ensures AllOld(p, d) ==> AllUndoable(p, d)
  {
    hide PathLoc;
  }

  /** The directory itself goes last. */
  lemma DirectoryGone(p: Plan, d: Disk, dirs: set<string>, done: bool,
                      digest: string -> string, sizeOf: Journal -> nat)
    requires Recoverable(p, d, dirs, done, digest, sizeOf)
    requires forall l | l in d :: !InTx(p.id, l)
    ensures Recoverable(p, d, dirs - {p.id}, done, digest, sizeOf)
  {
    assert forall item :: InTx(p.id, Tx(p.id, item));
    hide PathLoc, PlanApart, Framed, JournalOf;
    assert p.id !in p.dirs;
  }

  /** Without a journal there is nothing left to decide: entries of the directory may go. */
  lemma RemovalIsRecoverable(p: Plan, d: Disk, d': Disk, dirs: set<string>, done: bool,
                             digest: string -> string, sizeOf: Journal -> nat)
    requires Recoverable(p, d, dirs, done, digest, sizeOf) && RecordLoc(p.id) !in d && p.id in dirs
    requires forall l | l in d' :: l in d && d'[l] == d[l]
    requires forall l | l in d && l !in d' :: InTx(p.id, l)
    ensures Recoverable(p, d', dirs, done, digest, sizeOf)
    ensures Backlog(p, d', done) <= Backlog(p, d, done)
  {
    forall l ensures !InTx(p.id, l) ==> At(d', l) == At(d, l) {
    }
    forall i | 0 <= i < Size(p)
      ensures forall s :: At(d', PathLoc(p, i, s)) == At(d, PathLoc(p, i, s))
      ensures NoScrap(p, d', i) && (IsOld(p, d, i) ==> IsOld(p, d', i)) && (IsNew(p, d, i) ==> IsNew(p, d', i))
    {
      TargetsAreWork(p, i);
      assert NoScrap(p, d, i);
      assert forall s :: !InTx(p.id, PathLoc(p, i, s));
    }
    hide PathLoc, PlanOk, PlanApart, JournalOf;
    assert Framed(p, d') by {
      forall l ensures !Touched(p, l) ==> At(d', l) == At(p.base, l) {
        assert !Touched(p, l) ==> At(d, l) == At(p.base, l);
      }
    }
  }

  // ---- the end ----

  /** The disk once the first `k` changes have happened. */
  function PostImage(p: Plan, k: nat): Disk
    requires k <= Size(p) == |p.posts|
  {
    if k == 0 then p.base
    else
      var t := PathLoc(p, k - 1, Target);
      if Kind(p, k - 1) == Delete then PostImage(p, k - 1) - {t}
      else PostImage(p, k - 1)[t := Data(p.posts[k - 1])]
  }

  lemma {:induction false} PostImageAt(p: Plan, k: nat, l: Loc)
    requires PlanApart(p) && k <= Size(p) == |p.posts|
    ensures (forall i | 0 <= i < k :: PathLoc(p, i, Target) != l) ==> At(PostImage(p, k), l) == At(p.base, l)
    ensures forall i | 0 <= i < k :: PathLoc(p, i, Target) == l ==> At(PostImage(p, k), l) == Post(p, i)
  {
    if k > 0 {
      PostImageAt(p, k - 1, l);
    }
  }

  lemma SameDisk(d: Disk, e: Disk)
    requires forall l :: At(d, l) == At(e, l)
    ensures d == e
  {
    forall l ensures l in d <==> l in e {
      assert At(d, l) == At(e, l);
    }
    forall l | l in d ensures d[l] == e[l] {
      assert At(d, l) == At(e, l);
    }
  }

  /** Two ways to say that a patch changes nothing. */
  lemma NothingChanged(p: Plan)
    requires PlanApart(p) && |p.posts| == Size(p)
    ensures PostImage(p, Size(p)) == p.base <==> forall i | 0 <= i < Size(p) :: Post(p, i) == Pre(p, i)
  {
    hide PlanApart;
    var goal := PostImage(p, Size(p));
    if goal == p.base {
      forall i | 0 <= i < Size(p) ensures Post(p, i) == Pre(p, i) {
        PostImageAt(p, Size(p), PathLoc(p, i, Target));
      }
    }
    if forall i | 0 <= i < Size(p) :: Post(p, i) == Pre(p, i) {
      forall l ensures At(goal, l) == At(p.base, l) {
        PostImageAt(p, Size(p), l);
      }
      SameDisk(goal, p.base);
    }
  }

  /** Crash atomicity, on disks: once the transaction directory is gone the whole disk is either
      exactly what it was before Apply or exactly that with every change made, and it is the
      latter precisely when a Committed journal was put in place. */
  lemma ResolvedIsAllOrNothing(p: Plan, d: Disk, dirs: set<string>, done: bool,
                               digest: string -> string, sizeOf: Journal -> nat)
    requires Recoverable(p, d, dirs, done, digest, sizeOf) && p.id !in dirs
    ensures dirs == p.dirs
    ensures d == if done then PostImage(p, Size(p)) else p.base
  {
    var goal := if done then PostImage(p, Size(p)) else p.base;
    assert forall item :: Tx(p.id, item) !in p.base;
    assert RecordLoc(p.id) !in d;
    forall l ensures At(d, l) == At(goal, l) {
      PostImageAt(p, Size(p), l);
      ResolvedAt(p, d, done, l);
    }
    SameDisk(d, goal);
  }

  lemma ResolvedAt(p: Plan, d: Disk, done: bool, l: Loc)
    requires PlanOk(p) && PlanApart(p) && Framed(p, d)
    requires AllClean(p, d) && if done then AllNew(p, d) else AllOld(p, d)
    requires forall item :: Tx(p.id, item) !in d
    ensures (forall i | 0 <= i < Size(p) :: PathLoc(p, i, Target) != l) ==> At(d, l) == At(p.base, l)
    ensures forall i | 0 <= i < Size(p) :: PathLoc(p, i, Target) == l ==>
              At(d, l) == if done then Post(p, i) else At(p.base, l)
  {
    if InTx(p.id, l) {
      assert Tx(p.id, l.item) !in d && Tx(p.id, l.item) !in p.base;
      assert forall i | 0 <= i < Size(p) :: PathLoc(p, i, Target).Work?;
    } else if Touched(p, l) {
      var i, s :| 0 <= i < Size(p) && PathLoc(p, i, s) == l;
      FreshPlaces(p, i);
      assert NoScrap(p, d, i);
      assert if done then IsNew(p, d, i) else IsOld(p, d, i);
      assert forall k | 0 <= k < Size(p) && PathLoc(p, k, Target) == l :: k == i && s == Target;
      assert s == Target || s == Temp || s == Back;
    } else {
      forall i | 0 <= i < Size(p) ensures PathLoc(p, i, Target) != l {
        assert Touched(p, PathLoc(p, i, Target));
      }
    }
  }

  lemma FreshPlaces(p: Plan, i: nat)
    requires PlanOk(p) && i < Size(p)
    ensures PathLoc(p, i, Temp) !in p.base && PathLoc(p, i, Back) !in p.base
  {
  }

  /** Pre-image conservation: until a Committed journal is in place, every Modify and Delete
      pre-image is on disk unaltered, at its target or in its backup; and at both exactly once
      the entry is published and the patch does not change it. */
  lemma PreimagesAreConserved(p: Plan, d: Disk, dirs: set<string>,
                              digest: string -> string, sizeOf: Journal -> nat, i: nat)
    requires Recoverable(p, d, dirs, false, digest, sizeOf) && i < Size(p) && Kind(p, i) != Add
    ensures Pre(p, i).Some?
    ensures At(d, PathLoc(p, i, Target)) == Pre(p, i) || At(d, PathLoc(p, i, Back)) == Pre(p, i)
    ensures At(d, PathLoc(p, i, Target)) == Pre(p, i) && At(d, PathLoc(p, i, Back)) == Pre(p, i)
       <==> PathLoc(p, i, Back) in d && IsNew(p, d, i) && Post(p, i) == Pre(p, i)
    ensures IsPublished(p, d, i) && Post(p, i) == Pre(p, i) ==>
              At(d, PathLoc(p, i, Target)) == Pre(p, i) && At(d, PathLoc(p, i, Back)) == Pre(p, i)
  {
    assert TargetFits(p.base, p.root, p.patch.files[i]);
    hide PathLoc, PlanApart, Framed, JournalOf;
    assert Undoable(p, d, i) by {
      assert AllOld(p, d) ==> IsOld(p, d, i);
    }
  }

  // ---- edits by others ----

  /** Others have changed the worktree, in whatever way, but not the state root. */
  ghost predicate WorktreeEdited(d: Disk, d': Disk) {
    forall l: Loc {:trigger At(d', l)} :: l.Tx? ==> At(d', l) == At(d, l)
  }

  /** The target holds something recovery has no right to remove. */
  ghost predicate Foreign(d: Disk, root: string, e: JournalEntry, digest: string -> string) {
    var t := Place(root, e, Target);
    t in d && !(e.kind != Delete && HashIs(d, t, e.postHash, digest))
  }

  /** Every such target is kept, content and all. */
  ghost predicate Spares(d: Disk, d': Disk, j: Journal, digest: string -> string) {
    forall i | 0 <= i < |j.entries| ::
      Foreign(d, j.root, j.entries[i], digest) ==>
      At(d', Place(j.root, j.entries[i], Target)) == At(d, Place(j.root, j.entries[i], Target))
  }

  /** The one target rollback destroys: a link that leads nowhere, which its probe takes for
      absence, while the backup waits to be renamed over it. */
  predicate Veiled(d: Disk, root: string, e: JournalEntry) {
    var t, b := Place(root, e, Target), Place(root, e, Back);
    e.kind != Add && Exists(d, b) && t in d && !Exists(d, t)
  }

  /** Rollback, last entry first, gets to a veiled entry before anything stops it. */
  ghost predicate Endangered(d: Disk, j: Journal, n: nat, digest: string -> string)
    requires n <= |j.entries|
  {
    exists i | 0 <= i < n :: Veiled(d, j.root, j.entries[i])
      && forall k | i < k < n :: MayUndo(d, j.root, j.entries[k], digest)
  }

  /** Recovery of this journal will destroy a foreign target. */
  ghost predicate Overwrites(d: Disk, j: Journal, digest: string -> string) {
    j.phase == Publishing && Endangered(d, j, |j.entries|, digest)
  }

  lemma SparesCompose(a: Disk, b: Disk, c: Disk, j: Journal, digest: string -> string)
    requires Spares(a, b, j, digest) && Spares(b, c, j, digest)
    ensures Spares(a, c, j, digest)
  {
    hide Place;
    forall i | 0 <= i < |j.entries| && Foreign(a, j.root, j.entries[i], digest)
      ensures At(c, Place(j.root, j.entries[i], Target)) == At(a, Place(j.root, j.entries[i], Target))
    {
      assert Foreign(b, j.root, j.entries[i], digest);
    }
  }

  /** What `rollback_entry` may have done by the time it returns or is cut. */
  ghost predicate RolledBack(d: Disk, d': Disk, root: string, e: JournalEntry, digest: string -> string) {
    || d' == d
    || (MayUndo(d, root, e, digest)
        && (d' == Undone(d, root, e)
            || (e.kind == Modify && Exists(d, Place(root, e, Back)) && Exists(d, Place(root, e, Target))
                && d' == d - {Place(root, e, Target)})))
  }

  /** One rollback, whole or cut, spares every foreign target unless its own is veiled, and does
      not touch what decides about the others. */
  lemma RollbackSpares(d: Disk, d': Disk, j: Journal, k: nat, digest: string -> string)
    requires Apart(j.root, j.entries) && k < |j.entries|
    requires RolledBack(d, d', j.root, j.entries[k], digest)
    ensures !Veiled(d, j.root, j.entries[k]) ==> Spares(d, d', j, digest)
    ensures forall i | 0 <= i < |j.entries| && i != k ::
              && (MayUndo(d', j.root, j.entries[i], digest) <==> MayUndo(d, j.root, j.entries[i], digest))
              && (Veiled(d', j.root, j.entries[i]) <==> Veiled(d, j.root, j.entries[i]))
              && At(d', Place(j.root, j.entries[i], Target)) == At(d, Place(j.root, j.entries[i], Target))
  {
    forall i | 0 <= i < |j.entries|
      ensures i != k ==> && At(d', Place(j.root, j.entries[i], Target)) == At(d, Place(j.root, j.entries[i], Target))
                         && At(d', Place(j.root, j.entries[i], Back)) == At(d, Place(j.root, j.entries[i], Back))
    {
      assert i != k ==> && Place(j.root, j.entries[i], Target) != Place(j.root, j.entries[k], Target)
                        && Place(j.root, j.entries[i], Target) != Place(j.root, j.entries[k], Back)
                        && Place(j.root, j.entries[i], Back) != Place(j.root, j.entries[k], Target)
                        && Place(j.root, j.entries[i], Back) != Place(j.root, j.entries[k], Back);
    }
    assert Place(j.root, j.entries[k], Target) != Place(j.root, j.entries[k], Back);
    hide Place, Apart;
  }

  lemma ClearedSpares(d: Disk, d': Disk, j: Journal, id: string, digest: string -> string)
    requires Apart(j.root, j.entries) && Cleared(d, d', j, id)
    ensures Spares(d, d', j, digest)
  {
    forall i | 0 <= i < |j.entries| ensures !IsScrap(j, Place(j.root, j.entries[i], Target)) {
    }
    hide Apart, IsScrap;
    assert forall i | 0 <= i < |j.entries| :: Place(j.root, j.entries[i], Target).Work?;
    hide Place;
  }

  lemma PlanEntriesApart(p: Plan, j: Journal, digest: string -> string)
    requires |p.posts| == Size(p) && PlanApart(p) && JournalOf(p, j, digest)
    ensures Apart(j.root, j.entries)
  {
    hide PathLoc, Place;
    forall i, s, k, u | 0 <= i < |j.entries| && 0 <= k < |j.entries|
                     && Place(j.root, j.entries[i], s) == Place(j.root, j.entries[k], u)
      ensures i == k && s == u
    {
      PlacesOf(p, j, digest, i, s);
      PlacesOf(p, j, digest, k, u);
    }
  }

  /** With a collision-free hash, what recovery may remove is the recorded post-image itself. */
  lemma ForeignIsNotThePostImage(p: Plan, d: Disk, j: Journal, i: nat, digest: string -> string)
    requires |p.posts| == Size(p) && JournalOf(p, j, digest) && i < Size(p)
    requires forall a, b :: digest(a) == digest(b) ==> a == b
    requires PathLoc(p, i, Target) in d
    ensures Foreign(d, j.root, j.entries[i], digest) <==> At(d, PathLoc(p, i, Target)) != Post(p, i)
  {
    PlacesOf(p, j, digest, i, Target);
    assert EntryFor(j.entries[i], p.id, i, p.patch.files[i]);
    hide PathLoc, Place;
  }

  /** With a collision-free hash the checks before and after publication see the recorded images
      themselves, and nothing else: an entry is published over its very pre-image, and rolled
      forward on its very post-image. */
  lemma ChecksSeeTheImages(p: Plan, d: Disk, j: Journal, i: nat, digest: string -> string)
    requires PlanOk(p) && JournalOf(p, j, digest) && i < Size(p)
    requires forall a, b :: digest(a) == digest(b) ==> a == b
    ensures var t := PathLoc(p, i, Target);
            && (PreHolds(d, j.root, j.entries[i], digest) <==>
                  if Kind(p, i) == Add then !Exists(d, t) else At(d, t) == Pre(p, i))
            && (PostHolds(d, j.root, j.entries[i], digest) <==>
                  if Kind(p, i) == Delete then !Exists(d, t) else At(d, t) == Post(p, i))
  {
    PlacesOf(p, j, digest, i, Target);
    assert EntryFor(j.entries[i], p.id, i, p.patch.files[i]);
    assert TargetFits(p.base, p.root, p.patch.files[i]);
    hide PathLoc, Place, PlanOk;
  }

  // ---- what is left to do ----

  /** The transaction's own files still on disk, and the targets not yet brought back. */
  ghost function Backlog(p: Plan, d: Disk, done: bool): set<Loc> {
    (set l | l in d && IsLeftover(p, l))
    + (set i | 0 <= i < Size(p) && !done && !IsOld(p, d, i) :: PathLoc(p, i, Target))
  }

  /** One rollback, whole or cut, of an undoable entry. */
  lemma RollbackMoves(p: Plan, d: Disk, d': Disk, j: Journal, k: nat, digest: string -> string)
    requires PlanOk(p) && PlanApart(p) && JournalOf(p, j, digest) && k < Size(p) && Undoable(p, d, k)
    requires RolledBack(d, d', j.root, j.entries[k], digest)
    ensures Undoable(p, d', k) && OnlyEntry(p, d, d', k)
    ensures IsOld(p, d, k) ==> IsOld(p, d', k)
    ensures forall l | l in d' && l != PathLoc(p, k, Target) :: l in d
  {
    PlacesOf(p, j, digest, k, Target);
    PlacesOf(p, j, digest, k, Back);
    assert EntryFor(j.entries[k], p.id, k, p.patch.files[k]);
    UndoneIsOld(p, d, j, k, digest);
    var t, b := PathLoc(p, k, Target), PathLoc(p, k, Back);
    if d' == d - {t} && Kind(p, k) == Modify && b in d {
      HalfUndoneIsUndoable(p, d, k);
    }
    hide PathLoc, Place, PlanOk, PlanApart, JournalOf, MayUndo;
  }

  /** Recovery's moves only ever shorten the backlog. */
  lemma RollbackShortensBacklog(p: Plan, d: Disk, d': Disk, j: Journal, k: nat, digest: string -> string)
    requires PlanOk(p) && PlanApart(p) && JournalOf(p, j, digest) && k < Size(p) && Undoable(p, d, k)
    requires RolledBack(d, d', j.root, j.entries[k], digest)
    ensures Undoable(p, d', k) && OnlyEntry(p, d, d', k)
    ensures Backlog(p, d', false) <= Backlog(p, d, false)
  {
    RollbackMoves(p, d, d', j, k, digest);
    TargetIsNoLeftover(p, k);
    forall i | 0 <= i < Size(p) && i != k ensures IsOld(p, d', i) <==> IsOld(p, d, i) {
      OtherEntryStates(p, d, d', k, i);
    }
    hide PathLoc, PlanOk, PlanApart, JournalOf, RolledBack, Undoable, OnlyEntry, IsOld, IsLeftover;
  }

  lemma TargetIsNoLeftover(p: Plan, k: nat)
    requires PlanApart(p) && k < Size(p)
    ensures !IsLeftover(p, PathLoc(p, k, Target))
  {
  }

  lemma ClearingShortensBacklog(p: Plan, d: Disk, d': Disk, j: Journal, done: bool, digest: string -> string)
    requires |p.posts| == Size(p) && JournalOf(p, j, digest) && PlanApart(p)
    requires Cleared(d, d', j, p.id)
    ensures Backlog(p, d', done) <= Backlog(p, d, done)
  {
    ClearedKeepsTargets(p, d, d', j, digest);
    hide PathLoc, IsScrap, JournalOf;
    forall i | 0 <= i < Size(p) && !IsOld(p, d', i) ensures !IsOld(p, d, i) {
    }
  }

  lemma ResolvedHasNoBacklog(p: Plan, d: Disk, dirs: set<string>, done: bool,
                             digest: string -> string, sizeOf: Journal -> nat)
    requires Recoverable(p, d, dirs, done, digest, sizeOf) && p.id !in dirs
    ensures Backlog(p, d, done) == {}
  {
    hide PathLoc, PlanOk, PlanApart, Framed;
    assert RecordLoc(p.id) !in d;
    forall i | 0 <= i < Size(p) ensures PathLoc(p, i, Temp) !in d && PathLoc(p, i, Back) !in d {
      assert NoScrap(p, d, i);
    }
    forall l | l in d ensures !InTx(p.id, l) {
      assert l.Tx? ==> l == Tx(l.id, l.item);
    }
    assert forall l | l in d :: !IsLeftover(p, l);
  }

  // ---- before and after the first journal ----

  /** Only the transaction directory has been touched, and it holds no journal yet. */
  ghost predicate BeforeJournal(p: Plan, d: Disk) {
    && RecordLoc(p.id) !in d
    && (forall l {:trigger At(d, l)} :: !InTx(p.id, l) ==> At(d, l) == At(p.base, l))
    && forall l | l in d && InTx(p.id, l) :: !d[l].Link?
  }

  lemma SolidIfClean(p: Plan, d: Disk)
    requires AllClean(p, d) && forall l | l in d && InTx(p.id, l) :: !d[l].Link?
    ensures Solid(p, d)
  {
    hide PathLoc;
    forall i | 0 <= i < Size(p) ensures PathLoc(p, i, Temp) !in d && PathLoc(p, i, Back) !in d {
      assert NoScrap(p, d, i);
    }
  }

  lemma BeforeJournalIsOld(p: Plan, d: Disk)
    requires PlanOk(p) && BeforeJournal(p, d)
    ensures AllOld(p, d) && AllClean(p, d) && Framed(p, d) && Solid(p, d)
  {
    forall i | 0 <= i < Size(p) ensures IsOld(p, d, i) && NoScrap(p, d, i) {
      FreshPlaces(p, i);
      TargetsAreWork(p, i);
      assert forall s :: At(d, PathLoc(p, i, s)) == At(p.base, PathLoc(p, i, s));
    }
    SolidIfClean(p, d);
  }

  lemma BeforeJournalIsRecoverable(p: Plan, d: Disk, digest: string -> string, sizeOf: Journal -> nat)
    requires PlanOk(p) && BeforeJournal(p, d)
    ensures Recoverable(p, d, p.dirs + {p.id}, false, digest, sizeOf)
  {
    PlacesAreApart(p);
    BeforeJournalIsOld(p, d);
  }

  /** Replacing the journal keeps the invariant as long as the worktree fits the new phase. */
  lemma JournalWritten(p: Plan, d: Disk, d': Disk, j: Journal, done: bool,
                       digest: string -> string, sizeOf: Journal -> nat)
    requires PlanOk(p) && PlanApart(p) && Framed(p, d) && Solid(p, d) && PhaseHolds(p, d, j.phase, done)
    requires forall l {:trigger At(d', l)} :: !InTx(p.id, l) ==> At(d', l) == At(d, l)
    requires forall l | l in d' && InTx(p.id, l) :: !d'[l].Link?
    requires At(d', RecordLoc(p.id)) == Some(Log(j))
    requires JournalOf(p, j, digest) && sizeOf(j) <= MAX_JOURNAL_BYTES
    ensures Recoverable(p, d', p.dirs + {p.id}, done, digest, sizeOf)
  {
    WorktreeKept(p, d, d');
    SolidOutside(p, d, d');
    assert p.id in p.dirs + {p.id};
    hide PathLoc, PlanOk, PlanApart, JournalOf;
  }

  lemma SolidOutside(p: Plan, d: Disk, d': Disk)
    requires Solid(p, d)
    requires forall l {:trigger At(d', l)} :: !InTx(p.id, l) ==> At(d', l) == At(d, l)
    requires forall l | l in d' && InTx(p.id, l) :: !d'[l].Link?
    ensures Solid(p, d')
  {
    hide IsLeftover;
    forall l | l in d' && IsLeftover(p, l) ensures !d'[l].Link? {
      assert !InTx(p.id, l) ==> At(d', l) == At(d, l);
    }
  }

  /** Changes inside the transaction directory leave every entry as it was. */
  lemma WorktreeKept(p: Plan, d: Disk, d': Disk)
    requires |p.posts| == Size(p)
    requires forall l {:trigger At(d', l)} :: !InTx(p.id, l) ==> At(d', l) == At(d, l)
    ensures forall i, s | 0 <= i < Size(p) :: At(d', PathLoc(p, i, s)) == At(d, PathLoc(p, i, s))
    ensures Framed(p, d) ==> Framed(p, d')
    ensures AllOld(p, d') <==> AllOld(p, d)
    ensures AllNew(p, d') <==> AllNew(p, d)
    ensures AllUndoable(p, d') <==> AllUndoable(p, d)
    ensures forall k :: PublishedTo(p, d', k) <==> PublishedTo(p, d, k)
  {
    forall i, s | 0 <= i < Size(p) ensures At(d', PathLoc(p, i, s)) == At(d, PathLoc(p, i, s)) {
      TargetsAreWork(p, i);
      assert !InTx(p.id, PathLoc(p, i, s));
    }
    hide PathLoc;
    forall i | 0 <= i < Size(p)
      ensures IsOld(p, d', i) <==> IsOld(p, d, i)
      ensures IsNew(p, d', i) <==> IsNew(p, d, i)
      ensures Undoable(p, d', i) <==> Undoable(p, d, i)
      ensures IsPublished(p, d', i) <==> IsPublished(p, d, i)
      ensures IsReady(p, d', i) <==> IsReady(p, d, i)
    {
      assert At(d', PathLoc(p, i, Target)) == At(d, PathLoc(p, i, Target));
      assert At(d', PathLoc(p, i, Back)) == At(d, PathLoc(p, i, Back));
      assert At(d', PathLoc(p, i, Temp)) == At(d, PathLoc(p, i, Temp));
    }
  }
}
