/** The Apply transaction and its recovery (crates/premonition-core/src/apply.rs), step by step on
    a disk whose every operation may fail or be the last before a crash. */
module Apply {
  import opened Text
  import opened SafePaths
  import opened DiffGrammar
  import opened Diff
  import opened Patches
  import opened Journals
  import opened TransactionState
  import opened Recoverables
  import opened Undisturbed
  import opened Worlds
  import opened Staging
  import Snapshots

  class ApplyEngine {
    const w: World

    constructor (w: World)
      ensures this.w == w
    {
      this.w := w;
    }

    // ---- one entry ----

    method VerifyPre(root: string, e: JournalEntry) returns (r: Outcome<()>)
      modifies w`fates, w`failures
      ensures r.Success? ==> w.failures == old(w.failures)
      ensures r.Success? ==> PreHolds(w.disk, root, e, w.digest)
      ensures r.Failure? ==> r.error == Stale
      ensures old(w.Quiet()) ==> w.Quiet() && !r.Crashed? && (PreHolds(w.disk, root, e, w.digest) ==> r.Success?)
    {
      var t := Place(root, e, Target);
      if e.kind == Add && e.preHash.None? && !Exists(w.disk, t) {
        return Success(());
      }
      if e.kind != Add && e.preHash.Some? {
        var actual := w.HashFile(t);
        if actual.Crashed? {
          return Crashed;
        }
        if actual.Success? && actual.value == e.preHash.value {
          return Success(());
        }
      }
      return Failure(Stale);
    }

    method VerifyPost(root: string, e: JournalEntry) returns (r: Outcome<()>)
      modifies w`fates, w`failures
      ensures r.Success? ==> w.failures == old(w.failures)
      ensures r.Success? ==> PostHolds(w.disk, root, e, w.digest)
      ensures r.Failure? ==> r.error == RecoveryRequired
      ensures old(w.Quiet()) ==> w.Quiet() && !r.Crashed? && (PostHolds(w.disk, root, e, w.digest) ==> r.Success?)
    {
      var t := Place(root, e, Target);
      if e.kind == Delete && e.postHash.None? && !Exists(w.disk, t) {
        return Success(());
      }
      if e.kind != Delete && e.postHash.Some? {
        var actual := w.HashFile(t);
        if actual.Crashed? {
          return Crashed;
        }
        if actual.Success? && actual.value == e.postHash.value {
          return Success(());
        }
      }
      return Failure(RecoveryRequired);
    }

    /** Everything `publish_entry` may leave behind. */
    ghost predicate PublishLeaves(d: Disk, d': Disk, root: string, e: JournalEntry) {
      var t, b := Place(root, e, Target), Place(root, e, Back);
      || d' == d
      || d' == Published(d, root, e)
      || (e.kind == Modify && (d' == Moved(d, t, b) || d' == Moved(Moved(d, t, b), b, t)))
    }

    method PublishEntry(root: string, e: JournalEntry) returns (r: Outcome<()>)
      modifies w`fates, w`failures, w`disk, w`committed
      ensures r.Success? ==> w.failures == old(w.failures)
      ensures PublishLeaves(old(w.disk), w.disk, root, e)
      ensures !PreHolds(old(w.disk), root, e, w.digest) ==> !r.Success? && w.disk == old(w.disk)
      ensures w.committed == old(w.committed)
      ensures r.Success? ==> PreHolds(old(w.disk), root, e, w.digest) && w.disk == Published(old(w.disk), root, e)
      ensures r.Success? ==> Folder(root, e.relative) !in w.unsyncable
      ensures r.Failure? ==> r.error in {State, Stale, RecoveryRequired}
      ensures old(w.Quiet()) ==> w.Quiet() && !r.Crashed?
      ensures (old(w.Quiet()) && PreHolds(old(w.disk), root, e, w.digest)
               && (e.kind != Delete ==> Place(root, e, Temp) in old(w.disk))
               && Place(root, e, Temp) != Place(root, e, Target)
               && Place(root, e, Temp) != Place(root, e, Back)
               && Folder(root, e.relative) !in w.unsyncable) ==> r.Success?
    {
      var t, n, b := Place(root, e, Target), Place(root, e, Temp), Place(root, e, Back);
      var _ :- VerifyPre(root, e);
      var io;
      match e.kind {
        case Add =>
          io := w.Rename(n, t);
        case Modify =>
          io := w.Rename(t, b);
          var _ :- Try(io, State);
          io := w.Rename(n, t);
          if io == Failed {
            io := w.Rename(b, t);
            var _ :- Try(io, RecoveryRequired);
            return Failure(State);
          }
        case Delete =>
          io := w.Rename(t, b);
      }
      var _ :- Try(io, State);
      io := w.Sync(Folder(root, e.relative));
      var _ :- Try(io, State);
      return Success(());
    }

    method RollbackEntry(root: string, e: JournalEntry) returns (r: Outcome<()>)
      requires Place(root, e, Target) != Place(root, e, Back)
      modifies w`fates, w`failures, w`disk, w`committed
      ensures r.Success? ==> w.failures == old(w.failures)
      ensures RolledBack(old(w.disk), w.disk, root, e, w.digest)
      ensures w.committed == old(w.committed)
      ensures r.Success? ==> MayUndo(old(w.disk), root, e, w.digest) && w.disk == Undone(old(w.disk), root, e)
      ensures r.Success? ==> Folder(root, e.relative) !in w.unsyncable
      ensures r.Failure? ==> r.error == RecoveryRequired
      ensures old(w.Quiet()) ==>
                && w.Quiet() && !r.Crashed?
                && (r.Success? <==> MayUndo(old(w.disk), root, e, w.digest) && Folder(root, e.relative) !in w.unsyncable)
                && w.disk == if MayUndo(old(w.disk), root, e, w.digest) then Undone(old(w.disk), root, e) else old(w.disk)
    {
      var t, b := Place(root, e, Target), Place(root, e, Back);
      var io;
      match e.kind {
        case Add =>
          if Exists(w.disk, t) {
            var _ :- VerifyPost(root, e);
            io := w.Remove(t);
            var _ :- Try(io, RecoveryRequired);
          }
        case Modify =>
          if Exists(w.disk, b) {
            if Exists(w.disk, t) {
              var _ :- VerifyPost(root, e);
              io := w.Remove(t);
              var _ :- Try(io, RecoveryRequired);
            }
            io := w.Rename(b, t);
            var _ :- Try(io, RecoveryRequired);
          }
        case Delete =>
          if Exists(w.disk, b) {
            if Exists(w.disk, t) {
              return Failure(RecoveryRequired);
            }
            io := w.Rename(b, t);
            var _ :- Try(io, RecoveryRequired);
          }
      }
      io := w.Sync(Folder(root, e.relative));
      var _ :- Try(io, RecoveryRequired);
      return Success(());
    }

    // ---- the transaction directory ----

    method WriteJournal(id: string, j: Journal) returns (r: Outcome<()>)
      modifies w`fates, w`failures, w`disk, w`committed
      ensures r.Success? ==> w.failures == old(w.failures)
      ensures w.disk - {Tx(id, Scratch), RecordLoc(id)} == old(w.disk) - {Tx(id, Scratch), RecordLoc(id)}
      ensures || (At(w.disk, RecordLoc(id)) == At(old(w.disk), RecordLoc(id)) && w.committed == old(w.committed)
                  && !r.Success?)
              || (At(w.disk, RecordLoc(id)) == Some(Log(j)) && w.sizeOf(j) <= MAX_JOURNAL_BYTES
                  && w.committed == old(w.committed) + World.Commits(RecordLoc(id), Log(j)))
      ensures Tx(id, Scratch) in w.disk ==>
                !w.disk[Tx(id, Scratch)].Link? || At(w.disk, Tx(id, Scratch)) == At(old(w.disk), Tx(id, Scratch))
      ensures r.Failure? ==> r.error == State
      ensures old(w.Quiet()) ==>
                && w.Quiet() && !r.Crashed?
                && (r.Success? <==> w.sizeOf(j) <= MAX_JOURNAL_BYTES && At(old(w.disk), Tx(id, Scratch)) != Some(Link(None)))
    {
      var scratch, record := Tx(id, Scratch), RecordLoc(id);
      if w.sizeOf(j) > MAX_JOURNAL_BYTES {
        return Failure(State);
      }
      var io;
      if Exists(w.disk, scratch) {
        io := w.Remove(scratch);
        var _ :- Try(io, State);
      }
      io := w.Create(scratch);
      var _ :- Try(io, State);
      io := w.Write(scratch, Log(j));
      var _ :- Try(io, State);
      io := w.Step();
      var _ :- Try(io, State);
      io := w.Rename(scratch, record);
      var _ :- Try(io, State);
      io := w.Step();
      var _ :- Try(io, State);
      return Success(());
    }

    /** `remove_dir_all`: the entries go one by one, in any order, then the directory. */
    method RemoveTransaction(id: string) returns (r: Outcome<()>)
      requires id in w.dirs
      modifies w`fates, w`failures, w`disk, w`dirs
      ensures r.Success? ==> w.failures == old(w.failures)
      ensures forall l | l in w.disk :: l in old(w.disk) && w.disk[l] == old(w.disk)[l]
      ensures forall l | l in old(w.disk) && l !in w.disk :: InTx(id, l)
      ensures if r.Success? then w.dirs == old(w.dirs) - {id} && forall l | l in w.disk :: !InTx(id, l)
              else w.dirs == old(w.dirs)
      ensures r.Failure? ==> r.error == State
      ensures old(w.Quiet()) ==> w.Quiet() && r.Success?
    {
      var io;
      var rest := set l | l in w.disk && InTx(id, l);
      while rest != {}
        invariant rest == set l | l in w.disk && InTx(id, l)
        invariant forall l | l in w.disk :: l in old(w.disk) && w.disk[l] == old(w.disk)[l]
        invariant forall l | l in old(w.disk) && l !in w.disk :: InTx(id, l)
        invariant w.dirs == old(w.dirs)
        invariant old(w.Quiet()) ==> w.Quiet()
        invariant w.failures == old(w.failures)
        decreases rest
      {
        var l :| l in rest;
        io := w.Remove(l);
        var _ :- Try(io, State);
        rest := rest - {l};
      }
      assert forall l | l in w.disk && InTx(id, l) :: l in rest;
      io := w.Step();
      var _ :- Try(io, State);
      w.dirs := w.dirs - {id};
      return Success(());
    }

    method RemoveIfPresent(l: Loc) returns (r: Outcome<()>)
      modifies w`fates, w`failures, w`disk
      ensures r.Success? ==> w.failures == old(w.failures)
      ensures w.disk == old(w.disk) || (Exists(old(w.disk), l) && w.disk == old(w.disk) - {l})
      ensures r.Success? ==> !Exists(w.disk, l)
      ensures r.Failure? ==> r.error == State
      ensures old(w.Quiet()) ==> w.Quiet() && r.Success?
    {
      if Exists(w.disk, l) {
        var io := w.Remove(l);
        var _ :- Try(io, State);
      }
      return Success(());
    }

    method CleanupTransaction(id: string, j: Journal) returns (r: Outcome<()>)
      requires id in w.dirs
      modifies w`fates, w`failures, w`disk, w`dirs
      ensures r.Success? ==> w.failures == old(w.failures)
      ensures Cleared(old(w.disk), w.disk, j, id)
      ensures if r.Success? then w.dirs == old(w.dirs) - {id} && w.disk == Swept(old(w.disk), id, j)
              else w.dirs == old(w.dirs)
      ensures r.Failure? ==> r.error == State
      ensures old(w.Quiet()) ==> w.Quiet() && r.Success?
    {
      hide Place, IsScrap;
      RecordIsNoScrap(j, id);
      for i := 0 to |j.entries|
        invariant forall l | l in w.disk :: l in old(w.disk) && w.disk[l] == old(w.disk)[l]
        invariant forall l | l in old(w.disk) && l !in w.disk :: IsScrap(j, l) && Exists(old(w.disk), l)
        invariant forall k | 0 <= k < i :: !Exists(w.disk, Place(j.root, j.entries[k], Temp))
                                        && !Exists(w.disk, Place(j.root, j.entries[k], Back))
        invariant w.dirs == old(w.dirs)
        invariant old(w.Quiet()) ==> w.Quiet()
        invariant w.failures == old(w.failures)
      {
        EntryIsScrap(j, i);
        var _ :- RemoveIfPresent(Place(j.root, j.entries[i], Temp));
        var _ :- RemoveIfPresent(Place(j.root, j.entries[i], Back));
      }
      NoScrapLeft(j, w.disk);
      r := RemoveTransaction(id);
    }

    lemma RecordIsNoScrap(j: Journal, id: string)
      ensures !IsScrap(j, RecordLoc(id))
    {
    }

    lemma EntryIsScrap(j: Journal, i: nat)
      requires i < |j.entries|
      ensures IsScrap(j, Place(j.root, j.entries[i], Temp)) && IsScrap(j, Place(j.root, j.entries[i], Back))
    {
    }

    lemma NoScrapLeft(j: Journal, d: Disk)
      requires forall k | 0 <= k < |j.entries| ::
                 !Exists(d, Place(j.root, j.entries[k], Temp)) && !Exists(d, Place(j.root, j.entries[k], Back))
      ensures forall l | l in d :: !(IsScrap(j, l) && Exists(d, l))
    {
    }

    // ---- recovery ----

    /** The rollback loop of `recover_one`. */
    method RollBack(j: Journal, ghost plan: Option<Plan>) returns (r: Outcome<()>)
      requires Apart(j.root, j.entries)
      requires plan.Some? ==>
                 && PlanOk(plan.value) && PlanApart(plan.value) && JournalOf(plan.value, j, w.digest)
                 && Framed(plan.value, w.disk) && AllUndoable(plan.value, w.disk) && Solid(plan.value, w.disk)
      modifies w`fates, w`failures, w`disk, w`committed
      ensures r.Success? ==> w.failures == old(w.failures)
      ensures w.committed == old(w.committed)
      ensures forall l: Loc {:trigger At(w.disk, l)} :: l.Tx? ==> At(w.disk, l) == At(old(w.disk), l)
      ensures !Endangered(old(w.disk), j, |j.entries|, w.digest) ==> Spares(old(w.disk), w.disk, j, w.digest)
      ensures r.Success? ==> forall i | 0 <= i < |j.entries| :: MayUndo(old(w.disk), j.root, j.entries[i], w.digest)
      ensures r.Success? ==> w.disk == Unwound(old(w.disk), j, |j.entries|, w.digest)
      ensures r.Failure? ==> r.error == RecoveryRequired
      ensures old(w.Quiet()) ==> w.Quiet() && !r.Crashed?
      ensures old(w.Quiet()) && w.unsyncable == {} ==>
                && w.disk == Unwound(old(w.disk), j, |j.entries|, w.digest)
                && (r.Success? <==> forall i | 0 <= i < |j.entries| :: MayUndo(old(w.disk), j.root, j.entries[i], w.digest))
      ensures plan.Some? ==>
                && Framed(plan.value, w.disk) && AllUndoable(plan.value, w.disk) && Solid(plan.value, w.disk)
                && (r.Success? ==> AllOld(plan.value, w.disk))
                && (old(w.Quiet()) && w.unsyncable == {} ==> r.Success?)
                && Backlog(plan.value, w.disk, false) <= Backlog(plan.value, old(w.disk), false)
    {
      hide Place, PathLoc, PlanOk, PlanApart, Apart, JournalOf, Framed, MayUndo, Backlog, Veiled, Solid, Undone,
        Endangered, Folder;
      var index := |j.entries|;
      if plan.Some? {
        PlanSizes(plan.value, j);
        PlanMayUndo(plan.value, j);
      }
      while index > 0
        invariant 0 <= index <= |j.entries|
        invariant w.committed == old(w.committed)
        invariant forall l: Loc {:trigger At(w.disk, l)} :: l.Tx? ==> At(w.disk, l) == At(old(w.disk), l)
        invariant !Endangered(old(w.disk), j, |j.entries|, w.digest) ==>
                    && Spares(old(w.disk), w.disk, j, w.digest)
                    && !Endangered(w.disk, j, index, w.digest)
        invariant old(w.Quiet()) ==> w.Quiet()
        invariant w.failures == old(w.failures)
        invariant Unwound(old(w.disk), j, |j.entries|, w.digest) == Unwound(w.disk, j, index, w.digest)
        invariant forall i | index <= i < |j.entries| :: MayUndo(old(w.disk), j.root, j.entries[i], w.digest)
        invariant forall i | 0 <= i < index ::
                    MayUndo(w.disk, j.root, j.entries[i], w.digest) <==> MayUndo(old(w.disk), j.root, j.entries[i], w.digest)
        invariant plan.Some? ==> |plan.value.posts| == Size(plan.value) == |j.entries|
        invariant plan.Some? ==>
                    && Framed(plan.value, w.disk) && AllUndoable(plan.value, w.disk) && Solid(plan.value, w.disk)
                    && (forall i | index <= i < Size(plan.value) :: IsOld(plan.value, w.disk, i))
                    && Backlog(plan.value, w.disk, false) <= Backlog(plan.value, old(w.disk), false)
      {
        index := index - 1;
        ghost var before := w.disk;
        PlacesDiffer(j, index);
        r := RollbackEntry(j.root, j.entries[index]);
        RollbackSpares(before, w.disk, j, index, w.digest);
        if !Endangered(old(w.disk), j, |j.entries|, w.digest) {
          NotEndangered(before, j, index);
          SparesCompose(old(w.disk), before, w.disk, j, w.digest);
        }
        RollbackKeepsTx(before, w.disk, j, index);
        if plan.Some? {
          RollbackTurn(plan.value, before, w.disk, j, index, r.Success?);
        }
        if !r.Success? {
          return;
        }
      }
      return Success(());
    }

    /** Whatever is not endangered is not veiled where rollback goes next, nor endangered after. */
    lemma NotEndangered(d: Disk, j: Journal, i: nat)
      requires Apart(j.root, j.entries) && i < |j.entries| && !Endangered(d, j, i + 1, w.digest)
      ensures !Veiled(d, j.root, j.entries[i])
      ensures MayUndo(d, j.root, j.entries[i], w.digest) ==>
                !Endangered(Undone(d, j.root, j.entries[i]), j, i, w.digest)
    {
      if MayUndo(d, j.root, j.entries[i], w.digest) {
        EndangeredStep(d, j, i + 1, w.digest);
      }
    }

    lemma PlanMayUndo(p: Plan, j: Journal)
      requires PlanOk(p) && PlanApart(p) && JournalOf(p, j, w.digest) && AllUndoable(p, w.disk)
      ensures forall i | 0 <= i < |j.entries| :: MayUndo(w.disk, j.root, j.entries[i], w.digest)
    {
      forall i | 0 <= i < |j.entries| ensures MayUndo(w.disk, j.root, j.entries[i], w.digest) {
        assert Undoable(p, w.disk, i);
        UndoneIsOld(p, w.disk, j, i, w.digest);
      }
    }

    lemma PlanSizes(p: Plan, j: Journal)
      requires PlanOk(p) && JournalOf(p, j, w.digest)
      ensures |p.posts| == Size(p) == |j.entries|
    {
    }

    lemma PlacesDiffer(j: Journal, i: nat)
      requires Apart(j.root, j.entries) && i < |j.entries|
      ensures Place(j.root, j.entries[i], Target) != Place(j.root, j.entries[i], Back)
    {
    }

    lemma RollbackKeepsTx(d: Disk, d': Disk, j: Journal, i: nat)
      requires i < |j.entries| && RolledBack(d, d', j.root, j.entries[i], w.digest)
      ensures forall l: Loc {:trigger At(d', l)} :: l.Tx? ==> At(d', l) == At(d, l)
    {
    }

    lemma RollbackTurn(p: Plan, d: Disk, d': Disk, j: Journal, i: nat, whole: bool)
      requires PlanOk(p) && PlanApart(p) && JournalOf(p, j, w.digest) && i < |j.entries|
      requires Framed(p, d) && AllUndoable(p, d) && Solid(p, d)
      requires forall k | i < k < Size(p) :: IsOld(p, d, k)
      requires RolledBack(d, d', j.root, j.entries[i], w.digest)
      requires whole ==> d' == Undone(d, j.root, j.entries[i])
      ensures |j.entries| == Size(p) && Framed(p, d') && AllUndoable(p, d') && Solid(p, d')
      ensures forall k | i < k < Size(p) :: IsOld(p, d', k)
      ensures whole ==> IsOld(p, d', i)
      ensures Backlog(p, d', false) <= Backlog(p, d, false)
    {
      assert Undoable(p, d, i);
      RollbackShortensBacklog(p, d, d', j, i, w.digest);
      UndoneIsOld(p, d, j, i, w.digest);
      FrameKept(p, d, d', i);
      UndoableStep(p, d, d', i);
      RollbackSolid(p, d, d', j, i);
      hide PathLoc;
      forall k | i < k < Size(p) ensures IsOld(p, d', k) {
        OtherEntryStates(p, d, d', i, k);
      }
    }

    lemma RollbackSolid(p: Plan, d: Disk, d': Disk, j: Journal, i: nat)
      requires |p.posts| == Size(p) && PlanApart(p) && JournalOf(p, j, w.digest) && i < |j.entries| && Solid(p, d)
      requires RolledBack(d, d', j.root, j.entries[i], w.digest)
      ensures Solid(p, d')
    {
      PlacesOf(p, j, w.digest, i, Target);
      hide PathLoc, Place, MayUndo, IsLeftover, JournalOf, PlanApart;
      var t := PathLoc(p, i, Target);
      forall l | l in d' && IsLeftover(p, l) ensures !d'[l].Link? {
        LeftoverOf(p, i, l);
        assert l != t;
      }
    }

    /** The journal of `id`, if there is one to read. */
    static ghost function JournalAt(d: Disk, id: string): Option<Journal> {
      if RecordLoc(id) in d && d[RecordLoc(id)].Log? then Some(d[RecordLoc(id)].journal) else None
    }

    /** What reading the journal file demands of it. */
    ghost predicate Usable(j: Journal) {
      w.sizeOf(j) <= MAX_JOURNAL_BYTES && ValidJournal(j)
    }

    /** There is a record, but it does not read as a journal of bounded size that validates. */
    static ghost predicate Unreadable(d: Disk, id: string, sizeOf: Journal -> nat) {
      && Exists(d, RecordLoc(id))
      && match d[RecordLoc(id)]
         case Log(j) => sizeOf(j) > MAX_JOURNAL_BYTES || !ValidJournal(j)
         case _ => true
    }

    /** `recover_one`.  With a plan: the invariant is kept wherever the call is cut, the backlog
        never grows, and an undisturbed call resolves the transaction.  Without one, on any disk:
        what an undisturbed call leaves is exactly `Recovered`, so that `RecoverySparesExactly`
        and `StopsExactly` tell which foreign targets survive; a cut call spares them too unless
        that one would not; and a blocked transaction keeps its journal. */
    method RecoverOne(id: string, ghost plan: Option<Plan>) returns (r: Outcome<()>)
      requires id in w.dirs
      requires JournalAt(w.disk, id).Some? ==>
                 Apart(JournalAt(w.disk, id).value.root, JournalAt(w.disk, id).value.entries)
      requires plan.Some? ==>
                 && plan.value.id == id
                 && Recoverable(plan.value, w.disk, w.dirs, id in w.committed, w.digest, w.sizeOf)
      modifies w`fates, w`failures, w`disk, w`dirs, w`committed
      ensures r.Success? ==> w.failures == old(w.failures)
      ensures w.committed == old(w.committed)
      ensures if r.Success? then w.dirs == old(w.dirs) - {id} else w.dirs == old(w.dirs)
      ensures forall l: Loc {:trigger At(w.disk, l)} :: l.Tx? && l.id != id ==> At(w.disk, l) == At(old(w.disk), l)
      ensures RecordLoc(id) in w.disk ==> At(w.disk, RecordLoc(id)) == At(old(w.disk), RecordLoc(id))
      ensures plan.Some? ==>
                && Recoverable(plan.value, w.disk, w.dirs, id in w.committed, w.digest, w.sizeOf)
                && Backlog(plan.value, w.disk, id in w.committed) <= Backlog(plan.value, old(w.disk), id in w.committed)
      ensures old(w.Quiet()) ==>
                && w.Quiet() && !r.Crashed?
                && (plan.Some? && (w.unsyncable == {} || id in w.committed) ==> r.Success?)
      ensures Unreadable(old(w.disk), id, w.sizeOf) ==>
                && !r.Success? && w.disk == old(w.disk)
                && (old(w.Quiet()) ==> r == Failure(RecoveryRequired))
      ensures JournalAt(old(w.disk), id).Some? ==>
                var j := JournalAt(old(w.disk), id).value;
                && (!Overwrites(old(w.disk), j, w.digest) ==> Spares(old(w.disk), w.disk, j, w.digest))
                && (Blocked(old(w.disk), j, w.digest) ==> !r.Success? && JournalAt(w.disk, id) == Some(j))
                && (old(w.Quiet()) && Blocked(old(w.disk), j, w.digest) ==> r == Failure(RecoveryRequired))
                && (old(w.Quiet()) && w.unsyncable == {} && Usable(j) ==>
                      && w.disk == Recovered(old(w.disk), id, j, w.digest)
                      && (r.Success? <==> !Blocked(old(w.disk), j, w.digest)))
    {
      var record := RecordLoc(id);
      if !Exists(w.disk, record) {
        r := RemoveTransaction(id);
        if plan.Some? {
          RecordIsSolid(plan.value);
          RemovalIsRecoverable(plan.value, old(w.disk), w.disk, old(w.dirs), id in w.committed, w.digest, w.sizeOf);
          if r.Success? {
            DirectoryGone(plan.value, w.disk, old(w.dirs), id in w.committed, w.digest, w.sizeOf);
          }
        }
        return;
      }
      var io := w.Step();
      var _ :- Try(io, RecoveryRequired);
      if !w.disk[record].Log? || w.sizeOf(w.disk[record].journal) > MAX_JOURNAL_BYTES {
        return Failure(RecoveryRequired);
      }
      if plan.Some? {
        PlanJournalIsValid(plan.value, w.disk[record].journal);
      }
      hide ValidJournal, Recoverable, Apart, Backlog, Spares, Blocked, Overwrites, Recovered;
      var valid := ValidateJournal(w.disk[record].journal);
      if !valid {
        return Failure(RecoveryRequired);
      }
      r := RecoverJournal(id, w.disk[record].journal, plan);
    }

    lemma RecordIsSolid(p: Plan)
      requires Solid(p, w.disk)
      ensures Exists(w.disk, RecordLoc(p.id)) <==> RecordLoc(p.id) in w.disk
    {
      assert IsLeftover(p, RecordLoc(p.id));
    }

    method RecoverJournal(id: string, j: Journal, ghost plan: Option<Plan>) returns (r: Outcome<()>)
      requires id in w.dirs && JournalAt(w.disk, id) == Some(j) && Apart(j.root, j.entries)
      requires plan.Some? ==>
                 && plan.value.id == id
                 && Recoverable(plan.value, w.disk, w.dirs, id in w.committed, w.digest, w.sizeOf)
      modifies w`fates, w`failures, w`disk, w`dirs, w`committed
      ensures r.Success? ==> w.failures == old(w.failures)
      ensures w.committed == old(w.committed)
      ensures if r.Success? then w.dirs == old(w.dirs) - {id} else w.dirs == old(w.dirs)
      ensures forall l: Loc {:trigger At(w.disk, l)} :: l.Tx? && l.id != id ==> At(w.disk, l) == At(old(w.disk), l)
      ensures RecordLoc(id) in w.disk ==> At(w.disk, RecordLoc(id)) == Some(Log(j))
      ensures plan.Some? ==>
                && Recoverable(plan.value, w.disk, w.dirs, id in w.committed, w.digest, w.sizeOf)
                && Backlog(plan.value, w.disk, id in w.committed) <= Backlog(plan.value, old(w.disk), id in w.committed)
      ensures old(w.Quiet()) ==>
                && w.Quiet() && !r.Crashed?
                && (plan.Some? && (w.unsyncable == {} || id in w.committed) ==> r.Success?)
      ensures !Overwrites(old(w.disk), j, w.digest) ==> Spares(old(w.disk), w.disk, j, w.digest)
      ensures Blocked(old(w.disk), j, w.digest) ==>
                && !r.Success? && JournalAt(w.disk, id) == Some(j)
                && (old(w.Quiet()) ==> r == Failure(RecoveryRequired))
      ensures old(w.Quiet()) && w.unsyncable == {} ==>
                && w.disk == Recovered(old(w.disk), id, j, w.digest)
                && (r.Success? <==> !Blocked(old(w.disk), j, w.digest))
    {
      hide Apart, Backlog, Spares, Overwrites, Blocked, Settled, Swept, Recoverable, AllOld;
      var _ :- Settle(id, j, plan);
      ghost var settled := w.disk;
      r := FinishRecovery(id, j, plan);
      if !Overwrites(old(w.disk), j, w.digest) {
        SparesCompose(old(w.disk), settled, w.disk, j, w.digest);
      }
    }

    /** What recovery does before it clears up, by the journal's phase. */
    method Settle(id: string, j: Journal, ghost plan: Option<Plan>) returns (r: Outcome<()>)
      requires id in w.dirs && JournalAt(w.disk, id) == Some(j) && Apart(j.root, j.entries)
      requires plan.Some? ==>
                 && plan.value.id == id
                 && Recoverable(plan.value, w.disk, w.dirs, id in w.committed, w.digest, w.sizeOf)
      modifies w`fates, w`failures, w`disk, w`committed
      ensures r.Success? ==> w.failures == old(w.failures)
      ensures w.committed == old(w.committed)
      ensures forall l: Loc {:trigger At(w.disk, l)} :: l.Tx? ==> At(w.disk, l) == At(old(w.disk), l)
      ensures JournalAt(w.disk, id) == Some(j)
      ensures plan.Some? ==>
                && Recoverable(plan.value, w.disk, w.dirs, id in w.committed, w.digest, w.sizeOf)
                && Backlog(plan.value, w.disk, id in w.committed) <= Backlog(plan.value, old(w.disk), id in w.committed)
                && (r.Success? && id !in w.committed ==> AllOld(plan.value, w.disk))
      ensures r.Success? ==> !Blocked(old(w.disk), j, w.digest) && w.disk == Settled(old(w.disk), j, w.digest)
      ensures r.Failure? ==> r.error == RecoveryRequired
      ensures !Overwrites(old(w.disk), j, w.digest) ==> Spares(old(w.disk), w.disk, j, w.digest)
      ensures old(w.Quiet()) ==>
                && w.Quiet() && !r.Crashed?
                && (plan.Some? && (w.unsyncable == {} || id in w.committed) ==> r.Success?)
      ensures old(w.Quiet()) && w.unsyncable == {} ==>
                && w.disk == Settled(old(w.disk), j, w.digest)
                && (r.Success? <==> !Blocked(old(w.disk), j, w.digest))
    {
      if plan.Some? {
        OpenFacts(plan.value, w.disk, w.dirs, id in w.committed);
      }
      SparesNothing(w.disk, j);
      hide Place, PathLoc, PlanOk, PlanApart, Apart, JournalOf, Framed, Backlog, Spares, MayUndo, PostHolds,
        Endangered, Unwound, Recoverable, Solid, AllOld, AllNew, AllUndoable;
      match j.phase {
        case Prepared => r := Success(());
        case Publishing =>
          r := RollBack(j, plan);
          assert At(w.disk, RecordLoc(id)) == Some(Log(j));
          if plan.Some? {
            PublishingKept(plan.value, old(w.disk), w.disk);
          }
        case Committed => r := VerifyAll(j, plan);
      }
    }

    /** What the invariant says of a transaction whose journal is in place. */
    lemma OpenFacts(p: Plan, d: Disk, dirs: set<string>, done: bool)
      requires Recoverable(p, d, dirs, done, w.digest, w.sizeOf) && JournalAt(d, p.id).Some? && p.id in dirs
      ensures var j := JournalAt(d, p.id).value;
              && PlanOk(p) && PlanApart(p) && JournalOf(p, j, w.digest) && |p.posts| == Size(p) == |j.entries|
              && Framed(p, d) && Solid(p, d) && dirs == p.dirs + {p.id} && PhaseHolds(p, d, j.phase, done)
    {
      hide PathLoc, PlanApart, JournalOf, Framed, Solid, PhaseHolds, AllOld, AllNew, AllClean;
      PlanSizes(p, JournalAt(d, p.id).value);
    }

    /** `cleanup_transaction` at the end of a recovery or a publication. */
    method FinishRecovery(id: string, j: Journal, ghost plan: Option<Plan>) returns (r: Outcome<()>)
      requires id in w.dirs && JournalAt(w.disk, id) == Some(j) && Apart(j.root, j.entries)
      requires plan.Some? ==>
                 && plan.value.id == id
                 && Recoverable(plan.value, w.disk, w.dirs, id in w.committed, w.digest, w.sizeOf)
                 && (id !in w.committed ==> AllOld(plan.value, w.disk))
      modifies w`fates, w`failures, w`disk, w`dirs
      ensures r.Success? ==> w.failures == old(w.failures)
      ensures if r.Success? then w.dirs == old(w.dirs) - {id} && w.disk == Swept(old(w.disk), id, j)
              else w.dirs == old(w.dirs)
      ensures r.Failure? ==> r.error == State
      ensures forall l: Loc {:trigger At(w.disk, l)} :: l.Tx? && l.id != id ==> At(w.disk, l) == At(old(w.disk), l)
      ensures RecordLoc(id) in w.disk ==> At(w.disk, RecordLoc(id)) == Some(Log(j))
      ensures plan.Some? ==>
                && Recoverable(plan.value, w.disk, w.dirs, id in w.committed, w.digest, w.sizeOf)
                && Backlog(plan.value, w.disk, id in w.committed) <= Backlog(plan.value, old(w.disk), id in w.committed)
      ensures old(w.Quiet()) ==> w.Quiet() && r.Success?
      ensures Spares(old(w.disk), w.disk, j, w.digest)
    {
      if plan.Some? {
        OpenFacts(plan.value, w.disk, w.dirs, id in w.committed);
      }
      r := CleanupTransaction(id, j);
      ClearedSpares(old(w.disk), w.disk, j, id, w.digest);
      ClearedKeepsOthers(old(w.disk), w.disk, j, id);
      SweptLeavesNothing(old(w.disk), id, j);
      ClearedKeepsRecord(old(w.disk), w.disk, j, id);
      hide Place, PathLoc, PlanOk, PlanApart, Apart, JournalOf, Backlog, IsScrap, Spares, Cleared, Recoverable, Swept,
        AllOld;
      if plan.Some? {
        ClearedIsRecoverable(plan.value, old(w.disk), w.disk, old(w.dirs), id in w.committed, w.digest, w.sizeOf);
        ClearingShortensBacklog(plan.value, old(w.disk), w.disk, j, id in w.committed, w.digest);
        if r.Success? {
          DirectoryGone(plan.value, w.disk, old(w.dirs), id in w.committed, w.digest, w.sizeOf);
        }
      }
    }

    lemma ClearedKeepsRecord(d: Disk, d': Disk, j: Journal, id: string)
      requires Cleared(d, d', j, id)
      ensures RecordLoc(id) in d' ==> At(d', RecordLoc(id)) == At(d, RecordLoc(id))
    {
    }

    lemma SparesNothing(d: Disk, j: Journal)
      ensures Spares(d, d, j, w.digest)
    {
    }

    lemma SweptLeavesNothing(d: Disk, id: string, j: Journal)
      ensures forall l | l in Swept(d, id, j) :: !InTx(id, l)
    {
    }

    lemma ClearedKeepsOthers(d: Disk, d': Disk, j: Journal, id: string)
      requires Cleared(d, d', j, id)
      ensures forall l: Loc {:trigger At(d', l)} :: l.Tx? && l.id != id ==> At(d', l) == At(d, l)
    {
      forall l: Loc | l.Tx? ensures !IsScrap(j, l) {
      }
      hide IsScrap;
    }

    lemma PlanJournalIsValid(p: Plan, j: Journal)
      requires PlanOk(p) && JournalOf(p, j, w.digest)
      ensures ValidJournal(j)
    {
      WrittenJournalsAreValid(j, p.id, p.root, p.patch);
    }

    /** The verification loop of `recover_one` for a Committed journal. */
    method VerifyAll(j: Journal, ghost plan: Option<Plan>) returns (r: Outcome<()>)
      requires plan.Some? ==>
                 PlanOk(plan.value) && JournalOf(plan.value, j, w.digest) && AllNew(plan.value, w.disk)
      modifies w`fates, w`failures
      ensures r.Success? ==> w.failures == old(w.failures)
      ensures r.Success? ==> forall i | 0 <= i < |j.entries| :: PostHolds(w.disk, j.root, j.entries[i], w.digest)
      ensures r.Failure? ==> r.error == RecoveryRequired
      ensures old(w.Quiet()) ==>
                && w.Quiet() && !r.Crashed? && (plan.Some? ==> r.Success?)
                && (r.Success? <==> forall i | 0 <= i < |j.entries| :: PostHolds(w.disk, j.root, j.entries[i], w.digest))
    {
      for i := 0 to |j.entries|
        invariant forall k | 0 <= k < i :: PostHolds(w.disk, j.root, j.entries[k], w.digest)
        invariant old(w.Quiet()) ==> w.Quiet()
        invariant w.failures == old(w.failures)
      {
        if plan.Some? {
          NewHolds(plan.value, j, i);
        }
        hide PostHolds, JournalOf, PlanOk;
        var _ :- VerifyPost(j.root, j.entries[i]);
      }
      return Success(());
    }

    lemma NewHolds(p: Plan, j: Journal, i: nat)
      requires PlanOk(p) && JournalOf(p, j, w.digest) && i < |j.entries| && AllNew(p, w.disk)
      ensures PostHolds(w.disk, j.root, j.entries[i], w.digest)
    {
      PlacesOf(p, j, w.digest, i, Target);
      assert EntryFor(j.entries[i], p.id, i, p.patch.files[i]);
      assert IsNew(p, w.disk, i);
    }

    /** The journal of `id`, when it is the only transaction and its names are apart. */
    static ghost function OnlyJournal(d: Disk, dirs: set<string>, id: string): Option<Journal> {
      var j := JournalAt(d, id);
      if dirs == {id} && j.Some? && Apart(j.value.root, j.value.entries) then j else None
    }

    /** A start of the daemon on one transaction, whatever has become of its targets: they are
        spared unless recovery is to overwrite one, and a blocked transaction stays as it is. */
    static ghost predicate Respects(d: Disk, dirs: set<string>, d': Disk, dirs': set<string>, digest: string -> string) {
      forall id | id in dirs && OnlyJournal(d, dirs, id).Some? ::
        var j := OnlyJournal(d, dirs, id).value;
        && (!Overwrites(d, j, digest) ==> Spares(d, d', j, digest))
        && (Blocked(d, j, digest) ==> id in dirs' && JournalAt(d', id) == Some(j))
    }

    /** What recovery may leave behind: journals only as they were, foreign targets and blocked
        transactions respected; with a plan, always a state it resolves, never further from the
        end than before; on success nothing in the state root and, with a plan, all or nothing. */
    static ghost predicate RecoverLeaves(
      plan: Option<Plan>, d: Disk, dirs: set<string>, d': Disk, dirs': set<string>, done: bool, r: Outcome<nat>,
      digest: string -> string, sizeOf: Journal -> nat)
    {
      && dirs' <= dirs && (dirs == {} ==> d' == d)
      && (forall id | id in dirs' && RecordLoc(id) in d' :: At(d', RecordLoc(id)) == At(d, RecordLoc(id)))
      && Respects(d, dirs, d', dirs', digest)
      && (forall id | id in dirs && Unreadable(d, id, sizeOf) ::
            !r.Success? && id in dirs' && At(d', RecordLoc(id)) == At(d, RecordLoc(id)))
      && (r.Success? ==> dirs' == {} && r.value == |dirs|)
      && (plan.Some? ==>
            && Recoverable(plan.value, d', dirs', done, digest, sizeOf)
            && Backlog(plan.value, d', done) <= Backlog(plan.value, d, done)
            && (r.Success? ==> d' == if done then PostImage(plan.value, Size(plan.value)) else plan.value.base))
    }

    /** Undisturbed, a start on one usable journal leaves exactly `Recovered`. */
    ghost predicate Exactly(d: Disk, dirs: set<string>, d': Disk, ok: bool) {
      forall id | id in dirs && OnlyJournal(d, dirs, id).Some? && Usable(OnlyJournal(d, dirs, id).value) ::
        var j := OnlyJournal(d, dirs, id).value;
        d' == Recovered(d, id, j, w.digest) && (ok <==> !Blocked(d, j, w.digest))
    }

    /** `recover`: the directory listing, in any order, one transaction after another, up to the
        first that does not resolve.  With a plan the state root holds at most that one. */
    method Recover(ghost plan: Option<Plan>) returns (r: Outcome<nat>)
      requires forall id | id in w.dirs && JournalAt(w.disk, id).Some? ::
                 Apart(JournalAt(w.disk, id).value.root, JournalAt(w.disk, id).value.entries)
      requires plan.Some? ==>
                 && plan.value.dirs == {} && w.dirs <= {plan.value.id}
                 && Recoverable(plan.value, w.disk, w.dirs, plan.value.id in w.committed, w.digest, w.sizeOf)
      modifies w`fates, w`failures, w`disk, w`dirs, w`committed
      ensures r.Success? ==> w.failures == old(w.failures)
      ensures w.committed == old(w.committed)
      ensures RecoverLeaves(plan, old(w.disk), old(w.dirs), w.disk, w.dirs,
                            plan.Some? && plan.value.id in w.committed, r, w.digest, w.sizeOf)
      ensures r.Success? ==> !w.strays
      ensures old(w.Quiet()) ==> w.Quiet() && !r.Crashed?
      ensures old(w.Quiet()) && w.unsyncable == {} && !w.strays ==>
                && (plan.Some? || old(w.dirs) == {} ==> r.Success?)
                && Exactly(old(w.disk), old(w.dirs), w.disk, r.Success?)
    {
      hide Along, RecoverLeaves, Exactly, Apart, Recoverable;
      var recovered := 0;
      ghost var found := w.disk;
      var io := w.Step();
      AlongItself(plan);
      if io != Done {
        r := if io == Failed then Failure(State) else Crashed;
        AlongLeaves(plan, found, w.dirs, true, r);
        return;
      }
      var pending := w.dirs;
      while pending != {} || w.strays
        invariant pending == w.dirs <= old(w.dirs)
        invariant recovered + |pending| == |old(w.dirs)|
        invariant w.committed == old(w.committed)
        invariant Along(plan, found, old(w.dirs), true)
        invariant old(w.Quiet()) ==> w.Quiet()
        invariant w.failures == old(w.failures)
        invariant old(w.Quiet()) && w.unsyncable == {} && (w.dirs != old(w.dirs) || old(w.dirs) == {}) ==>
                    Exactly(found, old(w.dirs), w.disk, true)
        decreases pending
      {
        var strayNext: bool := *;
        if w.strays && (pending == {} || strayNext) {
          AlongLeaves(plan, found, old(w.dirs), true, Failure(RecoveryRequired));
          return Failure(RecoveryRequired);
        }
        var id :| id in pending;
        var one := RecoverNext(id, plan, found, old(w.dirs));
        if one.IsFailure() {
          AlongLeaves(plan, found, old(w.dirs), false, one.PropagateFailure());
          return one.PropagateFailure();
        }
        pending := pending - {id};
        recovered := recovered + 1;
      }
      AlongLeaves(plan, found, old(w.dirs), true, Success(recovered));
      return Success(recovered);
    }

    lemma AlongItself(plan: Option<Plan>)
      requires plan.Some? ==>
                 && plan.value.dirs == {} && w.dirs <= {plan.value.id}
                 && Recoverable(plan.value, w.disk, w.dirs, plan.value.id in w.committed, w.digest, w.sizeOf)
      ensures Along(plan, w.disk, w.dirs, true)
      ensures w.dirs == {} ==> Exactly(w.disk, w.dirs, w.disk, true)
    {
      RespectsItself(w.disk, w.dirs);
      hide Recoverable, Backlog, Respects, Unreadable;
    }

    lemma AlongLeaves(plan: Option<Plan>, d: Disk, dirs: set<string>, whole: bool, r: Outcome<nat>)
      requires Along(plan, d, dirs, whole) && (plan.Some? ==> plan.value.dirs == {} && dirs <= {plan.value.id})
      requires r.Success? ==> whole && w.dirs == {} && r.value == |dirs|
      ensures RecoverLeaves(plan, d, dirs, w.disk, w.dirs, plan.Some? && plan.value.id in w.committed, r,
                            w.digest, w.sizeOf)
    {
      if plan.Some? && r.Success? {
        ResolvedIsAllOrNothing(plan.value, w.disk, w.dirs, plan.value.id in w.committed, w.digest, w.sizeOf);
      }
      hide Recoverable, Backlog, Respects, Unreadable, PostImage;
    }

    /** A start that found `d` and `dirs` has come this far; `whole` if no call was cut or stopped. */
    ghost predicate Along(plan: Option<Plan>, d: Disk, dirs: set<string>, whole: bool)
      reads w
    {
      && w.dirs <= dirs && (whole && w.dirs == dirs ==> w.disk == d) && (dirs == {} ==> w.disk == d)
      && (forall id | id in w.dirs && (whole || RecordLoc(id) in w.disk) ::
            At(w.disk, RecordLoc(id)) == At(d, RecordLoc(id)))
      && Respects(d, dirs, w.disk, w.dirs, w.digest)
      && (forall id | id in dirs && Unreadable(d, id, w.sizeOf) ::
            id in w.dirs && At(w.disk, RecordLoc(id)) == At(d, RecordLoc(id)))
      && (plan.Some? ==>
            && Recoverable(plan.value, w.disk, w.dirs, plan.value.id in w.committed, w.digest, w.sizeOf)
            && Backlog(plan.value, w.disk, plan.value.id in w.committed)
               <= Backlog(plan.value, d, plan.value.id in w.committed))
    }

    /** One turn of `recover`. */
    method RecoverNext(id: string, ghost plan: Option<Plan>, ghost d: Disk, ghost dirs: set<string>)
      returns (r: Outcome<()>)
      requires id in w.dirs && Along(plan, d, dirs, true)
      requires plan.Some? ==> plan.value.dirs == {} && dirs <= {plan.value.id}
      requires JournalAt(d, id).Some? ==> Apart(JournalAt(d, id).value.root, JournalAt(d, id).value.entries)
      modifies w`fates, w`failures, w`disk, w`dirs, w`committed
      ensures r.Success? ==> w.failures == old(w.failures)
      ensures w.committed == old(w.committed) && Along(plan, d, dirs, r.Success?)
      ensures w.dirs == if r.Success? then old(w.dirs) - {id} else old(w.dirs)
      ensures old(w.Quiet()) ==> w.Quiet() && !r.Crashed?
      ensures old(w.Quiet()) && w.unsyncable == {} ==>
                (plan.Some? ==> r.Success?) && Exactly(d, dirs, w.disk, r.Success?)
    {
      hide Recoverable, Apart, Backlog, Blocked, Spares, Overwrites, Recovered, Usable, Respects, Exactly, Unreadable;
      var io := w.Step();
      var _ :- Try(io, State);
      assert At(w.disk, RecordLoc(id)) == At(d, RecordLoc(id)) && JournalAt(w.disk, id) == JournalAt(d, id);
      assert dirs == {id} ==> w.dirs == dirs;
      SameRecord(d, w.disk, id);
      ghost var before := w.disk;
      r := RecoverOne(id, plan);
      forall x | x in dirs && x != id ensures At(w.disk, RecordLoc(x)) == At(before, RecordLoc(x)) {
      }
      OneTransaction(d, dirs, w.disk, w.dirs, id, r.Success?);
    }

    /** Whatever holds of one call holds of a start that found no other transaction. */
    lemma OneTransaction(d: Disk, dirs: set<string>, d': Disk, dirs': set<string>, id: string, ok: bool)
      requires id in dirs
      requires dirs == {id} && OnlyJournal(d, dirs, id).Some? ==>
                 var j := OnlyJournal(d, dirs, id).value;
                 && (!Overwrites(d, j, w.digest) ==> Spares(d, d', j, w.digest))
                 && (Blocked(d, j, w.digest) ==> id in dirs' && JournalAt(d', id) == Some(j))
      ensures Respects(d, dirs, d', dirs', w.digest)
      ensures (dirs == {id} && OnlyJournal(d, dirs, id).Some? && Usable(OnlyJournal(d, dirs, id).value) ==>
                 var j := OnlyJournal(d, dirs, id).value;
                 d' == Recovered(d, id, j, w.digest) && (ok <==> !Blocked(d, j, w.digest)))
           ==> Exactly(d, dirs, d', ok)
    {
      hide Overwrites, Spares, Blocked, Usable, Recovered, JournalAt;
    }

    lemma SameRecord(d: Disk, d': Disk, id: string)
      requires At(d', RecordLoc(id)) == At(d, RecordLoc(id))
      ensures Unreadable(d', id, w.sizeOf) <==> Unreadable(d, id, w.sizeOf)
    {
    }

    lemma RespectsItself(d: Disk, dirs: set<string>)
      ensures Respects(d, dirs, d, dirs, w.digest)
      ensures dirs == {} ==> Exactly(d, dirs, d, true)
    {
    }

    // ---- publication ----

    ghost predicate Kept(p: Plan)
      reads w
    {
      Recoverable(p, w.disk, w.dirs, p.id in w.committed, w.digest, w.sizeOf)
    }

    /** The copying loop has got to entry `i`. */
    ghost predicate CopiedTo(p: Plan, i: nat)
      reads w
      requires |p.posts| == Size(p)
    {
      forall k | 0 <= k < Size(p) ::
        IsPatched(p, w.disk, k) && if k < i then TempReady(p, w.disk, k) else PathLoc(p, k, Temp) !in w.disk
    }

    /** The same-directory temporaries. */
    method CopyTemporaries(p: Plan, j: Journal) returns (r: Outcome<()>)
      requires Kept(p) && p.id !in w.committed && w.dirs == p.dirs + {p.id}
      requires At(w.disk, RecordLoc(p.id)) == Some(Log(j)) && j.phase == Prepared && |p.posts| == Size(p)
      requires CopiedTo(p, 0)
      modifies w`fates, w`failures, w`disk
      ensures r.Success? ==> w.failures == old(w.failures)
      ensures Kept(p) && At(w.disk, RecordLoc(p.id)) == Some(Log(j))
      ensures r.Failure? ==> r.error == State
      ensures r.Success? ==> PublishedTo(p, w.disk, 0)
      ensures old(w.Quiet()) ==> w.Quiet() && r.Success?
    {
      hide PathLoc, Recoverable, IsPatched, TempReady, CopiedTo;
      for i := 0 to Size(p)
        invariant Kept(p) && At(w.disk, RecordLoc(p.id)) == Some(Log(j))
        invariant CopiedTo(p, i)
        invariant old(w.Quiet()) ==> w.Quiet()
        invariant w.failures == old(w.failures)
      {
        var _ :- CopyTemporary(p, j, i);
      }
      AllReady(p, j);
      return Success(());
    }

    method CopyTemporary(p: Plan, j: Journal, i: nat) returns (r: Outcome<()>)
      requires Kept(p) && p.id !in w.committed && w.dirs == p.dirs + {p.id} && i < Size(p) == |p.posts|
      requires At(w.disk, RecordLoc(p.id)) == Some(Log(j)) && j.phase == Prepared && CopiedTo(p, i)
      modifies w`fates, w`failures, w`disk
      ensures r.Success? ==> w.failures == old(w.failures)
      ensures Kept(p) && At(w.disk, RecordLoc(p.id)) == Some(Log(j))
      ensures r.Failure? ==> r.error == State
      ensures r.Success? ==> CopiedTo(p, i + 1)
      ensures old(w.Quiet()) ==> w.Quiet() && r.Success?
    {
      OpenFacts(p, w.disk, w.dirs, false);
      hide PathLoc, PlanOk, PlanApart, JournalOf, Recoverable, Framed, Solid, PhaseHolds;
      ghost var before := w.disk;
      assert IsPatched(p, before, i) && PathLoc(p, i, Temp) !in before;
      if Kind(p, i) != Delete {
        PlaceKinds(p, i);
        PostBound(p, j, i);
        var copied := w.CopyFileBounded(StageLoc(p, i), PathLoc(p, i, Temp), MAX_RESULT_FILE_BYTES);
        TemporaryWritten(p, before, w.disk, i);
        if copied.IsFailure() {
          return copied.PropagateFailure();
        }
        var io := w.Step();
        var _ :- Try(io, State);
      }
      CopiedOne(p, before, i);
      return Success(());
    }

    lemma CopiedOne(p: Plan, d: Disk, i: nat)
      requires i < Size(p) == |p.posts| && TempReady(p, w.disk, i)
      requires forall k | 0 <= k < Size(p) ::
                 IsPatched(p, d, k) && if k < i then TempReady(p, d, k) else PathLoc(p, k, Temp) !in d
      requires forall k | 0 <= k < Size(p) :: At(w.disk, StageLoc(p, k)) == At(d, StageLoc(p, k))
      requires forall k | 0 <= k < Size(p) && k != i :: At(w.disk, PathLoc(p, k, Temp)) == At(d, PathLoc(p, k, Temp))
      ensures CopiedTo(p, i + 1)
    {
      hide PathLoc, StageLoc;
      forall k | 0 <= k < Size(p)
        ensures IsPatched(p, w.disk, k)
        ensures if k < i + 1 then TempReady(p, w.disk, k) else PathLoc(p, k, Temp) !in w.disk
      {
        assert IsPatched(p, d, k) && if k < i then TempReady(p, d, k) else PathLoc(p, k, Temp) !in d;
      }
    }

    lemma AllReady(p: Plan, j: Journal)
      requires Kept(p) && p.id !in w.committed && p.id in w.dirs && |p.posts| == Size(p) && CopiedTo(p, Size(p))
      requires At(w.disk, RecordLoc(p.id)) == Some(Log(j)) && j.phase == Prepared
      ensures PublishedTo(p, w.disk, 0)
    {
      OpenFacts(p, w.disk, w.dirs, false);
      hide PathLoc, PlanOk, PlanApart, JournalOf, Recoverable, Framed, Solid, IsPatched;
      forall i | 0 <= i < Size(p) ensures IsReady(p, w.disk, i) {
        assert IsOld(p, w.disk, i) && TempReady(p, w.disk, i);
      }
    }

    lemma PlaceKinds(p: Plan, i: nat)
      requires i < Size(p)
      ensures PathLoc(p, i, Temp).Work? && StageLoc(p, i).Tx?
    {
    }

    lemma PostBound(p: Plan, j: Journal, i: nat)
      requires |p.posts| == Size(p) && JournalOf(p, j, w.digest) && i < Size(p) && Kind(p, i) != Delete
      ensures |p.posts[i]| <= MAX_RESULT_FILE_BYTES
    {
    }

    /** Writing the temporary of entry `i`, whole or in part, disturbs nothing else. */
    lemma TemporaryWritten(p: Plan, d: Disk, d': Disk, i: nat)
      requires i < Size(p) == |p.posts|
      requires d' - {PathLoc(p, i, Temp)} == d - {PathLoc(p, i, Temp)}
      requires PathLoc(p, i, Temp) in d' ==> !d'[PathLoc(p, i, Temp)].Link?
      requires Recoverable(p, d, p.dirs + {p.id}, false, w.digest, w.sizeOf) && RecordLoc(p.id) in d
      requires d[RecordLoc(p.id)].Log? && d[RecordLoc(p.id)].journal.phase == Prepared
      ensures Recoverable(p, d', p.dirs + {p.id}, false, w.digest, w.sizeOf)
      ensures At(d', RecordLoc(p.id)) == At(d, RecordLoc(p.id))
      ensures forall k | 0 <= k < Size(p) :: At(d', StageLoc(p, k)) == At(d, StageLoc(p, k))
      ensures forall k | 0 <= k < Size(p) && k != i :: At(d', PathLoc(p, k, Temp)) == At(d, PathLoc(p, k, Temp))
    {
      var t := PathLoc(p, i, Temp);
      forall l ensures l != t ==> At(d', l) == At(d, l) {
        if l != t {
          SubtractedAt(d', d, {t}, l);
        }
      }
      assert t.Work? && t != RecordLoc(p.id);
      TemporaryStates(p, d, d', i);
      hide PathLoc, PlanApart, PlanOk, JournalOf, OnlyEntry, Framed, Solid;
      assert At(d', RecordLoc(p.id)) == At(d, RecordLoc(p.id));
    }

    lemma TemporaryStates(p: Plan, d: Disk, d': Disk, i: nat)
      requires PlanApart(p) && i < Size(p) == |p.posts| && Framed(p, d) && Solid(p, d) && AllOld(p, d)
      requires forall l {:trigger At(d', l)} :: l != PathLoc(p, i, Temp) ==> At(d', l) == At(d, l)
      requires PathLoc(p, i, Temp) in d' ==> !d'[PathLoc(p, i, Temp)].Link?
      ensures Framed(p, d') && Solid(p, d') && AllOld(p, d')
      ensures forall k | 0 <= k < Size(p) && k != i :: At(d', PathLoc(p, k, Temp)) == At(d, PathLoc(p, k, Temp))
    {
      var t := PathLoc(p, i, Temp);
      assert OnlyEntry(p, d, d', i);
      FrameKept(p, d, d', i);
      assert PathLoc(p, i, Target) != t && PathLoc(p, i, Back) != t;
      assert At(d', PathLoc(p, i, Target)) == At(d, PathLoc(p, i, Target));
      assert At(d', PathLoc(p, i, Back)) == At(d, PathLoc(p, i, Back));
      assert IsOld(p, d, i);
      SolidStep(p, d, d', i);
      hide PathLoc, Framed, Solid, OnlyEntry, PlanApart;
      forall k | 0 <= k < Size(p) && k != i
        ensures IsOld(p, d', k) && At(d', PathLoc(p, k, Temp)) == At(d, PathLoc(p, k, Temp))
      {
        assert IsOld(p, d, k);
        OtherEntryStates(p, d, d', i, k);
      }
    }

    /** `write_journal` within a plan: whichever journal is in place afterwards, the invariant
        holds. */
    method PutJournal(p: Plan, j: Journal) returns (r: Outcome<()>)
      requires Kept(p) && p.id !in w.committed && w.dirs == p.dirs + {p.id}
      requires JournalOf(p, j, w.digest) && PhaseHolds(p, w.disk, j.phase, j.phase == Committed)
      modifies w`fates, w`failures, w`disk, w`committed
      ensures r.Success? ==> w.failures == old(w.failures)
      ensures Kept(p)
      ensures forall l {:trigger At(w.disk, l)} ::
                l != Tx(p.id, Scratch) && l != RecordLoc(p.id) ==> At(w.disk, l) == At(old(w.disk), l)
      ensures r.Success? ==> At(w.disk, RecordLoc(p.id)) == Some(Log(j))
      ensures r.Success? ==> (p.id in w.committed <==> j.phase == Committed)
      ensures if j.phase == Committed then w.committed - {p.id} == old(w.committed) else w.committed == old(w.committed)
      ensures r.Failure? ==> r.error == State
      ensures old(w.Quiet()) ==> w.Quiet() && !r.Crashed? && (w.sizeOf(j) <= MAX_JOURNAL_BYTES ==> r.Success?)
    {
      ghost var before := w.disk;
      r := WriteJournal(p.id, j);
      ghost var s, k := Tx(p.id, Scratch), RecordLoc(p.id);
      forall l ensures l != s && l != k ==> At(w.disk, l) == At(before, l) {
        if l != s && l != k {
          SubtractedAt(w.disk, before, {s, k}, l);
        }
      }
      assert IsLeftover(p, s) && IsLeftover(p, k);
      forall l | l in w.disk && InTx(p.id, l) ensures !w.disk[l].Link? {
        assert IsLeftover(p, l);
        assert l != s && l != k ==> At(w.disk, l) == At(before, l);
      }
      hide IsLeftover;
      if At(w.disk, k) == Some(Log(j)) && w.sizeOf(j) <= MAX_JOURNAL_BYTES
         && w.committed == old(w.committed) + World.Commits(k, Log(j))
      {
        JournalWritten(p, before, w.disk, j, j.phase == Committed, w.digest, w.sizeOf);
      } else {
        ScratchIsRecoverable(p, before, w.disk);
      }
    }

    lemma SubtractedAt(d: Disk, d': Disk, gone: set<Loc>, l: Loc)
      requires d - gone == d' - gone && l !in gone
      ensures At(d, l) == At(d', l)
    {
      assert (l in d <==> l in d - gone) && (l in d' <==> l in d' - gone);
      assert l in d ==> d[l] == (d - gone)[l];
      assert l in d' ==> d'[l] == (d' - gone)[l];
    }

    lemma ScratchIsRecoverable(p: Plan, d: Disk, d': Disk)
      requires Recoverable(p, d, p.dirs + {p.id}, false, w.digest, w.sizeOf)
      requires forall l {:trigger At(d', l)} :: !InTx(p.id, l) ==> At(d', l) == At(d, l)
      requires At(d', RecordLoc(p.id)) == At(d, RecordLoc(p.id))
      requires forall l | l in d' && InTx(p.id, l) :: !d'[l].Link?
      ensures Recoverable(p, d', p.dirs + {p.id}, false, w.digest, w.sizeOf)
    {
      WorktreeKept(p, d, d');
      SolidOutside(p, d, d');
      CleanKept(p, d, d');
      assert p.id in p.dirs + {p.id};
      hide PathLoc, PlanOk, PlanApart, JournalOf, Framed, Solid, AllClean, AllOld, AllNew, AllUndoable, IsReady,
        IsPublished;
    }

    lemma CleanKept(p: Plan, d: Disk, d': Disk)
      requires forall i, s | 0 <= i < Size(p) :: At(d', PathLoc(p, i, s)) == At(d, PathLoc(p, i, s))
      ensures AllClean(p, d) ==> AllClean(p, d')
    {
      hide PathLoc;
      if AllClean(p, d) {
        forall i | 0 <= i < Size(p) ensures NoScrap(p, d', i) {
          assert NoScrap(p, d, i);
          assert At(d', PathLoc(p, i, Temp)) == At(d, PathLoc(p, i, Temp));
          assert At(d', PathLoc(p, i, Back)) == At(d, PathLoc(p, i, Back));
        }
      }
    }

    lemma StillItsJournal(p: Plan, j: Journal, i: nat, flag: bool, phase: Phase)
      requires |p.posts| == Size(p) && JournalOf(p, j, w.digest) && i < |j.entries|
      ensures JournalOf(p, j.(entries := j.entries[i := j.entries[i].(published := flag)]), w.digest)
      ensures JournalOf(p, j.(phase := phase), w.digest)
    {
      var entries := j.entries[i := j.entries[i].(published := flag)];
      forall k | 0 <= k < Size(p) ensures EntryFor(entries[k], p.id, k, p.patch.files[k]) {
        assert EntryFor(j.entries[k], p.id, k, p.patch.files[k]);
      }
      forall k | 0 <= k < Size(p) ensures EntryFor(j.(phase := phase).entries[k], p.id, k, p.patch.files[k]) {
        assert EntryFor(j.entries[k], p.id, k, p.patch.files[k]);
      }
    }

    lemma PublishTurn(p: Plan, d: Disk, d': Disk, j: Journal, i: nat, whole: bool)
      requires PlanOk(p) && PlanApart(p) && JournalOf(p, j, w.digest) && i < Size(p)
      requires Framed(p, d) && Solid(p, d) && PublishedTo(p, d, i)
      requires PublishLeaves(d, d', j.root, j.entries[i])
      requires whole ==> d' == Published(d, j.root, j.entries[i])
      ensures Framed(p, d') && Solid(p, d') && AllUndoable(p, d')
      ensures forall item :: At(d', Tx(p.id, item)) == At(d, Tx(p.id, item))
      ensures whole ==> PublishedTo(p, d', i + 1)
      ensures PreHolds(d, j.root, j.entries[i], w.digest)
      ensures Kind(p, i) == j.entries[i].kind
      ensures Place(j.root, j.entries[i], Temp) != Place(j.root, j.entries[i], Target)
      ensures Place(j.root, j.entries[i], Temp) != Place(j.root, j.entries[i], Back)
      ensures Kind(p, i) != Delete ==> Place(j.root, j.entries[i], Temp) in d
    {
      var e := j.entries[i];
      PublishedToUndoable(p, d, i);
      assert IsReady(p, d, i);
      ReadyPublishes(p, d, j, i, w.digest);
      PlacesOf(p, j, w.digest, i, Target);
      PlacesOf(p, j, w.digest, i, Back);
      PlacesOf(p, j, w.digest, i, Temp);
      assert EntryFor(e, p.id, i, p.patch.files[i]);
      var t, b := PathLoc(p, i, Target), PathLoc(p, i, Back);
      assert PathLoc(p, i, Temp) != t && PathLoc(p, i, Temp) != b;
      if e.kind == Modify {
        HalfPublishedIsUndoable(p, d, i);
      }
      PublishSolid(p, d, d', j, i);
      hide PathLoc, Place, PlanOk, JournalOf, PlanApart, Published, Framed, Solid;
      assert d' == d || d' == Published(d, j.root, e) || (e.kind == Modify && d' == Moved(d, t, b));
      assert OnlyEntry(p, d, d', i);
      SolidStep(p, d, d', i);
      FrameKept(p, d, d', i);
      assert Undoable(p, d', i) by {
        if d' == Published(d, j.root, e) {
          assert IsPublished(p, d', i);
        }
      }
      UndoableStep(p, d, d', i);
      if d' == Published(d, j.root, e) {
        PublishedStep(p, d, d', i);
      }
    }

    /** Publication moves the old file to the backup, and nothing else into its own names. */
    lemma PublishSolid(p: Plan, d: Disk, d': Disk, j: Journal, i: nat)
      requires PlanOk(p) && PlanApart(p) && JournalOf(p, j, w.digest) && i < Size(p) && IsOld(p, d, i) && Solid(p, d)
      requires PublishLeaves(d, d', j.root, j.entries[i])
      ensures forall s | s != Target && PathLoc(p, i, s) in d' :: !d'[PathLoc(p, i, s)].Link?
    {
      PlacesOf(p, j, w.digest, i, Target);
      PlacesOf(p, j, w.digest, i, Back);
      PlacesOf(p, j, w.digest, i, Temp);
      assert EntryFor(j.entries[i], p.id, i, p.patch.files[i]);
      assert TargetFits(p.base, p.root, p.patch.files[i]);
      var t, n, b := PathLoc(p, i, Target), PathLoc(p, i, Temp), PathLoc(p, i, Back);
      assert t != n && t != b && n != b;
      assert t in d ==> d[t].Data?;
      assert IsLeftover(p, n);
      assert n in d' ==> n in d && d'[n] == d[n];
      assert b in d' ==> t in d && d'[b] == d[t];
      hide PathLoc, Place, PlanOk, PlanApart, Published, PublishLeaves;
    }

    /** The transaction is open and its journal says Publishing. */
    ghost predicate Underway(p: Plan)
      reads w
    {
      && Kept(p) && p.id !in w.committed && w.dirs == p.dirs + {p.id}
      && JournalAt(w.disk, p.id).Some? && JournalAt(w.disk, p.id).value.phase == Publishing
    }

    /** Every directory the publication is to sync can be synced. */
    ghost predicate FoldersSync(p: Plan)
      reads w
    {
      SyncTo(p, Size(p), w.unsyncable)
    }

    static ghost predicate SyncTo(p: Plan, k: nat, unsyncable: set<Loc>) {
      forall i | 0 <= i < k && i < Size(p) :: Folder(p.root, p.patch.files[i].path) !in unsyncable
    }

    lemma SyncStep(p: Plan, k: nat)
      requires SyncTo(p, k, w.unsyncable)
      ensures k < Size(p) && Folder(p.root, p.patch.files[k].path) !in w.unsyncable ==> SyncTo(p, k + 1, w.unsyncable)
    {
    }

    /** The publication loop: each entry, its flag, and the journal again. */
    method PublishAll(p: Plan, first: Journal) returns (r: Outcome<Journal>)
      requires Underway(p) && JournalOf(p, first, w.digest) && first.phase == Publishing
      requires PublishedTo(p, w.disk, 0)
      modifies w`fates, w`failures, w`disk, w`committed
      ensures r.Success? ==> w.failures == old(w.failures)
      ensures Kept(p) && w.committed == old(w.committed)
      ensures r.Success? ==> Underway(p)
      ensures r.Success? ==> FoldersSync(p)
      ensures r.Failure? ==> r.error in {State, Stale, RecoveryRequired}
      ensures r.Success? ==>
                && PublishedTo(p, w.disk, Size(p)) && JournalOf(p, r.value, w.digest) && r.value.phase == Publishing
      ensures old(w.Quiet()) ==> w.Quiet() && !r.Crashed?
      ensures old(w.Quiet()) && FoldersSync(p) && (forall j :: w.sizeOf(j) <= MAX_JOURNAL_BYTES) ==> r.Success?
    {
      var j := first;
      PlanSizes(p, j);
      hide PathLoc, PlanOk, PlanApart, JournalOf, PublishedTo, Recoverable, Folder, SyncTo;
      NoneToSync(p);
      for i := 0 to |j.entries|
        invariant SyncTo(p, i, w.unsyncable)
        invariant |j.entries| == Size(p) == |p.posts|
        invariant Underway(p) && w.committed == old(w.committed)
        invariant JournalOf(p, j, w.digest) && j.phase == Publishing && PublishedTo(p, w.disk, i)
        invariant old(w.Quiet()) ==> w.Quiet()
        invariant w.failures == old(w.failures)
      {
        j :- PublishNext(p, j, i);
        SyncStep(p, i);
      }
      return Success(j);
    }

    lemma NoneToSync(p: Plan)
      ensures SyncTo(p, 0, w.unsyncable)
    {
    }

    method PublishNext(p: Plan, j: Journal, i: nat) returns (r: Outcome<Journal>)
      requires Underway(p) && JournalOf(p, j, w.digest) && j.phase == Publishing && i < |j.entries| == Size(p)
      requires PublishedTo(p, w.disk, i)
      modifies w`fates, w`failures, w`disk, w`committed
      ensures r.Success? ==> w.failures == old(w.failures)
      ensures Kept(p) && w.committed == old(w.committed)
      ensures r.Success? ==> Underway(p)
      ensures r.Success? ==> Folder(p.root, p.patch.files[i].path) !in w.unsyncable
      ensures r.Failure? ==> r.error in {State, Stale, RecoveryRequired}
      ensures r.Success? ==>
                && PublishedTo(p, w.disk, i + 1)
                && r.value == j.(entries := j.entries[i := j.entries[i].(published := true)])
                && JournalOf(p, r.value, w.digest)
      ensures old(w.Quiet()) ==> w.Quiet() && !r.Crashed?
      ensures old(w.Quiet()) && FoldersSync(p) && (forall k :: w.sizeOf(k) <= MAX_JOURNAL_BYTES) ==> r.Success?
    {
      PlanSizes(p, j);
      hide PathLoc, JournalOf, Recoverable, PublishedTo, AllUndoable, Folder;
      StillItsJournal(p, j, i, true, Publishing);
      var _ :- MoveEntry(p, j, i);
      var next := j.(entries := j.entries[i := j.entries[i].(published := true)]);
      var _ :- PutProgress(p, next, i + 1);
      return Success(next);
    }

    /** A Publishing journal over `k` published entries. */
    method PutProgress(p: Plan, j: Journal, k: nat) returns (r: Outcome<()>)
      requires Kept(p) && p.id !in w.committed && w.dirs == p.dirs + {p.id} && |p.posts| == Size(p)
      requires JournalOf(p, j, w.digest) && j.phase == Publishing && PublishedTo(p, w.disk, k)
      modifies w`fates, w`failures, w`disk, w`committed
      ensures r.Success? ==> w.failures == old(w.failures)
      ensures Kept(p) && w.committed == old(w.committed)
      ensures r.Success? ==> Underway(p) && PublishedTo(p, w.disk, k)
      ensures r.Failure? ==> r.error == State
      ensures old(w.Quiet()) ==> w.Quiet() && !r.Crashed? && (w.sizeOf(j) <= MAX_JOURNAL_BYTES ==> r.Success?)
    {
      PublishedToUndoable(p, w.disk, k);
      hide PathLoc, JournalOf, Recoverable, PublishedTo, AllUndoable, AllOld, AllNew;
      ghost var settled := w.disk;
      r := PutJournal(p, j);
      WorktreeKept(p, settled, w.disk);
      if r.Success? {
        assert JournalAt(w.disk, p.id) == Some(j);
      }
    }

    /** `publish_entry` in its turn. */
    method MoveEntry(p: Plan, j: Journal, i: nat) returns (r: Outcome<()>)
      requires Underway(p) && JournalOf(p, j, w.digest) && i < |j.entries| == Size(p) == |p.posts|
      requires PublishedTo(p, w.disk, i)
      modifies w`fates, w`failures, w`disk, w`committed
      ensures r.Success? ==> w.failures == old(w.failures)
      ensures Underway(p) && w.committed == old(w.committed)
      ensures r.Success? ==> Folder(p.root, p.patch.files[i].path) !in w.unsyncable
      ensures r.Failure? ==> r.error in {State, Stale, RecoveryRequired}
      ensures r.Success? ==> PublishedTo(p, w.disk, i + 1)
      ensures old(w.Quiet()) ==> w.Quiet() && !r.Crashed?
      ensures old(w.Quiet()) && FoldersSync(p) ==> r.Success?
    {
      FolderOf(p, j, i);
      hide PathLoc, Place, PlanOk, PlanApart, JournalOf, Framed, Published, PreHolds, PublishedTo, PublishLeaves,
        AllUndoable, PhaseHolds, Solid, Folder;
      ghost var before := w.disk;
      r := PublishEntry(j.root, j.entries[i]);
      PublishTurn(p, before, w.disk, j, i, r.Success?);
      assert At(w.disk, RecordLoc(p.id)) == At(before, RecordLoc(p.id));
      PublishingKept(p, before, w.disk);
    }

    lemma FolderOf(p: Plan, j: Journal, i: nat)
      requires |p.posts| == Size(p) && JournalOf(p, j, w.digest) && i < Size(p)
      ensures Folder(j.root, j.entries[i].relative) == Folder(p.root, p.patch.files[i].path)
    {
      assert EntryFor(j.entries[i], p.id, i, p.patch.files[i]);
    }

    lemma PublishingKept(p: Plan, d: Disk, d': Disk)
      requires Recoverable(p, d, p.dirs + {p.id}, false, w.digest, w.sizeOf) && RecordLoc(p.id) in d
      requires d[RecordLoc(p.id)].Log? && d[RecordLoc(p.id)].journal.phase == Publishing
      requires Framed(p, d') && Solid(p, d') && AllUndoable(p, d')
      requires At(d', RecordLoc(p.id)) == At(d, RecordLoc(p.id))
      ensures Recoverable(p, d', p.dirs + {p.id}, false, w.digest, w.sizeOf)
    {
      assert p.id in p.dirs + {p.id};
      hide PathLoc, PlanOk, PlanApart, JournalOf, Framed, Solid, AllUndoable, AllOld, AllNew, AllClean;
    }

    /** With nothing else in the way, the sync of the repository root after the Committed journal
        decides what is answered, and no longer what is done. */
    ghost predicate RootDecides(p: Plan, r: Outcome<nat>)
      reads w
    {
      if Work(p.root, "") in w.unsyncable then r == Failure(State) && p.id in w.committed else r.Success?
    }

    /** Git takes the patch in the stage, and one more look sees what the snapshot saw. */
    ghost predicate StageAgrees(s: Sight, snapshot: Snapshots.Snapshot) {
      w.verdicts.stageCheck && w.verdicts.stageApply && Fresh(Seen(s, 0), snapshot, w.sha)
    }

    /** `prepare_and_publish`. */
    method PrepareAndPublish(p: Plan, snapshot: Snapshots.Snapshot) returns (r: Outcome<nat>)
      requires PlanOk(p) && BeforeJournal(p, w.disk) && forall item :: Tx(p.id, item) !in w.disk
      requires w.dirs == p.dirs + {p.id} && p.id !in w.committed
      modifies w`fates, w`failures, w`sight, w`disk, w`dirs, w`committed
      ensures r.Success? ==> w.failures == old(w.failures)
      ensures r.Success? ==> StageAgrees(old(w.sight), snapshot)
      ensures !StageAgrees(old(w.sight), snapshot) ==> w.committed == old(w.committed)
      ensures Kept(p)
      ensures w.committed - {p.id} == old(w.committed)
      ensures if r.Success? then r.value == Size(p) && w.dirs == p.dirs && p.id in w.committed
              else w.dirs == p.dirs + {p.id}
      ensures r.Success? ==> FoldersSync(p) && Work(p.root, "") !in w.unsyncable
      ensures r.Failure? ==> r.error in {State, Git, Snapshot, Stale, RecoveryRequired}
      ensures r.Failure? && p.id in w.committed ==> r.error == State
      ensures old(w.Quiet()) ==> w.Quiet() && !r.Crashed?
      ensures old(w.Quiet()) && StageAgrees(old(w.sight), snapshot) && PostsFit(p) && FoldersSync(p) && (forall j :: w.sizeOf(j) <= MAX_JOURNAL_BYTES) ==>
                RootDecides(p, r)
    {
      var staged := Stage(p, snapshot);
      BeforeJournalIsRecoverable(p, w.disk, w.digest, w.sizeOf);
      if staged.IsFailure() {
        return staged.PropagateFailure();
      }
      BeforeJournalIsOld(p, w.disk);
      hide PlanOk, PlanApart, JournalOf, Framed, BeforeJournal, IsPatched, StageAgrees, Recoverable, AllOld, AllClean,
        PostsFit, Folder;
      r := Publish(p, Journal(JOURNAL_VERSION, p.root, Prepared, staged.value));
    }

    /** The post-images made and hashed in the stage. */
    method Stage(p: Plan, snapshot: Snapshots.Snapshot) returns (r: Outcome<seq<JournalEntry>>)
      requires PlanOk(p) && BeforeJournal(p, w.disk) && |p.posts| == Size(p)
      requires forall item :: Tx(p.id, item) !in w.disk
      modifies w`fates, w`failures, w`sight, w`disk
      ensures r.Success? ==> w.failures == old(w.failures)
      ensures BeforeJournal(p, w.disk)
      ensures r.Success? ==>
                && StageAgrees(old(w.sight), snapshot)
                && JournalOf(p, Journal(JOURNAL_VERSION, p.root, Prepared, r.value), w.digest)
                && forall i | 0 <= i < Size(p) :: IsPatched(p, w.disk, i)
      ensures r.Failure? ==> r.error in {State, Git, Snapshot, Stale}
      ensures old(w.Quiet()) ==> w.Quiet() && !r.Crashed?
      ensures old(w.Quiet()) && PostsFit(p) && StageAgrees(old(w.sight), snapshot) ==> r.Success?
    {
      hide PlanOk, JournalOf, BeforeJournal, IsPatched, DraftEntry, IsStaged, Fresh, StaleError, PostsFit;
      var io := w.Step();
      var _ :- Try(io, State);
      var drafts :- StageFiles(w, p);
      io := w.Ask(w.verdicts.stageCheck);
      var _ :- Try(io, Git);
      var _ :- PatchStage(w, p);
      var _ :- Revalidate(snapshot);
      r := HashStage(w, p, drafts);
    }

    /** From the first journal to the end of `prepare_and_publish`. */
    method Publish(p: Plan, first: Journal) returns (r: Outcome<nat>)
      requires Kept(p) && p.id !in w.committed && w.dirs == p.dirs + {p.id}
      requires JournalOf(p, first, w.digest) && first.phase == Prepared
      requires AllOld(p, w.disk) && AllClean(p, w.disk)
      requires forall i | 0 <= i < Size(p) :: IsPatched(p, w.disk, i)
      modifies w`fates, w`failures, w`disk, w`dirs, w`committed
      ensures r.Success? ==> w.failures == old(w.failures)
      ensures Kept(p)
      ensures w.committed - {p.id} == old(w.committed)
      ensures if r.Success? then r.value == Size(p) && w.dirs == p.dirs && p.id in w.committed
              else w.dirs == p.dirs + {p.id}
      ensures r.Success? ==> FoldersSync(p) && Work(p.root, "") !in w.unsyncable
      ensures r.Failure? ==> r.error in {State, Stale, RecoveryRequired}
      ensures r.Failure? && p.id in w.committed ==> r.error == State
      ensures old(w.Quiet()) ==> w.Quiet() && !r.Crashed?
      ensures old(w.Quiet()) && FoldersSync(p) && (forall j :: w.sizeOf(j) <= MAX_JOURNAL_BYTES) ==> RootDecides(p, r)
    {
      PlanSizes(p, first);
      hide PathLoc, PlanOk, PlanApart, JournalOf, PublishedTo, Recoverable, AllOld, AllClean, IsPatched, Folder;
      var j :- Prepare(p, first);
      j :- PublishAll(p, j);
      r := Conclude(p, j);
    }

    /** The Prepared journal, the temporaries, and the Publishing journal. */
    method Prepare(p: Plan, first: Journal) returns (r: Outcome<Journal>)
      requires Kept(p) && p.id !in w.committed && w.dirs == p.dirs + {p.id}
      requires JournalOf(p, first, w.digest) && first.phase == Prepared && |p.posts| == Size(p)
      requires AllOld(p, w.disk) && AllClean(p, w.disk)
      requires forall i | 0 <= i < Size(p) :: IsPatched(p, w.disk, i)
      modifies w`fates, w`failures, w`disk, w`committed
      ensures r.Success? ==> w.failures == old(w.failures)
      ensures Kept(p) && w.committed == old(w.committed)
      ensures r.Success? ==>
                && Underway(p) && PublishedTo(p, w.disk, 0)
                && JournalOf(p, r.value, w.digest) && r.value.phase == Publishing
      ensures r.Failure? ==> r.error == State
      ensures old(w.Quiet()) ==> w.Quiet() && !r.Crashed?
      ensures old(w.Quiet()) && (forall j :: w.sizeOf(j) <= MAX_JOURNAL_BYTES) ==> r.Success?
    {
      PlanSizes(p, first);
      StillItsJournal(p, first, 0, false, Publishing);
      hide PathLoc, PlanOk, PlanApart, JournalOf, PublishedTo, Recoverable, AllOld, AllClean, AllUndoable, IsPatched,
        CopiedTo;
      ghost var before := w.disk;
      var _ :- PutJournal(p, first);
      StageAndTempsKept(p, before);
      var _ :- CopyTemporaries(p, first);
      var j := first.(phase := Publishing);
      var _ :- PutProgress(p, j, 0);
      return Success(j);
    }

    /** The Committed journal and the clearing up after it. */
    method Conclude(p: Plan, published: Journal) returns (r: Outcome<nat>)
      requires Kept(p) && p.id !in w.committed && w.dirs == p.dirs + {p.id}
      requires JournalOf(p, published, w.digest) && PublishedTo(p, w.disk, Size(p))
      modifies w`fates, w`failures, w`disk, w`dirs, w`committed
      ensures r.Success? ==> w.failures == old(w.failures)
      ensures Kept(p)
      ensures w.committed - {p.id} == old(w.committed)
      ensures if r.Success? then r.value == Size(p) && w.dirs == p.dirs && p.id in w.committed
              else w.dirs == p.dirs + {p.id}
      ensures r.Success? ==> Work(p.root, "") !in w.unsyncable
      ensures r.Failure? ==> r.error == State
      ensures old(w.Quiet()) ==> w.Quiet() && !r.Crashed?
      ensures old(w.Quiet()) && (forall j :: w.sizeOf(j) <= MAX_JOURNAL_BYTES) ==> RootDecides(p, r)
    {
      PlanSizes(p, published);
      hide PathLoc, PlanOk, PlanApart, JournalOf, PublishedTo, Recoverable, AllUndoable, AllNew, Apart, Swept, Backlog,
        Spares;
      StillItsJournal(p, published, 0, false, Committed);
      PublishedToUndoable(p, w.disk, Size(p));
      var j := published.(phase := Committed);
      var _ :- PutJournal(p, j);
      var io := w.Sync(Work(p.root, ""));
      var _ :- Try(io, State);
      PlanEntriesAreApart(p, j);
      var _ :- FinishRecovery(p.id, j, Some(p));
      assert p.dirs + {p.id} - {p.id} == p.dirs by { NotItsOwnNeighbour(p); }
      return Success(|j.entries|);
    }

    lemma PlanEntriesAreApart(p: Plan, j: Journal)
      requires Kept(p) && |p.posts| == Size(p) && JournalOf(p, j, w.digest)
      ensures Apart(j.root, j.entries)
    {
      PlanEntriesApart(p, j, w.digest);
    }

    lemma NotItsOwnNeighbour(p: Plan)
      requires PlanOk(p)
      ensures p.id !in p.dirs
    {
    }

    lemma StageAndTempsKept(p: Plan, d: Disk)
      requires |p.posts| == Size(p) && AllClean(p, d)
      requires forall i | 0 <= i < Size(p) :: IsPatched(p, d, i)
      requires forall l {:trigger At(w.disk, l)} ::
                 l != Tx(p.id, Scratch) && l != RecordLoc(p.id) ==> At(w.disk, l) == At(d, l)
      ensures CopiedTo(p, 0)
    {
      forall i | 0 <= i < Size(p) ensures IsPatched(p, w.disk, i) && PathLoc(p, i, Temp) !in w.disk {
        assert IsPatched(p, d, i) && NoScrap(p, d, i);
        assert At(w.disk, StageLoc(p, i)) == At(d, StageLoc(p, i));
        assert At(w.disk, PathLoc(p, i, Temp)) == At(d, PathLoc(p, i, Temp));
      }
    }

    // ---- Apply ----

    /** What Apply of `q` under `id` sets out to do on this disk; `posts` are the post-images
        `git apply` makes in the stage (the entry of a Delete is not used). */
    static function PlanOver(id: string, q: Proposal, posts: seq<string>, disk: Disk, dirs: set<string>): Plan {
      Plan(id, q.root, disk, dirs, q.patch, posts)
    }

    /** What every caller of Apply brings: a proposal that passed validation, and names nobody
        else uses. */
    static ghost predicate Admissible(w: World, id: string, q: Proposal, posts: seq<string>)
      reads w
    {
      && WellFormed(q.patch) && StartsWith(q.root, "/") && |posts| == |q.patch.files|
      && id !in w.committed
      && (id !in w.dirs ==> FreshNames(w.disk, id, q.root, q.patch.files))
    }

    /** How a failed revalidation is answered: the repository is another, or it cannot be read. */
    ghost function StaleError(o: Snapshots.Observation): ApplyError {
      if Snapshots.Capture(o).Ok? then Stale else Snapshot
    }

    /** `revalidate`: a new look has to give the snapshot's token. */
    method Revalidate(snapshot: Snapshots.Snapshot) returns (r: Outcome<()>)
      modifies w`fates, w`failures, w`sight
      ensures r.Success? ==> w.failures == old(w.failures)
      ensures w.sight == Passed(old(w.sight))
      ensures r.Success? ==> Fresh(old(w.sight).now, snapshot, w.sha)
      ensures r.Failure? ==> r.error in {Snapshot, Stale}
      ensures old(w.Quiet()) ==>
                && w.Quiet() && !r.Crashed?
                && r == if Fresh(old(w.sight).now, snapshot, w.sha) then Success(())
                        else Failure(StaleError(old(w.sight).now))
    {
      var o := w.Look();
      Snapshots.CaptureIsNeverStale(o);
      hide Snapshots.Capture;
      var io := w.Step();
      var _ :- Try(io, Snapshot);
      var now := Snapshots.Revalidate(snapshot, o, w.sha);
      if now.Ok? {
        return Success(());
      }
      return Failure(if now.error.Stale? then Stale else Snapshot);
    }

    /** What the checks answer if every question can be asked: the first refusal decides. */
    ghost function Verdict(id: string, q: Proposal, s: Sight, d: Disk): Outcome<()> {
      if !ValidTransactionId(id) then Failure(Identifier)
      else if !w.verdicts.operationSafe then Failure(Repository)
      else if !Fresh(Seen(s, 0), q.snapshot, w.sha) then Failure(StaleError(Seen(s, 0)))
      else if !TargetsFit(d, q.root, q.patch.files) then Failure(Repository)
      else if !w.verdicts.rootCheck then Failure(Git)
      else if !Fresh(Seen(s, 1), q.snapshot, w.sha) then Failure(StaleError(Seen(s, 1)))
      else Success(())
    }

    /** The checks before the transaction directory is made; they change nothing. */
    method Precheck(id: string, q: Proposal) returns (r: Outcome<()>)
      modifies w`fates, w`failures, w`sight
      ensures r.Success? ==> w.failures == old(w.failures)
      ensures r.Success? ==> Verdict(id, q, old(w.sight), w.disk).Success? && w.sight == Passed(Passed(old(w.sight)))
      ensures r.Failure? ==> r.error in {Identifier, Repository, Snapshot, Stale, Git}
      ensures r == Failure(Identifier) <==> !ValidTransactionId(id)
      ensures old(w.Quiet()) ==> w.Quiet() && r == Verdict(id, q, old(w.sight), w.disk)
    {
      if !ValidTransactionId(id) {
        return Failure(Identifier);
      }
      hide ValidTransactionId, Fresh, TargetsFit, StaleError;
      var io := w.Ask(w.verdicts.operationSafe);
      var _ :- Try(io, Repository);
      var _ :- Revalidate(q.snapshot);
      assert Seen(old(w.sight), 1) == w.sight.now;
      var _ :- CheckPaths(q);
      io := w.Ask(w.verdicts.rootCheck);
      var _ :- Try(io, Git);
      r := Revalidate(q.snapshot);
    }

    /** `validate_change_path` of every change. */
    method CheckPaths(q: Proposal) returns (r: Outcome<()>)
      modifies w`fates, w`failures
      ensures r.Success? ==> w.failures == old(w.failures)
      ensures r.Success? ==> TargetsFit(w.disk, q.root, q.patch.files)
      ensures r.Failure? ==> r.error == Repository
      ensures old(w.Quiet()) ==>
                w.Quiet() && !r.Crashed? && (r.Success? <==> TargetsFit(w.disk, q.root, q.patch.files))
    {
      hide TargetFits;
      for i := 0 to |q.patch.files|
        invariant forall k | 0 <= k < i :: TargetFits(w.disk, q.root, q.patch.files[k])
        invariant old(w.Quiet()) ==> w.Quiet()
        invariant w.failures == old(w.failures)
      {
        var io := w.Step();
        var _ :- Try(io, Repository);
        if !TargetFits(w.disk, q.root, q.patch.files[i]) {
          return Failure(Repository);
        }
      }
      return Success(());
    }

    /** What Apply may leave behind.  Success: every change made, and nothing else.  Any failure but
        RecoveryRequired: all or nothing, and all only with State.  After RecoveryRequired or a
        crash: nothing done yet, or a state that recovery resolves. */
    static ghost predicate ApplyLeaves(p: Plan, d: Disk, dirs: set<string>, done: bool, r: Outcome<nat>,
                                       digest: string -> string, sizeOf: Journal -> nat) {
      && (r.Success? ==>
            && dirs == p.dirs && done && r.value == Size(p) == |p.posts| && d == PostImage(p, Size(p)))
      && (r.Failure? && r.error != RecoveryRequired ==>
            && dirs == p.dirs && (done ==> r.error == State)
            && if done then |p.posts| == Size(p) && d == PostImage(p, Size(p)) else d == p.base)
      && ((d == p.base && dirs == p.dirs && !done) || Recoverable(p, d, dirs, done, digest, sizeOf))
    }

    /** An Apply that answers State has done everything or nothing, and it is everything exactly
        when the Committed journal was put in place, unless the patch changes nothing. */
    static lemma StateTellsNothing(p: Plan, d: Disk, dirs: set<string>, done: bool,
                                   digest: string -> string, sizeOf: Journal -> nat)
      requires PlanApart(p) && |p.posts| == Size(p)
      requires ApplyLeaves(p, d, dirs, done, Failure(State), digest, sizeOf)
      ensures dirs == p.dirs && (d == PostImage(p, Size(p)) || d == p.base)
      ensures d == PostImage(p, Size(p)) <==> done || forall i | 0 <= i < Size(p) :: Post(p, i) == Pre(p, i)
    {
      NothingChanged(p);
      hide Recoverable, PostImage, PlanApart;
    }

    /** Only one journal can be on record, and its names never meet. */
    lemma RecordedJournalIsApart(p: Plan)
      requires Kept(p)
      ensures var j := JournalAt(w.disk, p.id); j.Some? ==> Apart(j.value.root, j.value.entries)
    {
      var j := JournalAt(w.disk, p.id);
      if j.Some? {
        PlanEntriesApart(p, j.value, w.digest);
      }
    }

    lemma Resolved(p: Plan)
      requires Kept(p)
      ensures |p.posts| == Size(p) && PlanApart(p)
      ensures p.id !in w.dirs ==>
                && w.dirs == p.dirs
                && w.disk == if p.id in w.committed then PostImage(p, Size(p)) else p.base
    {
      if p.id !in w.dirs {
        ResolvedIsAllOrNothing(p, w.disk, w.dirs, p.id in w.committed, w.digest, w.sizeOf);
      }
    }

    /** `apply`.  All or nothing on success and on every failure but RecoveryRequired; after that
        one, or a crash, the disk is one that recovery resolves.  And never anything unless every
        check was passed: the repository has to be, at all three looks, what the snapshot saw. */
    method Apply(id: string, q: Proposal, posts: seq<string>) returns (r: Outcome<nat>)
      requires Admissible(w, id, q, posts)
      modifies w`fates, w`failures, w`sight, w`disk, w`dirs, w`committed
      ensures r.Success? ==> w.failures == old(w.failures)
      ensures w.committed - {id} == old(w.committed)
      ensures ApplyLeaves(PlanOver(id, q, posts, old(w.disk), old(w.dirs)), w.disk, w.dirs, id in w.committed, r,
                          w.digest, w.sizeOf)
      ensures !Verdict(id, q, old(w.sight), old(w.disk)).Success? || id in old(w.dirs) ==>
                !r.Success? && w.disk == old(w.disk) && w.dirs == old(w.dirs) && w.committed == old(w.committed)
      ensures !StageAgrees(Passed(Passed(old(w.sight))), q.snapshot) ==> !r.Success? && w.committed == old(w.committed)
      ensures r.Success? ==>
                FoldersSync(PlanOver(id, q, posts, old(w.disk), old(w.dirs))) && Work(q.root, "") !in w.unsyncable
      ensures r == Failure(Identifier) <==> !ValidTransactionId(id)
      ensures old(w.Quiet()) ==> w.Quiet() && !r.Crashed? && (w.unsyncable == {} ==> w.dirs == old(w.dirs))
      ensures old(w.Quiet()) && Verdict(id, q, old(w.sight), old(w.disk)).Failure? ==>
                r == Failure(Verdict(id, q, old(w.sight), old(w.disk)).error)
      ensures (old(w.Quiet()) && Verdict(id, q, old(w.sight), old(w.disk)).Success? && id !in old(w.dirs)
               && StageAgrees(Passed(Passed(old(w.sight))), q.snapshot)
               && PostsFit(PlanOver(id, q, posts, old(w.disk), old(w.dirs)))
               && FoldersSync(PlanOver(id, q, posts, old(w.disk), old(w.dirs)))
               && forall j :: w.sizeOf(j) <= MAX_JOURNAL_BYTES) ==>
                RootDecides(PlanOver(id, q, posts, old(w.disk), old(w.dirs)), r)
    {
      hide Fresh, StaleError;
      var _ :- Precheck(id, q);
      var io := w.Step();
      var _ :- Try(io, TransactionExists);
      if id in w.dirs {
        return Failure(TransactionExists);
      }
      var p := PlanOver(id, q, posts, w.disk, w.dirs);
      w.dirs := w.dirs + {id};
      assert PlanOk(p) && BeforeJournal(p, w.disk);
      hide PlanOk, BeforeJournal, FreshNames, WellFormed, TargetsFit, PostsFit, ValidTransactionId, ApplyLeaves, Folder,
        StageAgrees;
      r := Transact(p, q.snapshot);
    }

    /** From the creation of the directory on: publication and, should it fail, recovery. */
    method Transact(p: Plan, snapshot: Snapshots.Snapshot) returns (r: Outcome<nat>)
      requires PlanOk(p) && BeforeJournal(p, w.disk) && |p.posts| == Size(p)
      requires forall item :: Tx(p.id, item) !in w.disk
      requires w.dirs == p.dirs + {p.id} && p.id !in w.committed
      modifies w`fates, w`failures, w`sight, w`disk, w`dirs, w`committed
      ensures r.Success? ==> w.failures == old(w.failures)
      ensures w.committed - {p.id} == old(w.committed)
      ensures !StageAgrees(old(w.sight), snapshot) ==> !r.Success? && w.committed == old(w.committed)
      ensures ApplyLeaves(p, w.disk, w.dirs, p.id in w.committed, r, w.digest, w.sizeOf)
      ensures r.Success? ==> FoldersSync(p) && Work(p.root, "") !in w.unsyncable
      ensures r.Failure? ==> r.error !in {Identifier, TransactionExists}
      ensures old(w.Quiet()) ==> w.Quiet() && !r.Crashed? && (w.unsyncable == {} ==> w.dirs == p.dirs)
      ensures (old(w.Quiet()) && StageAgrees(old(w.sight), snapshot) && PostsFit(p) && FoldersSync(p)
               && forall j :: w.sizeOf(j) <= MAX_JOURNAL_BYTES) ==> RootDecides(p, r)
    {
      NotItsOwnNeighbour(p);
      hide PlanOk, PlanApart, BeforeJournal, Recoverable, PostsFit, PostImage, Undoable, Backlog, Folder,
        Overwrites, Spares, Blocked, Recovered, Usable, StageAgrees;
      r := PrepareAndPublish(p, snapshot);
      if r.Failure? {
        RecordedJournalIsApart(p);
        var recovered := RecoverOne(p.id, Some(p));
        if recovered.Crashed? {
          return Crashed;
        }
        if recovered.Failure? {
          r := Failure(RecoveryRequired);
        }
      }
      Resolved(p);
    }
  }
}
