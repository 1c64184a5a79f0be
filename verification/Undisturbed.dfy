/** What recovery does to any disk when nothing interrupts it (crates/premonition-core/src/apply.rs:218-241),
    and which foreign targets it spares. */
module Undisturbed {
  import opened Text
  import opened SafePaths
  import opened DiffGrammar
  import opened Journals
  import opened TransactionState
  import opened Recoverables

  /** Rollback of the first `n` entries, last one first, up to one that may not be undone. */
  function Unwound(d: Disk, j: Journal, n: nat, digest: string -> string): Disk
    requires n <= |j.entries|
    decreases n
  {
    if n == 0 || !MayUndo(d, j.root, j.entries[n - 1], digest) then d
    else Unwound(Undone(d, j.root, j.entries[n - 1]), j, n - 1, digest)
  }

  /** `cleanup_transaction`. */
  function Swept(d: Disk, id: string, j: Journal): Disk {
    map l | l in d && !InTx(id, l) && !(IsScrap(j, l) && Exists(d, l)) :: d[l]
  }

  /** Recovery may not go on: a probed target holds what the journal did not put there. */
  ghost predicate Blocked(d: Disk, j: Journal, digest: string -> string) {
    match j.phase
    case Prepared => false
    case Publishing => exists i | 0 <= i < |j.entries| :: !MayUndo(d, j.root, j.entries[i], digest)
    case Committed => exists i | 0 <= i < |j.entries| :: !PostHolds(d, j.root, j.entries[i], digest)
  }

  /** The disk before the clearing up. */
  function Settled(d: Disk, j: Journal, digest: string -> string): Disk {
    if j.phase == Publishing then Unwound(d, j, |j.entries|, digest) else d
  }

  /** The disk after `recover_one` on a valid journal. */
  ghost function Recovered(d: Disk, id: string, j: Journal, digest: string -> string): Disk {
    var settled := Settled(d, j, digest);
    if Blocked(d, j, digest) then settled else Swept(settled, id, j)
  }

  // ---- what is spared ----

  lemma {:induction false} UnwoundKeeps(d: Disk, j: Journal, n: nat, i: nat, digest: string -> string)
    requires Apart(j.root, j.entries) && n <= i < |j.entries|
    ensures At(Unwound(d, j, n, digest), Place(j.root, j.entries[i], Target)) == At(d, Place(j.root, j.entries[i], Target))
    decreases n
  {
    hide Place, Undone, MayUndo, Apart;
    if n > 0 && MayUndo(d, j.root, j.entries[n - 1], digest) {
      var e := Undone(d, j.root, j.entries[n - 1]);
      RollbackSpares(d, e, j, n - 1, digest);
      UnwoundKeeps(e, j, n - 1, i, digest);
    }
  }

  lemma VeiledIsLost(d: Disk, j: Journal, i: nat, digest: string -> string)
    requires Apart(j.root, j.entries) && i < |j.entries| && Veiled(d, j.root, j.entries[i])
    ensures MayUndo(d, j.root, j.entries[i], digest) && Foreign(d, j.root, j.entries[i], digest)
    ensures var t, b := Place(j.root, j.entries[i], Target), Place(j.root, j.entries[i], Back);
            At(Undone(d, j.root, j.entries[i]), t) == At(d, b) != At(d, t)
  {
    assert Place(j.root, j.entries[i], Target) != Place(j.root, j.entries[i], Back);
  }

  lemma EndangeredStep(d: Disk, j: Journal, n: nat, digest: string -> string)
    requires Apart(j.root, j.entries) && 0 < n <= |j.entries| && MayUndo(d, j.root, j.entries[n - 1], digest)
    ensures Endangered(d, j, n, digest) <==>
              || Veiled(d, j.root, j.entries[n - 1])
              || Endangered(Undone(d, j.root, j.entries[n - 1]), j, n - 1, digest)
  {
    var e := Undone(d, j.root, j.entries[n - 1]);
    RollbackSpares(d, e, j, n - 1, digest);
    hide Veiled, MayUndo, Undone, Apart, Place;
    SameDanger(d, e, j, n - 1, digest);
  }

  lemma SameDanger(d: Disk, e: Disk, j: Journal, n: nat, digest: string -> string)
    requires n < |j.entries| && MayUndo(d, j.root, j.entries[n], digest)
    requires forall i | 0 <= i < n ::
               && (Veiled(e, j.root, j.entries[i]) <==> Veiled(d, j.root, j.entries[i]))
               && (MayUndo(e, j.root, j.entries[i], digest) <==> MayUndo(d, j.root, j.entries[i], digest))
    ensures Endangered(d, j, n + 1, digest) <==> Veiled(d, j.root, j.entries[n]) || Endangered(e, j, n, digest)
  {
    hide Veiled, MayUndo;
    if Endangered(d, j, n + 1, digest) && !Veiled(d, j.root, j.entries[n]) {
      var i :| 0 <= i < n + 1 && Veiled(d, j.root, j.entries[i])
            && forall k | i < k < n + 1 :: MayUndo(d, j.root, j.entries[k], digest);
      assert Veiled(e, j.root, j.entries[i]);
    }
    if Endangered(e, j, n, digest) {
      var i :| 0 <= i < n && Veiled(e, j.root, j.entries[i])
            && forall k | i < k < n :: MayUndo(e, j.root, j.entries[k], digest);
      assert Veiled(d, j.root, j.entries[i]);
    }
  }

  /** Rollback spares every foreign target unless it gets to a veiled one. */
  lemma {:induction false} UnwoundSpares(d: Disk, j: Journal, n: nat, digest: string -> string)
    requires Apart(j.root, j.entries) && n <= |j.entries|
    ensures Spares(d, Unwound(d, j, n, digest), j, digest) <==> !Endangered(d, j, n, digest)
    decreases n
  {
    hide Place, Undone, MayUndo, Apart, Veiled, Foreign;
    if n > 0 && MayUndo(d, j.root, j.entries[n - 1], digest) {
      var e, all := Undone(d, j.root, j.entries[n - 1]), Unwound(d, j, n, digest);
      RollbackSpares(d, e, j, n - 1, digest);
      EndangeredStep(d, j, n, digest);
      UnwoundSpares(e, j, n - 1, digest);
      UnwoundKeeps(e, j, n - 1, n - 1, digest);
      if Veiled(d, j.root, j.entries[n - 1]) {
        VeiledIsLost(d, j, n - 1, digest);
      } else {
        SpareSame(d, e, all, j, n - 1, digest);
      }
    } else if n > 0 && Endangered(d, j, n, digest) {
      var i :| 0 <= i < n && Veiled(d, j.root, j.entries[i])
            && forall k | i < k < n :: MayUndo(d, j.root, j.entries[k], digest);
      VeiledIsLost(d, j, i, digest);
    }
  }

  lemma SpareSame(a: Disk, b: Disk, c: Disk, j: Journal, k: nat, digest: string -> string)
    requires Spares(a, b, j, digest) && k < |j.entries|
    requires forall i | 0 <= i < |j.entries| && i != k ::
               At(b, Place(j.root, j.entries[i], Target)) == At(a, Place(j.root, j.entries[i], Target))
    requires At(c, Place(j.root, j.entries[k], Target)) == At(b, Place(j.root, j.entries[k], Target))
    ensures Spares(a, c, j, digest) <==> Spares(b, c, j, digest)
  {
    hide Place;
    if Spares(b, c, j, digest) {
      SparesCompose(a, b, c, j, digest);
    }
    if Spares(a, c, j, digest) {
      forall i | 0 <= i < |j.entries| && Foreign(b, j.root, j.entries[i], digest)
        ensures At(c, Place(j.root, j.entries[i], Target)) == At(b, Place(j.root, j.entries[i], Target))
      {
        assert i != k ==> Foreign(a, j.root, j.entries[i], digest);
      }
    }
  }

  lemma {:induction false} UnwoundKeepsTx(d: Disk, j: Journal, n: nat, l: Loc, digest: string -> string)
    requires n <= |j.entries| && l.Tx?
    ensures At(Unwound(d, j, n, digest), l) == At(d, l)
    decreases n
  {
    hide MayUndo;
    if n > 0 && MayUndo(d, j.root, j.entries[n - 1], digest) {
      UnwoundKeepsTx(Undone(d, j.root, j.entries[n - 1]), j, n - 1, l, digest);
    }
  }

  lemma SweptKeeps(d: Disk, id: string, j: Journal, i: nat)
    requires Apart(j.root, j.entries) && i < |j.entries|
    ensures At(Swept(d, id, j), Place(j.root, j.entries[i], Target)) == At(d, Place(j.root, j.entries[i], Target))
  {
    assert !IsScrap(j, Place(j.root, j.entries[i], Target));
    assert Place(j.root, j.entries[i], Target).Work?;
    hide IsScrap, Place;
  }

  lemma SameTargets(d: Disk, e: Disk, f: Disk, j: Journal, digest: string -> string)
    requires forall i | 0 <= i < |j.entries| ::
               At(f, Place(j.root, j.entries[i], Target)) == At(e, Place(j.root, j.entries[i], Target))
    ensures Spares(d, f, j, digest) <==> Spares(d, e, j, digest)
  {
    hide Place, Foreign;
  }

  /** Recovery under edits by others, exactly: for every journal and every disk, an undisturbed
      recovery keeps every foreign target unless it is rolling back and gets to an entry whose
      backup is there and whose target has become a link that leads nowhere. */
  lemma RecoverySparesExactly(d: Disk, id: string, j: Journal, digest: string -> string)
    requires Apart(j.root, j.entries)
    ensures Spares(d, Recovered(d, id, j, digest), j, digest) <==> !Overwrites(d, j, digest)
  {
    var n := |j.entries|;
    var u := Unwound(d, j, n, digest);
    UnwoundSpares(d, j, n, digest);
    forall i | 0 <= i < n
      ensures At(Swept(u, id, j), Place(j.root, j.entries[i], Target)) == At(u, Place(j.root, j.entries[i], Target))
      ensures At(Swept(d, id, j), Place(j.root, j.entries[i], Target)) == At(d, Place(j.root, j.entries[i], Target))
    {
      SweptKeeps(u, id, j, i);
      SweptKeeps(d, id, j, i);
    }
    hide Place, Unwound, Swept, Apart, Endangered, Blocked;
    SameTargets(d, u, Swept(u, id, j), j, digest);
    SameTargets(d, d, Swept(d, id, j), j, digest);
  }

  /** Without a veiled entry nothing is overwritten; and where nothing stops rollback the
      condition is just a look at each entry. */
  lemma OverwritesWhatIsVeiled(d: Disk, j: Journal, digest: string -> string)
    requires j.phase == Publishing
    ensures Overwrites(d, j, digest) ==> exists i | 0 <= i < |j.entries| :: Veiled(d, j.root, j.entries[i])
    ensures !Blocked(d, j, digest) ==>
              (Overwrites(d, j, digest) <==> exists i | 0 <= i < |j.entries| :: Veiled(d, j.root, j.entries[i]))
  {
    hide Veiled, MayUndo;
  }

  /** Rollback is to put something in place of a foreign target. */
  ghost predicate Obstructed(d: Disk, root: string, e: JournalEntry, digest: string -> string) {
    Foreign(d, root, e, digest) && (e.kind == Add || Exists(d, Place(root, e, Back)))
  }

  /** It stops for such a target, and keeps the journal, exactly when some probe sees one. */
  lemma StopsExactly(d: Disk, j: Journal, digest: string -> string)
    requires j.phase == Publishing
    ensures Blocked(d, j, digest) <==>
              exists i | 0 <= i < |j.entries| ::
                Obstructed(d, j.root, j.entries[i], digest) && Exists(d, Place(j.root, j.entries[i], Target))
  {
    forall i | 0 <= i < |j.entries|
      ensures MayUndo(d, j.root, j.entries[i], digest) <==>
              !(Obstructed(d, j.root, j.entries[i], digest) && Exists(d, Place(j.root, j.entries[i], Target)))
    {
    }
    hide MayUndo, Obstructed, Place, Exists;
  }

  lemma BlockedKeepsJournal(d: Disk, id: string, j: Journal, digest: string -> string)
    requires Blocked(d, j, digest)
    ensures At(Recovered(d, id, j, digest), RecordLoc(id)) == At(d, RecordLoc(id))
  {
    UnwoundKeepsTx(d, j, |j.entries|, RecordLoc(id), digest);
    hide Unwound, Blocked;
  }

  // ---- the published flags ----

  predicate SameButFlags(a: Journal, b: Journal) {
    && a.(entries := []) == b.(entries := []) && |a.entries| == |b.entries|
    && forall i | 0 <= i < |a.entries| :: a.entries[i].(published := false) == b.entries[i].(published := false)
  }

  ghost predicate AlikeBut(d: Disk, e: Disk, x: Loc) {
    forall l | l != x :: At(d, l) == At(e, l)
  }

  /** Two recoveries from journals that differ only in their flags stop alike and leave the same
      disk, but for the journal itself while it is there. */
  lemma FlagsDoNotMatter(d: Disk, id: string, a: Journal, b: Journal, digest: string -> string)
    requires SameButFlags(a, b)
    ensures var x, y := d[RecordLoc(id) := Log(a)], d[RecordLoc(id) := Log(b)];
            && (Blocked(x, a, digest) <==> Blocked(y, b, digest))
            && AlikeBut(Recovered(x, id, a, digest), Recovered(y, id, b, digest), RecordLoc(id))
  {
    var r := RecordLoc(id);
    var x, y, n := d[r := Log(a)], d[r := Log(b)], |a.entries|;
    forall i | 0 <= i < n
      ensures MayUndo(x, a.root, a.entries[i], digest) <==> MayUndo(y, b.root, b.entries[i], digest)
      ensures PostHolds(x, a.root, a.entries[i], digest) <==> PostHolds(y, b.root, b.entries[i], digest)
      ensures forall s :: Place(a.root, a.entries[i], s) == Place(b.root, b.entries[i], s)
    {
      SameEntry(y, a, b, i, digest);
      ElsewhereEntry(x, y, r, a.root, a.entries[i], digest);
    }
    UnwoundAlike(x, y, r, a, b, n, digest);
    hide MayUndo, PostHolds, Place, Unwound, SameButFlags, Swept;
    SweptAlike(x, y, r, id, a, b);
    SweptAlike(Unwound(x, a, n, digest), Unwound(y, b, n, digest), r, id, a, b);
  }

  lemma SweptAlike(d: Disk, e: Disk, x: Loc, id: string, a: Journal, b: Journal)
    requires AlikeBut(d, e, x) && |a.entries| == |b.entries|
    requires forall i, s | 0 <= i < |a.entries| :: Place(a.root, a.entries[i], s) == Place(b.root, b.entries[i], s)
    ensures AlikeBut(Swept(d, id, a), Swept(e, id, b), x)
  {
    forall l ensures IsScrap(a, l) <==> IsScrap(b, l) {
      hide Place;
    }
    hide IsScrap, Place;
    forall l | l != x ensures At(Swept(d, id, a), l) == At(Swept(e, id, b), l) {
      assert At(d, l) == At(e, l);
    }
  }

  lemma SameEntry(d: Disk, a: Journal, b: Journal, i: nat, digest: string -> string)
    requires SameButFlags(a, b) && i < |a.entries|
    ensures MayUndo(d, a.root, a.entries[i], digest) <==> MayUndo(d, b.root, b.entries[i], digest)
    ensures PostHolds(d, a.root, a.entries[i], digest) <==> PostHolds(d, b.root, b.entries[i], digest)
    ensures forall s :: Place(a.root, a.entries[i], s) == Place(b.root, b.entries[i], s)
    ensures Undone(d, a.root, a.entries[i]) == Undone(d, b.root, b.entries[i])
  {
    assert a.entries[i].(published := false) == b.entries[i].(published := false);
    assert a.(entries := []).root == b.(entries := []).root;
  }

  lemma ElsewhereEntry(d: Disk, e: Disk, x: Loc, root: string, entry: JournalEntry, digest: string -> string)
    requires AlikeBut(d, e, x) && x.Tx?
    ensures MayUndo(d, root, entry, digest) <==> MayUndo(e, root, entry, digest)
    ensures PostHolds(d, root, entry, digest) <==> PostHolds(e, root, entry, digest)
    ensures AlikeBut(Undone(d, root, entry), Undone(e, root, entry), x)
  {
    var t, b := Place(root, entry, Target), Place(root, entry, Back);
    assert At(d, t) == At(e, t) && At(d, b) == At(e, b);
    assert t != x && b != x;
    hide Place;
    forall l | l != x ensures At(Undone(d, root, entry), l) == At(Undone(e, root, entry), l) {
      assert At(d, l) == At(e, l);
    }
  }

  lemma {:induction false} UnwoundAlike(d: Disk, e: Disk, x: Loc, a: Journal, b: Journal, n: nat, digest: string -> string)
    requires SameButFlags(a, b) && n <= |a.entries| && AlikeBut(d, e, x) && x.Tx?
    ensures AlikeBut(Unwound(d, a, n, digest), Unwound(e, b, n, digest), x)
    decreases n
  {
    hide MayUndo, Undone, AlikeBut;
    if n > 0 {
      SameEntry(e, a, b, n - 1, digest);
      ElsewhereEntry(d, e, x, a.root, a.entries[n - 1], digest);
      if MayUndo(d, a.root, a.entries[n - 1], digest) {
        UnwoundAlike(Undone(d, a.root, a.entries[n - 1]), Undone(e, a.root, a.entries[n - 1]), x, a, b, n - 1, digest);
      }
    }
  }

  // ---- the link ----

  /** A transaction cut between the two renames of its one Modify, whose target somebody then
      made a link that leads nowhere. */
  function LinkedJournal(): Journal {
    Journal(JOURNAL_VERSION, "/r", Publishing,
      [JournalEntry("f", Modify, Temporary("x", 0), Backup("x", 0), Some("pre"), Some("post"), false)])
  }

  function LinkedDisk(): Disk {
    map[Work("/r", "f") := Link(None), Work("/r", Backup("x", 0)) := Data("old"),
        Tx("x", Record) := Log(LinkedJournal())]
  }

  lemma LinkedNames()
    ensures var r, e := "/r", LinkedJournal().entries[0];
            && Place(r, e, Target) == Work("/r", "f")
            && Place(r, e, Temp) == Work("/r", Temporary("x", 0)) && Place(r, e, Back) == Work("/r", Backup("x", 0))
            && |Temporary("x", 0)| > 1 && |Backup("x", 0)| > 1 && Temporary("x", 0) != Backup("x", 0)
  {
    BaseStartIs("", "f");
    assert "" + "f" == "f";
    assert "f"[..0] + Temporary("x", 0) == Temporary("x", 0) && "f"[..0] + Backup("x", 0) == Backup("x", 0);
    var n := |Stem("x", 0)|;
    assert Temporary("x", 0)[n..] == ".new" && Backup("x", 0)[n..] == ".bak" && ".new"[1] != ".bak"[1];
  }

  lemma LinkedJournalIsValid()
    ensures Apart("/r", LinkedJournal().entries) && ValidJournal(LinkedJournal())
  {
    LinkedNames();
    OwnNamesAreRecognised("x", 0);
    SplitNone("f", '/');
    hide Temporary, Backup, Place, IsTransactionFilename, Split;
    assert GoodComponent("f");
    hide GoodComponent;
  }

  /** The property does fail of the code: recovery takes the link for absence, renames the backup
      over it, and is done. */
  lemma LinkIsOverwritten(digest: string -> string)
    ensures var d, j := LinkedDisk(), LinkedJournal();
            && Apart(j.root, j.entries) && ValidJournal(j)
            && !Blocked(d, j, digest) && Overwrites(d, j, digest)
            && At(d, Work("/r", "f")) == Some(Link(None))
            && At(Recovered(d, "x", j, digest), Work("/r", "f")) == Some(Data("old"))
            && !Spares(d, Recovered(d, "x", j, digest), j, digest)
  {
    var d, j := LinkedDisk(), LinkedJournal();
    LinkedNames();
    LinkedJournalIsValid();
    hide Temporary, Backup, Apart, ValidJournal, Place, Foreign, IsScrap, Swept;
    assert Veiled(d, j.root, j.entries[0]);
    VeiledIsLost(d, j, 0, digest);
    var u := Undone(d, j.root, j.entries[0]);
    hide MayUndo, Undone, Veiled;
    assert Unwound(d, j, 1, digest) == Unwound(u, j, 0, digest) == u;
    assert Recovered(d, "x", j, digest) == Swept(u, "x", j);
    SweptKeeps(u, "x", j, 0);
    RecoverySparesExactly(d, "x", j, digest);
  }
}
