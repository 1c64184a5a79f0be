/** One Apply and every restart after it, each cut wherever its schedule of fates says. */
module Lifetimes {
  import opened Text
  import opened SafePaths
  import opened DiffGrammar
  import opened Diff
  import opened Patches
  import opened Journals
  import opened TransactionState
  import opened Recoverables
  import opened Undisturbed
  import opened Worlds
  import opened Staging
  import opened Apply
  import Stream
  import NulPaths
  import Snapshots

  /** The transaction never began, or it is in a state recovery resolves. */
  ghost predicate Open(w: World, p: Plan)
    reads w
  {
    || (w.disk == p.base && w.dirs == {} && p.id !in w.committed)
    || (p.dirs == {} && Recoverable(p, w.disk, w.dirs, p.id in w.committed, w.digest, w.sizeOf))
  }

  /** All or nothing: the disk from before, or the same with every change made. */
  ghost predicate AllOrNothing(w: World, p: Plan)
    reads w
  {
    && w.dirs == {}
    && if p.id in w.committed then |p.posts| == Size(p) && w.disk == PostImage(p, Size(p)) else w.disk == p.base
  }

  lemma OpenFacts(w: World, p: Plan)
    requires Open(w, p) && !(w.disk == p.base && w.dirs == {} && p.id !in w.committed)
    ensures w.dirs <= {p.id} && |p.posts| == Size(p)
    ensures var j := ApplyEngine.JournalAt(w.disk, p.id); j.Some? ==> Apart(j.value.root, j.value.entries)
  {
    var j := ApplyEngine.JournalAt(w.disk, p.id);
    if j.Some? {
      PlanEntriesApart(p, j.value, w.digest);
    }
  }

  /** One start of the daemon: it is brought no further from the end than it was, and as soon as
      recovery succeeds the outcome is all or nothing. */
  method Restart(w: World, ghost p: Plan) returns (r: Outcome<nat>)
    requires Open(w, p) && !w.strays
    modifies w`fates, w`failures, w`disk, w`dirs, w`committed
    ensures Open(w, p) && w.committed == old(w.committed)
    ensures r.Success? ==> AllOrNothing(w, p)
    ensures old(w.Quiet()) && w.unsyncable == {} ==> w.Quiet() && r.Success?
  {
    var engine := new ApplyEngine(w);
    ghost var begun := !(w.disk == p.base && w.dirs == {} && p.id !in w.committed);
    if begun {
      OpenFacts(w, p);
    }
    hide Recoverable, PostImage, ApplyEngine.Exactly, ApplyEngine.Respects;
    r := engine.Recover(if begun then Some(p) else None);
  }

  /** What can go wrong in one life of the process: single operations by schedule, the sync of
      some directories always. */
  datatype Life = Life(fates: seq<Fate>, unsyncable: set<Loc>)

  method RestartIn(w: World, life: Life, ghost p: Plan) returns (r: Outcome<nat>)
    requires Open(w, p) && !w.strays
    modifies w`fates, w`failures, w`unsyncable, w`disk, w`dirs, w`committed
    ensures Open(w, p) && w.committed == old(w.committed)
    ensures r.Success? ==> AllOrNothing(w, p)
    ensures life == Life([], {}) ==> r.Success?
  {
    w.fates, w.unsyncable := life.fates, life.unsyncable;
    hide Recoverable, PostImage;
    r := Restart(w, p);
  }

  /** Restarts cut anywhere, and then one that is not. */
  method Restarts(w: World, lives: seq<Life>, ghost p: Plan)
    requires Open(w, p) && !w.strays
    modifies w`fates, w`failures, w`unsyncable, w`disk, w`dirs, w`committed
    ensures AllOrNothing(w, p) && w.committed == old(w.committed)
  {
    hide *;
    for k := 0 to |lives|
      invariant Open(w, p) && w.committed == old(w.committed)
    {
      var _ := RestartIn(w, lives[k], p);
    }
    var _ := RestartIn(w, Life([], {}), p);
  }

  /** The repository is what the snapshot saw at all three looks of an Apply. */
  predicate FreshThrice(s: Sight, snapshot: Snapshots.Snapshot, sha: string -> string) {
    Fresh(Seen(s, 0), snapshot, sha) && Fresh(Seen(s, 1), snapshot, sha) && Fresh(Seen(s, 2), snapshot, sha)
  }

  lemma SeenLater(s: Sight)
    ensures Seen(Passed(Passed(s)), 0) == Seen(s, 2)
  {
  }

  /** One Apply on an empty state root. */
  method ApplyOnce(w: World, id: string, q: Proposal, posts: seq<string>) returns (r: Outcome<nat>)
    requires w.dirs == {} && !w.strays && ApplyEngine.Admissible(w, id, q, posts)
    modifies w`fates, w`failures, w`sight, w`disk, w`dirs, w`committed
    ensures Open(w, ApplyEngine.PlanOver(id, q, posts, old(w.disk), {}))
    ensures w.committed - {id} == old(w.committed)
    ensures r.Success? ==> id in w.committed
    ensures id in w.committed ==> FreshThrice(old(w.sight), q.snapshot, w.sha)
  {
    hide Recoverable, PostImage, Fresh, ApplyEngine.FoldersSync, ApplyEngine.RootDecides;
    SeenLater(w.sight);
    var engine := new ApplyEngine(w);
    r := engine.Apply(id, q, posts);
  }

  /** Crash atomicity over whole lives: Apply is cut or fails anywhere, any number of recoveries
      are each cut or fail anywhere, and then one recovery runs undisturbed.  The disk is then
      exactly what it was, or exactly that with every change of the patch made, and the latter
      precisely when a Committed journal was put in place; which it never is unless the
      repository was what the snapshot saw. */
  method LiveThroughCrashes(w: World, id: string, q: Proposal, posts: seq<string>, lives: seq<Life>)
    returns (r: Outcome<nat>)
    requires w.dirs == {} && !w.strays && ApplyEngine.Admissible(w, id, q, posts)
    modifies w`fates, w`failures, w`sight, w`unsyncable, w`disk, w`dirs, w`committed
    ensures AllOrNothing(w, ApplyEngine.PlanOver(id, q, posts, old(w.disk), {}))
    ensures r.Success? ==> id in w.committed
    ensures id in w.committed ==> FreshThrice(old(w.sight), q.snapshot, w.sha)
    ensures w.committed - {id} == old(w.committed)
  {
    ghost var p := ApplyEngine.PlanOver(id, q, posts, w.disk, {});
    hide *;
    r := ApplyOnce(w, id, q, posts);
    Restarts(w, lives, p);
  }

  // ---- what freshness means ----

  /** The disk shows at this path of `root` what the look saw there. */
  predicate ReflectsAt(o: Snapshots.Observation, d: Disk, root: string, path: string) {
    var l := Work(root, path);
    if path !in o.tree then l !in d
    else if o.tree[path].Regular? then o.tree[path].content.Some? ==> At(d, l) == Some(Data(o.tree[path].content.value))
    else l in d && d[l].Link?
  }

  /** And so it does wherever Git lists a name. */
  predicate Reflects(o: Snapshots.Observation, d: Disk, root: string)
    requires o.names.Some?
  {
    forall path | path in NulPaths.Names(o.names.value) :: ReflectsAt(o, d, root, path)
  }

  lemma SameFile(a: Snapshots.Observation, d: Disk, b: Snapshots.Observation, d': Disk, root: string, path: string)
    requires ReflectsAt(a, d, root, path) && ReflectsAt(b, d', root, path)
    requires Snapshots.SameThere(a.tree, b.tree, path) && (path in a.tree ==> Snapshots.Steady(a.tree[path]))
    ensures var l := Work(root, path); (l in d <==> l in d') && (l in d && d[l].Data? ==> At(d', l) == At(d, l))
  {
  }

  /** Nothing stale is ever published over: with a collision-free hash, what a fresh look sees is
      what the snapshot saw, name for name, and every file there has the same content. */
  lemma FreshMeansSameFiles(before: Snapshots.Observation, d: Disk, after: Snapshots.Observation, d': Disk,
                            root: string, snapshot: Snapshots.Snapshot, sha: string -> string)
    requires Snapshots.HonestTree(before.tree) && Snapshots.HonestTree(after.tree) && Snapshots.Injective(sha)
    requires Fresh(before, snapshot, sha) && Fresh(after, snapshot, sha)
    requires before.names.Some? && after.names.Some? && Reflects(before, d, root) && Reflects(after, d', root)
    ensures multiset(NulPaths.Names(before.names.value)) == multiset(NulPaths.Names(after.names.value))
    ensures forall path | path in NulPaths.Names(before.names.value) ::
              var l := Work(root, path); (l in d <==> l in d') && (l in d && d[l].Data? ==> At(d', l) == At(d, l))
  {
    Snapshots.CaptureSucceeds(before);
    Snapshots.CaptureSucceeds(after);
    Snapshots.TokenTellsWorktree(before, after, sha);
    var names := NulPaths.Names(before.names.value);
    Snapshots.SameMembers(names, NulPaths.Names(after.names.value));
    forall path | path in names && path in before.tree ensures Snapshots.Steady(before.tree[path]) {
      SteadyAt(before, path);
    }
    hide Snapshots.Capture, Snapshots.HonestTree, Snapshots.Injective, Snapshots.Capturable, NulPaths.Names,
      ReflectsAt, Snapshots.SameThere, Snapshots.Steady;
    forall path | path in names
      ensures Work(root, path) in d <==> Work(root, path) in d'
      ensures Work(root, path) in d && d[Work(root, path)].Data? ==> At(d', Work(root, path)) == At(d, Work(root, path))
    {
      SameFile(before, d, after, d', root, path);
    }
  }

  lemma SteadyAt(o: Snapshots.Observation, path: string)
    requires Snapshots.Capturable(o) && path in NulPaths.Names(o.names.value) && path in o.tree
    ensures Snapshots.Steady(o.tree[path])
  {
  }

  // ---- edits between the lives ----

  /** A journal Apply left behind is still there, apart and usable, whatever was edited. */
  lemma JournalSurvivesEdits(p: Plan, before: Disk, d: Disk, dirs: set<string>, done: bool,
                             digest: string -> string, sizeOf: Journal -> nat)
    requires Recoverable(p, before, dirs, done, digest, sizeOf) && WorktreeEdited(before, d)
    ensures var j := ApplyEngine.JournalAt(d, p.id);
            && j == ApplyEngine.JournalAt(before, p.id)
            && (j.Some? ==> && JournalOf(p, j.value, digest) && Apart(j.value.root, j.value.entries)
                            && ValidJournal(j.value) && sizeOf(j.value) <= MAX_JOURNAL_BYTES)
  {
    var j := ApplyEngine.JournalAt(d, p.id);
    assert At(d, RecordLoc(p.id)) == At(before, RecordLoc(p.id));
    if j.Some? {
      PlanEntriesApart(p, j.value, digest);
      WrittenJournalsAreValid(j.value, p.id, p.root, p.patch);
    }
  }

  /** A start after a crash and edits: with a collision-free hash every target that does not hold
      the recorded post-image keeps what it holds, unless recovery is to overwrite a link that
      leads nowhere; a blocked transaction is left as it is, journal and all; and undisturbed
      both are decided by the disk the start finds. */
  method RestartAfterEdits(w: World, ghost p: Plan, ghost before: Disk) returns (r: Outcome<nat>)
    requires Recoverable(p, before, w.dirs, p.id in w.committed, w.digest, w.sizeOf)
    requires p.dirs == {} && w.dirs == {p.id} && WorktreeEdited(before, w.disk) && !w.strays
    requires forall a, b :: w.digest(a) == w.digest(b) ==> a == b
    modifies w`fates, w`failures, w`disk, w`dirs, w`committed
    ensures |p.posts| == Size(p) && w.committed == old(w.committed)
    ensures ApplyEngine.JournalAt(old(w.disk), p.id).Some? ==>
              var j := ApplyEngine.JournalAt(old(w.disk), p.id).value;
              && (!Overwrites(old(w.disk), j, w.digest) ==>
                    forall i | 0 <= i < Size(p) && PathLoc(p, i, Target) in old(w.disk)
                            && At(old(w.disk), PathLoc(p, i, Target)) != Post(p, i)
                      :: At(w.disk, PathLoc(p, i, Target)) == At(old(w.disk), PathLoc(p, i, Target)))
              && (Blocked(old(w.disk), j, w.digest) ==>
                    !r.Success? && p.id in w.dirs && ApplyEngine.JournalAt(w.disk, p.id) == Some(j))
              && (old(w.Quiet()) && w.unsyncable == {} ==>
                    && w.disk == Recovered(old(w.disk), p.id, j, w.digest)
                    && (r.Success? <==> !Blocked(old(w.disk), j, w.digest)))
  {
    JournalSurvivesEdits(p, before, w.disk, w.dirs, p.id in w.committed, w.digest, w.sizeOf);
    PlanSizes(p, before, w.dirs, p.id in w.committed, w.digest, w.sizeOf);
    hide Recoverable, Apart, Backlog, PostImage, Blocked, Overwrites, Recovered, JournalOf, ValidJournal, Spares,
      PathLoc;
    var engine := new ApplyEngine(w);
    r := engine.Recover(None);
    ghost var j := ApplyEngine.JournalAt(old(w.disk), p.id);
    if j.Some? {
      assert ApplyEngine.OnlyJournal(old(w.disk), {p.id}, p.id) == j;
      if !Overwrites(old(w.disk), j.value, w.digest) {
        SparedTargets(p, old(w.disk), w.disk, j.value, w.digest);
      }
    }
  }

  lemma PlanSizes(p: Plan, d: Disk, dirs: set<string>, done: bool, digest: string -> string, sizeOf: Journal -> nat)
    requires Recoverable(p, d, dirs, done, digest, sizeOf)
    ensures |p.posts| == Size(p)
  {
  }

  lemma SparedTargets(p: Plan, d: Disk, d': Disk, j: Journal, digest: string -> string)
    requires |p.posts| == Size(p) && JournalOf(p, j, digest) && Spares(d, d', j, digest)
    requires forall a, b :: digest(a) == digest(b) ==> a == b
    ensures forall i | 0 <= i < Size(p) && PathLoc(p, i, Target) in d && At(d, PathLoc(p, i, Target)) != Post(p, i)
              :: At(d', PathLoc(p, i, Target)) == At(d, PathLoc(p, i, Target))
  {
    forall i | 0 <= i < Size(p) && PathLoc(p, i, Target) in d && At(d, PathLoc(p, i, Target)) != Post(p, i)
      ensures At(d', PathLoc(p, i, Target)) == At(d, PathLoc(p, i, Target))
    {
      PlacesOf(p, j, digest, i, Target);
      ForeignIsNotThePostImage(p, d, j, i, digest);
    }
    hide PathLoc, Place, Foreign, JournalOf;
  }

  // ---- everything done, and not said ----

  /** A patch that deletes `d/f`. */
  function DeletingPatch(): ParsedPatch {
    ParsedPatch("", [FileChange("d/f", Delete, 1)], 1)
  }

  /** What a look sees of a repository that holds `d/f` alone. */
  function OneFile(): Snapshots.Observation {
    var meta := Stream.Metadata(1, 1, 0x81a4, 1, 4, 0, 0, 0, 0);
    Snapshots.Observation(
      true, Some("0000000000000000000000000000000000000000"), Some("main\n"),
      Some(Snapshots.Regular(meta.(len := 0), Some(""), meta.(len := 0))), Some("d/f\0"),
      map["d/f" := Snapshots.Regular(meta, Some("text"), meta)])
  }

  lemma OneFilesName()
    ensures NulPaths.Names("d/f\0") == ["d/f"] && NulPaths.Unambiguous(["d/f"])
  {
    assert "d/f\0"[..3] == "d/f";
    SplitNone("d/f", '\0');
    assert "d/f" == "d" + ['/'] + "f";
    SplitAt("d", '/', "f");
    SplitNone("f", '/');
    hide Split, NulPaths.Key;
    assert NulPaths.GoodName("d/f");
  }

  lemma OneFileIsCapturable()
    ensures Snapshots.Capturable(OneFile())
  {
    var o := OneFile();
    OneFilesName();
    hide NulPaths.Names, NulPaths.Unambiguous;
    assert ["d/f"][1..] == [];
    assert Snapshots.TotalBytes(o.tree, ["d/f"]) == 4;
    hide Snapshots.TotalBytes;
    assert Snapshots.AllSteady(o.tree, ["d/f"]);
  }

  /** The witness: in a repository whose root cannot be opened for a sync, with nothing else in
      the way, Apply makes the whole change, puts the Committed journal in place, resolves the
      transaction, and answers State. */
  method DoneButNotSaid() returns (w: World, r: Outcome<nat>)
    ensures r == Failure(State) && "x" in w.committed && w.dirs == {}
    ensures w.disk == map[]
    ensures fresh(w) && w.Quiet() && w.unsyncable == {Work("/r", "")}
  {
    var snapshot := OneFilesSnapshot();
    w := new World(map[Work("/r", "d/f") := Data("text")], [], {Work("/r", "")}, Sight(OneFile(), []),
                   Verdicts(true, true, true, true), s => s, s => s, j => 0);
    r := DeleteFile(w, snapshot);
  }

  method OneFilesSnapshot() returns (snapshot: Snapshots.Snapshot)
    ensures Fresh(OneFile(), snapshot, s => s)
  {
    OneFileIsCapturable();
    Snapshots.CaptureSucceeds(OneFile());
    hide Snapshots.Capturable, Snapshots.Capture, OneFile;
    var taken := Snapshots.CaptureSnapshot(OneFile(), s => s);
    snapshot := taken.value;
  }

  method DeleteFile(w: World, snapshot: Snapshots.Snapshot) returns (r: Outcome<nat>)
    requires w.disk == map[Work("/r", "d/f") := Data("text")] && w.dirs == {} && w.committed == {}
    requires w.Quiet() && w.unsyncable == {Work("/r", "")} && w.verdicts == Verdicts(true, true, true, true)
    requires w.sight.next == [] && Fresh(w.sight.now, snapshot, w.sha)
    requires forall j :: w.sizeOf(j) <= MAX_JOURNAL_BYTES
    modifies w`fates, w`failures, w`sight, w`disk, w`dirs, w`committed
    ensures r == Failure(State) && "x" in w.committed && w.dirs == {} && w.disk == map[] && w.Quiet()
  {
    var q := Proposal("/r", DeletingPatch(), snapshot);
    DeletionIsAdmissible();
    ghost var p := ApplyEngine.PlanOver("x", q, [""], w.disk, {});
    DeletionEmpties(p);
    NothingElse(w.sight);
    hide Recoverable, PostImage, WellFormed, FreshNames, Folder, Fresh, TargetsFit, ValidTransactionId, PostsFit, Seen;
    var engine := new ApplyEngine(w);
    r := engine.Apply("x", q, [""]);
  }

  /** A repository nobody touches looks the same every time. */
  lemma NothingElse(s: Sight)
    requires s.next == []
    ensures Passed(s) == s && Seen(s, 0) == s.now && Seen(s, 1) == s.now
  {
  }

  lemma DeletionIsAdmissible()
    ensures WellFormed(DeletingPatch()) && ValidTransactionId("x")
    ensures FreshNames(map[Work("/r", "d/f") := Data("text")], "x", "/r", DeletingPatch().files)
    ensures TargetsFit(map[Work("/r", "d/f") := Data("text")], "/r", DeletingPatch().files)
    ensures Folder("/r", "d/f") != Work("/r", "")
  {
    DeletedPathIsSafe();
    DeletedNamesDiffer();
    hide SafePath, Temporary, Backup, Beside, BaseStart;
  }

  lemma DeletedNamesDiffer()
    ensures Folder("/r", "d/f") == Work("/r", "d/")
    ensures Beside("d/f", Temporary("x", 0)) != "d/f" && Beside("d/f", Backup("x", 0)) != "d/f"
  {
    BaseStartIs("d/", "f");
    assert "d/" + "f" == "d/f" && "d/f"[..2] == "d/";
    var temp, back := Temporary("x", 0), Backup("x", 0);
    assert temp[0] == '.' && back[0] == '.';
    hide Temporary, Backup;
    assert ("d/" + temp)[2] == '.' && ("d/" + back)[2] == '.' && "d/f"[2] == 'f';
  }

  lemma DeletedPathIsSafe()
    ensures SafePath("d/f")
  {
    assert "d/f" == "d" + ['/'] + "f";
    SplitAt("d", '/', "f");
    SplitNone("f", '/');
    hide Split;
    assert GoodComponent("d") && GoodComponent("f");
    hide GoodComponent;
  }

  lemma DeletionEmpties(p: Plan)
    requires p.base == map[Work("/r", "d/f") := Data("text")] && p.root == "/r"
    requires p.patch == DeletingPatch() && p.posts == [""]
    ensures PostImage(p, 1) == map[] && PostsFit(p)
  {
  }
}
