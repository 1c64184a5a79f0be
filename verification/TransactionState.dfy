/** The states a transaction can leave on disk, and what each of its moves does to them
    (crates/premonition-core/src/apply.rs). */
module TransactionState {
  import opened Text
  import opened SafePaths
  import opened DiffGrammar
  import opened Diff
  import opened Patches
  import opened Journals

  const MAX_RESULT_FILE_BYTES: nat := 2 * 1024 * 1024

  /** What a transaction directory may hold. */
  datatype Item = Staged(path: string) | Scratch | Record

  /** A place on disk: a worktree path, or something inside the directory of transaction `id`. */
  datatype Loc = Work(root: string, path: string) | Tx(id: string, item: Item)

  /** A file, a journal, or a symbolic link; `content` is what reading through the link yields,
      and `None` if it leads nowhere. */
  datatype Node = Data(bytes: string) | Log(journal: Journal) | Link(content: Option<string>)

  type Disk = map<Loc, Node>

  function At(d: Disk, l: Loc): Option<Node> {
    if l in d then Some(d[l]) else None
  }

  /** `Path::exists`, which follows links: one that leads nowhere reads as absent, although
      `symlink_metadata`, for which `l in d` stands, sees it. */
  predicate Exists(d: Disk, l: Loc) {
    l in d && d[l] != Link(None)
  }

  /** `rename`, when there is something to rename. */
  function Moved(d: Disk, src: Loc, dst: Loc): Disk {
    if src in d then (d - {src})[dst := d[src]] else d
  }

  // ---- the names of an entry ----

  datatype Slot = Target | Temp | Back

  function Place(root: string, e: JournalEntry, s: Slot): Loc {
    match s
    case Target => Work(root, e.relative)
    case Temp => Work(root, Beside(e.relative, e.temporary))
    case Back => Work(root, Beside(e.relative, e.backup))
  }

  /** All names of a journal are different places. */
  ghost predicate Apart(root: string, entries: seq<JournalEntry>) {
    forall i, s, k, u {:trigger Place(root, entries[i], s), Place(root, entries[k], u)} ::
      0 <= i < |entries| && 0 <= k < |entries| && Place(root, entries[i], s) == Place(root, entries[k], u)
      ==> i == k && s == u
  }

  predicate IsScrap(j: Journal, l: Loc) {
    exists i | 0 <= i < |j.entries| :: l == Place(j.root, j.entries[i], Temp) || l == Place(j.root, j.entries[i], Back)
  }

  predicate InTx(id: string, l: Loc) {
    l.Tx? && l.id == id
  }

  /** The directory of an entry's target, as a place. */
  function Folder(root: string, path: string): Loc {
    Work(root, path[..BaseStart(path)])
  }

  // ---- what one entry's moves do ----

  predicate HashIs(d: Disk, l: Loc, hash: Option<string>, digest: string -> string) {
    l in d && d[l].Data? && |d[l].bytes| <= MAX_RESULT_FILE_BYTES && hash == Some(digest(d[l].bytes))
  }

  /** `verify_pre`. */
  predicate PreHolds(d: Disk, root: string, e: JournalEntry, digest: string -> string) {
    var t := Place(root, e, Target);
    if e.kind == Add then e.preHash.None? && !Exists(d, t) else HashIs(d, t, e.preHash, digest)
  }

  /** `verify_post`. */
  predicate PostHolds(d: Disk, root: string, e: JournalEntry, digest: string -> string) {
    var t := Place(root, e, Target);
    if e.kind == Delete then e.postHash.None? && !Exists(d, t) else HashIs(d, t, e.postHash, digest)
  }

  /** The worktree after `publish_entry`. */
  function Published(d: Disk, root: string, e: JournalEntry): Disk {
    var t, n, b := Place(root, e, Target), Place(root, e, Temp), Place(root, e, Back);
    match e.kind
    case Add => Moved(d, n, t)
    case Modify => Moved(Moved(d, t, b), n, t)
    case Delete => Moved(d, t, b)
  }

  /** When `rollback_entry` may go ahead: whatever it would remove is the recorded post-image. */
  predicate MayUndo(d: Disk, root: string, e: JournalEntry, digest: string -> string) {
    var t, b := Place(root, e, Target), Place(root, e, Back);
    Exists(d, t) && (e.kind == Add || Exists(d, b)) ==> e.kind != Delete && PostHolds(d, root, e, digest)
  }

  /** The worktree after `rollback_entry`. */
  function Undone(d: Disk, root: string, e: JournalEntry): Disk {
    var t, b := Place(root, e, Target), Place(root, e, Back);
    if e.kind == Add then if Exists(d, t) then d - {t} else d
    else if Exists(d, b) then Moved(d - {t}, b, t)
    else d
  }

  // ---- a planned transaction ----

  /** Transaction `id` of a parsed patch over the disk `base`; `posts` are the post-images Git
      produces in the stage, `dirs` the other transaction directories. */
  datatype Plan = Plan(
    id: string, root: string, base: Disk, dirs: set<string>, patch: ParsedPatch, posts: seq<string>)

  function Size(p: Plan): nat {
    |p.patch.files|
  }

  function PathLoc(p: Plan, i: nat, s: Slot): Loc
    requires i < Size(p)
  {
    var path := p.patch.files[i].path;
    match s
    case Target => Work(p.root, path)
    case Temp => Work(p.root, Beside(path, Temporary(p.id, i)))
    case Back => Work(p.root, Beside(path, Backup(p.id, i)))
  }

  function Kind(p: Plan, i: nat): ChangeKind
    requires i < Size(p)
  {
    p.patch.files[i].kind
  }

  function Pre(p: Plan, i: nat): Option<Node>
    requires i < Size(p)
  {
    At(p.base, PathLoc(p, i, Target))
  }

  function Post(p: Plan, i: nat): Option<Node>
    requires i < Size(p) && |p.posts| == Size(p)
  {
    if Kind(p, i) == Delete then None else Some(Data(p.posts[i]))
  }

  /** The names of transaction `id` are free: nothing on disk bears them and no target does. */
  ghost predicate FreshNames(base: Disk, id: string, root: string, files: seq<FileChange>) {
    && (forall i | 0 <= i < |files| ::
          && Work(root, Beside(files[i].path, Temporary(id, i))) !in base
          && Work(root, Beside(files[i].path, Backup(id, i))) !in base)
    && (forall i, k | 0 <= i < |files| && 0 <= k < |files| ::
          && files[i].path != Beside(files[k].path, Temporary(id, k))
          && files[i].path != Beside(files[k].path, Backup(id, k)))
    && forall item :: Tx(id, item) !in base
  }

  /** `validate_change_path`, as far as this disk shows it. */
  predicate TargetFits(base: Disk, root: string, change: FileChange) {
    var t := Work(root, change.path);
    if change.kind == Add then t !in base
    else t in base && base[t].Data? && |base[t].bytes| <= MAX_RESULT_FILE_BYTES
  }

  predicate TargetsFit(base: Disk, root: string, files: seq<FileChange>) {
    forall i | 0 <= i < |files| :: TargetFits(base, root, files[i])
  }

  ghost predicate PlanOk(p: Plan) {
    && WellFormed(p.patch) && ValidTransactionId(p.id) && StartsWith(p.root, "/")
    && |p.posts| == Size(p)
    && p.id !in p.dirs
    && FreshNames(p.base, p.id, p.root, p.patch.files)
    && TargetsFit(p.base, p.root, p.patch.files)
  }

  ghost predicate PlanApart(p: Plan) {
    forall i, s, k, u {:trigger PathLoc(p, i, s), PathLoc(p, k, u)} ::
      0 <= i < Size(p) && 0 <= k < Size(p) && PathLoc(p, i, s) == PathLoc(p, k, u) ==> i == k && s == u
  }

  lemma StemLacksSlash(id: string, i: nat)
    requires ValidTransactionId(id)
    ensures '/' !in Temporary(id, i) && '/' !in Backup(id, i)
  {
    OwnNamesAreRecognised(id, i);
  }

  lemma ScrapNamesApart(id: string, p: string, i: nat, s: Slot, q: string, k: nat, u: Slot)
    requires ValidTransactionId(id) && s != Target && u != Target
    requires var n, m := if s == Temp then Temporary(id, i) else Backup(id, i),
                         if u == Temp then Temporary(id, k) else Backup(id, k);
             Beside(p, n) == Beside(q, m)
    ensures i == k && s == u
  {
    StemLacksSlash(id, i);
    StemLacksSlash(id, k);
    var n := if s == Temp then Temporary(id, i) else Backup(id, i);
    var m := if u == Temp then Temporary(id, k) else Backup(id, k);
    BesideIs(p, n);
    BesideIs(q, m);
    assert n == m;
    SuffixCut(Stem(id, i), Stem(id, k), if s == Temp then ".new" else ".bak", if u == Temp then ".new" else ".bak");
    StemInjective(id, i, id, k);
    assert ".new"[1] == 'n' && ".bak"[1] == 'b';
  }

  lemma TargetIsNotScrap(p: Plan, i: nat, k: nat, s: Slot)
    requires PlanOk(p) && i < Size(p) && k < Size(p)
    ensures s != Target ==> PathLoc(p, i, Target) != PathLoc(p, k, s)
  {
    var files := p.patch.files;
    assert files[i].path != Beside(files[k].path, Temporary(p.id, k));
    assert files[i].path != Beside(files[k].path, Backup(p.id, k));
  }

  lemma DistinctTargets(p: Plan, i: nat, k: nat)
    requires PlanOk(p) && i < Size(p) && k < Size(p)
    ensures PathLoc(p, i, Target) == PathLoc(p, k, Target) ==> i == k
  {
    var files := p.patch.files;
    assert forall x, y | 0 <= x < y < |files| :: files[x].path != files[y].path;
  }

  /** Every place a transaction uses is its own: targets, temporaries and backups never meet. */
  lemma PlacesAreApart(p: Plan)
    requires PlanOk(p)
    ensures PlanApart(p)
  {
    var files := p.patch.files;
    hide Temporary, Backup, Beside, SafePath;
    forall i, s, k, u | 0 <= i < Size(p) && 0 <= k < Size(p) && PathLoc(p, i, s) == PathLoc(p, k, u)
      ensures i == k && s == u
    {
      TargetIsNotScrap(p, i, k, u);
      TargetIsNotScrap(p, k, i, s);
      if s == Target {
        DistinctTargets(p, i, k);
      } else {
        ScrapNamesApart(p.id, files[i].path, i, s, files[k].path, k, u);
      }
    }
  }

  /** The journal of the plan, in any phase and with any flags. */
  ghost predicate JournalOf(p: Plan, j: Journal, digest: string -> string)
    requires |p.posts| == Size(p)
  {
    && JournalFor(j, p.id, p.root, p.patch.files)
    && forall i | 0 <= i < Size(p) ::
         && (Pre(p, i).Some? ==> Pre(p, i).value.Data?)
         && j.entries[i].preHash == (if Kind(p, i) == Add || Pre(p, i).None? then None
                                     else Some(digest(Pre(p, i).value.bytes)))
         && j.entries[i].postHash == (if Kind(p, i) == Delete then None else Some(digest(p.posts[i])))
         && (Kind(p, i) != Delete ==> |p.posts[i]| <= MAX_RESULT_FILE_BYTES)
  }

  lemma PlacesOf(p: Plan, j: Journal, digest: string -> string, i: nat, s: Slot)
    requires |p.posts| == Size(p) && JournalOf(p, j, digest) && i < Size(p)
    ensures Place(j.root, j.entries[i], s) == PathLoc(p, i, s)
  {
    assert EntryFor(j.entries[i], p.id, i, p.patch.files[i]);
  }
}
