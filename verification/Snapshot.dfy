/** `RepositorySnapshot::capture` and `revalidate` (crates/premonition-core/src/snapshot.rs): the
    token that ties a proposal to one exact worktree. */
module Snapshots {
  import opened Text
  import opened Stream
  import opened NulPaths

  const MAX_SNAPSHOT_FILES: nat := 4096
  const MAX_SNAPSHOT_BYTES: nat := 64 * 1024 * 1024
  const MAX_INDEX_BYTES: nat := 64 * 1024 * 1024
  const BUFFER_BYTES: nat := 8192

  /** What one capture meets at a path: `before` is read ahead of the content and `after` behind
      it; `None` stands for a failed read. */
  datatype Node =
    | Regular(before: Metadata, content: Option<Bytes>, after: Metadata)
    | Link(meta: Metadata, target: Option<Bytes>)
    | Special
    | Unreadable

  /** Everything one capture reads.  `head` is the trimmed line `rev-parse` printed. */
  datatype Observation = Observation(
    safe: bool, head: Option<string>, headRef: Option<Bytes>, index: Option<Node>, names: Option<Bytes>,
    tree: map<Bytes, Node>)

  datatype Snapshot = Snapshot(
    headOid: string, headRefDigest: Bytes, indexDigest: Bytes, worktreeDigest: Bytes,
    fileCount: nat, totalBytes: nat)

  /** What the digests stand for. */
  datatype Captured = Captured(headOid: string, headRef: Bytes, index: Bytes, items: seq<Item>, totalBytes: nat)

  datatype Listing = Listing(items: seq<Item>, total: nat)

  // ---- specification ----

  predicate IsOid(s: string) {
    (|s| == 40 || |s| == 64) && AllHex(s)
  }

  function StableContent(node: Node): Result<Bytes, SnapshotError>
    requires node.Regular?
  {
    if node.content.None? then Err(Io)
    else if node.before != node.after then Err(Unstable)
    else Ok(node.content.value)
  }

  function IndexContent(node: Option<Node>): Result<Bytes, SnapshotError> {
    if node.None? || !node.value.Regular? || node.value.before.len > MAX_INDEX_BYTES then Err(Io)
    else StableContent(node.value)
  }

  /** What stands at a path, and the bytes counted once it is in. */
  function EntryAt(path: Bytes, tree: map<Bytes, Node>, total: nat): Result<(Entry, nat), SnapshotError> {
    if path !in tree then Ok((Missing, total))
    else
      match tree[path]
      case Regular(before, _, _) =>
        if total + before.len > MAX_SNAPSHOT_BYTES then Err(TooLarge) else
        var content :- StableContent(tree[path]);
        Ok((File(before, content), total + before.len))
      case Link(meta, target) => if target.None? then Err(Io) else Ok((Symlink(meta, target.value), total))
      case Special => Err(UnsafeFileType)
      case Unreadable => Err(Io)
  }

  /** One turn of the capture loop. */
  function Observe(path: Bytes, tree: map<Bytes, Node>, listing: Listing): Result<Listing, SnapshotError> {
    var found :- EntryAt(path, tree, listing.total);
    Ok(Listing(listing.items + [Item(path, found.0)], found.1))
  }

  function ObserveAll(paths: seq<Bytes>, tree: map<Bytes, Node>, listing: Listing): Result<Listing, SnapshotError> {
    if paths == [] then Ok(listing) else
    var next :- Observe(paths[0], tree, listing);
    ObserveAll(paths[1..], tree, next)
  }

  function Capture(o: Observation): Result<Captured, SnapshotError> {
    if !o.safe then Err(Repository)
    else if o.head.None? || !IsOid(o.head.value) then Err(Git)
    else if o.headRef.None? then Err(Git) else
    var index :- IndexContent(o.index);
    if o.names.None? then Err(Git) else
    var paths :- ReadNulPaths(o.names.value);
    if |paths| > MAX_SNAPSHOT_FILES then Err(TooLarge) else
    var listing :- ObserveAll(paths, o.tree, Listing([], 0));
    Ok(Captured(o.head.value, o.headRef.value, index, listing.items, listing.total))
  }

  function Seal(c: Captured, sha: Bytes -> Bytes): Snapshot {
    Snapshot(c.headOid, sha(c.headRef), sha(c.index), sha(Encode(c.items)), |c.items|, c.totalBytes)
  }

  /** What the file system guarantees: reported lengths are the lengths read, fields fit their
      widths. */
  ghost predicate HonestTree(tree: map<Bytes, Node>) {
    forall p | p in tree ::
      match tree[p]
      case Regular(before, content, after) =>
        before.Valid() && (content.Some? && before == after ==> |content.value| == before.len)
      case Link(meta, target) => meta.Valid() && (target.Some? ==> |target.value| == meta.len)
      case _ => true
  }

  ghost predicate Injective(sha: Bytes -> Bytes) {
    forall a, b :: sha(a) == sha(b) ==> a == b
  }

  lemma {:induction false} ObserveAllHonest(paths: seq<Bytes>, tree: map<Bytes, Node>, listing: Listing)
    requires HonestTree(tree) && ObserveAll(paths, tree, listing).Ok?
    requires forall i | 0 <= i < |paths| :: '\0' !in paths[i]
    requires forall i | 0 <= i < |listing.items| :: Honest(listing.items[i])
    ensures var all := ObserveAll(paths, tree, listing).value;
            forall i | 0 <= i < |all.items| :: Honest(all.items[i])
  {
    if paths != [] {
      assert '\0' !in paths[0];
      ObserveAllHonest(paths[1..], tree, Observe(paths[0], tree, listing).value);
    }
  }

  lemma CapturedItems(o: Observation)
    requires Capture(o).Ok?
    ensures o.names.Some? && ReadNulPaths(o.names.value).Ok?
    ensures var all := ObserveAll(ReadNulPaths(o.names.value).value, o.tree, Listing([], 0));
            all.Ok? && Capture(o).value.items == all.value.items
  {
    hide ReadNulPaths, ObserveAll, IsOid, IndexContent;
  }

  lemma CaptureIsHonest(o: Observation)
    requires HonestTree(o.tree) && Capture(o).Ok?
    ensures forall i | 0 <= i < |Capture(o).value.items| :: Honest(Capture(o).value.items[i])
  {
    CapturedItems(o);
    NulPathsAreTheNames(o.names.value);
    hide Capture, ReadNulPaths, ObserveAll, HonestTree, Honest, Ascending, Unambiguous;
    ObserveAllHonest(ReadNulPaths(o.names.value).value, o.tree, Listing([], 0));
  }

  /** Staleness: with a collision-free hash, two captures give the same token exactly when they
      read the same head, branch, index bytes and worktree listing, metadata and contents
      included. */
  lemma TokenMeansUnchanged(earlier: Observation, later: Observation, sha: Bytes -> Bytes)
    requires HonestTree(earlier.tree) && HonestTree(later.tree) && Injective(sha)
    requires Capture(earlier).Ok? && Capture(later).Ok?
    ensures Seal(Capture(earlier).value, sha) == Seal(Capture(later).value, sha)
       <==> Capture(earlier) == Capture(later)
  {
    CaptureIsHonest(earlier);
    CaptureIsHonest(later);
    var a, b := Capture(earlier).value, Capture(later).value;
    hide Capture, Encode;
    if Seal(a, sha) == Seal(b, sha) {
      assert a.headRef == b.headRef && a.index == b.index && Encode(a.items) == Encode(b.items);
      StreamDecidesListing(a.items, b.items);
    }
  }

  lemma {:induction false} ObservingIsNeverStale(paths: seq<Bytes>, tree: map<Bytes, Node>, listing: Listing)
    ensures ObserveAll(paths, tree, listing) != Err(Stale)
  {
    if paths != [] && Observe(paths[0], tree, listing).Ok? {
      ObservingIsNeverStale(paths[1..], tree, Observe(paths[0], tree, listing).value);
    }
  }

  /** Only a comparison finds a snapshot stale, never a capture. */
  lemma CaptureIsNeverStale(o: Observation)
    ensures Capture(o) != Err(Stale)
  {
    if o.names.Some? {
      OnlyGit(Names(o.names.value), []);
      if ReadNulPaths(o.names.value).Ok? {
        ObservingIsNeverStale(ReadNulPaths(o.names.value).value, o.tree, Listing([], 0));
      }
    }
    hide ObserveAll, Collect, Names, IsOid;
  }

  // ---- what a token tells ----

  /** Two trees agree at a path: both have nothing there, or the same file with the same metadata
      and content, or the same link with the same metadata and target. */
  predicate SameThere(a: map<Bytes, Node>, b: map<Bytes, Node>, path: Bytes) {
    if path !in a || path !in b then path !in a && path !in b
    else
      match (a[path], b[path])
      case (Regular(m, c, _), Regular(n, d, _)) => m == n && c == d
      case (Link(m, t), Link(n, u)) => m == n && t == u
      case _ => false
  }

  /** Two observations of one and the same repository state. */
  predicate SameWorktree(a: Observation, b: Observation)
    requires a.index.Some? && a.index.value.Regular? && b.index.Some? && b.index.value.Regular?
    requires a.names.Some? && b.names.Some?
  {
    && a.head == b.head && a.headRef == b.headRef
    && a.index.value.content == b.index.value.content
    && multiset(Names(a.names.value)) == multiset(Names(b.names.value))
    && forall path | path in Names(a.names.value) :: SameThere(a.tree, b.tree, path)
  }

  /** What can be read whole, and without changing meanwhile. */
  predicate Steady(n: Node) {
    match n
    case Regular(before, content, after) => content.Some? && after == before
    case Link(_, target) => target.Some?
    case _ => false
  }

  predicate AllSteady(tree: map<Bytes, Node>, paths: seq<Bytes>) {
    forall path | path in paths :: path in tree ==> Steady(tree[path])
  }

  function FileBytes(tree: map<Bytes, Node>, path: Bytes): nat {
    if path in tree && tree[path].Regular? then tree[path].before.len else 0
  }

  function TotalBytes(tree: map<Bytes, Node>, paths: seq<Bytes>): nat {
    if paths == [] then 0 else FileBytes(tree, paths[0]) + TotalBytes(tree, paths[1..])
  }

  /** What a repository must be like for its snapshot to be taken. */
  predicate Capturable(o: Observation) {
    && o.safe
    && o.head.Some? && (|o.head.value| == 40 || |o.head.value| == 64)
    && (forall c | c in o.head.value :: '0' <= c <= '9' || 'a' <= c <= 'f' || 'A' <= c <= 'F')
    && o.headRef.Some?
    && o.index.Some? && o.index.value.Regular? && Steady(o.index.value) && o.index.value.before.len <= MAX_INDEX_BYTES
    && o.names.Some? && (o.names.value == "" || o.names.value[|o.names.value| - 1] == '\0')
    && Unambiguous(Names(o.names.value)) && |Names(o.names.value)| <= MAX_SNAPSHOT_FILES
    && AllSteady(o.tree, Names(o.names.value))
    && TotalBytes(o.tree, Names(o.names.value)) <= MAX_SNAPSHOT_BYTES
  }

  /** An entry tells what stands at a path. */
  predicate Shows(tree: map<Bytes, Node>, path: Bytes, e: Entry) {
    if path !in tree then e == Missing
    else
      match tree[path]
      case Regular(before, content, _) => content.Some? && e == File(before, content.value)
      case Link(meta, target) => target.Some? && e == Symlink(meta, target.value)
      case _ => false
  }

  lemma EntryShows(path: Bytes, tree: map<Bytes, Node>, total: nat)
    requires total <= MAX_SNAPSHOT_BYTES
    ensures EntryAt(path, tree, total).Ok?
       <==> (path in tree ==> Steady(tree[path])) && total + FileBytes(tree, path) <= MAX_SNAPSHOT_BYTES
    ensures EntryAt(path, tree, total).Ok? ==>
              && Shows(tree, path, EntryAt(path, tree, total).value.0)
              && EntryAt(path, tree, total).value.1 == total + FileBytes(tree, path)
  {
  }

  lemma {:induction false} ObserveAllShows(paths: seq<Bytes>, tree: map<Bytes, Node>, listing: Listing)
    requires listing.total <= MAX_SNAPSHOT_BYTES
    ensures var all := ObserveAll(paths, tree, listing);
            && (all.Ok? <==> && (forall path | path in paths :: path in tree ==> Steady(tree[path]))
                             && listing.total + TotalBytes(tree, paths) <= MAX_SNAPSHOT_BYTES)
            && (all.Ok? ==>
                  && all.value.total == listing.total + TotalBytes(tree, paths)
                  && |all.value.items| == |listing.items| + |paths|
                  && all.value.items[..|listing.items|] == listing.items
                  && forall k | 0 <= k < |paths| ::
                       && all.value.items[|listing.items| + k].path == paths[k]
                       && Shows(tree, paths[k], all.value.items[|listing.items| + k].entry))
  {
    if paths != [] {
      var path, rest := paths[0], paths[1..];
      assert paths == [path] + rest;
      EntryShows(path, tree, listing.total);
      hide EntryAt, Shows, Steady, FileBytes;
      var next := Observe(path, tree, listing);
      if next.Ok? {
        ObserveAllShows(rest, tree, next.value);
        var n, all := |listing.items|, ObserveAll(rest, tree, next.value);
        assert next.value.items[..n] == listing.items && next.value.items[n].path == path;
        if all.Ok? {
          var items := all.value.items;
          assert items[..n] == items[..n + 1][..n] == listing.items;
          assert items[n] == items[..n + 1][n];
          forall k | 0 <= k < |paths| ensures items[n + k].path == paths[k] && Shows(tree, paths[k], items[n + k].entry) {
            assert k > 0 ==> paths[k] == rest[k - 1] && items[n + k] == items[(n + 1) + (k - 1)];
          }
        }
      }
    }
  }

  lemma {:induction false} InsertTotal(tree: map<Bytes, Node>, paths: seq<Bytes>, path: Bytes)
    ensures TotalBytes(tree, Insert(paths, path)) == TotalBytes(tree, paths) + FileBytes(tree, path)
  {
    hide FileBytes, Less, Key;
    if paths != [] && !Less(Key(path), Key(paths[0])) {
      InsertTotal(tree, paths[1..], path);
      assert ([paths[0]] + Insert(paths[1..], path))[1..] == Insert(paths[1..], path);
    } else {
      assert ([path] + paths)[1..] == paths;
    }
  }

  lemma {:induction false} CollectTotal(tree: map<Bytes, Node>, fields: seq<Bytes>, unique: seq<Bytes>)
    requires Collect(fields, unique).Ok?
    ensures TotalBytes(tree, Collect(fields, unique).value) == TotalBytes(tree, fields) + TotalBytes(tree, unique)
  {
    hide FileBytes, Insert, GoodName, Holds, Key;
    if fields != [] {
      InsertTotal(tree, unique, fields[0]);
      CollectTotal(tree, fields[1..], Insert(unique, fields[0]));
    }
  }

  lemma SameMembers(p: seq<Bytes>, q: seq<Bytes>)
    requires multiset(p) == multiset(q)
    ensures |p| == |q| && forall x :: x in p <==> x in q
  {
    assert |multiset(p)| == |p| && |multiset(q)| == |q|;
    forall x ensures x in p <==> x in q {
      assert x in p <==> x in multiset(p);
      assert x in q <==> x in multiset(q);
    }
  }

  ghost predicate ItemsShow(tree: map<Bytes, Node>, paths: seq<Bytes>, items: seq<Item>) {
    |items| == |paths| && forall k | 0 <= k < |paths| :: items[k].path == paths[k] && Shows(tree, paths[k], items[k].entry)
  }

  /** The listing of an observation, in terms of what Git printed and of the tree alone. */
  lemma CaptureShows(o: Observation)
    requires o.names.Some? && ReadNulPaths(o.names.value).Ok?
    ensures var names, paths := Names(o.names.value), ReadNulPaths(o.names.value).value;
            var all := ObserveAll(paths, o.tree, Listing([], 0));
            && multiset(paths) == multiset(names)
            && (all.Ok? <==> AllSteady(o.tree, names) && TotalBytes(o.tree, names) <= MAX_SNAPSHOT_BYTES)
            && (all.Ok? ==> ItemsShow(o.tree, paths, all.value.items) && all.value.total == TotalBytes(o.tree, paths))
  {
    var names, paths := Names(o.names.value), ReadNulPaths(o.names.value).value;
    NulPathsAreTheNames(o.names.value);
    CollectTotal(o.tree, names, []);
    assert TotalBytes(o.tree, paths) == TotalBytes(o.tree, names);
    hide ReadNulPaths, Collect, Names, TotalBytes, Unambiguous, Ascending;
    SameMembers(paths, names);
    ShownAll(o.tree, paths);
    hide ObserveAll, ItemsShow, Steady;
  }

  lemma ShownAll(tree: map<Bytes, Node>, paths: seq<Bytes>)
    ensures var all := ObserveAll(paths, tree, Listing([], 0));
            && (all.Ok? <==> AllSteady(tree, paths) && TotalBytes(tree, paths) <= MAX_SNAPSHOT_BYTES)
            && (all.Ok? ==> ItemsShow(tree, paths, all.value.items) && all.value.total == TotalBytes(tree, paths))
  {
    ObserveAllShows(paths, tree, Listing([], 0));
    hide ObserveAll, TotalBytes, Shows, Steady;
  }

  lemma OidIs(s: string)
    ensures IsOid(s) <==> (|s| == 40 || |s| == 64)
                          && forall c | c in s :: '0' <= c <= '9' || 'a' <= c <= 'f' || 'A' <= c <= 'F'
  {
  }

  /** A snapshot is taken exactly of what can be captured. */
  lemma CaptureSucceeds(o: Observation)
    ensures Capture(o).Ok? <==> Capturable(o)
  {
    if o.head.Some? {
      OidIs(o.head.value);
    }
    if o.names.Some? {
      NulPathsAreTheNames(o.names.value);
      if ReadNulPaths(o.names.value).Ok? {
        CaptureShows(o);
        SameMembers(ReadNulPaths(o.names.value).value, Names(o.names.value));
      }
    }
    hide ReadNulPaths, ObserveAll, Names, Unambiguous, TotalBytes, Ascending, IsOid, AllSteady, ItemsShow;
  }

  /** Head and branch are there. */
  predicate HeadReads(o: Observation) {
    o.safe && o.head.Some? && IsOid(o.head.value) && o.headRef.Some?
  }

  /** The index is a file of bounded size that can be read. */
  predicate IndexReads(o: Observation) {
    && HeadReads(o)
    && o.index.Some? && o.index.value.Regular? && o.index.value.before.len <= MAX_INDEX_BYTES
    && o.index.value.content.Some?
  }

  /** And it did not change meanwhile. */
  predicate IndexSteady(o: Observation) {
    IndexReads(o) && o.index.value.after == o.index.value.before
  }

  predicate NamesRead(o: Observation) {
    && o.names.Some? && (o.names.value == "" || o.names.value[|o.names.value| - 1] == '\0')
    && Unambiguous(Names(o.names.value))
  }

  /** Which refusal comes first, up to the listing. */
  lemma CaptureRefuses(o: Observation)
    ensures !o.safe ==> Capture(o) == Err(Repository)
    ensures o.safe && !HeadReads(o) ==> Capture(o) == Err(Git)
    ensures HeadReads(o) && !IndexReads(o) ==> Capture(o) == Err(Io)
    ensures IndexReads(o) && !IndexSteady(o) ==> Capture(o) == Err(Unstable)
    ensures IndexSteady(o) && !NamesRead(o) ==> Capture(o) == Err(Git)
    ensures IndexSteady(o) && NamesRead(o) && |Names(o.names.value)| > MAX_SNAPSHOT_FILES ==> Capture(o) == Err(TooLarge)
  {
    if o.names.Some? {
      NulPathsAreTheNames(o.names.value);
      OnlyGit(Names(o.names.value), []);
      if ReadNulPaths(o.names.value).Ok? {
        SameMembers(ReadNulPaths(o.names.value).value, Names(o.names.value));
      }
    }
    hide IsOid, ObserveAll, Unambiguous, Names, Collect, Ascending;
  }

  lemma {:induction false} OnlyGit(fields: seq<Bytes>, unique: seq<Bytes>)
    ensures Collect(fields, unique).Err? ==> Collect(fields, unique).error == Git
  {
    hide GoodName, Holds, Insert, Key;
    if fields != [] {
      OnlyGit(fields[1..], Insert(unique, fields[0]));
    }
  }

  /** Staleness, in terms of the repository alone: with a collision-free hash two captures give
      the same token exactly when head, branch, index content and the set of names are the same,
      and at every name both have the same file, link or nothing, metadata and contents
      included. */
  lemma TokenTellsWorktree(a: Observation, b: Observation, sha: Bytes -> Bytes)
    requires HonestTree(a.tree) && HonestTree(b.tree) && Injective(sha) && Capturable(a) && Capturable(b)
    ensures Sealed(Capture(a), sha).Ok? && Sealed(Capture(b), sha).Ok?
    ensures Sealed(Capture(a), sha) == Sealed(Capture(b), sha) <==> SameWorktree(a, b)
  {
    CaptureSucceeds(a);
    CaptureSucceeds(b);
    TokenMeansUnchanged(a, b, sha);
    CaptureTells(a, b);
    hide Capture, Capturable, SameWorktree, HonestTree;
  }

  /** Everything a capture keeps. */
  lemma CaptureParts(o: Observation) returns (paths: seq<Bytes>, items: seq<Item>)
    requires Capturable(o) && Capture(o).Ok?
    ensures ReadNulPaths(o.names.value) == Ok(paths) && multiset(paths) == multiset(Names(o.names.value))
    ensures ItemsShow(o.tree, paths, items)
    ensures Capture(o) == Ok(Captured(o.head.value, o.headRef.value, o.index.value.content.value, items,
                                      TotalBytes(o.tree, paths)))
  {
    CapturedItems(o);
    CaptureShows(o);
    paths, items := ReadNulPaths(o.names.value).value, Capture(o).value.items;
    hide ReadNulPaths, ObserveAll, Names, Unambiguous, TotalBytes, ItemsShow, AllSteady, IsOid;
  }

  lemma {:induction false} SameTotals(a: map<Bytes, Node>, b: map<Bytes, Node>, paths: seq<Bytes>)
    requires forall path | path in paths :: SameThere(a, b, path)
    ensures TotalBytes(a, paths) == TotalBytes(b, paths)
  {
    if paths != [] {
      assert SameThere(a, b, paths[0]);
      SameTotals(a, b, paths[1..]);
    }
  }

  lemma CaptureTells(a: Observation, b: Observation)
    requires Capturable(a) && Capturable(b) && Capture(a).Ok? && Capture(b).Ok?
    ensures Capture(a) == Capture(b) <==> SameWorktree(a, b)
  {
    var p, x := CaptureParts(a);
    var q, y := CaptureParts(b);
    PrintOrderIrrelevant(a.names.value, b.names.value);
    SameMembers(p, Names(a.names.value));
    SameItems(a.tree, b.tree, p, q, x, y);
    if p == q && forall path | path in p :: SameThere(a.tree, b.tree, path) {
      SameTotals(a.tree, b.tree, p);
    }
    hide Capture, ReadNulPaths, Names, SameThere, TotalBytes, ItemsShow, Unambiguous, AllSteady, Steady;
  }

  /** Equal lists of paths have equal items exactly when the trees agree at every path. */
  lemma SameItems(a: map<Bytes, Node>, b: map<Bytes, Node>, p: seq<Bytes>, q: seq<Bytes>, x: seq<Item>, y: seq<Item>)
    requires ItemsShow(a, p, x) && ItemsShow(b, q, y)
    ensures x == y <==> p == q && forall path | path in p :: SameThere(a, b, path)
  {
    if x == y {
      forall k | 0 <= k < |p| ensures p[k] == q[k] && SameThere(a, b, p[k]) {
        assert x[k] == y[k];
      }
    }
    if p == q && forall path | path in p :: SameThere(a, b, path) {
      forall k | 0 <= k < |p| ensures x[k] == y[k] {
        assert p[k] in p;
      }
    }
  }

  // ---- the program ----

  /** A running SHA-256: the digest depends only on the bytes fed so far. */
  class Hasher {
    var fed: Bytes

    constructor ()
      ensures fed == ""
    {
      fed := "";
    }

    method Update(bytes: Bytes)
      modifies this
      ensures fed == old(fed) + bytes
    {
      fed := fed + bytes;
    }

    method UpdateMetadata(m: Metadata)
      modifies this
      ensures fed == old(fed) + EncodeMetadata(m)
    {
      Update(BigEndian(m.dev, 8));
      Update(BigEndian(m.ino, 8));
      Update(BigEndian(m.mode, 4));
      Update(BigEndian(m.nlink, 8));
      Update(BigEndian(m.len, 8));
      Update(BigEndian(Unsigned(m.mtime), 8));
      Update(BigEndian(Unsigned(m.mtimeNsec), 8));
      Update(BigEndian(Unsigned(m.ctime), 8));
      Update(BigEndian(Unsigned(m.ctimeNsec), 8));
    }

    /** `hash_file_stable`: reads of any size up to the buffer, then the second look at the
        metadata. */
    method UpdateFile(node: Node) returns (r: Result<(), SnapshotError>)
      requires node.Regular?
      modifies this
      ensures r.Ok? <==> StableContent(node).Ok?
      ensures r.Ok? ==> fed == old(fed) + StableContent(node).value
      ensures r.Err? ==> r.error == StableContent(node).error
    {
      if node.content.None? {
        return Err(Io);
      }
      var content := node.content.value;
      var read := 0;
      while read < |content|
        invariant 0 <= read <= |content|
        invariant fed == old(fed) + content[..read]
      {
        var count: nat :| 1 <= count <= BUFFER_BYTES && read + count <= |content|;
        Update(content[read..read + count]);
        assert content[..read] + content[read..read + count] == content[..read + count];
        read := read + count;
      }
      assert content[..read] == content;
      if node.before != node.after {
        return Err(Unstable);
      }
      return Ok(());
    }
  }

  function Sealed(r: Result<Captured, SnapshotError>, sha: Bytes -> Bytes): Result<Snapshot, SnapshotError> {
    if r.Ok? then Ok(Seal(r.value, sha)) else Err(r.error)
  }

  lemma {:induction false} EncodeAppend(items: seq<Item>, item: Item)
    ensures Encode(items + [item]) == Encode(items) + EncodeItem(item)
  {
    hide EncodeItem;
    if items == [] {
      assert items + [item] == [item];
      assert [item][1..] == [];
    } else {
      EncodeAppend(items[1..], item);
      assert (items + [item])[1..] == items[1..] + [item];
    }
  }

  lemma ThreeParts(fed: Bytes, tag: Bytes, meta: Bytes, rest: Bytes)
    ensures fed + tag + meta + rest == fed + (tag + meta + rest)
  {
  }

  /** What follows the path: tag, metadata and content. */
  method FeedEntry(path: Bytes, tree: map<Bytes, Node>, hash: Hasher, total: nat)
    returns (r: Result<(Entry, nat), SnapshotError>)
    modifies hash
    ensures r == EntryAt(path, tree, total)
    ensures r.Ok? ==> hash.fed == old(hash.fed) + EncodeEntry(r.value.0)
  {
    hide EncodeMetadata;
    if path !in tree {
      hash.Update(MISSING_TAG);
      return Ok((Missing, total));
    }
    match tree[path] {
      case Regular(before, _, _) =>
        if total + before.len > MAX_SNAPSHOT_BYTES {
          return Err(TooLarge);
        }
        hash.Update(FILE_TAG);
        hash.UpdateMetadata(before);
        var done := hash.UpdateFile(tree[path]);
        if done.Err? {
          return Err(done.error);
        }
        ThreeParts(old(hash.fed), FILE_TAG, EncodeMetadata(before), tree[path].content.value);
        return Ok((File(before, tree[path].content.value), total + before.len));
      case Link(meta, target) =>
        hash.Update(SYMLINK_TAG);
        hash.UpdateMetadata(meta);
        if target.None? {
          return Err(Io);
        }
        hash.Update(target.value);
        ThreeParts(old(hash.fed), SYMLINK_TAG, EncodeMetadata(meta), target.value);
        return Ok((Symlink(meta, target.value), total));
      case Special =>
        return Err(UnsafeFileType);
      case Unreadable =>
        return Err(Io);
    }
  }

  /** One turn of the loop of `capture`. */
  method ObserveOne(path: Bytes, tree: map<Bytes, Node>, hash: Hasher, ghost items: seq<Item>, total: nat)
    returns (r: Result<nat, SnapshotError>)
    requires hash.fed == Encode(items)
    modifies hash
    ensures var spec := Observe(path, tree, Listing(items, total));
            && (spec.Err? ==> r == Err(spec.error))
            && (spec.Ok? ==> r == Ok(spec.value.total) && hash.fed == Encode(spec.value.items))
  {
    hide EncodeEntry, Encode, EntryAt;
    hash.Update(PATH_TAG);
    hash.Update(path);
    hash.Update(['\0']);
    var found :- FeedEntry(path, tree, hash, total);
    EncodeAppend(items, Item(path, found.0));
    return Ok(found.1);
  }

  method CaptureSnapshot(o: Observation, sha: Bytes -> Bytes) returns (r: Result<Snapshot, SnapshotError>)
    ensures r == Sealed(Capture(o), sha)
  {
    hide Observe, ReadNulPaths, Encode;
    if !o.safe {
      return Err(Repository);
    }
    if o.head.None? || !IsOid(o.head.value) {
      return Err(Git);
    }
    if o.headRef.None? {
      return Err(Git);
    }
    if o.index.None? || !o.index.value.Regular? || o.index.value.before.len > MAX_INDEX_BYTES {
      return Err(Io);
    }
    var index := new Hasher();
    var stable := index.UpdateFile(o.index.value);
    if stable.Err? {
      return Err(stable.error);
    }
    if o.names.None? {
      return Err(Git);
    }
    var paths := ParseNulPaths(o.names.value);
    if paths.Err? {
      return Err(paths.error);
    }
    if |paths.value| > MAX_SNAPSHOT_FILES {
      return Err(TooLarge);
    }
    var hash := new Hasher();
    var total := 0;
    ghost var items: seq<Item> := [];
    ghost var all := ObserveAll(paths.value, o.tree, Listing([], 0));
    assert paths.value[0..] == paths.value && hash.fed == Encode([]) by { EncodeNothing(); }
    for i := 0 to |paths.value|
      invariant hash.fed == Encode(items) && |items| == i
      invariant all == ObserveAll(paths.value[i..], o.tree, Listing(items, total))
      invariant index.fed == StableContent(o.index.value).value
    {
      assert paths.value[i..][0] == paths.value[i] && paths.value[i..][1..] == paths.value[i + 1..];
      ghost var next := Observe(paths.value[i], o.tree, Listing(items, total));
      var step := ObserveOne(paths.value[i], o.tree, hash, items, total);
      if step.Err? {
        return Err(step.error);
      }
      ObserveAdds(paths.value[i], o.tree, Listing(items, total));
      items := next.value.items;
      total := step.value;
    }
    return Ok(Snapshot(o.head.value, sha(o.headRef.value), sha(index.fed), sha(hash.fed), |paths.value|, total));
  }

  lemma EncodeNothing()
    ensures Encode([]) == ""
  {
  }

  lemma ObserveAdds(path: Bytes, tree: map<Bytes, Node>, listing: Listing)
    requires Observe(path, tree, listing).Ok?
    ensures |Observe(path, tree, listing).value.items| == |listing.items| + 1
  {
  }

  /** `revalidate`: accepts exactly when a new capture gives the same token. */
  method Revalidate(snapshot: Snapshot, o: Observation, sha: Bytes -> Bytes)
    returns (r: Result<(), SnapshotError>)
    ensures r.Ok? <==> Sealed(Capture(o), sha) == Ok(snapshot)
    ensures Capture(o).Err? ==> r == Err(Capture(o).error)
    ensures Capture(o).Ok? && r.Err? ==> r == Err(Stale)
  {
    var now := CaptureSnapshot(o, sha);
    if now.Err? {
      return Err(now.error);
    }
    if now.value != snapshot {
      return Err(Stale);
    }
    return Ok(());
  }
}
