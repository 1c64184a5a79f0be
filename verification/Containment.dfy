/** Where a patch path really leads (crates/premonition-core/src/repository.rs:231-272): the walk
    over the live file tree, against path resolution that follows symbolic links. */
module Containment {
  import opened Text
  import opened SafePaths
  import opened DiffGrammar

  /** An absolute path, as its components. */
  type Path = seq<string>

  datatype TreeNode =
    | Dir
    | File(mode: nat, nlink: nat, len: nat)
    | Link(absolute: bool, target: seq<string>)
    | Special

  type Tree = map<Path, TreeNode>

  const MAX_RESULT_FILE_BYTES: nat := 2 * 1024 * 1024
  const PERMISSION_BITS: nat := 0x200
  const MODE_644: nat := 0x1a4

  datatype RepositoryError = IdentityChanged | BadPath | NestedRepository

  datatype Stat = Found(node: TreeNode) | NotFound | Failed

  // ---- the kernel's view ----

  datatype Resolution = At(path: Path) | Absent | Refused

  function Parent(p: Path): Path {
    if p == [] then [] else p[..|p| - 1]
  }

  /** Path resolution from the directory `at`; `links` bounds the symbolic links followed. */
  function Resolve(tree: Tree, at: Path, parts: seq<string>, links: nat): Resolution
    decreases links, |parts|
  {
    if parts == [] then At(at)
    else
      var name, rest := parts[0], parts[1..];
      if name == "." then Resolve(tree, at, rest, links)
      else if name == ".." then Resolve(tree, Parent(at), rest, links)
      else if at + [name] !in tree then Absent
      else
        match tree[at + [name]]
        case Dir => Resolve(tree, at + [name], rest, links)
        case Link(absolute, target) =>
          if links == 0 then Refused
          else Resolve(tree, if absolute then [] else at, target + rest, links - 1)
        case _ => if rest == [] then At(at + [name]) else Refused
  }

  /** `symlink_metadata`: the last component is not followed. */
  function Lstat(tree: Tree, path: Path, links: nat): Stat {
    if path == [] then Found(Dir)
    else
      match Resolve(tree, [], path[..|path| - 1], links)
      case Absent => NotFound
      case Refused => Failed
      case At(p) =>
        if p != [] && (p !in tree || !tree[p].Dir?) then Failed
        else if p + [path[|path| - 1]] in tree then Found(tree[p + [path[|path| - 1]]])
        else NotFound
  }

  // ---- real directories ----

  predicate Plain(names: seq<string>) {
    forall i | 0 <= i < |names| :: names[i] != "." && names[i] != ".."
  }

  /** `p` and everything above it are directories, none reached through a link. */
  predicate RealDir(tree: Tree, p: Path) {
    Plain(p) && forall k | 1 <= k <= |p| :: p[..k] in tree && tree[p[..k]].Dir?
  }

  lemma {:induction false} ResolveDown(tree: Tree, at: Path, parts: seq<string>, more: seq<string>, links: nat)
    requires RealDir(tree, at + parts)
    ensures Resolve(tree, at, parts + more, links) == Resolve(tree, at + parts, more, links)
    decreases |parts|
  {
    if parts == [] {
      assert parts + more == more && at + parts == at;
    } else {
      var name, rest := parts[0], parts[1..];
      var here := at + [name];
      assert (at + parts)[|at|] == name;
      assert (at + parts)[..|at| + 1] == here;
      assert here + rest == at + parts;
      assert (parts + more)[0] == name && (parts + more)[1..] == rest + more;
      ResolveDown(tree, here, rest, more, links);
    }
  }

  /** A real directory resolves to itself, links followed or not. */
  lemma RealDirResolves(tree: Tree, p: Path, links: nat)
    requires RealDir(tree, p)
    ensures Resolve(tree, [], p, links) == At(p)
  {
    assert p + [] == p && [] + p == p;
    ResolveDown(tree, [], p, [], links);
  }

  lemma LstatInRealDir(tree: Tree, p: Path, name: string, links: nat)
    requires RealDir(tree, p)
    ensures Lstat(tree, p + [name], links)
         == if p + [name] in tree then Found(tree[p + [name]]) else NotFound
  {
    var path := p + [name];
    assert path[..|path| - 1] == p && path[|path| - 1] == name;
    RealDirResolves(tree, p, links);
    assert p != [] ==> p[..|p|] == p;
  }

  // ---- what the program accepts ----

  /** The target itself: absent for Add, otherwise one plain 0644 file of bounded size. */
  predicate TargetFits(tree: Tree, target: Path, kind: ChangeKind) {
    if kind == Add then target !in tree
    else
      && target in tree && tree[target].File?
      && tree[target].mode % PERMISSION_BITS == MODE_644
      && tree[target].nlink <= 1
      && tree[target].len <= MAX_RESULT_FILE_BYTES
  }

  predicate CleanAncestor(tree: Tree, p: Path) {
    p in tree && tree[p].Dir? && p + [".git"] !in tree
  }

  /** Every directory strictly between the root and the target is real and holds no `.git`. */
  predicate CleanAncestors(tree: Tree, root: Path, names: seq<string>, upto: nat)
    requires upto <= |names|
  {
    forall k | 1 <= k <= upto :: CleanAncestor(tree, root + names[..k])
  }

  predicate Accepted(tree: Tree, root: Path, names: seq<string>, kind: ChangeKind) {
    && names != []
    && CleanAncestors(tree, root, names, |names| - 1)
    && TargetFits(tree, root + names, kind)
  }

  lemma PrefixIsRealDir(tree: Tree, root: Path, names: seq<string>, upto: nat)
    requires RealDir(tree, root) && Plain(names) && upto <= |names|
    requires CleanAncestors(tree, root, names, upto)
    ensures RealDir(tree, root + names[..upto])
  {
    var p := root + names[..upto];
    forall k | 1 <= k <= |p| ensures p[..k] in tree && tree[p[..k]].Dir? {
      if k <= |root| {
        assert p[..k] == root[..k];
      } else {
        assert p[..k] == root + names[..k - |root|];
        assert CleanAncestor(tree, root + names[..k - |root|]);
      }
    }
  }

  method ValidateChangePath(tree: Tree, root: Path, path: string, kind: ChangeKind, identityHolds: bool, links: nat)
    returns (r: Result<(), RepositoryError>)
    requires RealDir(tree, root) && SafePath(path)
    ensures r.Ok? <==> identityHolds && Accepted(tree, root, Components(path), kind)
  {
    if !identityHolds {
      return Err(IdentityChanged);
    }
    var names := Components(path);
    PlainComponents(path);
    var current := root;
    for i := 0 to |names| - 1
      invariant current == root + names[..i]
      invariant CleanAncestors(tree, root, names, i)
    {
      PrefixIsRealDir(tree, root, names, i);
      LstatInRealDir(tree, current, names[i], links);
      assert current + [names[i]] == root + names[..i + 1];
      current := current + [names[i]];
      var stat := Lstat(tree, current, links);
      if !stat.Found? || !stat.node.Dir? {
        assert !CleanAncestor(tree, root + names[..i + 1]);
        return Err(BadPath);
      }
      assert RealDir(tree, current) by {
        forall k | 1 <= k <= |current| ensures current[..k] in tree && tree[current[..k]].Dir? {
          assert k < |current| ==> current[..k] == (root + names[..i])[..k];
          assert k == |current| ==> current[..k] == current;
        }
      }
      LstatInRealDir(tree, current, ".git", links);
      if Lstat(tree, current + [".git"], links).Found? {
        assert !CleanAncestor(tree, root + names[..i + 1]);
        return Err(NestedRepository);
      }
    }
    var target := root + names;
    PrefixIsRealDir(tree, root, names, |names| - 1);
    LstatInRealDir(tree, root + names[..|names| - 1], names[|names| - 1], links);
    assert target == (root + names[..|names| - 1]) + [names[|names| - 1]];
    match Lstat(tree, target, links) {
      case Found(node) =>
        if kind == Add || !node.File? || node.mode % PERMISSION_BITS != MODE_644
           || node.nlink > 1 || node.len > MAX_RESULT_FILE_BYTES
        {
          return Err(BadPath);
        }
      case NotFound =>
        if kind != Add {
          return Err(BadPath);
        }
      case Failed =>
        return Err(BadPath);
    }
    return Ok(());
  }

  lemma PlainComponents(path: string)
    requires SafePath(path)
    ensures Plain(Components(path))
  {
    forall i | 0 <= i < |Components(path)| ensures Components(path)[i] != "." && Components(path)[i] != ".." {
      assert GoodComponent(Split(path, '/')[i]);
    }
  }

  // ---- what acceptance means ----

  /** What may be at an accepted target: nothing for an Add, and otherwise one file with the
      permissions rw-r--r--, under one name, of at most two mebibytes; and every directory above
      it is one, without a `.git` of its own. */
  lemma AcceptedIsPlain(tree: Tree, root: Path, names: seq<string>, kind: ChangeKind)
    ensures Accepted(tree, root, names, kind) <==>
              && names != []
              && (forall k | 1 <= k < |names| ::
                    && root + names[..k] in tree && tree[root + names[..k]] == Dir
                    && root + names[..k] + [".git"] !in tree)
              && if kind == Add then root + names !in tree
                 else && root + names in tree && tree[root + names].File?
                      && tree[root + names].mode % 512 == 420
                      && tree[root + names].nlink <= 1 && tree[root + names].len <= 2097152
  {
    if names != [] {
      forall k | 1 <= k < |names|
        ensures CleanAncestor(tree, root + names[..k]) <==>
                  && root + names[..k] in tree && tree[root + names[..k]] == Dir
                  && root + names[..k] + [".git"] !in tree
      {
      }
    }
    hide CleanAncestor;
  }

  /** Nowhere on its way does the path enter a directory of Git's, however that is spelled. */
  lemma NotInGit(path: string, root: Path)
    requires SafePath(path)
    ensures var names := Components(path);
            forall k, git | 0 <= k <= |names| && LowerCase(git) == ".git" ::
              !(root + names[..k] + [git] <= root + names)
  {
    var names := Components(path);
    SafePathsOutsideGit(path);
    hide LowerCase, SafePath;
    forall k, git | 0 <= k <= |names| && LowerCase(git) == ".git" ensures !(root + names[..k] + [git] <= root + names) {
      assert (root + names[..k] + [git])[|root| + k] == git;
      if k < |names| {
        assert (root + names)[|root| + k] == names[k] && names[k] in names;
      }
    }
  }

  /** Containment: with links followed, an accepted path is the root joined with its components;
      an Add lands in a directory that is, at a name that is free. */
  lemma AcceptedPathsStayInside(tree: Tree, root: Path, path: string, kind: ChangeKind, links: nat)
    requires RealDir(tree, root) && SafePath(path) && Accepted(tree, root, Components(path), kind)
    ensures var names := Components(path);
            && Resolve(tree, [], root + names[..|names| - 1], links) == At(root + names[..|names| - 1])
            && Resolve(tree, [], root + names, links) == (if kind == Add then Absent else At(root + names))
            && (forall k | 1 <= k < |names| :: root + names[..k] + [".git"] !in tree)
            && forall k, git | 0 <= k <= |names| && LowerCase(git) == ".git" ::
                 !(root + names[..k] + [git] <= root + names)
  {
    var names := Components(path);
    PlainComponents(path);
    NotInGit(path, root);
    var dir, last := root + names[..|names| - 1], names[|names| - 1];
    PrefixIsRealDir(tree, root, names, |names| - 1);
    RealDirResolves(tree, dir, links);
    assert root + names == dir + [last];
    assert [] + dir == dir;
    ResolveDown(tree, [], dir, [last], links);
    assert [last][1..] == [];
    forall k | 1 <= k < |names| ensures root + names[..k] + [".git"] !in tree {
      assert CleanAncestor(tree, root + names[..k]);
    }
  }

  /** No accepted target is a directory on the way to another accepted target. */
  lemma AcceptedTargetsDoNotNest(tree: Tree, root: Path, a: seq<string>, x: ChangeKind, b: seq<string>, y: ChangeKind)
    requires Accepted(tree, root, b, y) && a < b
    ensures !Accepted(tree, root, a, x)
  {
    assert b[..|a|] == a;
    if a != [] {
      assert CleanAncestor(tree, root + b[..|a|]);
    }
  }
}
