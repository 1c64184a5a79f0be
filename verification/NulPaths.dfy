/** `parse_nul_paths` (crates/premonition-core/src/snapshot.rs:193-217): the NUL-separated names
    Git prints, read into an ordered set of paths. */
module NulPaths {
  import opened Text
  import opened Stream

  datatype SnapshotError = Repository | Git | TooLarge | UnsafeFileType | Unstable | Io | Stale

  // ---- paths as the program compares them ----

  /** The components of a path: empty ones and inner "." vanish. */
  function Kept(fields: seq<Bytes>): seq<Bytes> {
    if fields == [] then []
    else (if fields[0] == "" || fields[0] == "." then [] else [fields[0]]) + Kept(fields[1..])
  }

  /** Each component followed by a NUL, which sorts before every other byte: comparing these
      texts compares paths component by component. */
  function Flatten(parts: seq<Bytes>): Bytes {
    if parts == [] then "" else parts[0] + ['\0'] + Flatten(parts[1..])
  }

  function Key(path: Bytes): Bytes {
    Flatten(Kept(Split(path, '/')))
  }

  /** Only plain components: relative, not starting with "." and nowhere climbing. */
  predicate GoodName(path: Bytes) {
    && path != ""
    && !StartsWith(path, "/")
    && Split(path, '/')[0] != "."
    && ".." !in Split(path, '/')
  }

  predicate Less(a: Bytes, b: Bytes) {
    if b == "" then false
    else if a == "" then true
    else a[0] < b[0] || (a[0] == b[0] && Less(a[1..], b[1..]))
  }

  lemma {:induction false} LessIrreflexive(a: Bytes)
    ensures !Less(a, a)
  {
    if a != "" { LessIrreflexive(a[1..]); }
  }

  lemma {:induction false} LessTransitive(a: Bytes, b: Bytes, c: Bytes)
    requires Less(a, b) && Less(b, c)
    ensures Less(a, c)
  {
    if a != "" && a[0] == b[0] == c[0] {
      LessTransitive(a[1..], b[1..], c[1..]);
    }
  }

  lemma {:induction false} LessTotal(a: Bytes, b: Bytes)
    ensures Less(a, b) || Less(b, a) || a == b
  {
    if a != "" && b != "" && a[0] == b[0] {
      LessTotal(a[1..], b[1..]);
      assert a == [a[0]] + a[1..] && b == [b[0]] + b[1..];
    }
  }

  // ---- the ordered set ----

  predicate Ascending(paths: seq<Bytes>) {
    forall i, j | 0 <= i < j < |paths| :: Less(Key(paths[i]), Key(paths[j]))
  }

  predicate Holds(paths: seq<Bytes>, key: Bytes) {
    exists i | 0 <= i < |paths| :: Key(paths[i]) == key
  }

  /** `BTreeSet::insert` of a path not yet in the set. */
  function Insert(paths: seq<Bytes>, path: Bytes): seq<Bytes> {
    if paths == [] || Less(Key(path), Key(paths[0])) then [path] + paths
    else [paths[0]] + Insert(paths[1..], path)
  }

  ghost predicate Precedes(path: Bytes, paths: seq<Bytes>) {
    forall i | 0 <= i < |paths| :: Less(Key(path), Key(paths[i]))
  }

  lemma AscendingCons(path: Bytes, paths: seq<Bytes>)
    requires Ascending(paths) && Precedes(path, paths)
    ensures Ascending([path] + paths)
  {
    hide Key, Less;
  }

  lemma {:induction false} InsertKeepsFirst(first: Bytes, paths: seq<Bytes>, path: Bytes)
    requires Precedes(first, paths) && Less(Key(first), Key(path))
    ensures Precedes(first, Insert(paths, path))
  {
    hide Key, Less;
    if paths != [] {
      InsertKeepsFirst(first, paths[1..], path);
    }
  }

  lemma {:induction false} InsertAdds(paths: seq<Bytes>, path: Bytes)
    ensures multiset(Insert(paths, path)) == multiset(paths) + multiset{path}
  {
    hide Key, Less;
    if paths != [] {
      assert paths == [paths[0]] + paths[1..];
      InsertAdds(paths[1..], path);
    }
  }

  lemma {:induction false} InsertOrders(paths: seq<Bytes>, path: Bytes)
    requires Ascending(paths) && !Holds(paths, Key(path))
    ensures Ascending(Insert(paths, path))
    ensures multiset(Insert(paths, path)) == multiset(paths) + multiset{path}
  {
    InsertAdds(paths, path);
    hide Key, Less;
    if paths != [] {
      var rest := paths[1..];
      assert forall i | 0 <= i < |rest| :: rest[i] == paths[i + 1];
      assert Precedes(paths[0], rest);
      if Less(Key(path), Key(paths[0])) {
        forall i | 0 < i < |paths| ensures Less(Key(path), Key(paths[i])) {
          LessTransitive(Key(path), Key(paths[0]), Key(paths[i]));
        }
        AscendingCons(path, paths);
      } else {
        assert !Holds(rest, Key(path));
        InsertOrders(rest, path);
        LessTotal(Key(path), Key(paths[0]));
        InsertKeepsFirst(paths[0], rest, path);
        AscendingCons(paths[0], Insert(rest, path));
      }
    }
  }

  lemma Found(paths: seq<Bytes>, path: Bytes) returns (i: nat)
    requires path in multiset(paths)
    ensures i < |paths| && paths[i] == path
  {
    assert path in paths;
    i :| 0 <= i < |paths| && paths[i] == path;
  }

  lemma LeastFirst(a: seq<Bytes>, b: seq<Bytes>)
    requires Ascending(a) && Ascending(b) && multiset(a) == multiset(b) && a != [] && b != []
    ensures a[0] == b[0]
  {
    hide Key, Less;
    assert a[0] in multiset(a) && b[0] in multiset(b);
    var j := Found(b, a[0]);
    var i := Found(a, b[0]);
    if i > 0 && j > 0 {
      LessTransitive(Key(a[0]), Key(a[i]), Key(b[j]));
      LessIrreflexive(Key(a[0]));
      assert false;
    }
  }

  lemma TailMultiset(a: seq<Bytes>)
    requires a != []
    ensures multiset(a[1..]) == multiset(a) - multiset{a[0]}
  {
    assert a == [a[0]] + a[1..];
  }

  /** Two ascending lists of the same paths are the same list. */
  lemma {:induction false} AscendingUnique(a: seq<Bytes>, b: seq<Bytes>)
    requires Ascending(a) && Ascending(b) && multiset(a) == multiset(b)
    ensures a == b
  {
    hide Key, Less;
    assert |multiset(a)| == |a| && |multiset(b)| == |b|;
    if a != [] {
      LeastFirst(a, b);
      TailMultiset(a);
      TailMultiset(b);
      AscendingUnique(a[1..], b[1..]);
      ConsAppend(a, []);
      ConsAppend(b, []);
    }
  }

  // ---- the parser ----

  function Collect(fields: seq<Bytes>, unique: seq<Bytes>): Result<seq<Bytes>, SnapshotError> {
    if fields == [] then Ok(unique)
    else if !GoodName(fields[0]) || Holds(unique, Key(fields[0])) then Err(Git)
    else Collect(fields[1..], Insert(unique, fields[0]))
  }

  function Names(bytes: Bytes): seq<Bytes> {
    if bytes == "" then [] else Split(bytes[..|bytes| - 1], '\0')
  }

  function ReadNulPaths(bytes: Bytes): Result<seq<Bytes>, SnapshotError> {
    if bytes != "" && bytes[|bytes| - 1] != '\0' then Err(Git) else Collect(Names(bytes), [])
  }

  /** All names are plain and no two are the same path. */
  predicate Unambiguous(names: seq<Bytes>) {
    && (forall i | 0 <= i < |names| :: GoodName(names[i]))
    && forall i, j | 0 <= i < j < |names| :: Key(names[i]) != Key(names[j])
  }

  predicate FreshFor(fields: seq<Bytes>, unique: seq<Bytes>) {
    forall i | 0 <= i < |fields| :: !Holds(unique, Key(fields[i]))
  }

  lemma HoldsAfterInsert(unique: seq<Bytes>, path: Bytes, key: Bytes)
    requires Ascending(unique) && !Holds(unique, Key(path))
    ensures Holds(Insert(unique, path), key) <==> Holds(unique, key) || key == Key(path)
  {
    hide Key;
    InsertOrders(unique, path);
    var all := Insert(unique, path);
    if Holds(all, key) {
      var i :| 0 <= i < |all| && Key(all[i]) == key;
      assert all[i] in multiset(all);
      if all[i] != path {
        var k := Found(unique, all[i]);
      }
    }
    if Holds(unique, key) {
      var i :| 0 <= i < |unique| && Key(unique[i]) == key;
      assert unique[i] in multiset(all);
    }
    assert path in multiset(all);
  }

  /** The first name aside, the rest has to be fresh for the set with that name in it. */
  lemma RestIsFresh(f: Bytes, rest: seq<Bytes>, unique: seq<Bytes>)
    requires Ascending(unique) && !Holds(unique, Key(f))
    ensures FreshFor(rest, Insert(unique, f))
       <==> FreshFor(rest, unique) && forall i | 0 <= i < |rest| :: Key(rest[i]) != Key(f)
  {
    forall i | 0 <= i < |rest|
      ensures Holds(Insert(unique, f), Key(rest[i])) <==> Holds(unique, Key(rest[i])) || Key(rest[i]) == Key(f)
    {
      HoldsAfterInsert(unique, f, Key(rest[i]));
    }
    hide Key, Holds, Insert, Ascending;
  }

  lemma HeadAside(fields: seq<Bytes>, unique: seq<Bytes>)
    requires fields != [] && GoodName(fields[0]) && !Holds(unique, Key(fields[0]))
    ensures Unambiguous(fields) && FreshFor(fields, unique)
       <==> && Unambiguous(fields[1..]) && FreshFor(fields[1..], unique)
            && forall i | 0 <= i < |fields[1..]| :: Key(fields[1..][i]) != Key(fields[0])
  {
    hide Key, Holds, GoodName;
    var rest := fields[1..];
    assert forall i | 0 <= i < |rest| :: rest[i] == fields[i + 1];
    assert forall i | 0 < i < |fields| :: fields[i] == rest[i - 1];
    if Unambiguous(fields) && FreshFor(fields, unique) {
      forall i, j | 0 <= i < j < |rest| ensures Key(rest[i]) != Key(rest[j]) {
        assert Key(fields[i + 1]) != Key(fields[j + 1]);
      }
    }
  }

  lemma {:induction false} CollectDecides(fields: seq<Bytes>, unique: seq<Bytes>)
    requires Ascending(unique)
    ensures Collect(fields, unique).Ok? <==> Unambiguous(fields) && FreshFor(fields, unique)
  {
    if fields != [] && GoodName(fields[0]) && !Holds(unique, Key(fields[0])) {
      HeadAside(fields, unique);
      RestIsFresh(fields[0], fields[1..], unique);
      InsertOrders(unique, fields[0]);
      hide Key, GoodName, Holds, Insert, Ascending, Unambiguous, FreshFor;
      CollectDecides(fields[1..], Insert(unique, fields[0]));
    }
  }

  lemma {:induction false} CollectArranges(fields: seq<Bytes>, unique: seq<Bytes>)
    requires Ascending(unique) && Collect(fields, unique).Ok?
    ensures Ascending(Collect(fields, unique).value)
    ensures multiset(Collect(fields, unique).value) == multiset(fields) + multiset(unique)
  {
    hide Key, GoodName, Holds, Insert, Ascending;
    if fields != [] {
      assert fields == [fields[0]] + fields[1..];
      InsertOrders(unique, fields[0]);
      CollectArranges(fields[1..], Insert(unique, fields[0]));
    }
  }

  /** The parser accepts exactly the terminated, unambiguous lists, and what it returns is the
      one ascending arrangement of the names Git printed, all free of NUL. */
  lemma NulPathsAreTheNames(bytes: Bytes)
    ensures ReadNulPaths(bytes).Ok?
       <==> (bytes == "" || bytes[|bytes| - 1] == '\0') && Unambiguous(Names(bytes))
    ensures ReadNulPaths(bytes).Ok? ==>
              && Ascending(ReadNulPaths(bytes).value)
              && multiset(ReadNulPaths(bytes).value) == multiset(Names(bytes))
              && forall i | 0 <= i < |ReadNulPaths(bytes).value| :: '\0' !in ReadNulPaths(bytes).value[i]
  {
    var names := Names(bytes);
    CollectDecides(names, []);
    if ReadNulPaths(bytes).Ok? {
      CollectArranges(names, []);
      NamesLackNul(bytes, ReadNulPaths(bytes).value);
    }
  }

  /** Where a name leads, read from the top of the worktree: `None` as soon as it is above it. */
  function Walk(depth: nat, fields: seq<Bytes>): Option<nat>
    decreases fields
  {
    if fields == [] then Some(depth)
    else if fields[0] == ".." then if depth == 0 then None else Walk(depth - 1, fields[1..])
    else Walk(if fields[0] == "" || fields[0] == "." then depth else depth + 1, fields[1..])
  }

  lemma {:induction false} WalksDown(depth: nat, fields: seq<Bytes>, k: nat)
    requires ".." !in fields && k <= |fields|
    ensures Walk(depth, fields[..k]).Some? && Walk(depth, fields[..k]).value >= depth
    decreases k
  {
    if k > 0 {
      assert fields[..k][0] == fields[0] && fields[..k][1..] == fields[1..][..k - 1];
      WalksDown(if fields[0] == "" || fields[0] == "." then depth else depth + 1, fields[1..], k - 1);
    }
  }

  /** No name that is read is absolute, and none climbs: not at its end and not on its way, not
      out of the worktree and not out of any directory it has entered. */
  lemma ListedNamesStayInside(bytes: Bytes, name: Bytes)
    requires ReadNulPaths(bytes).Ok? && name in ReadNulPaths(bytes).value
    ensures name in Names(bytes) && name != "" && name[0] != '/' && '\0' !in name
    ensures ".." !in Split(name, '/')
    ensures forall k | 0 <= k <= |Split(name, '/')| :: Walk(0, Split(name, '/')[..k]).Some?
  {
    NulPathsAreTheNames(bytes);
    var names, paths := Names(bytes), ReadNulPaths(bytes).value;
    assert name in multiset(paths);
    var i := Found(names, name);
    assert GoodName(names[i]);
    assert name[..1] == [name[0]];
    var at :| 0 <= at < |paths| && paths[at] == name;
    forall k | 0 <= k <= |Split(name, '/')| ensures Walk(0, Split(name, '/')[..k]).Some? {
      WalksDown(0, Split(name, '/'), k);
    }
  }

  lemma NamesLackNul(bytes: Bytes, paths: seq<Bytes>)
    requires multiset(paths) == multiset(Names(bytes))
    ensures forall i | 0 <= i < |paths| :: '\0' !in paths[i]
  {
    if bytes != "" {
      JoinSplit(bytes[..|bytes| - 1], '\0');
    }
    hide Names;
    var names := Names(bytes);
    forall i | 0 <= i < |paths| ensures '\0' !in paths[i] {
      assert paths[i] in multiset(paths);
      var k := Found(names, paths[i]);
    }
  }

  /** The order in which Git prints the names does not matter. */
  lemma PrintOrderIrrelevant(a: Bytes, b: Bytes)
    requires ReadNulPaths(a).Ok? && ReadNulPaths(b).Ok?
    ensures ReadNulPaths(a) == ReadNulPaths(b) <==> multiset(Names(a)) == multiset(Names(b))
  {
    NulPathsAreTheNames(a);
    NulPathsAreTheNames(b);
    hide ReadNulPaths, Names;
    if multiset(Names(a)) == multiset(Names(b)) {
      AscendingUnique(ReadNulPaths(a).value, ReadNulPaths(b).value);
    }
  }

  method ParseNulPaths(bytes: Bytes) returns (r: Result<seq<Bytes>, SnapshotError>)
    ensures r == ReadNulPaths(bytes)
  {
    if bytes == "" {
      return Ok([]);
    }
    if bytes[|bytes| - 1] != '\0' {
      return Err(Git);
    }
    var names := Split(bytes[..|bytes| - 1], '\0');
    var unique: seq<Bytes> := [];
    assert names[0..] == names;
    hide Key, GoodName;
    for i := 0 to |names|
      invariant Collect(names, []) == Collect(names[i..], unique)
    {
      assert names[i..][0] == names[i] && names[i..][1..] == names[i + 1..];
      if !GoodName(names[i]) {
        return Err(Git);
      }
      if Holds(unique, Key(names[i])) {
        return Err(Git);
      }
      unique := Insert(unique, names[i]);
    }
    return Ok(unique);
  }
}
