/** Repository-relative paths (crates/premonition-core/src/diff.rs, `SafePath`). */
module SafePaths {
  import opened Text

  const MAX_PATH_BYTES: nat := 240
  const MAX_COMPONENT_BYTES: nat := 120

  predicate IsNameByte(c: char) {
    IsAlphanumeric(c) || c == '.' || c == '_' || c == '-'
  }

  predicate IsDotGit(name: string) {
    |name| == 4 && name[0] == '.' && name[1] in "gG" && name[2] in "iI" && name[3] in "tT"
  }

  predicate GoodComponent(name: string) {
    && 0 < |name| <= MAX_COMPONENT_BYTES
    && name != "." && name != ".."
    && !IsDotGit(name)
    && forall c | c in name :: IsNameByte(c)
  }

  /** The grammar of safe paths: a bounded '/'-separated list of good components. */
  predicate SafePath(path: string) {
    |path| <= MAX_PATH_BYTES && forall i | 0 <= i < |Split(path, '/')| :: GoodComponent(Split(path, '/')[i])
  }

  function Components(path: string): (names: seq<string>)
    ensures |names| >= 1
  {
    Split(path, '/')
  }

  predicate HasDoubleSlash(s: string) {
    exists i | 0 <= i < |s| - 1 :: s[i] == '/' && s[i + 1] == '/'
  }

  lemma {:induction false} DoubleSlashField(s: string, i: nat) returns (k: nat)
    requires i + 1 < |s| && s[i] == '/' && s[i + 1] == '/'
    ensures 1 <= k < |Split(s, '/')| && Split(s, '/')[k] == ""
  {
    if i == 0 {
      k := 1;
    } else {
      k := DoubleSlashField(s[1..], i - 1);
      k := if s[0] == '/' then k + 1 else k;
    }
  }

  lemma {:induction false} TrailingSlashField(s: string)
    requires s != "" && s[|s| - 1] == '/'
    ensures |Split(s, '/')| >= 2 && Split(s, '/')[|Split(s, '/')| - 1] == ""
  {
    if |s| == 1 {
      assert s[1..] == "";
    } else {
      var all, rest := Split(s, '/'), Split(s[1..], '/');
      assert all == if s[0] == '/' then [""] + rest else [[s[0]] + rest[0]] + rest[1..];
      hide Split;
      TrailingSlashField(s[1..]);
      assert all[|all| - 1] == rest[|rest| - 1];
    }
  }

  lemma {:induction false} ByteInField(s: string, c: char) returns (k: nat)
    requires c in s && c != '/'
    ensures k < |Split(s, '/')| && c in Split(s, '/')[k]
  {
    if s[0] == c {
      k := 0;
    } else {
      k := ByteInField(s[1..], c);
      k := if s[0] == '/' then k + 1 else k;
    }
  }

  /** What the component grammar already excludes: each early test of the parser is implied. */
  lemma SafePathShape(path: string)
    requires SafePath(path)
    ensures path != "" && path[0] != '/' && path[|path| - 1] != '/'
    ensures !HasDoubleSlash(path)
    ensures forall c | c in path :: c == '/' || IsNameByte(c)
  {
    assert forall i | 0 <= i < |Split(path, '/')| :: Split(path, '/')[i] != "" by {
      assert forall i | 0 <= i < |Split(path, '/')| :: GoodComponent(Split(path, '/')[i]);
    }
    assert path != "" && path[0] != '/' by {
      assert Split(path, '/')[0] != "";
    }
    if path[|path| - 1] == '/' {
      TrailingSlashField(path);
      assert false;
    }
    if i: nat :| i + 1 < |path| && path[i] == '/' && path[i + 1] == '/' {
      var k := DoubleSlashField(path, i);
      assert false;
    }
    forall c | c in path && c != '/' ensures IsNameByte(c) {
      var k := ByteInField(path, c);
      assert GoodComponent(Split(path, '/')[k]);
    }
  }

  // ---- the grammar in plain terms ----

  function Lowered(c: char): char {
    if 'A' <= c <= 'Z' then (c as int - 'A' as int + 'a' as int) as char else c
  }

  /** A text in lower case. */
  function LowerCase(s: string): (t: string)
    ensures |t| == |s| && forall i | 0 <= i < |s| :: t[i] == Lowered(s[i])
  {
    seq(|s|, i requires 0 <= i < |s| => Lowered(s[i]))
  }

  /** ASCII letters, digits, dot, underscore and hyphen. */
  predicate Portable(name: string) {
    forall c | c in name ::
      'a' <= c <= 'z' || 'A' <= c <= 'Z' || '0' <= c <= '9' || c == '.' || c == '_' || c == '-'
  }

  /** One step down: bounded, portable, going neither nowhere nor up, nor into Git's own files
      however they are spelled. */
  predicate StepsDown(name: string) {
    && 1 <= |name| <= 120 && Portable(name)
    && name != "." && name != ".."
    && LowerCase(name) != ".git"
  }

  lemma StepsDownIs(name: string)
    ensures GoodComponent(name) <==> StepsDown(name)
  {
    var low := LowerCase(name);
    if low == ".git" {
      assert low[0] == '.' && low[1] == 'g' && low[2] == 'i' && low[3] == 't';
    }
    if IsDotGit(name) {
      assert low == ".git";
    }
  }

  /** The safe paths are exactly those of at most 240 bytes that only step down. */
  lemma SafePathsStepDown(path: string)
    ensures SafePath(path) <==> |path| <= 240 && forall name | name in Components(path) :: StepsDown(name)
  {
    var names := Split(path, '/');
    forall i | 0 <= i < |names| ensures GoodComponent(names[i]) <==> StepsDown(names[i]) {
      StepsDownIs(names[i]);
    }
    hide GoodComponent, StepsDown, Split;
    if SafePath(path) {
      forall name | name in names ensures StepsDown(name) {
        var i :| 0 <= i < |names| && names[i] == name;
      }
    }
    assert forall i | 0 <= i < |names| :: names[i] in names;
  }

  /** No component is ".git", in any case. */
  predicate OutsideGit(path: string) {
    forall name | name in Components(path) :: LowerCase(name) != ".git"
  }

  lemma SafePathsOutsideGit(path: string)
    requires SafePath(path)
    ensures OutsideGit(path)
  {
    SafePathsStepDown(path);
  }

  /** The tests `SafePath::parse` makes before it looks at the components. */
  predicate RejectedEarly(value: string) {
    || value == "" || |value| > MAX_PATH_BYTES
    || StartsWith(value, "/") || EndsWith(value, "/")
    || '\0' in value || '\\' in value || HasDoubleSlash(value) || StartsWith(value, "\"")
  }

  lemma EarlyTestsRedundant(value: string)
    requires SafePath(value)
    ensures !RejectedEarly(value)
  {
    SafePathShape(value);
    assert value[|value| - 1..] == [value[|value| - 1]];
    assert value[0] in value && "\""[0] == '"' && "/"[0] == '/';
    assert !StartsWith(value, "\"");
    assert !StartsWith(value, "/");
    assert !EndsWith(value, "/");
    assert '\0' !in value && '\\' !in value;
  }

  /** `SafePath::parse`: the early tests, then a loop over the components.  It accepts exactly
      the grammar above. */
  method ParseSafePath(value: string) returns (ok: bool)
    ensures ok <==> SafePath(value)
    ensures ok <==> |value| <= 240 && forall name | name in Components(value) :: StepsDown(name)
  {
    SafePathsStepDown(value);
    hide StepsDown;
    if RejectedEarly(value) {
      assert !SafePath(value) by {
        if SafePath(value) { EarlyTestsRedundant(value); }
      }
      return false;
    }
    var names := Components(value);
    for i := 0 to |names|
      invariant forall j | 0 <= j < i :: GoodComponent(names[j])
    {
      if !GoodComponent(names[i]) {
        return false;
      }
    }
    return true;
  }
}
