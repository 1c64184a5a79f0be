/** The Apply journal and the names it uses (crates/premonition-core/src/apply.rs). */
module Journals {
  import opened Text
  import opened SafePaths
  import opened DiffGrammar
  import opened Diff
  import opened Patches

  const JOURNAL_VERSION: nat := 1
  const MAX_JOURNAL_BYTES: nat := 64 * 1024

  datatype Phase = Prepared | Publishing | Committed

  datatype JournalEntry = JournalEntry(
    relative: string, kind: ChangeKind, temporary: string, backup: string,
    preHash: Option<string>, postHash: Option<string>, published: bool)

  datatype Journal = Journal(version: nat, root: string, phase: Phase, entries: seq<JournalEntry>)

  // ---- names ----

  predicate IsIdByte(c: char) {
    IsAlphanumeric(c) || c == '_' || c == '-'
  }

  /** `validate_transaction_id`. */
  predicate ValidTransactionId(id: string) {
    0 < |id| <= 64 && forall c | c in id :: IsIdByte(c)
  }

  const PREFIX: string := ".premonition-"

  function Stem(id: string, index: nat): string {
    PREFIX + id + "-" + Decimal(index)
  }

  function Temporary(id: string, index: nat): string {
    Stem(id, index) + ".new"
  }

  function Backup(id: string, index: nat): string {
    Stem(id, index) + ".bak"
  }

  /** `is_transaction_filename`. */
  predicate IsTransactionFilename(value: string, suffix: string) {
    && StartsWith(value, PREFIX)
    && EndsWith(value, suffix)
    && '/' !in value
    && forall c | c in value :: IsNameByte(c)
  }

  lemma StemBytes(id: string, index: nat)
    requires ValidTransactionId(id)
    ensures forall c | c in Stem(id, index) :: IsNameByte(c)
  {
    var digits := Decimal(index);
    assert forall c | c in digits :: IsDigit(c);
    hide Decimal, ValidTransactionId;
    assert forall c | c in id :: IsNameByte(c) by { IdBytes(id); }
    assert forall c | c in PREFIX :: IsNameByte(c);
    assert forall c | c in "-" :: IsNameByte(c);
  }

  lemma IdBytes(id: string)
    requires ValidTransactionId(id)
    ensures forall c | c in id :: IsNameByte(c)
  {
    assert forall c | c in id :: IsIdByte(c);
  }

  lemma OwnNamesAreRecognised(id: string, index: nat)
    requires ValidTransactionId(id)
    ensures IsTransactionFilename(Temporary(id, index), ".new")
    ensures IsTransactionFilename(Backup(id, index), ".bak")
  {
    StemBytes(id, index);
    var stem := Stem(id, index);
    assert StartsWith(stem, PREFIX) by { assert stem[..|PREFIX|] == PREFIX; }
    hide Stem;
    assert (stem + ".new")[..|PREFIX|] == PREFIX && (stem + ".bak")[..|PREFIX|] == PREFIX;
    assert (stem + ".new")[|stem|..] == ".new" && (stem + ".bak")[|stem|..] == ".bak";
    assert forall c | c in ".new" || c in ".bak" :: IsNameByte(c);
    assert !IsNameByte('/');
  }

  lemma DecimalLacksDash(n: nat)
    ensures '-' !in Decimal(n)
  {
    assert AllDigits(Decimal(n)) && !IsDigit('-');
  }

  /** A name tells its transaction and its index: the index is the last all-digit field. */
  lemma StemInjective(id: string, index: nat, id': string, index': nat)
    requires Stem(id, index) == Stem(id', index')
    ensures id == id' && index == index'
  {
    DecimalLacksDash(index);
    DecimalLacksDash(index');
    assert Stem(id, index) == (PREFIX + id) + ['-'] + Decimal(index);
    assert Stem(id', index') == (PREFIX + id') + ['-'] + Decimal(index');
    LastCutUnique(PREFIX + id, PREFIX + id', '-', Decimal(index), Decimal(index'));
    DecimalInjective(index, index');
    assert (PREFIX + id)[|PREFIX|..] == id && (PREFIX + id')[|PREFIX|..] == id';
  }

  lemma SuffixCut(a: string, b: string, s: string, t: string)
    requires |s| == |t| && a + s == b + t
    ensures a == b && s == t
  {
    assert |a| == |b|;
    assert (a + s)[..|a|] == a && (b + t)[..|b|] == b;
    assert (a + s)[|a|..] == s && (b + t)[|b|..] == t;
  }

  // ---- a name beside a path ----

  /** Where the last component starts. */
  function BaseStart(path: string): (k: nat)
    ensures k <= |path|
    ensures k > 0 ==> path[k - 1] == '/'
    ensures '/' !in path[k..]
  {
    if path == "" then 0
    else if path[|path| - 1] == '/' then |path|
    else
      var k := BaseStart(path[..|path| - 1]);
      assert path[k..] == path[..|path| - 1][k..] + [path[|path| - 1]];
      k
  }

  /** `parent.join(name)` for the parent directory of `path`. */
  function Beside(path: string, name: string): string {
    path[..BaseStart(path)] + name
  }

  function BaseName(path: string): string {
    path[BaseStart(path)..]
  }

  lemma BaseStartIs(directory: string, name: string)
    requires '/' !in name && (directory == "" || directory[|directory| - 1] == '/')
    ensures BaseStart(directory + name) == |directory|
  {
    var path := directory + name;
    var k := BaseStart(path);
    forall i | |directory| <= i < |path| ensures path[i] != '/' {
      assert path[i] == name[i - |directory|] && name[i - |directory|] in name;
    }
    forall i | k <= i < |path| ensures path[i] != '/' {
      assert path[i] == path[k..][i - k];
    }
    assert directory != "" ==> path[|directory| - 1] == directory[|directory| - 1];
  }

  lemma BesideIs(path: string, name: string)
    requires '/' !in name
    ensures BaseName(Beside(path, name)) == name
  {
    BaseStartIs(path[..BaseStart(path)], name);
  }

  // ---- validation ----

  predicate ValidEntry(e: JournalEntry) {
    && SafePath(e.relative)
    && IsTransactionFilename(e.temporary, ".new")
    && IsTransactionFilename(e.backup, ".bak")
  }

  /** What `validate_journal` accepts. */
  predicate ValidJournal(j: Journal) {
    && j.version == JOURNAL_VERSION
    && StartsWith(j.root, "/")
    && 1 <= |j.entries| <= MAX_FILES
    && (forall i | 0 <= i < |j.entries| :: ValidEntry(j.entries[i]))
    && forall i, k | 0 <= i < k < |j.entries| :: j.entries[i].relative != j.entries[k].relative
  }

  /** An identifier of 1 to 64 letters, digits, underscores and hyphens. */
  lemma TransactionIdsArePlain(id: string)
    ensures ValidTransactionId(id) <==>
              1 <= |id| <= 64 && forall c | c in id ::
                'a' <= c <= 'z' || 'A' <= c <= 'Z' || '0' <= c <= '9' || c == '_' || c == '-'
  {
  }

  lemma TransactionNamesArePlain(name: string, suffix: string)
    ensures IsTransactionFilename(name, suffix) <==>
              Portable(name) && StartsWith(name, ".premonition-") && EndsWith(name, suffix)
  {
    if Portable(name) {
      forall c | c in name ensures IsNameByte(c) && c != '/' {
      }
    }
  }

  /** What a journal must be to be followed: version 1, an absolute root, one to eight entries for
      different paths that only step down, and no other names than a transaction's own. */
  lemma ValidJournalsArePlain(j: Journal)
    ensures ValidJournal(j) <==>
              && j.version == 1 && StartsWith(j.root, "/") && 1 <= |j.entries| <= 8
              && (forall i, k | 0 <= i < k < |j.entries| :: j.entries[i].relative != j.entries[k].relative)
              && forall e | e in j.entries ::
                   && |e.relative| <= 240 && (forall name | name in Components(e.relative) :: StepsDown(name))
                   && Portable(e.temporary) && StartsWith(e.temporary, ".premonition-") && EndsWith(e.temporary, ".new")
                   && Portable(e.backup) && StartsWith(e.backup, ".premonition-") && EndsWith(e.backup, ".bak")
  {
    forall i | 0 <= i < |j.entries| ensures ValidEntry(j.entries[i]) <==> PlainEntry(j.entries[i]) {
      SafePathsStepDown(j.entries[i].relative);
      TransactionNamesArePlain(j.entries[i].temporary, ".new");
      TransactionNamesArePlain(j.entries[i].backup, ".bak");
    }
    hide ValidEntry, StepsDown, Portable, StartsWith, EndsWith, Components;
    assert forall i | 0 <= i < |j.entries| :: j.entries[i] in j.entries;
    assert (forall i | 0 <= i < |j.entries| :: ValidEntry(j.entries[i])) <==> forall e | e in j.entries :: PlainEntry(e);
  }

  predicate PlainEntry(e: JournalEntry) {
    && |e.relative| <= 240 && (forall name | name in Components(e.relative) :: StepsDown(name))
    && Portable(e.temporary) && StartsWith(e.temporary, ".premonition-") && EndsWith(e.temporary, ".new")
    && Portable(e.backup) && StartsWith(e.backup, ".premonition-") && EndsWith(e.backup, ".bak")
  }

  lemma ValidOutsideGit(j: Journal)
    requires ValidJournal(j)
    ensures forall e | e in j.entries :: OutsideGit(e.relative)
  {
    forall e | e in j.entries ensures OutsideGit(e.relative) {
      var i :| 0 <= i < |j.entries| && j.entries[i] == e;
      assert ValidEntry(j.entries[i]);
      SafePathsOutsideGit(e.relative);
    }
  }

  method ValidateJournal(j: Journal) returns (ok: bool)
    ensures ok <==> ValidJournal(j)
    ensures ok ==> forall e | e in j.entries :: OutsideGit(e.relative)
  {
    if ValidJournal(j) {
      ValidOutsideGit(j);
    }
    if j.version != JOURNAL_VERSION || !StartsWith(j.root, "/") || |j.entries| == 0 || |j.entries| > MAX_FILES {
      return false;
    }
    hide IsTransactionFilename, OutsideGit;
    var unique: set<string> := {};
    for i := 0 to |j.entries|
      invariant unique == set k | 0 <= k < i :: j.entries[k].relative
      invariant forall k | 0 <= k < i :: ValidEntry(j.entries[k])
      invariant forall k, l | 0 <= k < l < i :: j.entries[k].relative != j.entries[l].relative
    {
      var e := j.entries[i];
      var safe := ParseSafePath(e.relative);
      if !safe {
        assert !ValidEntry(j.entries[i]);
        return false;
      }
      if e.relative in unique {
        ghost var k :| 0 <= k < i && j.entries[k].relative == e.relative;
        return false;
      }
      if !IsTransactionFilename(e.temporary, ".new") || !IsTransactionFilename(e.backup, ".bak") {
        assert !ValidEntry(j.entries[i]);
        return false;
      }
      unique := unique + {e.relative};
    }
    return true;
  }

  // ---- the journals Apply writes ----

  /** Entry `index` of the journal of transaction `id` for the change `change`. */
  predicate EntryFor(e: JournalEntry, id: string, index: nat, change: FileChange) {
    && e.relative == change.path && e.kind == change.kind
    && e.temporary == Temporary(id, index) && e.backup == Backup(id, index)
  }

  predicate JournalFor(j: Journal, id: string, root: string, files: seq<FileChange>) {
    && j.version == JOURNAL_VERSION && j.root == root
    && |j.entries| == |files|
    && forall i | 0 <= i < |files| :: EntryFor(j.entries[i], id, i, files[i])
  }

  /** Recovery never rejects Apply's own work: every journal written for a parsed patch under an
      accepted identifier passes validation, whatever its phase, hashes and flags. */
  lemma WrittenJournalsAreValid(j: Journal, id: string, root: string, patch: ParsedPatch)
    requires WellFormed(patch) && ValidTransactionId(id) && StartsWith(root, "/")
    requires JournalFor(j, id, root, patch.files)
    ensures ValidJournal(j)
  {
    hide IsTransactionFilename, SafePath;
    forall i | 0 <= i < |j.entries| ensures ValidEntry(j.entries[i]) {
      assert EntryFor(j.entries[i], id, i, patch.files[i]);
      OwnNamesAreRecognised(id, i);
    }
    forall i, k | 0 <= i < k < |j.entries| ensures j.entries[i].relative != j.entries[k].relative {
      assert EntryFor(j.entries[i], id, i, patch.files[i]);
      assert EntryFor(j.entries[k], id, k, patch.files[k]);
    }
  }
}
