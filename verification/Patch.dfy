/** What a parsed patch guarantees, how patches compose, and the program's nested loops proved
    against the reader's decisions (crates/premonition-core/src/diff.rs). */
module Patches {
  import opened Text
  import opened SafePaths
  import opened DiffGrammar
  import opened DiffReader
  import opened Diff

  // ---- what the parser hands on ----

  function Files(sections: seq<Section>): (files: seq<FileChange>)
    ensures |files| == |sections|
    ensures forall i | 0 <= i < |files| ::
              files[i] == FileChange(sections[i].path, sections[i].Kind(), |sections[i].hunks|)
  {
    if sections == [] then []
    else [FileChange(sections[0].path, sections[0].Kind(), |sections[0].hunks|)] + Files(sections[1..])
  }

  function Summary(raw: string, r: Result<seq<Section>, DiffError>): Result<ParsedPatch, DiffError> {
    if r.Err? then Err(r.error) else Ok(ParsedPatch(raw, Files(r.value), HunkTotal(r.value)))
  }

  function SumHunks(files: seq<FileChange>): nat {
    if files == [] then 0 else files[0].hunks + SumHunks(files[1..])
  }

  lemma {:induction false} SumOfFiles(sections: seq<Section>)
    ensures SumHunks(Files(sections)) == HunkTotal(sections)
  {
    if sections != [] {
      SumOfFiles(sections[1..]);
    }
  }

  /** What every later stage relies on: a bounded list of distinct safe paths, each with a hunk,
      whose counts add up to the patch's own. */
  predicate WellFormed(patch: ParsedPatch) {
    && 1 <= |patch.files| <= MAX_FILES
    && patch.hunks == SumHunks(patch.files) <= MAX_HUNKS
    && (forall i | 0 <= i < |patch.files| :: SafePath(patch.files[i].path) && patch.files[i].hunks >= 1)
    && forall i, j | 0 <= i < j < |patch.files| :: patch.files[i].path != patch.files[j].path
  }

  lemma ParsedPatchesAreWellFormed(raw: string)
    requires Summary(raw, Read(raw)).Ok?
    ensures WellFormed(Summary(raw, Read(raw)).value)
  {
    var sections := Read(raw).value;
    assert IsPatch(raw, sections) by { ParserIsGrammar(raw, sections); }
    hide Read;
    SumOfFiles(sections);
    forall i | 0 <= i < |sections| ensures SafePath(sections[i].path) && |sections[i].hunks| >= 1 {
      assert sections[i].Valid();
    }
  }

  // ---- patches compose ----

  predicate DisjointPaths(a: seq<Section>, b: seq<Section>) {
    forall i, j | 0 <= i < |a| && 0 <= j < |b| :: a[i].path != b[j].path
  }

  lemma WellFormedOutsideGit(patch: ParsedPatch)
    requires WellFormed(patch)
    ensures forall change | change in patch.files :: OutsideGit(change.path)
  {
    forall change | change in patch.files ensures OutsideGit(change.path) {
      var i :| 0 <= i < |patch.files| && patch.files[i] == change;
      SafePathsOutsideGit(change.path);
    }
  }

  lemma DistinctAppend(a: seq<Section>, b: seq<Section>)
    ensures DistinctPaths(a + b) <==> DistinctPaths(a) && DistinctPaths(b) && DisjointPaths(a, b)
  {
    hide Section.Valid;
    var c := a + b;
    if DistinctPaths(c) {
      forall i, j | 0 <= i < j < |a| ensures a[i].path != a[j].path {
        assert c[i].path != c[j].path;
      }
      forall i, j | 0 <= i < j < |b| ensures b[i].path != b[j].path {
        assert c[|a| + i].path != c[|a| + j].path;
      }
      forall i, j | 0 <= i < |a| && 0 <= j < |b| ensures a[i].path != b[j].path {
        assert c[i].path != c[|a| + j].path;
      }
    }
    if DistinctPaths(a) && DistinctPaths(b) && DisjointPaths(a, b) {
      forall i, j | 0 <= i < j < |c| ensures c[i].path != c[j].path {
        if j >= |a| {
          assert c[j] == b[j - |a|];
        }
      }
    }
  }

  lemma ValidAppend(a: seq<Section>, b: seq<Section>)
    ensures ValidSections(a + b)
       <==> && (forall i | 0 <= i < |a| :: a[i].Valid()) && (forall i | 0 <= i < |b| :: b[i].Valid())
            && DistinctPaths(a) && DistinctPaths(b) && DisjointPaths(a, b)
            && |a| + |b| <= MAX_FILES && HunkTotal(a) + HunkTotal(b) <= MAX_HUNKS
  {
    DistinctAppend(a, b);
    RenderSectionsAppend(a, b);
    hide Section.Valid, DistinctPaths, RenderSections, HunkTotal;
    var c := a + b;
    assert forall i | 0 <= i < |a| :: c[i] == a[i];
    assert forall i | 0 <= i < |b| :: c[|a| + i] == b[i];
  }

  lemma TextLines(sections: seq<Section>)
    requires forall i | 0 <= i < |sections| :: sections[i].Valid()
    ensures Lines(TextOf(sections)) == RenderSections(sections)
  {
    SectionsLines(sections);
    LinesConcat(RenderSections(sections));
  }

  lemma TextAppend(a: seq<Section>, b: seq<Section>)
    ensures TextOf(a + b) == TextOf(a) + TextOf(b)
  {
    RenderSectionsAppend(a, b);
    ConcatAppend(RenderSections(a), RenderSections(b));
  }

  lemma CleanAppend(a: seq<Section>, b: seq<Section>)
    requires forall i | 0 <= i < |a| :: a[i].Valid()
    requires forall i | 0 <= i < |b| :: b[i].Valid()
    ensures CleanText(TextOf(a + b)) <==> CleanText(TextOf(a)) && CleanText(TextOf(b))
  {
    TextAppend(a, b);
    RenderSectionsAppend(a, b);
    TextLines(a);
    TextLines(b);
    assert forall i | 0 <= i < |a + b| :: (a + b)[i].Valid();
    TextLines(a + b);
    hide *;
    CleanBoth(TextOf(a), TextOf(b));
  }

  /** What is clean of two texts is clean of them together, if their lines are their lines. */
  lemma CleanBoth(t: string, u: string)
    requires Lines(t + u) == Lines(t) + Lines(u)
    ensures CleanText(t + u) <==> CleanText(t) && CleanText(u)
  {
    hide Lines;
    var x, y := Lines(t), Lines(u);
    assert forall i | 0 <= i < |x| :: (x + y)[i] == x[i];
    assert forall i | 0 <= i < |y| :: (x + y)[|x| + i] == y[i];
  }

  /** What both texts leave to check about their concatenation. */
  predicate Composable(t: string, a: seq<Section>, u: string, b: seq<Section>) {
    && DisjointPaths(a, b) && |t| + |u| <= MAX_PATCH_BYTES
    && |a| + |b| <= MAX_FILES && HunkTotal(a) + HunkTotal(b) <= MAX_HUNKS
  }

  lemma IsPatchAppend(t: string, a: seq<Section>, u: string, b: seq<Section>)
    requires IsPatch(t, a) && IsPatch(u, b)
    ensures IsPatch(t + u, a + b) <==> Composable(t, a, u, b)
  {
    ValidAppend(a, b);
    TextAppend(a, b);
    CleanAppend(a, b);
    hide Section.Valid, TextOf, CleanText, DistinctPaths, DisjointPaths, HunkTotal;
    assert forall i | 0 <= i < |a| :: a[i].Valid();
    assert forall i | 0 <= i < |b| :: b[i].Valid();
    hide ValidSections;
  }

  /** Two accepted patches put one after the other are the patch of both section lists exactly
      when their paths are disjoint and the sums stay inside the byte, file and hunk ceilings. */
  lemma PatchesConcatenate(t: string, a: seq<Section>, u: string, b: seq<Section>)
    requires Read(t) == Ok(a) && Read(u) == Ok(b)
    ensures Read(t + u) == Ok(a + b) <==> Composable(t, a, u, b)
    ensures Files(a + b) == Files(a) + Files(b) && HunkTotal(a + b) == HunkTotal(a) + HunkTotal(b)
  {
    hide *;
    ParserIsGrammar(t, a);
    ParserIsGrammar(u, b);
    ParserIsGrammar(t + u, a + b);
    IsPatchAppend(t, a, u, b);
    RenderSectionsAppend(a, b);
    FilesOfBoth(a, b);
  }

  lemma FilesOfBoth(a: seq<Section>, b: seq<Section>)
    ensures Files(a + b) == Files(a) + Files(b)
  {
    hide Section.Kind;
  }

  /** The text that is the concatenation of the sections' own texts. */
  function Parts(sections: seq<Section>): string {
    if sections == [] then "" else TextOf([sections[0]]) + Parts(sections[1..])
  }

  lemma {:induction false} TextIsParts(sections: seq<Section>)
    ensures TextOf(sections) == Parts(sections)
  {
    if sections != [] {
      TextIsParts(sections[1..]);
      TextAppend([sections[0]], sections[1..]);
      ConsAppend(sections, []);
    }
  }

  lemma {:induction false} HunkShare(sections: seq<Section>, i: nat)
    requires i < |sections|
    ensures |sections[i].hunks| <= HunkTotal(sections)
  {
    if i > 0 {
      HunkShare(sections[1..], i - 1);
    }
  }

  /** An accepted patch is the concatenation of its sections, each accepted by itself. */
  lemma PatchesSplit(t: string, sections: seq<Section>)
    requires Read(t) == Ok(sections)
    ensures t == Parts(sections)
    ensures forall i | 0 <= i < |sections| :: Read(TextOf([sections[i]])) == Ok([sections[i]])
  {
    ParserIsGrammar(t, sections);
    TextIsParts(sections);
    forall i | 0 <= i < |sections| ensures Read(TextOf([sections[i]])) == Ok([sections[i]]) {
      PartIsPatch(t, sections, i);
      ParserIsGrammar(TextOf([sections[i]]), [sections[i]]);
    }
  }

  lemma PartIsValid(sections: seq<Section>, i: nat)
    requires ValidSections(sections) && i < |sections|
    ensures ValidSections([sections[i]])
  {
    HunkShare(sections, i);
    assert [sections[i]][1..] == [];
    assert HunkTotal([sections[i]]) == |sections[i].hunks|;
  }

  lemma Middle(before: seq<Section>, s: seq<Section>, after: seq<Section>)
    requires forall k | 0 <= k < |before| :: before[k].Valid()
    requires forall k | 0 <= k < |s| :: s[k].Valid()
    requires forall k | 0 <= k < |after| :: after[k].Valid()
    ensures |TextOf(s)| <= |TextOf((before + s) + after)|
    ensures CleanText(TextOf((before + s) + after)) ==> CleanText(TextOf(s))
  {
    hide Section.Valid, RenderSections, TextOf, CleanText;
    TextAppend(before + s, after);
    TextAppend(before, s);
    CleanAppend(before + s, after);
    CleanAppend(before, s);
  }

  lemma PartIsPatch(t: string, sections: seq<Section>, i: nat)
    requires IsPatch(t, sections) && i < |sections|
    ensures IsPatch(TextOf([sections[i]]), [sections[i]])
  {
    PartIsValid(sections, i);
    hide Section.Valid, RenderSections, TextOf, CleanText, HunkTotal, DistinctPaths;
    Middle(sections[..i], [sections[i]], sections[i + 1..]);
    ThreeWay(sections, i);
  }

  lemma ThreeWay<T>(s: seq<T>, i: nat)
    requires i < |s|
    ensures (s[..i] + [s[i]]) + s[i + 1..] == s
  {
  }

  lemma {:induction false} HunksHoldNoHeading(hunks: seq<Hunk>, i: nat)
    requires i < |RenderHunks(hunks)|
    requires forall k | 0 <= k < |hunks| :: hunks[k].Valid()
    ensures !StartsWith(RenderHunks(hunks)[i], DIFF_GIT)
  {
    var h := hunks[0];
    HeaderStarts(h);
    if 0 < i < |h.Render()| {
      assert IsBodyLine(h.body[i - 1]);
      assert DIFF_GIT[0] == 'd' && NO_NEWLINE[0] == '\\';
    } else if i >= |h.Render()| {
      HunksHoldNoHeading(hunks[1..], i - |h.Render()|);
    }
  }

  lemma MetaStart(m: Meta)
    ensures !StartsWith(m.Text() + "\n", DIFF_GIT)
  {
    assert DIFF_GIT[0] == 'd' && DIFF_GIT[1] == 'i';
    assert m.DeletedFile? ==> m.Text()[1] == 'e';
    assert !m.DeletedFile? ==> m.Text()[0] in "ni";
  }

  lemma {:induction false} MetaHoldsNoHeading(meta: seq<Meta>, i: nat)
    requires i < |RenderMeta(meta)|
    ensures !StartsWith(RenderMeta(meta)[i], DIFF_GIT)
  {
    if i == 0 {
      MetaStart(meta[0]);
    } else {
      MetaHoldsNoHeading(meta[1..], i - 1);
    }
  }

  /** Sections begin at the `diff --git ` lines and nowhere else, so the cut is visible in the text. */
  lemma OnlyHeadingsStartSections(s: Section, i: nat)
    requires s.Valid() && i < |s.Render()|
    ensures StartsWith(s.Render()[i], DIFF_GIT) <==> i == 0
  {
    hide *;
    HeadingStarts(s);
    RenderIs(s);
    assert s.Render()[0] == s.Heading();
    if i > 0 {
      assert s.Render()[i] == Rest(s)[i - 1];
      RestHoldsNoHeading(s, i - 1);
    }
  }

  lemma RestHoldsNoHeading(s: Section, k: nat)
    requires s.Valid() && k < |Rest(s)|
    ensures !StartsWith(Rest(s)[k], DIFF_GIT)
  {
    var hunks := s.hunks;
    assert forall i | 0 <= i < |hunks| :: hunks[i].Valid();
    hide Section.Valid, RenderMeta, RenderHunks, Hunk.Valid;
    var m := |RenderMeta(s.meta)|;
    if k < m {
      MetaHoldsNoHeading(s.meta, k);
    } else if k < m + 2 {
      assert Rest(s)[k] == s.Names()[k - m];
      assert s.Names()[0][0] == '-' && s.Names()[1][0] == '+' && DIFF_GIT[0] == 'd';
    } else {
      assert Rest(s)[k] == RenderHunks(s.hunks)[k - m - 2];
      HunksHoldNoHeading(s.hunks, k - m - 2);
    }
  }
}
