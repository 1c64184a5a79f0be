/** `ParsedPatch::parse` (crates/premonition-core/src/diff.rs): the reader of a whole patch,
    its equivalence with the grammar, and the program's nested loops proved against it. */
module Diff {
  import opened Text
  import opened SafePaths
  import opened DiffGrammar
  import opened DiffReader

  datatype FileChange = FileChange(path: string, kind: ChangeKind, hunks: nat)

  datatype ParsedPatch = ParsedPatch(raw: string, files: seq<FileChange>, hunks: nat)

  // ---- one section ----

  function KindOf(before: string, after: string, path: string, add: bool, delete: bool)
    : Result<ChangeKind, DiffError>
  {
    if before == "/dev/null" && after == "b/" + path && add then Ok(Add)
    else if before == "a/" + path && after == "/dev/null" && delete then Ok(Delete)
    else if before == "a/" + path && after == "b/" + path && !add && !delete then Ok(Modify)
    else Err(HeaderMismatch)
  }

  function ReadNames(lines: seq<string>, path: string, add: bool, delete: bool): (r: Result<ChangeKind, DiffError>)
    ensures r.Ok? ==> |lines| >= 2
  {
    if |lines| <= 1 then Err(Malformed) else
    var before := StripPrefix(lines[0], OLD);
    if before.None? then Err(Malformed) else
    var before' := StripSuffix(before.value, "\n");
    if before'.None? then Err(Malformed) else
    var after := StripPrefix(lines[1], NEW);
    if after.None? then Err(Malformed) else
    var after' := StripSuffix(after.value, "\n");
    if after'.None? then Err(Malformed) else
    KindOf(before'.value, after'.value, path, add, delete)
  }

  lemma NameLine(line: string, prefix: string, name: string)
    requires '\n' !in prefix
    ensures line == prefix + name + "\n"
       <==> && StripPrefix(line, prefix).Some?
            && StripSuffix(StripPrefix(line, prefix).value, "\n") == Some(name)
  {
    if line == prefix + name + "\n" {
      assert line[|prefix|..] == name + "\n";
      LineText(name);
    }
    if StripPrefix(line, prefix).Some? && StripSuffix(line[|prefix|..], "\n") == Some(name) {
      var tail := line[|prefix|..];
      assert tail == name + tail[|name|..];
      assert line == prefix + tail;
    }
  }

  lemma KindRead(before: string, after: string, s: Section, kind: ChangeKind)
    requires OneOfEach(s.meta)
    ensures KindOf(before, after, s.path, NewFile in s.meta, DeletedFile in s.meta) == Ok(kind)
       <==> before == s.OldName() && after == s.NewName() && kind == s.Kind()
  {
    var a, b := "a/" + s.path, "b/" + s.path;
    assert a[0] == 'a' && b[0] == 'b' && "/dev/null"[0] == '/';
    assert !(NewFile in s.meta && DeletedFile in s.meta);
  }

  lemma NamesRead(lines: seq<string>, s: Section, kind: ChangeKind)
    requires OneOfEach(s.meta)
    ensures ReadNames(lines, s.path, NewFile in s.meta, DeletedFile in s.meta) == Ok(kind)
       <==> |lines| >= 2 && lines[..2] == s.Names() && kind == s.Kind()
  {
    var before, after := s.OldName(), s.NewName();
    assert s.Names() == [OLD + before + "\n", NEW + after + "\n"];
    if |lines| >= 2 {
      assert lines[..2] == [lines[0], lines[1]];
      NameLine(lines[0], OLD, before);
      NameLine(lines[1], NEW, after);
      KindRead(before, after, s, kind);
      if ReadNames(lines, s.path, NewFile in s.meta, DeletedFile in s.meta) == Ok(kind) {
        var x := StripSuffix(StripPrefix(lines[0], OLD).value, "\n").value;
        var y := StripSuffix(StripPrefix(lines[1], NEW).value, "\n").value;
        KindRead(x, y, s, kind);
      }
    }
  }

  function ReadSection(path: string, lines: seq<string>, total: nat)
    : (r: Result<Pair<Section, seq<string>>, DiffError>)
    ensures r.Ok? ==> |r.value.second| <= |lines| && r.value.first.path == path
  {
    var meta :- ReadMeta(lines, false, false, false);
    var kind :- ReadNames(meta.second, path, NewFile in meta.first, DeletedFile in meta.first);
    var hunks :- ReadHunks(meta.second[2..], total);
    if hunks.first == [] then Err(NoHunks)
    else Ok(Pair(Section(path, meta.first, hunks.first), hunks.second))
  }

  /** A section after its heading line. */
  function Rest(s: Section): seq<string> {
    RenderMeta(s.meta) + (s.Names() + RenderHunks(s.hunks))
  }

  lemma RenderIs(s: Section)
    ensures s.Render() == [s.Heading()] + Rest(s)
  {
    Associative([s.Heading()] + RenderMeta(s.meta), s.Names(), RenderHunks(s.hunks));
    Associative([s.Heading()], RenderMeta(s.meta), s.Names() + RenderHunks(s.hunks));
  }

  lemma ReadSectionSound(path: string, lines: seq<string>, total: nat) returns (s: Section, rest: seq<string>)
    requires SafePath(path) && AllLines(lines) && ReadSection(path, lines, total).Ok?
    ensures ReadSection(path, lines, total) == Ok(Pair(s, rest))
    ensures s.path == path && s.Valid() && total + |s.hunks| <= MAX_HUNKS
    ensures lines == Rest(s) + rest && EndsHunks(rest)
  {
    hide SafePath, StartsWith, ReadMeta, ReadHunks, RenderHunks, RenderMeta, ReadNames;
    var meta, after := ReadMetaSound(lines, false, false, false);
    AllLinesRest(lines, RenderMeta(meta), after);
    AllLinesRest(after, after[..2], after[2..]);
    var hunks;
    hunks, rest := ReadHunksSound(after[2..], total);
    s := Section(path, meta, hunks);
    NamesRead(after, s, s.Kind());
    NamesRead(after, s, ReadNames(after, path, NewFile in meta, DeletedFile in meta).value);
    ThreeParts(RenderMeta(meta), after[..2], RenderHunks(hunks), rest);
    assert after == after[..2] + after[2..];
    assert forall i | 0 <= i < |meta| :: Allowed(meta[i], false, false, false);
  }

  lemma ThreeParts<T>(a: seq<T>, b: seq<T>, c: seq<T>, d: seq<T>)
    ensures a + (b + (c + d)) == (a + (b + c)) + d
  {
  }

  lemma ReadSectionComplete(s: Section, rest: seq<string>, total: nat)
    requires s.Valid() && total + |s.hunks| <= MAX_HUNKS && EndsHunks(rest)
    ensures ReadSection(s.path, Rest(s) + rest, total) == Ok(Pair(s, rest))
  {
    var body := RenderHunks(s.hunks) + rest;
    var after := s.Names() + body;
    ThreeParts(RenderMeta(s.meta), s.Names(), RenderHunks(s.hunks), rest);
    assert StartsWith(s.Names()[0], OLD) by { assert s.Names()[0][..4] == OLD; }
    forall i | 0 <= i < |s.meta| ensures Allowed(s.meta[i], false, false, false) {
      assert s.meta[i].Valid();
    }
    ReadMetaComplete(s.meta, after, false, false, false);
    assert after[..2] == s.Names() && after[2..] == body;
    NamesRead(after, s, s.Kind());
    ReadHunksComplete(s.hunks, rest, total);
  }

  // ---- the whole patch ----

  function ReadSections(lines: seq<string>, seen: set<string>, files: nat, total: nat)
    : Result<seq<Section>, DiffError>
    decreases |lines|
  {
    if lines == [] then Ok([]) else
    var path :- ParseDiffHeader(lines[0]);
    if path in seen then Err(DuplicatePath) else
    var got :- ReadSection(path, lines[1..], total);
    if files + 1 > MAX_FILES then Err(TooManyFiles) else
    var more :- ReadSections(got.second, seen + {path}, files + 1, total + |got.first.hunks|);
    Ok([got.first] + more)
  }

  lemma ReadOne(lines: seq<string>, seen: set<string>, files: nat, total: nat, s: Section, rest: seq<string>)
    requires lines != [] && ParseDiffHeader(lines[0]) == Ok(s.path) && s.path !in seen
    requires ReadSection(s.path, lines[1..], total) == Ok(Pair(s, rest))
    requires files + 1 <= MAX_FILES
    ensures var tail := ReadSections(rest, seen + {s.path}, files + 1, total + |s.hunks|);
            && (ReadSections(lines, seen, files, total).Ok? <==> tail.Ok?)
            && (tail.Ok? ==> ReadSections(lines, seen, files, total) == Ok([s] + tail.value))
  {
    hide ParseDiffHeader, ReadSection, Section.Valid;
  }

  lemma ReadOneInverse(lines: seq<string>, seen: set<string>, files: nat, total: nat) returns (path: string)
    requires lines != [] && ReadSections(lines, seen, files, total).Ok?
    ensures ParseDiffHeader(lines[0]) == Ok(path) && path !in seen
    ensures ReadSection(path, lines[1..], total).Ok? && files + 1 <= MAX_FILES
  {
    hide ParseDiffHeader, ReadSection, Section.Valid;
    path := ParseDiffHeader(lines[0]).value;
  }

  /** What the sections still to come must satisfy once `seen`, `files` and `total` are used up. */
  predicate Fits(sections: seq<Section>, seen: set<string>, files: nat, total: nat) {
    && (forall i | 0 <= i < |sections| :: sections[i].Valid() && sections[i].path !in seen)
    && DistinctPaths(sections)
    && (sections != [] ==> files + |sections| <= MAX_FILES && total + HunkTotal(sections) <= MAX_HUNKS)
  }

  lemma ValidPath(s: Section)
    requires s.Valid()
    ensures SafePath(s.path)
  {
  }

  lemma DistinctTail(s: Section, more: seq<Section>)
    requires DistinctPaths([s] + more)
    ensures DistinctPaths(more) && forall i | 0 <= i < |more| :: more[i].path != s.path
  {
    var all := [s] + more;
    assert forall i | 0 <= i < |more| :: all[i + 1] == more[i];
    forall i, j | 0 <= i < j < |more| ensures more[i].path != more[j].path {
      assert all[i + 1].path != all[j + 1].path;
    }
    forall i | 0 <= i < |more| ensures more[i].path != s.path {
      assert all[0].path != all[i + 1].path;
    }
  }

  lemma FitsHead(s: Section, more: seq<Section>, seen: set<string>, files: nat, total: nat)
    requires Fits([s] + more, seen, files, total)
    ensures s.Valid() && SafePath(s.path) && s.path !in seen
    ensures files + 1 <= MAX_FILES && total + |s.hunks| <= MAX_HUNKS
    ensures Fits(more, seen + {s.path}, files + 1, total + |s.hunks|)
  {
    hide Section.Valid, DistinctPaths, SafePath, HunkTotal, RenderSections;
    var all := [s] + more;
    assert all[0] == s;
    assert forall i | 0 <= i < |more| :: all[i + 1] == more[i];
    ValidPath(s);
    RenderSectionsStep(s, more);
    DistinctTail(s, more);
  }

  lemma FitsCons(s: Section, more: seq<Section>, seen: set<string>, files: nat, total: nat)
    requires s.Valid() && s.path !in seen && files + 1 <= MAX_FILES && total + |s.hunks| <= MAX_HUNKS
    requires Fits(more, seen + {s.path}, files + 1, total + |s.hunks|)
    ensures Fits([s] + more, seen, files, total)
  {
    var all := [s] + more;
    RenderSectionsStep(s, more);
    forall i | 0 <= i < |all| ensures all[i].Valid() && all[i].path !in seen {
      assert i > 0 ==> more[i - 1].Valid() && more[i - 1].path !in seen + {s.path};
    }
    forall i, j | 0 <= i < j < |all| ensures all[i].path != all[j].path {
      assert more[j - 1].path !in seen + {s.path};
      assert i > 0 ==> more[i - 1].path != more[j - 1].path;
    }
  }

  lemma SectionsStep(s: Section, more: seq<Section>)
    ensures RenderSections([s] + more) == [s.Heading()] + (Rest(s) + RenderSections(more))
  {
    RenderSectionsStep(s, more);
    RenderIs(s);
    Associative([s.Heading()], Rest(s), RenderSections(more));
  }

  lemma HeadingStarts(s: Section)
    ensures s.Heading() == Heading(s.path) && StartsWith(s.Heading(), DIFF_GIT)
    ensures forall rest :: EndsHunks([s.Heading()] + rest)
  {
    assert s.Heading()[..11] == DIFF_GIT;
  }

  lemma ReadNothing(seen: set<string>, files: nat, total: nat)
    ensures RenderSections([]) == [] && ReadSections([], seen, files, total) == Ok([])
    ensures Fits([], seen, files, total) && EndsHunks([])
  {
  }

  lemma {:induction false} ReadSectionsSound(lines: seq<string>, seen: set<string>, files: nat, total: nat)
    returns (sections: seq<Section>)
    requires AllLines(lines) && ReadSections(lines, seen, files, total).Ok?
    ensures ReadSections(lines, seen, files, total) == Ok(sections)
    ensures lines == RenderSections(sections) && Fits(sections, seen, files, total)
    decreases |lines|
  {
    hide *;
    if lines == [] {
      ReadNothing(seen, files, total);
      sections := [];
    } else {
      var path := ReadOneInverse(lines, seen, files, total);
      DiffHeaderSound(lines[0]);
      AllLinesRest(lines, [lines[0]], lines[1..]);
      var s, rest := ReadSectionSound(path, lines[1..], total);
      AllLinesRest(lines[1..], Rest(s), rest);
      ReadOne(lines, seen, files, total, s, rest);
      var more := ReadSectionsSound(rest, seen + {path}, files + 1, total + |s.hunks|);
      SectionsStep(s, more);
      HeadingStarts(s);
      Associative([lines[0]], Rest(s), rest);
      assert lines == [lines[0]] + lines[1..];
      FitsCons(s, more, seen, files, total);
      sections := [s] + more;
    }
  }

  lemma {:induction false} ReadSectionsComplete(sections: seq<Section>, seen: set<string>, files: nat, total: nat)
    requires Fits(sections, seen, files, total)
    ensures ReadSections(RenderSections(sections), seen, files, total) == Ok(sections)
    ensures EndsHunks(RenderSections(sections))
  {
    hide *;
    if sections == [] {
      ReadNothing(seen, files, total);
    } else {
      var s, more := sections[0], sections[1..];
      ConsAppend(sections, []);
      FitsHead(s, more, seen, files, total);
      ReadSectionsComplete(more, seen + {s.path}, files + 1, total + |s.hunks|);
      var rest := RenderSections(more);
      SectionsStep(s, more);
      DiffHeaderComplete(s.path);
      HeadingStarts(s);
      var lines := [s.Heading()] + (Rest(s) + rest);
      assert lines[1..] == Rest(s) + rest;
      ReadSectionComplete(s, rest, total);
      ReadOne(lines, seen, files, total, s, rest);
    }
  }

  /** The decisions of `ParsedPatch::parse` on a whole text. */
  function Read(text: string): Result<seq<Section>, DiffError> {
    if text == "" || |text| > MAX_PATCH_BYTES then Err(PatchSize)
    else if !EndsWith(text, "\n") || '\0' in text || '\r' in text then Err(Malformed)
    else if !ShortLines(Lines(text)) then Err(LineSize)
    else
      var sections :- ReadSections(Lines(text), {}, 0, 0);
      if sections == [] then Err(NoFiles) else Ok(sections)
  }

  lemma AcceptedIsPatch(text: string)
    requires Read(text).Ok?
    ensures IsPatch(text, Read(text).value)
  {
    ConcatLines(text);
    assert text[|text| - 1..][0] == '\n';
    var found := ReadSectionsSound(Lines(text), {}, 0, 0);
  }

  lemma PatchIsAccepted(sections: seq<Section>)
    requires IsPatch(TextOf(sections), sections)
    ensures Read(TextOf(sections)) == Ok(sections)
  {
    var text := TextOf(sections);
    SectionsLines(sections);
    LinesConcat(RenderSections(sections));
    RenderIsText(sections);
    ReadSectionsComplete(sections, {}, 0, 0);
    hide Section.Valid, RenderSections, Lines, TextOf, ReadSections;
    assert Lines(text) == RenderSections(sections);
  }

  /** The parser decides the grammar: it accepts a text exactly when the text is a patch, and
      then it finds that patch's sections. */
  lemma ParserIsGrammar(text: string, sections: seq<Section>)
    ensures Read(text) == Ok(sections) <==> IsPatch(text, sections)
  {
    if Read(text) == Ok(sections) {
      AcceptedIsPatch(text);
    }
    if IsPatch(text, sections) {
      PatchIsAccepted(sections);
    }
  }

  lemma {:induction false} ConcatEnds(lines: seq<string>)
    requires AllLines(lines) && lines != []
    ensures Concat(lines) != "" && EndsWith(Concat(lines), "\n")
  {
    var text, line := Concat(lines), lines[0];
    if |lines| == 1 {
      assert Concat(lines[1..]) == "";
      assert text == line && text[|text| - 1..] == [line[|line| - 1]];
    } else {
      ConcatEnds(lines[1..]);
      var tail := Concat(lines[1..]);
      assert text == line + tail;
      assert text[|text| - 1..] == tail[|tail| - 1..];
    }
  }

  lemma RenderIsText(sections: seq<Section>)
    requires ValidSections(sections) && sections != []
    ensures Concat(RenderSections(sections)) != "" && EndsWith(Concat(RenderSections(sections)), "\n")
  {
    SectionsLines(sections);
    ConsAppend(sections, []);
    SectionsStep(sections[0], sections[1..]);
    ConcatEnds(RenderSections(sections));
  }

  /** A text is a patch in at most one way, whatever its body lines look like. */
  lemma PatchIsUnambiguous(text: string, one: seq<Section>, two: seq<Section>)
    requires IsPatch(text, one) && IsPatch(text, two)
    ensures one == two
  {
    ParserIsGrammar(text, one);
    ParserIsGrammar(text, two);
  }

  /** Rejection means that no section list renders to the text within the ceilings. */
  lemma RejectedTextsAreNotPatches(text: string)
    ensures Read(text).Err? <==> forall sections :: !IsPatch(text, sections)
  {
    forall sections ensures Read(text).Err? ==> !IsPatch(text, sections) {
      ParserIsGrammar(text, sections);
    }
    if Read(text).Ok? {
      ParserIsGrammar(text, Read(text).value);
    }
  }
}
