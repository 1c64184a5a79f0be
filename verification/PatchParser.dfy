/** The loops of `ParsedPatch::parse` (crates/premonition-core/src/diff.rs:108-244): index-driven,
    one method a loop, each equal to the reader's decision on the lines from its start. */
module PatchParser {
  import opened Text
  import opened SafePaths
  import opened DiffGrammar
  import opened DiffReader
  import opened Diff
  import opened Patches

  /** What the whole reading is, once `done` has been read and `r` is the reading of the rest. */
  function Add<T>(done: seq<T>, r: Result<Pair<seq<T>, seq<string>>, DiffError>)
    : Result<Pair<seq<T>, seq<string>>, DiffError>
  {
    if r.Err? then r else Ok(Pair(done + r.value.first, r.value.second))
  }

  lemma AddNothing<T>(r: Result<Pair<seq<T>, seq<string>>, DiffError>)
    ensures Add([], r) == r
  {
    if r.Ok? {
      assert [] + r.value.first == r.value.first;
    }
  }

  lemma AddOne<T>(done: seq<T>, x: T, r: Result<Pair<seq<T>, seq<string>>, DiffError>)
    ensures Add(done, Add([x], r)) == Add(done + [x], r)
  {
    if r.Ok? {
      Associative(done, [x], r.value.first);
    }
  }

  /** Where the metadata loop stopped and what it saw. */
  datatype MetaEnd = MetaEnd(index: nat, add: bool, delete: bool)

  datatype BodyEnd = BodyEnd(index: nat, before: nat, after: nat)

  datatype HunksEnd = HunksEnd(index: nat, hunks: nat)

  method ParseMetaLines(lines: seq<string>, start: nat) returns (r: Result<MetaEnd, DiffError>)
    requires start <= |lines|
    ensures var spec := ReadMeta(lines[start..], false, false, false);
            && (spec.Err? ==> r == Err(spec.error))
            && (spec.Ok? ==>
                  && r.Ok? && start <= r.value.index <= |lines|
                  && lines[r.value.index..] == spec.value.second
                  && r.value.add == (NewFile in spec.value.first)
                  && r.value.delete == (DeletedFile in spec.value.first))
  {
    var add, delete, saw := false, false, false;
    var index := start;
    ghost var done: seq<Meta> := [];
    AddNothing(ReadMeta(lines[start..], false, false, false));
    while index < |lines| && !StartsWith(lines[index], OLD)
      invariant start <= index <= |lines|
      invariant add == (NewFile in done) && delete == (DeletedFile in done)
      invariant ReadMeta(lines[start..], false, false, false)
             == Add(done, ReadMeta(lines[index..], add, delete, saw))
    {
      hide ParseMeta, OneOfEach, Meta.Text;
      var m := ParseMeta(Trimmed(lines[index]), add, delete, saw);
      assert lines[index..][0] == lines[index] && lines[index..][1..] == lines[index + 1..];
      if m.Err? {
        return Err(m.error);
      }
      ghost var rest := ReadMeta(lines[index + 1..], add || m.value.NewFile?, delete || m.value.DeletedFile?,
                                 saw || m.value.Index?);
      assert ReadMeta(lines[index..], add, delete, saw) == Add([m.value], rest);
      AddOne(done, m.value, rest);
      done := done + [m.value];
      match m.value {
        case NewFile => add := true;
        case DeletedFile => delete := true;
        case Index(_, _, _) => saw := true;
      }
      index := index + 1;
    }
    assert ReadMeta(lines[index..], add, delete, saw) == Ok(Pair([], lines[index..]));
    assert done + [] == done;
    return Ok(MetaEnd(index, add, delete));
  }

  lemma {:induction false} TallyAppend(body: seq<string>, line: string)
    requires line != "" && forall i | 0 <= i < |body| :: body[i] != ""
    ensures OldLines(body + [line]) == OldLines(body) + (if line[0] in " -" then 1 else 0)
    ensures NewLines(body + [line]) == NewLines(body) + (if line[0] in " +" then 1 else 0)
  {
    if body != [] {
      TallyAppend(body[1..], line);
      assert (body + [line])[1..] == body[1..] + [line];
    } else {
      assert body + [line] == [line];
    }
  }

  /** One hunk body: the two counters against the header's two ranges. */
  method ParseBody(lines: seq<string>, start: nat) returns (r: Result<BodyEnd, DiffError>)
    requires start <= |lines|
    ensures var spec := ReadBody(lines[start..]);
            && (spec.Err? ==> r == Err(spec.error))
            && (spec.Ok? ==>
                  && r.Ok? && start <= r.value.index <= |lines|
                  && lines[r.value.index..] == spec.value.second
                  && r.value.before == OldLines(spec.value.first)
                  && r.value.after == NewLines(spec.value.first))
  {
    var before, after := 0, 0;
    var index := start;
    ghost var done: seq<string> := [];
    AddNothing(ReadBody(lines[start..]));
    while index < |lines| && !StartsWith(lines[index], AT) && !StartsWith(lines[index], DIFF_GIT)
      invariant start <= index <= |lines|
      invariant forall i | 0 <= i < |done| :: done[i] != ""
      invariant before == OldLines(done) && after == NewLines(done)
      invariant ReadBody(lines[start..]) == Add(done, ReadBody(lines[index..]))
    {
      var line := lines[index];
      assert lines[index..][0] == line && lines[index..][1..] == lines[index + 1..];
      assert !EndsBody(lines[index..]);
      ghost var rest := ReadBody(lines[index + 1..]);
      assert ReadBody(lines[index..]) == if ReadsAsBody(line) then Add([line], rest) else Err(Malformed);
      if line == "" {
        return Err(Malformed);
      }
      AddOne(done, line, rest);
      TallyAppend(done, line);
      hide ReadBody;
      if line[0] == ' ' {
        before, after := before + 1, after + 1;
      } else if line[0] == '-' {
        before := before + 1;
      } else if line[0] == '+' {
        after := after + 1;
      } else if line[0] == '\\' && line == NO_NEWLINE {
      } else {
        return Err(Malformed);
      }
      done := done + [line];
      index := index + 1;
    }
    assert EndsBody(lines[index..]);
    assert done + [] == done;
    return Ok(BodyEnd(index, before, after));
  }

  lemma ReadHunksStep(lines: seq<string>, total: nat)
    requires !EndsHunks(lines)
    ensures ReadHunks(lines, total) ==
            (var got := ReadHunk(lines);
             if got.Err? then Err(got.error)
             else if total + 1 > MAX_HUNKS then Err(TooManyHunks)
             else Add([got.value.first], ReadHunks(got.value.second, total + 1)))
  {
    hide ReadHunk;
  }

  lemma ReadHunksEnd(lines: seq<string>, total: nat)
    requires EndsHunks(lines)
    ensures ReadHunks(lines, total) == Ok(Pair([], lines))
  {
  }

  method ParseHunk(lines: seq<string>, start: nat) returns (r: Result<nat, DiffError>)
    requires start < |lines|
    ensures var spec := ReadHunk(lines[start..]);
            && (spec.Err? ==> r == Err(spec.error))
            && (spec.Ok? ==> r.Ok? && start < r.value <= |lines| && lines[r.value..] == spec.value.second)
  {
    assert lines[start..][0] == lines[start] && lines[start..][1..] == lines[start + 1..];
    if !StartsWith(lines[start], AT) {
      return Err(Malformed);
    }
    var header := ParseHunkHeader(lines[start]);
    if header.Err? {
      return Err(header.error);
    }
    var body := ParseBody(lines, start + 1);
    hide ParseHunkHeader, ReadBody;
    if body.Err? {
      return Err(body.error);
    }
    if body.value.before != header.value.before.Lines() || body.value.after != header.value.after.Lines() {
      return Err(HunkCount);
    }
    return Ok(body.value.index);
  }

  method ParseHunks(lines: seq<string>, start: nat, already: nat) returns (r: Result<HunksEnd, DiffError>)
    requires start <= |lines|
    ensures var spec := ReadHunks(lines[start..], already);
            && (spec.Err? ==> r == Err(spec.error))
            && (spec.Ok? ==>
                  && r.Ok? && start <= r.value.index <= |lines|
                  && lines[r.value.index..] == spec.value.second
                  && r.value.hunks == |spec.value.first|)
  {
    hide ReadHunk, ReadHunks;
    var index, hunks, total := start, 0, already;
    ghost var done: seq<Hunk> := [];
    AddNothing(ReadHunks(lines[start..], already));
    while index < |lines| && !StartsWith(lines[index], DIFF_GIT)
      invariant start <= index <= |lines|
      invariant hunks == |done| && total == already + hunks
      invariant ReadHunks(lines[start..], already) == Add(done, ReadHunks(lines[index..], total))
    {
      ghost var here := lines[index..];
      assert here[0] == lines[index] && !EndsHunks(here);
      ReadHunksStep(here, total);
      var next := ParseHunk(lines, index);
      if next.Err? {
        return Err(next.error);
      }
      hunks, total := hunks + 1, total + 1;
      if total > MAX_HUNKS {
        return Err(TooManyHunks);
      }
      ghost var h := ReadHunk(here).value.first;
      ghost var rest := ReadHunks(lines[next.value..], total);
      AddOne(done, h, rest);
      done := done + [h];
      index := next.value;
    }
    ReadHunksEnd(lines[index..], total);
    assert done + [] == done;
    return Ok(HunksEnd(index, hunks));
  }

  function AddSections(done: seq<Section>, r: Result<seq<Section>, DiffError>): Result<seq<Section>, DiffError> {
    if r.Err? then r else Ok(done + r.value)
  }

  lemma AddOneSection(done: seq<Section>, s: Section, r: Result<seq<Section>, DiffError>)
    ensures AddSections(done, AddSections([s], r)) == AddSections(done + [s], r)
  {
    if r.Ok? {
      Associative(done, [s], r.value);
    }
  }

  lemma ReadSectionsStep(lines: seq<string>, seen: set<string>, files: nat, total: nat)
    requires lines != []
    ensures ReadSections(lines, seen, files, total) ==
            (var path := ParseDiffHeader(lines[0]);
             if path.Err? then Err(path.error)
             else if path.value in seen then Err(DuplicatePath)
             else
               var got := ReadSection(path.value, lines[1..], total);
               if got.Err? then Err(got.error)
               else if files + 1 > MAX_FILES then Err(TooManyFiles)
               else
                 var s := got.value.first;
                 AddSections([s], ReadSections(got.value.second, seen + {path.value}, files + 1, total + |s.hunks|)))
  {
    hide ParseDiffHeader, ReadSection;
  }

  datatype SectionEnd = SectionEnd(index: nat, kind: ChangeKind, hunks: nat)

  method ParseSection(path: string, lines: seq<string>, start: nat, already: nat)
    returns (r: Result<SectionEnd, DiffError>)
    requires start <= |lines| && AllLines(lines)
    ensures var spec := ReadSection(path, lines[start..], already);
            && (spec.Err? ==> r == Err(spec.error))
            && (spec.Ok? ==>
                  && r.Ok? && start <= r.value.index <= |lines|
                  && lines[r.value.index..] == spec.value.second
                  && r.value.kind == spec.value.first.Kind()
                  && r.value.hunks == |spec.value.first.hunks|)
  {
    hide ReadMeta, ReadHunks, ReadNames;
    var meta := ParseMetaLines(lines, start);
    if meta.Err? {
      return Err(meta.error);
    }
    var index := meta.value.index;
    var kind := ReadNames(lines[index..], path, meta.value.add, meta.value.delete);
    if kind.Err? {
      return Err(kind.error);
    }
    assert lines[index..][2..] == lines[index + 2..];
    var hunks := ParseHunks(lines, index + 2, already);
    if hunks.Err? {
      return Err(hunks.error);
    }
    if hunks.value.hunks == 0 {
      return Err(NoHunks);
    }
    ghost var seen, _ := ReadMetaSound(lines[start..], false, false, false);
    NamesRead(lines[index..], Section(path, seen, []), kind.value);
    return Ok(SectionEnd(hunks.value.index, kind.value, hunks.value.hunks));
  }

  lemma {:induction false} FilesAppend(done: seq<Section>, s: Section)
    ensures Files(done + [s]) == Files(done) + [FileChange(s.path, s.Kind(), |s.hunks|)]
    ensures HunkTotal(done + [s]) == HunkTotal(done) + |s.hunks|
  {
    RenderSectionsAppend(done, [s]);
    assert [s][1..] == [];
  }

  method ParseFiles(lines: seq<string>) returns (r: Result<Pair<seq<FileChange>, nat>, DiffError>)
    requires AllLines(lines)
    ensures var spec := ReadSections(lines, {}, 0, 0);
            && (spec.Err? ==> r == Err(spec.error))
            && (spec.Ok? ==> r == Ok(Pair(Files(spec.value), HunkTotal(spec.value))))
  {
    hide ParseDiffHeader, ReadSection, ReadSections, Section.Kind, Section.Valid;
    var index, files: seq<FileChange>, seen: set<string>, total := 0, [], {}, 0;
    ghost var done: seq<Section> := [];
    assert lines[0..] == lines;
    assert AddSections([], ReadSections(lines, {}, 0, 0)) == ReadSections(lines, {}, 0, 0) by {
      if ReadSections(lines, {}, 0, 0).Ok? {
        assert [] + ReadSections(lines, {}, 0, 0).value == ReadSections(lines, {}, 0, 0).value;
      }
    }
    while index < |lines|
      invariant index <= |lines|
      invariant files == Files(done) && total == HunkTotal(done)
      invariant ReadSections(lines, {}, 0, 0)
             == AddSections(done, ReadSections(lines[index..], seen, |files|, total))
    {
      ghost var here := lines[index..];
      assert here[0] == lines[index] && here[1..] == lines[index + 1..];
      ReadSectionsStep(here, seen, |files|, total);
      var path := ParseDiffHeader(lines[index]);
      if path.Err? {
        return Err(path.error);
      }
      if path.value in seen {
        return Err(DuplicatePath);
      }
      seen := seen + {path.value};
      var section := ParseSection(path.value, lines, index + 1, total);
      if section.Err? {
        return Err(section.error);
      }
      ghost var s := ReadSection(path.value, here[1..], total).value.first;
      FilesAppend(done, s);
      total := total + section.value.hunks;
      files := files + [FileChange(path.value, section.value.kind, section.value.hunks)];
      index := section.value.index;
      if |files| > MAX_FILES {
        return Err(TooManyFiles);
      }
      AddOneSection(done, s, ReadSections(lines[index..], seen, |files|, total));
      done := done + [s];
    }
    assert lines[index..] == [];
    EndOfLines(seen, |files|, total);
    assert done + [] == done;
    return Ok(Pair(files, total));
  }

  lemma EndOfLines(seen: set<string>, files: nat, total: nat)
    ensures ReadSections([], seen, files, total) == Ok([])
  {
  }

  /** `ParsedPatch::parse`: the program's result, error for error, is the reader's; with
      `Diff.ParserIsGrammar` it accepts exactly the patches of the grammar. */
  method Parse(raw: string) returns (r: Result<ParsedPatch, DiffError>)
    ensures r == Summary(raw, Read(raw))
    ensures r.Ok? ==> WellFormed(r.value) && r.value.raw == raw
    ensures r.Ok? ==> forall change | change in r.value.files :: OutsideGit(change.path)
    ensures r.Err? <==> forall sections :: !IsPatch(raw, sections)
  {
    ConcatLines(raw);
    RejectedTextsAreNotPatches(raw);
    if Summary(raw, Read(raw)).Ok? {
      ParsedPatchesAreWellFormed(raw);
      WellFormedOutsideGit(Summary(raw, Read(raw)).value);
    }
    hide ReadSections, IsPatch, WellFormed, Lines, OutsideGit;
    if raw == "" || |raw| > MAX_PATCH_BYTES {
      return Err(PatchSize);
    }
    if !EndsWith(raw, "\n") || '\0' in raw || '\r' in raw {
      return Err(Malformed);
    }
    var lines := Lines(raw);
    if !ShortLines(lines) {
      return Err(LineSize);
    }
    assert raw[|raw| - 1..][0] == '\n';
    var files := ParseFiles(lines);
    if files.Err? {
      return Err(files.error);
    }
    if files.value.first == [] {
      return Err(NoFiles);
    }
    return Ok(ParsedPatch(raw, files.value.first, files.value.second));
  }
}
