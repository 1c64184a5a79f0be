/** The declarative grammar of the patches the program accepts: what a patch *is*,
    independently of how crates/premonition-core/src/diff.rs reads it. */
module DiffGrammar {
  import opened Text
  import opened SafePaths

  const MAX_PATCH_BYTES: nat := 256 * 1024
  const MAX_DIFF_LINE_BYTES: nat := 16 * 1024
  const MAX_FILES: nat := 8
  const MAX_HUNKS: nat := 128

  datatype ChangeKind = Modify | Add | Delete

  // ---- lines ----

  predicate IsLine(line: string) {
    line != "" && line[|line| - 1] == '\n' && '\n' !in line[..|line| - 1]
  }

  /** `split_inclusive('\n')`. */
  function Lines(text: string): seq<string> {
    if text == "" then []
    else if text[0] == '\n' then ["\n"] + Lines(text[1..])
    else
      var rest := Lines(text[1..]);
      if rest == [] then [text] else [[text[0]] + rest[0]] + rest[1..]
  }

  function Concat(lines: seq<string>): string {
    if lines == [] then "" else lines[0] + Concat(lines[1..])
  }

  ghost predicate AllLines(lines: seq<string>) {
    forall i | 0 <= i < |lines| :: IsLine(lines[i])
  }

  // ---- one hunk ----

  /** `start` or `start,count`. */
  datatype Range = Range(start: string, count: Option<string>) {
    predicate Valid() {
      && IsNumber(start)
      && (count.Some? ==> IsNumber(count.value))
    }

    function Lines(): nat
      requires Valid()
    {
      if count.Some? then Value(count.value) else 1
    }

    function Render(): string {
      if count.Some? then start + "," + count.value else start
    }
  }

  /** Digits whose value fits 64 bits; leading zeros are allowed. */
  predicate IsNumber(s: string) {
    s != "" && AllDigits(s) && Value(s) < U64_LIMIT
  }

  const NO_NEWLINE: string := "\\ No newline at end of file\n"

  predicate IsBodyLine(line: string) {
    IsLine(line) && (line[0] in " -+" || line == NO_NEWLINE)
  }

  function OldLines(body: seq<string>): nat
    requires forall i | 0 <= i < |body| :: body[i] != ""
  {
    if body == [] then 0
    else (if body[0][0] in " -" then 1 else 0) + OldLines(body[1..])
  }

  function NewLines(body: seq<string>): nat
    requires forall i | 0 <= i < |body| :: body[i] != ""
  {
    if body == [] then 0
    else (if body[0][0] in " +" then 1 else 0) + NewLines(body[1..])
  }

  /** `tail` is what follows the closing `@@` on the header line. */
  datatype Hunk = Hunk(before: Range, after: Range, tail: string, body: seq<string>) {
    predicate Valid() {
      && before.Valid() && after.Valid()
      && (tail == "" || tail[0] == ' ') && '\n' !in tail
      && (forall i | 0 <= i < |body| :: IsBodyLine(body[i]))
      && OldLines(body) == before.Lines()
      && NewLines(body) == after.Lines()
    }

    function Header(): string {
      "@@ -" + before.Render() + " +" + after.Render() + " @@" + tail + "\n"
    }

    function Render(): seq<string> {
      [Header()] + body
    }
  }

  function RenderHunks(hunks: seq<Hunk>): seq<string> {
    if hunks == [] then [] else hunks[0].Render() + RenderHunks(hunks[1..])
  }

  // ---- one file section ----

  datatype Meta = NewFile | DeletedFile | Index(before: string, after: string, mode: bool) {
    predicate Valid() {
      Index? ==> |before| >= 7 && |after| >= 7 && AllHex(before) && AllHex(after)
    }

    function Text(): string {
      match this
      case NewFile => "new file mode 100644"
      case DeletedFile => "deleted file mode 100644"
      case Index(o, n, m) => "index " + o + ".." + n + (if m then " 100644" else "")
    }
  }

  function RenderMeta(meta: seq<Meta>): seq<string> {
    if meta == [] then [] else [meta[0].Text() + "\n"] + RenderMeta(meta[1..])
  }

  /** At most one mode line and at most one index line, in either order. */
  predicate OneOfEach(meta: seq<Meta>) {
    |meta| <= 2 && (|meta| == 2 ==> meta[0].Index? != meta[1].Index?)
  }

  datatype Section = Section(path: string, meta: seq<Meta>, hunks: seq<Hunk>) {
    predicate Valid() {
      && SafePath(path)
      && (forall i | 0 <= i < |meta| :: meta[i].Valid())
      && OneOfEach(meta)
      && hunks != []
      && forall i | 0 <= i < |hunks| :: hunks[i].Valid()
    }

    function Kind(): ChangeKind {
      if NewFile in meta then Add else if DeletedFile in meta then Delete else Modify
    }

    function Heading(): string {
      "diff --git a/" + path + " b/" + path + "\n"
    }

    function OldName(): string {
      if Kind() == Add then "/dev/null" else "a/" + path
    }

    function NewName(): string {
      if Kind() == Delete then "/dev/null" else "b/" + path
    }

    function Names(): seq<string> {
      ["--- " + OldName() + "\n", "+++ " + NewName() + "\n"]
    }

    function Render(): seq<string> {
      [Heading()] + RenderMeta(meta) + Names() + RenderHunks(hunks)
    }
  }

  function RenderSections(sections: seq<Section>): seq<string> {
    if sections == [] then [] else sections[0].Render() + RenderSections(sections[1..])
  }

  function HunkTotal(sections: seq<Section>): nat {
    if sections == [] then 0 else |sections[0].hunks| + HunkTotal(sections[1..])
  }

  predicate DistinctPaths(sections: seq<Section>) {
    forall i, j | 0 <= i < j < |sections| :: sections[i].path != sections[j].path
  }

  predicate ValidSections(sections: seq<Section>) {
    && (forall i | 0 <= i < |sections| :: sections[i].Valid())
    && DistinctPaths(sections)
    && |sections| <= MAX_FILES
    && HunkTotal(sections) <= MAX_HUNKS
  }

  predicate ShortLines(lines: seq<string>) {
    forall i | 0 <= i < |lines| :: |lines[i]| <= MAX_DIFF_LINE_BYTES
  }

  predicate CleanText(text: string) {
    '\0' !in text && '\r' !in text && ShortLines(Lines(text))
  }

  function TextOf(sections: seq<Section>): string {
    Concat(RenderSections(sections))
  }

  /** A whole patch text, with every ceiling. */
  predicate IsPatch(text: string, sections: seq<Section>) {
    && sections != []
    && ValidSections(sections)
    && text == TextOf(sections)
    && |text| <= MAX_PATCH_BYTES
    && CleanText(text)
  }

  // ---- facts about lines ----

  lemma {:induction false} ConcatLines(text: string)
    ensures Concat(Lines(text)) == text
    ensures text != "" ==> Lines(text) != []
    ensures text != "" && text[|text| - 1] == '\n' ==> AllLines(Lines(text))
    ensures forall i | 0 <= i < |Lines(text)| :: Lines(text)[i] != ""
  {
    if text != "" {
      ConcatLines(text[1..]);
      var rest := Lines(text[1..]);
      assert text == [text[0]] + text[1..];
      assert Lines(text)[1..] == if text[0] == '\n' then rest else if rest == [] then [] else rest[1..];
      if text[0] != '\n' && rest != [] && text[|text| - 1] == '\n' {
        var line := [text[0]] + rest[0];
        assert IsLine(rest[0]);
        assert line[..|line| - 1] == [text[0]] + rest[0][..|rest[0]| - 1];
        assert IsLine(line);
      }
    }
  }

  lemma {:induction false} LinesOfLine(line: string, text: string)
    requires IsLine(line)
    ensures Lines(line + text) == [line] + Lines(text)
  {
    var whole := line + text;
    if |line| == 1 {
      assert line == "\n";
      assert whole[1..] == text;
    } else {
      assert line[0] != '\n' by { assert line[0] == line[..|line| - 1][0]; }
      assert line[1..][..|line| - 2] == line[..|line| - 1][1..];
      LinesOfLine(line[1..], text);
      assert whole[1..] == line[1..] + text;
      assert line == [line[0]] + line[1..];
    }
  }

  lemma {:induction false} LinesConcat(lines: seq<string>)
    requires AllLines(lines)
    ensures Lines(Concat(lines)) == lines
  {
    if lines != [] {
      LinesConcat(lines[1..]);
      LinesOfLine(lines[0], Concat(lines[1..]));
      assert lines == [lines[0]] + lines[1..];
    }
  }

  lemma {:induction false} ConcatAppend(a: seq<string>, b: seq<string>)
    ensures Concat(a + b) == Concat(a) + Concat(b)
  {
    if a == [] {
      assert a + b == b;
    } else {
      ConcatAppend(a[1..], b);
      assert (a + b)[0] == a[0] && (a + b)[1..] == a[1..] + b;
      Associative(a[0], Concat(a[1..]), Concat(b));
    }
  }

  lemma RenderSectionsStep(head: Section, tail: seq<Section>)
    ensures RenderSections([head] + tail) == head.Render() + RenderSections(tail)
    ensures HunkTotal([head] + tail) == |head.hunks| + HunkTotal(tail)
  {
    assert ([head] + tail)[1..] == tail;
  }

  lemma {:induction false} RenderSectionsAppend(a: seq<Section>, b: seq<Section>)
    ensures RenderSections(a + b) == RenderSections(a) + RenderSections(b)
    ensures HunkTotal(a + b) == HunkTotal(a) + HunkTotal(b)
  {
    if a == [] {
      assert a + b == b;
    } else {
      var head, tail := a[0], a[1..];
      RenderSectionsAppend(tail, b);
      ConsAppend(a, b);
      RenderSectionsStep(head, tail + b);
      RenderSectionsStep(head, tail);
      var x, y, z := head.Render(), RenderSections(tail), RenderSections(b);
      assert RenderSections(a + b) == x + (y + z);
      assert RenderSections(a) + RenderSections(b) == (x + y) + z;
      Associative(x, y, z);
    }
  }

  // ---- every rendered line is a line ----

  lemma LineOf(s: string)
    requires '\n' !in s
    ensures IsLine(s + "\n")
  {
    var line := s + "\n";
    assert line[..|line| - 1] == s;
  }

  lemma SafePathNoBreak(path: string)
    requires SafePath(path)
    ensures '\n' !in path && ' ' !in path
  {
    SafePathShape(path);
  }

  lemma HunkLines(h: Hunk)
    requires h.Valid()
    ensures IsLine(h.Header()) && AllLines(h.Render())
  {
    var text := "@@ -" + h.before.Render() + " +" + h.after.Render() + " @@" + h.tail;
    assert '\n' !in h.before.Render() && '\n' !in h.after.Render();
    LineOf(text);
    assert h.Header() == text + "\n";
    forall i | 0 <= i < |h.Render()| ensures IsLine(h.Render()[i]) {
      assert i == 0 || IsBodyLine(h.body[i - 1]);
    }
  }

  lemma {:induction false} HunksLines(hunks: seq<Hunk>)
    requires forall i | 0 <= i < |hunks| :: hunks[i].Valid()
    ensures AllLines(RenderHunks(hunks))
  {
    if hunks != [] {
      HunkLines(hunks[0]);
      HunksLines(hunks[1..]);
    }
  }

  lemma MetaLine(m: Meta)
    requires m.Valid()
    ensures IsLine(m.Text() + "\n")
  {
    assert '\n' !in m.Text();
    LineOf(m.Text());
    hide IsLine, Meta.Text;
  }

  lemma {:induction false} MetaLines(meta: seq<Meta>)
    requires forall i | 0 <= i < |meta| :: meta[i].Valid()
    ensures AllLines(RenderMeta(meta))
  {
    hide IsLine, Meta.Valid, Meta.Text;
    if meta != [] {
      MetaLine(meta[0]);
      MetaLines(meta[1..]);
    }
  }

  lemma AllLinesAppend(a: seq<string>, b: seq<string>)
    requires AllLines(a) && AllLines(b)
    ensures AllLines(a + b)
  {
  }

  lemma OwnLines(s: Section)
    requires s.Valid()
    ensures AllLines([s.Heading()]) && AllLines(s.Names())
  {
    SafePathNoBreak(s.path);
    var heading, before, after := "diff --git a/" + s.path + " b/" + s.path, "--- " + s.OldName(), "+++ " + s.NewName();
    assert '\n' !in heading && '\n' !in before && '\n' !in after;
    LineOf(heading);
    LineOf(before);
    LineOf(after);
    assert s.Heading() == heading + "\n" && s.Names() == [before + "\n", after + "\n"];
    hide IsLine;
  }

  lemma SectionLines(s: Section)
    requires s.Valid()
    ensures AllLines(s.Render())
  {
    OwnLines(s);
    MetaLines(s.meta);
    HunksLines(s.hunks);
    hide IsLine, AllLines, RenderMeta, RenderHunks, Section.Heading, Section.Names;
    AllLinesAppend([s.Heading()], RenderMeta(s.meta));
    AllLinesAppend([s.Heading()] + RenderMeta(s.meta), s.Names());
    AllLinesAppend([s.Heading()] + RenderMeta(s.meta) + s.Names(), RenderHunks(s.hunks));
  }

  lemma {:induction false} SectionsLines(sections: seq<Section>)
    requires forall i | 0 <= i < |sections| :: sections[i].Valid()
    ensures AllLines(RenderSections(sections))
  {
    if sections != [] {
      SectionLines(sections[0]);
      SectionsLines(sections[1..]);
    }
  }
}
