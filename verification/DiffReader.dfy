/** The reader's decisions, line by line, in the order the program takes them
    (crates/premonition-core/src/diff.rs), and the proof that they decide the grammar. */
module DiffReader {
  import opened Text
  import opened SafePaths
  import opened DiffGrammar

  datatype DiffError =
    | PatchSize | LineSize | Malformed | UnsafePath | HeaderMismatch | UnsupportedFeature
    | HunkCount | NoHunks | NoFiles | DuplicatePath | TooManyFiles | TooManyHunks

  datatype Pair<+A, +B> = Pair(first: A, second: B)

  const DIFF_GIT: string := "diff --git "
  const AT: string := "@@ "
  const OLD: string := "--- "
  const NEW: string := "+++ "

  // ---- the pieces of one line ----

  /** `split_once`: cut at the first occurrence of `sep`. */
  function SplitOnce(s: string, sep: string): Option<Pair<string, string>>
    requires sep != ""
  {
    if sep <= s then Some(Pair("", s[|sep|..]))
    else if s == "" then None
    else
      var rest := SplitOnce(s[1..], sep);
      if rest.Some? then Some(Pair([s[0]] + rest.value.first, rest.value.second)) else None
  }

  lemma Prepended(c: char, x: string, y: string, z: string)
    ensures [c] + (x + y + z) == ([c] + x) + y + z
  {
  }

  lemma {:induction false} SplitOnceJoins(s: string, sep: string)
    requires sep != "" && SplitOnce(s, sep).Some?
    ensures s == SplitOnce(s, sep).value.first + sep + SplitOnce(s, sep).value.second
  {
    if !(sep <= s) {
      SplitOnceJoins(s[1..], sep);
      var rest := SplitOnce(s[1..], sep).value;
      Prepended(s[0], rest.first, sep, rest.second);
    }
  }

  lemma {:induction false} SplitOnceAt(head: string, sep: string, tail: string)
    requires sep != "" && sep[0] !in head
    ensures SplitOnce(head + sep + tail, sep) == Some(Pair(head, tail))
  {
    var s := head + sep + tail;
    if head == "" {
      assert s == sep + tail;
    } else {
      SplitOnceAt(head[1..], sep, tail);
      assert s[0] == head[0] != sep[0];
      assert s[1..] == head[1..] + sep + tail;
      assert head == [head[0]] + head[1..];
    }
  }

  lemma {:induction false} SplitOnceNone(s: string, sep: string)
    requires sep != "" && sep[0] !in s
    ensures SplitOnce(s, sep) == None
  {
    if s != "" {
      assert s[0] != sep[0];
      SplitOnceNone(s[1..], sep);
    }
  }

  function ParseRange(value: string): (r: Result<Range, DiffError>)
    ensures r.Ok? ==> r.value.Valid()
  {
    var cut := SplitOnce(value, ",");
    var start := if cut.Some? then cut.value.first else value;
    var count := if cut.Some? then cut.value.second else "1";
    if start == "" || count == "" || !AllDigits(start) || !AllDigits(count) then Err(Malformed)
    else if Value(start) >= U64_LIMIT || Value(count) >= U64_LIMIT then Err(Malformed)
    else Ok(Range(start, if cut.Some? then Some(count) else None))
  }

  lemma RangeReads(value: string, r: Range)
    ensures ParseRange(value) == Ok(r) <==> r.Valid() && value == r.Render()
  {
    if ParseRange(value) == Ok(r) {
      var cut := SplitOnce(value, ",");
      if cut.Some? {
        SplitOnceJoins(value, ",");
      }
    }
    if r.Valid() && value == r.Render() {
      if r.count.Some? {
        SplitOnceAt(r.start, ",", r.count.value);
      } else {
        SplitOnceNone(value, ",");
        assert Value("1") == 1 by { assert "1"[..0] == ""; }
      }
    }
  }

  function ParseHunkHeader(line: string): (r: Result<Hunk, DiffError>)
    ensures r.Ok? ==> r.value.before.Valid() && r.value.after.Valid()
  {
    var header := StripSuffix(line, "\n");
    if header.None? then Err(Malformed) else HunkOf(Split(header.value, ' '))
  }

  function HunkOf(fields: seq<string>): (r: Result<Hunk, DiffError>)
    ensures r.Ok? ==> r.value.before.Valid() && r.value.after.Valid()
  {
    if |fields| < 4 || fields[0] != "@@" || fields[3] != "@@" then Err(Malformed) else
    var before := StripPrefix(fields[1], "-");
    var after := StripPrefix(fields[2], "+");
    if before.None? || after.None? then Err(Malformed) else
    var b :- ParseRange(before.value);
    var a :- ParseRange(after.value);
    Ok(Hunk(b, a, if |fields| == 4 then "" else " " + Join(fields[4..], ' '), []))
  }

  lemma RenderedRange(r: Range)
    requires r.Valid()
    ensures ' ' !in r.Render() && '\n' !in r.Render()
  {
  }

  lemma SplitSpaceTail(head: string, tail: string)
    requires ' ' !in head && (tail == "" || tail[0] == ' ')
    ensures Split(head + tail, ' ') == if tail == "" then [head] else [head] + Split(tail[1..], ' ')
  {
    if tail == "" {
      assert head + tail == head;
      SplitNone(head, ' ');
    } else {
      assert head + tail == head + [' '] + tail[1..];
      SplitAt(head, ' ', tail[1..]);
    }
  }

  /** The header line between its first field and its line end. */
  function HeaderText(b: string, a: string, tail: string): string {
    "@@" + [' '] + (b + [' '] + (a + [' '] + ("@@" + tail)))
  }

  lemma HeaderTextIs(h: Hunk)
    ensures h.Header() == HeaderText("-" + h.before.Render(), "+" + h.after.Render(), h.tail) + "\n"
  {
  }

  lemma LineText(text: string)
    ensures StripSuffix(text + "\n", "\n") == Some(text)
  {
    var line := text + "\n";
    assert line[..|text|] == text && line[|text|..] == "\n";
  }

  function TailFields(tail: string): seq<string> {
    if tail == "" then [] else Split(tail[1..], ' ')
  }

  lemma HeaderTextSplits(b: string, a: string, tail: string)
    requires ' ' !in b && ' ' !in a && (tail == "" || tail[0] == ' ')
    ensures Split(HeaderText(b, a, tail), ' ') == ["@@", b, a, "@@"] + TailFields(tail)
  {
    hide Split;
    var last := "@@" + tail;
    SplitAt("@@", ' ', b + [' '] + (a + [' '] + last));
    SplitAt(b, ' ', a + [' '] + last);
    SplitAt(a, ' ', last);
    SplitSpaceTail("@@", tail);
  }

  lemma HeaderTextJoins(fields: seq<string>)
    requires |fields| >= 4 && fields[0] == "@@" && fields[3] == "@@"
    ensures Join(fields, ' ')
         == HeaderText(fields[1], fields[2], if |fields| == 4 then "" else " " + Join(fields[4..], ' '))
  {
    assert fields == [fields[0]] + fields[1..];
    assert fields[1..] == [fields[1]] + fields[2..];
    assert fields[2..] == [fields[2]] + fields[3..];
    JoinPair(fields[0], fields[1..], ' ');
    JoinPair(fields[1], fields[2..], ' ');
    JoinPair(fields[2], fields[3..], ' ');
    if |fields| > 4 {
      assert fields[3..] == [fields[3]] + fields[4..];
      JoinPair(fields[3], fields[4..], ' ');
      assert "@@" + [' '] + Join(fields[4..], ' ') == "@@" + (" " + Join(fields[4..], ' '));
    } else {
      assert fields[3..] == ["@@"];
    }
  }

  lemma HunkOfFields(b: string, a: string, last: seq<string>)
    requires ParseRange(b).Ok? && ParseRange(a).Ok?
    ensures HunkOf(["@@", "-" + b, "+" + a, "@@"] + last)
         == Ok(Hunk(ParseRange(b).value, ParseRange(a).value, if last == [] then "" else " " + Join(last, ' '), []))
  {
    hide ParseRange, Join;
    var fields := ["@@", "-" + b, "+" + a, "@@"] + last;
    assert fields[4..] == last;
    assert ("-" + b)[1..] == b && ("+" + a)[1..] == a;
  }

  lemma TailJoins(tail: string)
    requires tail == "" || tail[0] == ' '
    ensures tail == if TailFields(tail) == [] then "" else " " + Join(TailFields(tail), ' ')
  {
    if tail != "" {
      JoinSplit(tail[1..], ' ');
      assert tail == " " + tail[1..];
    }
  }

  lemma HunkHeaderComplete(h: Hunk)
    requires h.Valid()
    ensures ParseHunkHeader(h.Header()) == Ok(h.(body := []))
  {
    var b, a := "-" + h.before.Render(), "+" + h.after.Render();
    RenderedRange(h.before);
    RenderedRange(h.after);
    HeaderTextIs(h);
    LineText(HeaderText(b, a, h.tail));
    HeaderTextSplits(b, a, h.tail);
    RangeReads(h.before.Render(), h.before);
    RangeReads(h.after.Render(), h.after);
    TailJoins(h.tail);
    HunkOfFields(h.before.Render(), h.after.Render(), TailFields(h.tail));
    hide HunkOf, TailFields, HeaderText, Split, ParseRange, Join;
  }

  /** Everything a hunk header says, without its body. */
  predicate ValidHeader(h: Hunk) {
    && h.before.Valid() && h.after.Valid()
    && (h.tail == "" || h.tail[0] == ' ') && '\n' !in h.tail
    && h.body == []
  }

  lemma HunkHeaderSound(line: string)
    requires IsLine(line) && ParseHunkHeader(line).Ok?
    ensures ValidHeader(ParseHunkHeader(line).value) && ParseHunkHeader(line).value.Header() == line
  {
    var header := StripSuffix(line, "\n").value;
    var fields := Split(header, ' ');
    var h := ParseHunkHeader(line).value;
    JoinSplit(header, ' ');
    RangeReads(fields[1][1..], h.before);
    RangeReads(fields[2][1..], h.after);
    assert fields[1] == "-" + h.before.Render() && fields[2] == "+" + h.after.Render();
    HeaderTextJoins(fields);
    HeaderTextIs(h);
    assert header == line[..|line| - 1];
    assert line == header + "\n";
    assert forall c | c in h.tail :: c in header;
  }

  function ParseDiffHeader(line: string): Result<string, DiffError> {
    var header := StripSuffix(line, "\n");
    if header.None? then Err(Malformed) else
    var fields := Split(header.value, ' ');
    if |fields| != 4 || fields[0] != "diff" || fields[1] != "--git" then Err(Malformed) else
    var before := StripPrefix(fields[2], "a/");
    if before.None? then Err(UnsafePath) else
    var after := StripPrefix(fields[3], "b/");
    if after.None? then Err(UnsafePath) else
    if before.value != after.value then Err(HeaderMismatch) else
    if SafePath(before.value) then Ok(before.value) else Err(UnsafePath)
  }

  function Heading(path: string): string {
    Section(path, [], []).Heading()
  }

  lemma HeadingText(path: string)
    ensures Heading(path) == Join(["diff", "--git", "a/" + path, "b/" + path], ' ') + "\n"
  {
    Join4("diff", "--git", "a/" + path, "b/" + path, ' ');
  }

  lemma DiffHeaderSound(line: string)
    requires ParseDiffHeader(line).Ok?
    ensures SafePath(ParseDiffHeader(line).value) && line == Heading(ParseDiffHeader(line).value)
  {
    var path := ParseDiffHeader(line).value;
    var text := StripSuffix(line, "\n").value;
    var fields := Split(text, ' ');
    JoinSplit(text, ' ');
    assert fields[2] == "a/" + path && fields[3] == "b/" + path;
    assert fields == ["diff", "--git", "a/" + path, "b/" + path];
    HeadingText(path);
    assert line == text + line[|line| - 1..];
  }

  lemma DiffHeaderComplete(path: string)
    requires SafePath(path)
    ensures ParseDiffHeader(Heading(path)) == Ok(path)
  {
    var a, b := "a/" + path, "b/" + path;
    var fields := ["diff", "--git", a, b];
    SafePathNoBreak(path);
    HeadingText(path);
    SplitJoin(fields, ' ');
    LineText(Join(fields, ' '));
    assert a[2..] == path && b[2..] == path;
  }

  lemma DiffHeaderReads(line: string, path: string)
    ensures ParseDiffHeader(line) == Ok(path) <==> SafePath(path) && line == Heading(path)
  {
    if ParseDiffHeader(line) == Ok(path) { DiffHeaderSound(line); }
    if SafePath(path) { DiffHeaderComplete(path); }
  }

  function ParseIndex(line: string): Result<Meta, DiffError> {
    var fields := Split(line, ' ');
    if !(|fields| == 2 || (|fields| == 3 && fields[2] == "100644")) then Err(UnsupportedFeature) else
    var cut := SplitOnce(fields[1], "..");
    if cut.None? then Err(Malformed) else
    var before, after := cut.value.first, cut.value.second;
    if |before| < 7 || |after| < 7 || !AllHex(before) || !AllHex(after) then Err(Malformed)
    else Ok(Index(before, after, |fields| == 3))
  }

  function IndexFields(m: Meta): seq<string>
    requires m.Index?
  {
    ["index", m.before + ".." + m.after] + if m.mode then ["100644"] else []
  }

  lemma IndexText(m: Meta)
    requires m.Index?
    ensures m.Text() == Join(IndexFields(m), ' ')
  {
    var hash := m.before + ".." + m.after;
    Join2("index", hash, ' ');
    Join3("index", hash, "100644", ' ');
    assert IndexFields(m) == if m.mode then ["index", hash, "100644"] else ["index", hash];
  }

  lemma IndexSound(line: string)
    requires StartsWith(line, "index ") && ParseIndex(line).Ok?
    ensures var m := ParseIndex(line).value; m.Index? && m.Valid() && line == m.Text()
  {
    var m := ParseIndex(line).value;
    var fields := Split(line, ' ');
    JoinSplit(line, ' ');
    SplitAt("index", ' ', line[6..]);
    assert line == "index" + [' '] + line[6..];
    SplitOnceJoins(fields[1], "..");
    assert fields == IndexFields(m);
    IndexText(m);
  }

  lemma IndexComplete(m: Meta)
    requires m.Index? && m.Valid()
    ensures ParseIndex(m.Text()) == Ok(m)
  {
    IndexText(m);
    assert ' ' !in m.before + ".." + m.after;
    SplitJoin(IndexFields(m), ' ');
    SplitOnceAt(m.before, "..", m.after);
  }

  lemma IndexReads(line: string, m: Meta)
    requires StartsWith(line, "index ")
    ensures ParseIndex(line) == Ok(m) <==> m.Index? && m.Valid() && line == m.Text()
  {
    if ParseIndex(line) == Ok(m) { IndexSound(line); }
    if m.Index? && m.Valid() && line == m.Text() { IndexComplete(m); }
  }

  // ---- metadata lines ----

  /** `trim_end_matches('\n')`. */
  function Trimmed(line: string): string {
    if line != "" && line[|line| - 1] == '\n' then Trimmed(line[..|line| - 1]) else line
  }

  lemma TrimmedLine(text: string)
    requires '\n' !in text
    ensures Trimmed(text + "\n") == text
  {
    var line := text + "\n";
    assert line[..|line| - 1] == text;
  }

  lemma TrimmedBack(line: string)
    requires IsLine(line)
    ensures line == Trimmed(line) + "\n"
  {
    var text := line[..|line| - 1];
    assert line == text + "\n";
    TrimmedLine(text);
  }

  function ParseMeta(text: string, add: bool, delete: bool, index: bool): Result<Meta, DiffError> {
    if text == NewFile.Text() && !add && !delete then Ok(NewFile)
    else if text == DeletedFile.Text() && !add && !delete then Ok(DeletedFile)
    else if StartsWith(text, "index ") && !index then ParseIndex(text)
    else Err(UnsupportedFeature)
  }

  lemma MetaReads(text: string, m: Meta, add: bool, delete: bool, index: bool)
    ensures ParseMeta(text, add, delete, index) == Ok(m)
       <==> text == m.Text() && Allowed(m, add, delete, index)
  {
    assert NewFile.Text()[0] == 'n' && DeletedFile.Text()[0] == 'd';
    assert StartsWith(text, "index ") ==> text[0] == 'i';
    if StartsWith(text, "index ") {
      IndexReads(text, m);
    }
    if m.Index? && text == m.Text() {
      assert m.Text()[..6] == "index ";
    }
  }

  function ReadMeta(lines: seq<string>, add: bool, delete: bool, index: bool)
    : (r: Result<Pair<seq<Meta>, seq<string>>, DiffError>)
    ensures r.Ok? ==> |r.value.second| <= |lines|
    decreases |lines|
  {
    if lines == [] || StartsWith(lines[0], OLD) then Ok(Pair([], lines))
    else
      var m :- ParseMeta(Trimmed(lines[0]), add, delete, index);
      var more :- ReadMeta(lines[1..], add || m.NewFile?, delete || m.DeletedFile?, index || m.Index?);
      Ok(Pair([m] + more.first, more.second))
  }

  predicate Allowed(m: Meta, add: bool, delete: bool, index: bool) {
    m.Valid() && !(if m.Index? then index else add || delete)
  }

  /** What may still follow once the flags are set. */
  predicate MetaShape(meta: seq<Meta>, add: bool, delete: bool, index: bool) {
    && (forall i | 0 <= i < |meta| :: Allowed(meta[i], add, delete, index))
    && OneOfEach(meta)
  }

  lemma MetaShapeHead(m: Meta, more: seq<Meta>, add: bool, delete: bool, index: bool)
    requires MetaShape([m] + more, add, delete, index)
    ensures Allowed(m, add, delete, index)
    ensures MetaShape(more, add || m.NewFile?, delete || m.DeletedFile?, index || m.Index?)
  {
    var all := [m] + more;
    assert Allowed(all[0], add, delete, index) && |more| <= 1;
    assert |more| == 1 ==> Allowed(all[1], add, delete, index) && all[0].Index? != all[1].Index?;
  }

  lemma MetaShapeCons(m: Meta, more: seq<Meta>, add: bool, delete: bool, index: bool)
    requires Allowed(m, add, delete, index)
    requires MetaShape(more, add || m.NewFile?, delete || m.DeletedFile?, index || m.Index?)
    ensures MetaShape([m] + more, add, delete, index)
  {
    forall i | 0 <= i < |more| ensures Allowed(more[i], add, delete, index) && m.Index? != more[i].Index? {
      assert Allowed(more[i], add || m.NewFile?, delete || m.DeletedFile?, index || m.Index?);
    }
    assert |more| <= 1;
  }

  lemma MetaText(m: Meta)
    requires m.Valid()
    ensures '\n' !in m.Text() && m.Text() != "" && m.Text()[0] in "ndi"
    ensures !StartsWith(m.Text() + "\n", OLD)
  {
    assert OLD[0] == '-';
  }

  lemma RenderMetaStep(m: Meta, more: seq<Meta>, rest: seq<string>)
    ensures RenderMeta([m] + more) + rest == [m.Text() + "\n"] + (RenderMeta(more) + rest)
  {
    assert ([m] + more)[1..] == more;
  }

  lemma AllLinesRest(lines: seq<string>, head: seq<string>, rest: seq<string>)
    requires AllLines(lines) && lines == head + rest
    ensures AllLines(rest)
  {
    assert forall i | 0 <= i < |rest| :: rest[i] == lines[|head| + i];
  }

  lemma NoMeta(add: bool, delete: bool, index: bool)
    ensures RenderMeta([]) == [] && MetaShape([], add, delete, index)
  {
  }

  lemma {:induction false} ReadMetaSound(lines: seq<string>, add: bool, delete: bool, index: bool)
    returns (meta: seq<Meta>, rest: seq<string>)
    requires AllLines(lines) && ReadMeta(lines, add, delete, index).Ok?
    ensures ReadMeta(lines, add, delete, index) == Ok(Pair(meta, rest))
    ensures lines == RenderMeta(meta) + rest
    ensures MetaShape(meta, add, delete, index)
    ensures rest == [] || StartsWith(rest[0], OLD)
    decreases |lines|
  {
    NoMeta(add, delete, index);
    hide RenderMeta, MetaShape, ParseMeta, Trimmed, StartsWith;
    if lines == [] || StartsWith(lines[0], OLD) {
      meta, rest := [], lines;
    } else {
      var m := ParseMeta(Trimmed(lines[0]), add, delete, index).value;
      MetaReads(Trimmed(lines[0]), m, add, delete, index);
      TrimmedBack(lines[0]);
      var more;
      more, rest := ReadMetaSound(lines[1..], add || m.NewFile?, delete || m.DeletedFile?, index || m.Index?);
      MetaShapeCons(m, more, add, delete, index);
      RenderMetaStep(m, more, rest);
      meta := [m] + more;
    }
  }

  lemma {:induction false} ReadMetaComplete(meta: seq<Meta>, rest: seq<string>, add: bool, delete: bool, index: bool)
    requires MetaShape(meta, add, delete, index)
    requires rest != [] && StartsWith(rest[0], OLD)
    ensures ReadMeta(RenderMeta(meta) + rest, add, delete, index) == Ok(Pair(meta, rest))
  {
    if meta == [] {
      assert RenderMeta(meta) + rest == rest;
    } else {
      var m, more := meta[0], meta[1..];
      ConsAppend(meta, []);
      RenderMetaStep(m, more, rest);
      MetaShapeHead(m, more, add, delete, index);
      ReadMetaComplete(more, rest, add || m.NewFile?, delete || m.DeletedFile?, index || m.Index?);
      MetaText(m);
      TrimmedLine(m.Text());
      MetaReads(m.Text(), m, add, delete, index);
      var lines := [m.Text() + "\n"] + (RenderMeta(more) + rest);
      assert lines[1..] == RenderMeta(more) + rest;
    }
  }

  // ---- hunks ----

  predicate EndsBody(lines: seq<string>) {
    lines == [] || StartsWith(lines[0], AT) || StartsWith(lines[0], DIFF_GIT)
  }

  predicate EndsHunks(lines: seq<string>) {
    lines == [] || StartsWith(lines[0], DIFF_GIT)
  }

  predicate ReadsAsBody(line: string) {
    line != "" && (line[0] in " -+" || line == NO_NEWLINE)
  }

  function ReadBody(lines: seq<string>): (r: Result<Pair<seq<string>, seq<string>>, DiffError>)
    ensures r.Ok? ==> |r.value.second| <= |lines|
    ensures r.Ok? ==> forall i | 0 <= i < |r.value.first| :: r.value.first[i] != ""
  {
    if EndsBody(lines) then Ok(Pair([], lines))
    else if !ReadsAsBody(lines[0]) then Err(Malformed)
    else
      var more :- ReadBody(lines[1..]);
      Ok(Pair([lines[0]] + more.first, more.second))
  }

  lemma {:induction false} ReadBodySound(lines: seq<string>) returns (body: seq<string>, rest: seq<string>)
    requires AllLines(lines) && ReadBody(lines).Ok?
    ensures ReadBody(lines) == Ok(Pair(body, rest))
    ensures lines == body + rest
    ensures forall i | 0 <= i < |body| :: IsBodyLine(body[i])
    ensures EndsBody(rest)
  {
    if EndsBody(lines) {
      body, rest := [], lines;
    } else {
      body, rest := ReadBodySound(lines[1..]);
      Associative([lines[0]], body, rest);
      body := [lines[0]] + body;
    }
  }

  lemma {:induction false} ReadBodyComplete(body: seq<string>, rest: seq<string>)
    requires forall i | 0 <= i < |body| :: IsBodyLine(body[i])
    requires EndsBody(rest)
    ensures ReadBody(body + rest) == Ok(Pair(body, rest))
  {
    var lines := body + rest;
    if body == [] {
      assert lines == rest;
    } else {
      ConsAppend(body, rest);
      assert IsBodyLine(body[0]);
      assert body[0][0] in " -+\\" && AT[0] == '@' && DIFF_GIT[0] == 'd';
      assert !EndsBody(lines);
      assert lines[1..] == body[1..] + rest;
      ReadBodyComplete(body[1..], rest);
    }
  }

  function ReadHunk(lines: seq<string>): (r: Result<Pair<Hunk, seq<string>>, DiffError>)
    requires lines != []
    ensures r.Ok? ==> |r.value.second| < |lines|
  {
    if !StartsWith(lines[0], AT) then Err(Malformed) else
    var header :- ParseHunkHeader(lines[0]);
    var got :- ReadBody(lines[1..]);
    if OldLines(got.first) != header.before.Lines() || NewLines(got.first) != header.after.Lines()
    then Err(HunkCount)
    else Ok(Pair(header.(body := got.first), got.second))
  }

  lemma ReadHunkSound(lines: seq<string>) returns (h: Hunk, rest: seq<string>)
    requires lines != [] && AllLines(lines) && ReadHunk(lines).Ok?
    ensures ReadHunk(lines) == Ok(Pair(h, rest))
    ensures lines == h.Render() + rest && h.Valid() && EndsBody(rest)
  {
    HunkHeaderSound(lines[0]);
    var body;
    body, rest := ReadBodySound(lines[1..]);
    var header := ParseHunkHeader(lines[0]).value;
    h := header.(body := body);
    assert h.Header() == header.Header();
    Associative([lines[0]], body, rest);
  }

  lemma HeaderStarts(h: Hunk)
    ensures StartsWith(h.Header(), AT) && !StartsWith(h.Header(), DIFF_GIT)
  {
    assert h.Header()[..3] == AT && DIFF_GIT[0] == 'd';
  }

  lemma ReadHunkComplete(h: Hunk, rest: seq<string>)
    requires h.Valid() && EndsBody(rest)
    ensures ReadHunk(h.Render() + rest) == Ok(Pair(h, rest))
    ensures StartsWith((h.Render() + rest)[0], AT)
  {
    var lines := [h.Header()] + (h.body + rest);
    HunkHeaderComplete(h);
    ReadBodyComplete(h.body, rest);
    Associative([h.Header()], h.body, rest);
    assert lines[1..] == h.body + rest;
    HeaderStarts(h);
  }

  function ReadHunks(lines: seq<string>, total: nat): (r: Result<Pair<seq<Hunk>, seq<string>>, DiffError>)
    ensures r.Ok? ==> |r.value.second| <= |lines|
    decreases |lines|
  {
    if EndsHunks(lines) then Ok(Pair([], lines))
    else
      var got :- ReadHunk(lines);
      if total + 1 > MAX_HUNKS then Err(TooManyHunks) else
      var more :- ReadHunks(got.second, total + 1);
      Ok(Pair([got.first] + more.first, more.second))
  }

  lemma RenderHunksStep(h: Hunk, more: seq<Hunk>, rest: seq<string>)
    ensures RenderHunks([h] + more) + rest == h.Render() + (RenderHunks(more) + rest)
  {
    assert ([h] + more)[1..] == more;
    Associative(h.Render(), RenderHunks(more), rest);
  }

  lemma {:induction false} ReadHunksSound(lines: seq<string>, total: nat)
    returns (hunks: seq<Hunk>, rest: seq<string>)
    requires AllLines(lines) && ReadHunks(lines, total).Ok?
    ensures ReadHunks(lines, total) == Ok(Pair(hunks, rest))
    ensures lines == RenderHunks(hunks) + rest
    ensures forall i | 0 <= i < |hunks| :: hunks[i].Valid()
    ensures hunks != [] ==> total + |hunks| <= MAX_HUNKS
    ensures EndsHunks(rest)
    decreases |lines|
  {
    if EndsHunks(lines) {
      hunks, rest := [], lines;
    } else {
      var h, tail := ReadHunkSound(lines);
      AllLinesRest(lines, h.Render(), tail);
      var more;
      more, rest := ReadHunksSound(tail, total + 1);
      RenderHunksStep(h, more, rest);
      hunks := [h] + more;
    }
  }

  lemma {:induction false} ReadHunksComplete(hunks: seq<Hunk>, rest: seq<string>, total: nat)
    requires forall i | 0 <= i < |hunks| :: hunks[i].Valid()
    requires hunks != [] ==> total + |hunks| <= MAX_HUNKS
    requires EndsHunks(rest)
    ensures ReadHunks(RenderHunks(hunks) + rest, total) == Ok(Pair(hunks, rest))
    ensures EndsBody(RenderHunks(hunks) + rest)
  {
    hide ReadHunk, Hunk.Header;
    if hunks == [] {
      assert RenderHunks(hunks) + rest == rest;
    } else {
      var h, tail := hunks[0], RenderHunks(hunks[1..]) + rest;
      ReadHunksComplete(hunks[1..], rest, total + 1);
      ConsAppend(hunks, []);
      RenderHunksStep(h, hunks[1..], rest);
      ReadHunkComplete(h, tail);
      HeaderStarts(h);
    }
  }
}
