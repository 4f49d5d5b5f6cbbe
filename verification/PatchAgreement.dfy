/** What the applier and the exact-content validator promise each other. */
module PatchAgreement {
  import opened Text
  import opened DiffText
  import opened PatchReview
  import opened PatchFiles

  /** Condition on one patched file: it is not empty unless the base had no final
      newline, and its last line is not blank unless the base had one. */
  predicate WritesBack(lines: seq<string>, newline: bool) {
    if newline then lines != [] else lines == [] || lines[|lines| - 1] != ""
  }

  lemma RebuiltBreakFree(base: seq<string>, cursor: nat, hunks: seq<Hunk>)
    requires AllBreakFree(base)
    requires forall i | 0 <= i < |hunks| :: AllBreakFree(hunks[i].lines)
    requires Rebuilt(base, cursor, hunks).Some?
    ensures AllBreakFree(Rebuilt(base, cursor, hunks).value)
    decreases |hunks|
  {
    if hunks != [] {
      NewLinesBreakFree(hunks[0].lines);
      RebuiltBreakFree(base, At(hunks[0]) + hunks[0].oldCount, hunks[1..]);
    }
  }

  lemma {:induction false} NewLinesBreakFree(lines: seq<string>)
    requires AllBreakFree(lines)
    ensures AllBreakFree(NewLines(lines))
  {
    if lines != [] {
      NewLinesBreakFree(lines[1..]);
      assert BreakFree(lines[0]);
    }
  }

  /** Splitting and ending survive being written out exactly under `WritesBack`. */
  lemma WrittenBack(lines: seq<string>, newline: bool)
    requires AllBreakFree(lines)
    ensures SplitLines(Assemble(lines, newline)) == lines && EndsWithNewline(Assemble(lines, newline)) == newline
            <==> WritesBack(lines, newline)
  {
    SplitAssemble(lines, newline);
    JoinEndsWithNewline(lines);
    assert JoinLines(lines) + "" == JoinLines(lines);
    hide JoinLines, SplitLines;
    if !newline && lines != [] && lines[|lines| - 1] == "" {
      assert |lines[..|lines| - 1]| != |lines|;
    }
  }

  ghost predicate CleanHunks(files: seq<FilePatch>) {
    forall f, h | f in files && h in f.hunks :: AllBreakFree(h.lines)
  }

  lemma {:induction false} AddHunkClean(files: seq<FilePatch>, path: string, h: Hunk)
    requires CleanHunks(files) && AllBreakFree(h.lines)
    ensures CleanHunks(AddHunk(files, path, h))
  {
    hide AllBreakFree;
    if files != [] {
      assert forall f | f in files[1..] :: f in files;
      assert files[0] in files;
      if files[0].path != path {
        AddHunkClean(files[1..], path, h);
      }
    }
  }

  /** No line of a parsed hunk holds a separator: hunks are made of split lines. */
  lemma {:induction false} ParsedClean(p: Parser, lines: seq<string>)
    requires AllBreakFree(lines) && CleanHunks(p.parsed)
    requires p.current.Some? ==> AllBreakFree(p.current.value.lines)
    ensures ParseFrom(p, lines).Some? ==> CleanHunks(ParseFrom(p, lines).value)
    decreases |lines|
  {
    hide MatchHeader, NormalizePath, OldLines, NewLines, AddHunk, CleanHunks, BreakFree;
    if p.path.Some? && p.current.Some? {
      AddHunkClean(p.parsed, p.path.value, p.current.value);
    }
    if lines != [] && Consume(p, lines[0]).Some? {
      assert BreakFree(lines[0]) && BreakFree(" ") by { BlankBreakFree(); }
      ParsedClean(Consume(p, lines[0]).value, lines[1..]);
    }
  }

  lemma BlankBreakFree()
    ensures BreakFree(" ")
  {
  }

  lemma PatchedLinesClean(diff: string, base: string, f: FilePatch)
    requires Parsed(diff).Some? && f in Parsed(diff).value
    requires PatchedLines(base, f.hunks).Some?
    ensures AllBreakFree(PatchedLines(base, f.hunks).value)
  {
    ParsedClean(START, SplitLines(diff));
    var hunks := InOrder(f.hunks);
    forall i | 0 <= i < |hunks| ensures AllBreakFree(hunks[i].lines) {
      assert hunks[i] in hunks;
    }
    RebuiltBreakFree(SplitLines(base), 0, hunks);
  }

  /** The exact-content validator accepts what the applier wrote if and only if no other
      base file was supplied and every patched file can be written back. */
  lemma AcceptsMaterialized(diff: string, baseFiles: map<string, string>, out: map<string, string>)
    requires Parsed(diff).Some? && Parsed(diff).value != []
    requires Materialized(Parsed(diff).value, baseFiles, out)
    ensures Accepts(Parsed(diff).value, baseFiles, out) <==>
            baseFiles.Keys == PathsOf(Parsed(diff).value) && forall f | f in Parsed(diff).value ::
              WritesBack(PatchedLines(baseFiles[f.path], f.hunks).value, EndsWithNewline(baseFiles[f.path]))
  {
    hide Parsed, PatchedLines, Assemble, SplitLines, EndsWithNewline, WritesBack;
    var files := Parsed(diff).value;
    forall f | f in files
      ensures AcceptsText(f.hunks, baseFiles[f.path], out[f.path]) <==>
              WritesBack(PatchedLines(baseFiles[f.path], f.hunks).value, EndsWithNewline(baseFiles[f.path]))
    {
      PatchedLinesClean(diff, baseFiles[f.path], f);
      WrittenBack(PatchedLines(baseFiles[f.path], f.hunks).value, EndsWithNewline(baseFiles[f.path]));
    }
  }

  /** Two texts with the same lines and the same ending. */
  predicate SameLines(a: string, b: string) {
    SplitLines(a) == SplitLines(b) && EndsWithNewline(a) == EndsWithNewline(b)
  }

  /** Given one accepted result, the others are those that read the same line by line. */
  lemma AcceptedResults(files: seq<FilePatch>, baseFiles: map<string, string>, a: map<string, string>,
                        b: map<string, string>)
    requires Accepts(files, baseFiles, a)
    ensures Accepts(files, baseFiles, b) <==>
            a.Keys == b.Keys && forall path | path in a :: path in b && SameLines(a[path], b[path])
  {
    hide PatchedLines, SplitLines, EndsWithNewline;
    forall path | path in a ensures exists f :: f in files && f.path == path {
      assert path in PathsOf(files);
    }
  }

  /** For newline-only text there is one acceptable result at most. */
  lemma AcceptedUnique(files: seq<FilePatch>, baseFiles: map<string, string>, a: map<string, string>,
                       b: map<string, string>)
    requires Accepts(files, baseFiles, a) && Accepts(files, baseFiles, b)
    requires forall path | path in a :: NewlineOnly(a[path])
    requires forall path | path in b :: NewlineOnly(b[path])
    ensures a == b
  {
    hide Accepts, SplitLines, Assemble, NewlineOnly;
    AcceptedResults(files, baseFiles, a, b);
    forall path | path in a ensures a[path] == b[path] {
      AssembleSplit(a[path]);
      AssembleSplit(b[path]);
    }
  }

  // --------------------------------------------------------- writing diffs

  /** A hunk the parser can read back: counted right, every line marked, none of
      them mistaken for the header of a new file. */
  ghost predicate Writable(h: Hunk) {
    && CountsHold(h)
    && forall i | 0 <= i < |h.lines| :: PlainBody(h.lines[i])
  }

  predicate PlainBody(line: string) {
    (Context(line) || Added(line) || Removed(line)) && !StartsWith(line, "+++ b/")
  }

  function HeaderOf(h: Hunk): Header {
    Header(Range(Decimal(h.oldStart), Some(Decimal(h.oldCount))),
           Range(Decimal(h.newStart), Some(Decimal(h.newCount))), "")
  }

  function HunkText(h: Hunk): seq<string> {
    [HeaderOf(h).Text()] + h.lines
  }

  function HunksText(hunks: seq<Hunk>): seq<string> {
    if hunks == [] then [] else HunkText(hunks[0]) + HunksText(hunks[1..])
  }

  function FileText(f: FilePatch): seq<string> {
    ["--- a/" + f.path, "+++ b/" + f.path] + HunksText(f.hunks)
  }

  lemma OpenWritten(h: Hunk)
    ensures StartsWith(HeaderOf(h).Text(), "@@ ") && !StartsWith(HeaderOf(h).Text(), "+++ b/")
    ensures OpenHunk(HeaderOf(h).Text()) == Some(h.(lines := []))
  {
    var header := HeaderOf(h);
    MatchHeaderText(header);
    NumberOfDecimal(h.oldStart);
    NumberOfDecimal(h.oldCount);
    NumberOfDecimal(h.newStart);
    NumberOfDecimal(h.newCount);
    assert header.Text()[0] == '@' && header.Text()[1] == '@' && header.Text()[2] == ' ';
  }

  /** The body of an open hunk is read line by line. */
  lemma {:induction false} ParseBody(p: Parser, open_: Hunk, body: seq<string>, rest: seq<string>)
    requires p.current == Some(open_)
    requires forall i | 0 <= i < |body| :: PlainBody(body[i])
    ensures ParseFrom(p, body + rest) == ParseFrom(p.(current := Some(open_.(lines := open_.lines + body))), rest)
    decreases |body|
  {
    hide OldLines, NewLines, MatchHeader, NormalizePath, AddHunk;
    if body == [] {
      assert body + rest == rest && open_.lines + body == open_.lines;
    } else {
      var line := body[0];
      assert PlainBody(line);
      assert (body + rest)[1..] == body[1..] + rest && (body + rest)[0] == line;
      var grown := open_.(lines := open_.lines + [line]);
      assert Consume(p, line) == Some(p.(current := Some(grown))) by { ConsumeBody(p, open_, line); }
      ParseBody(p.(current := Some(grown)), grown, body[1..], rest);
      assert grown.lines + body[1..] == open_.lines + body;
    }
  }

  lemma ConsumeBody(p: Parser, open_: Hunk, line: string)
    requires p.current == Some(open_) && PlainBody(line)
    ensures Consume(p, line) == Some(p.(current := Some(open_.(lines := open_.lines + [line]))))
  {
    assert "@@ "[0] != line[0];
  }

  lemma ConsumeHeader(p: Parser, h: Hunk)
    requires p.path.Some? && (p.current.Some? ==> CountsHold(p.current.value))
    ensures Consume(p, HeaderOf(h).Text()) == Some(Parser(p.path, Some(h.(lines := [])), Closed(p)))
  {
    hide MatchHeader, OpenHunk, HeaderOf, CountsHold, AddHunk;
    OpenWritten(h);
  }

  /** The files collected once the open hunk, if any, is closed. */
  function Closed(p: Parser): seq<FilePatch> {
    if p.path.Some? && p.current.Some? then AddHunk(p.parsed, p.path.value, p.current.value) else p.parsed
  }

  lemma {:induction false} ParseHunks(p: Parser, path: string, done: seq<Hunk>, hunks: seq<Hunk>)
    requires p.path == Some(path) && (p.current.Some? ==> CountsHold(p.current.value))
    requires Closed(p) == if done == [] then [] else [FilePatch(path, done)]
    requires forall i | 0 <= i < |hunks| :: Writable(hunks[i])
    ensures ParseFrom(p, HunksText(hunks)) == Some(if done + hunks == [] then [] else [FilePatch(path, done + hunks)])
    decreases |hunks|
  {
    hide Consume, HeaderOf, HunkText, Writable, AddHunk, CountsHold;
    if hunks == [] {
      assert done + hunks == done;
    } else {
      var h := hunks[0];
      ParseOneHunk(p, path, done, h, HunksText(hunks[1..]));
      var q := Parser(p.path, Some(h), Closed(p));
      assert CountsHold(h) by { assert Writable(hunks[0]); WritableCounts(h); }
      ParseHunks(q, path, done + [h], hunks[1..]);
      assert done + [h] + hunks[1..] == done + hunks;
    }
  }

  lemma WritableCounts(h: Hunk)
    requires Writable(h)
    ensures CountsHold(h)
  {
  }

  lemma ParseOneHunk(p: Parser, path: string, done: seq<Hunk>, h: Hunk, rest: seq<string>)
    requires p.path == Some(path) && (p.current.Some? ==> CountsHold(p.current.value))
    requires Closed(p) == if done == [] then [] else [FilePatch(path, done)]
    requires Writable(h)
    ensures var q := Parser(p.path, Some(h), Closed(p));
            && ParseFrom(p, HunkText(h) + rest) == ParseFrom(q, rest)
            && Closed(q) == [FilePatch(path, done + [h])]
  {
    hide Consume, HeaderOf, OldLines, NewLines, PlainBody;
    var all := HunkText(h) + rest;
    assert all[0] == HeaderOf(h).Text() && all[1..] == h.lines + rest;
    ConsumeHeader(p, h);
    var opened_ := h.(lines := []);
    ParseBody(Parser(p.path, Some(opened_), Closed(p)), opened_, h.lines, rest);
    assert opened_.lines + h.lines == h.lines;
    AddToSame(path, done, h);
  }

  lemma AddToSame(path: string, done: seq<Hunk>, h: Hunk)
    ensures AddHunk(if done == [] then [] else [FilePatch(path, done)], path, h) == [FilePatch(path, done + [h])]
  {
    if done == [] {
      assert done + [h] == [h];
    } else {
      assert [FilePatch(path, done)][1..] == [];
    }
  }

  /** A written single-file diff is parsed to the hunks it was written from. */
  lemma ParseWritten(f: FilePatch)
    requires f.hunks != [] && NormalizePath(f.path) == f.path
    requires forall i | 0 <= i < |f.hunks| :: Writable(f.hunks[i])
    ensures ParseFrom(START, FileText(f)) == Some([f])
  {
    hide NormalizePath, MatchHeader, HunksText, Writable;
    var lines := FileText(f);
    var body := HunksText(f.hunks);
    var plus := "+++ b/" + f.path;
    var minus := "--- a/" + f.path;
    assert lines[0] == minus && lines[1..] == [plus] + body;
    assert minus[0] == '-';
    assert ([plus] + body)[1..] == body;
    assert plus[6..] == f.path;
    assert Consume(START, minus) == Some(START);
    var p := Parser(Some(f.path), None, []);
    assert Consume(START, plus) == Some(p);
    ParseHunks(p, f.path, [], f.hunks);
    assert [] + f.hunks == f.hunks;
  }

  const EMPTYING := Hunk(1, 1, 1, 0, ["-x"])

  lemma EmptyingLines()
    ensures OldLines(EMPTYING.lines) == ["x"] && NewLines(EMPTYING.lines) == []
  {
    assert EMPTYING.lines[1..] == [];
    assert "-x"[1..] == "x";
  }

  lemma EmptyingPatch()
    ensures Rebuilt(["x"], 0, [EMPTYING]) == Some([])
  {
    hide OldLines, NewLines;
    EmptyingLines();
    var base := ["x"];
    assert Slice(base, 0, 1) == base;
    assert [EMPTYING][1..] == [];
    assert Rebuilt(base, 1, []) == Some([]);
    assert Slice(base, 0, 0) + NewLines(EMPTYING.lines) + [] == [];
  }

  lemma EmptyingTexts()
    ensures SplitLines("x\n") == ["x"] && SplitLines("\n") == [""]
    ensures EndsWithNewline("x\n") && Assemble([], true) == "\n"
  {
    SplitFirst("x", "");
    SplitFirst("", "");
    assert "x" + "\n" + "" == "x\n" && "" + "\n" + "" == "\n";
  }

  /** Emptying a file that ended in a newline: the applier writes a text that the
      exact-content validator turns down. */
  lemma EmptiedFileRefused()
    ensures var f := FilePatch("a", [EMPTYING]);
            && ParseFrom(START, FileText(f)) == Some([f])
            && PatchedText("x\n", f.hunks) == Some("\n")
            && !AcceptsText(f.hunks, "x\n", "\n")
  {
    hide ParseFrom, Rebuilt, SplitLines, EndsWithNewline, Assemble, FileText;
    var f := FilePatch("a", [EMPTYING]);
    EmptyingLines();
    assert PlainBody("-x");
    assert Writable(EMPTYING);
    assert NormalizePath("a") == "a" by { assert ForwardSlashes("a") == "a"; }
    ParseWritten(f);
    EmptyingTexts();
    EmptyingPatch();
    assert InOrder([EMPTYING]) == [EMPTYING] by { assert [EMPTYING][1..] == []; }
  }
}
