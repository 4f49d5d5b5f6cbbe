/** The second validator, and when it agrees with the applier. */
module PatchContents {
  import opened Text
  import opened DiffText
  import opened PatchReview
  import opened PatchPlaces
  import opened PatchFiles
  import opened PatchAgreement

  /** What one hunk says the finished file must contain. */
  datatype Claim = Claim(path: string, start: nat, count: nat, lines: seq<string>)

  datatype Open = Open(start: nat, count: nat, lines: seq<string>)

  datatype Scanner = Scanner(path: Option<string>, current: Option<Open>, claims: seq<Claim>)

  const SCAN_START := Scanner(None, None, [])

  function Release(s: Scanner): Scanner {
    if s.path.Some? && s.current.Some? then
      var o := s.current.value;
      Scanner(s.path, None, s.claims + [Claim(s.path.value, o.start, o.count, o.lines)])
    else s.(current := None)
  }

  function Scan(s: Scanner, line: string): Option<Scanner> {
    if StartsWith(line, "+++ b/") then Some(Release(s).(path := Some(NormalizePath(line[6..]))))
    else if StartsWith(line, "@@ ") then
      match MatchHeader(line)
      case None => None
      case Some(h) => Some(Release(s).(current := Some(Open(h.after.Start(), h.after.Count(), []))))
    else if s.current.Some? && (Context(line) || Added(line)) then
      var o := s.current.value;
      Some(s.(current := Some(o.(lines := o.lines + [line[1..]]))))
    else Some(s)
  }

  function ScanFrom(s: Scanner, lines: seq<string>): Option<seq<Claim>>
    decreases |lines|
  {
    if lines == [] then Some(Release(s).claims)
    else
      match Scan(s, lines[0])
      case None => None
      case Some(t) => ScanFrom(t, lines[1..])
  }

  /** Python's `s[i:j]`, for any integers. */
  function PySlice(s: seq<string>, i: int, j: int): seq<string> {
    var lo := if i < 0 then (if |s| + i < 0 then 0 else |s| + i) else i;
    var hi := if j < 0 then (if |s| + j < 0 then 0 else |s| + j) else if j < |s| then j else |s|;
    if lo < hi then s[lo..hi] else []
  }

  predicate Holds(c: Claim, contents: map<string, string>) {
    && c.path in contents
    && PySlice(SplitLines(contents[c.path]), c.start - 1, c.start - 1 + c.count) == c.lines
  }

  function ClaimPaths(claims: seq<Claim>): set<string> {
    set c | c in claims :: c.path
  }

  predicate ContentsMatch(lines: seq<string>, contents: map<string, string>) {
    var claims := ScanFrom(SCAN_START, lines);
    && claims.Some? && claims.value != []
    && ClaimPaths(claims.value) == contents.Keys
    && forall c | c in claims.value :: Holds(c, contents)
  }

  method ValidatePatchFileContents(diff: string, contents: map<string, string>) returns (ok: bool)
    ensures ok <==> ContentsMatch(SplitLines(diff), contents)
  {
    hide Scan, Release, SplitLines, Holds;
    var lines := SplitLines(diff);
    var s := SCAN_START;
    var i := 0;
    assert lines[0..] == lines;
    while i < |lines|
      invariant 0 <= i <= |lines|
      invariant ScanFrom(s, lines[i..]) == ScanFrom(SCAN_START, lines)
    {
      assert lines[i..][1..] == lines[i + 1..];
      var t := Scan(s, lines[i]);
      if t.None? {
        return false;
      }
      s := t.value;
      i := i + 1;
    }
    assert lines[i..] == [];
    var claims := Release(s).claims;
    if claims == [] || ClaimPaths(claims) != contents.Keys {
      return false;
    }
    var k := 0;
    while k < |claims|
      invariant 0 <= k <= |claims|
      invariant forall j | 0 <= j < k :: Holds(claims[j], contents)
    {
      if !Holds(claims[k], contents) {
        return false;
      }
      k := k + 1;
    }
    return true;
  }

  // ------------------------------------------- agreement with the parser

  /** No hunk comes before the first file header, and no blank line stands in a hunk body. */
  predicate Tidy(path: bool, inHunk: bool, lines: seq<string>)
    decreases |lines|
  {
    if lines == [] then true
    else if StartsWith(lines[0], "+++ b/") then Tidy(true, false, lines[1..])
    else if StartsWith(lines[0], "@@ ") then path && Tidy(path, true, lines[1..])
    else (inHunk ==> lines[0] != "") && Tidy(path, inHunk, lines[1..])
  }

  function ClaimOf(path: string, h: Hunk): Claim {
    Claim(path, h.newStart, h.newCount, NewLines(h.lines))
  }

  /** Some hunk of the parsed files makes the claim `c`. */
  ghost predicate Claims(files: seq<FilePatch>, c: Claim) {
    exists f, h :: f in files && h in f.hunks && c == ClaimOf(f.path, h)
  }

  /** The scanner's claims are those of the parsed hunks. */
  ghost predicate SameHunks(files: seq<FilePatch>, claims: seq<Claim>) {
    forall c :: c in claims <==> Claims(files, c)
  }

  ghost predicate InStep(p: Parser, s: Scanner) {
    && p.path == s.path
    && (p.current.Some? ==> p.path.Some?)
    && p.current.Some? == s.current.Some?
    && (p.current.Some? ==>
          var h := p.current.value;
          s.current.value == Open(h.newStart, h.newCount, NewLines(h.lines)))
    && SameHunks(p.parsed, s.claims)
  }

  lemma ClaimsCons(f: FilePatch, files: seq<FilePatch>, c: Claim)
    ensures Claims([f] + files, c) <==> (exists h :: h in f.hunks && c == ClaimOf(f.path, h)) || Claims(files, c)
  {
    hide ClaimOf;
    if Claims(files, c) {
      var g, h :| g in files && h in g.hunks && c == ClaimOf(g.path, h);
      assert g in [f] + files;
    }
    if h :| h in f.hunks && c == ClaimOf(f.path, h) {
      assert f in [f] + files;
    }
  }

  lemma {:induction false} AddHunkClaims(files: seq<FilePatch>, path: string, h: Hunk, c: Claim)
    ensures Claims(AddHunk(files, path, h), c) <==> c == ClaimOf(path, h) || Claims(files, c)
  {
    hide ClaimOf, Claims;
    if files == [] {
      ClaimsCons(FilePatch(path, [h]), [], c);
      assert [FilePatch(path, [h])] + [] == [FilePatch(path, [h])];
      assert !Claims([], c) by { NoClaims(c); }
    } else {
      var f, tail := files[0], files[1..];
      assert files == [f] + tail;
      ClaimsCons(f, tail, c);
      if f.path == path {
        var grown := FilePatch(path, f.hunks + [h]);
        ClaimsCons(grown, tail, c);
        forall g ensures g in grown.hunks <==> g in f.hunks || g == h {
        }
      } else {
        AddHunkClaims(tail, path, h, c);
        ClaimsCons(f, AddHunk(tail, path, h), c);
      }
    }
  }

  lemma NoClaims(c: Claim)
    ensures !Claims([], c)
  {
  }

  lemma ReleaseInStep(p: Parser, s: Scanner)
    requires InStep(p, s) && Flush(p).Some?
    ensures InStep(Flush(p).value, Release(s))
    ensures Flush(p).value.current.None?
  {
    hide CountsHold, NewLines, AddHunk, Claims;
    if p.current.Some? {
      var h := p.current.value;
      var released := s.claims + [ClaimOf(p.path.value, h)];
      assert Release(s).claims == released;
      forall c ensures c in released <==> Claims(AddHunk(p.parsed, p.path.value, h), c) {
        AddHunkClaims(p.parsed, p.path.value, h, c);
      }
    }
  }

  lemma {:induction false} NewLinesAppend(lines: seq<string>, line: string)
    ensures NewLines(lines + [line]) ==
            NewLines(lines) + if Context(line) || Added(line) then [line[1..]] else []
  {
    if lines == [] {
      assert [line][1..] == [];
      assert lines + [line] == [line];
    } else {
      NewLinesAppend(lines[1..], line);
      NewLinesCons(lines[0], lines[1..]);
      NewLinesCons(lines[0], lines[1..] + [line]);
      assert [lines[0]] + lines[1..] == lines;
      assert [lines[0]] + (lines[1..] + [line]) == lines + [line];
    }
  }

  lemma NewLinesCons(first: string, rest: seq<string>)
    ensures NewLines([first] + rest) == (if Context(first) || Added(first) then [first[1..]] else []) + NewLines(rest)
  {
    assert ([first] + rest)[1..] == rest;
  }

  lemma StepInStep(p: Parser, s: Scanner, line: string)
    requires InStep(p, s) && Consume(p, line).Some?
    requires StartsWith(line, "@@ ") && !StartsWith(line, "+++ b/") ==> p.path.Some?
    requires p.current.Some? && !StartsWith(line, "@@ ") && !StartsWith(line, "+++ b/") ==> line != ""
    ensures Scan(s, line).Some?
    ensures InStep(Consume(p, line).value, Scan(s, line).value)
    ensures !StartsWith(line, "@@ ") && !StartsWith(line, "+++ b/") ==>
            Consume(p, line).value.current.Some? == p.current.Some?
    ensures StartsWith(line, "+++ b/") ==> Consume(p, line).value.current.None?
  {
    hide NormalizePath, MatchHeader, NewLines, SameHunks, CountsHold;
    if StartsWith(line, "+++ b/") {
      ReleaseInStep(p, s);
    } else if StartsWith(line, "@@ ") {
      ReleaseInStep(p, s);
      assert NewLines([]) == [] by { NoNewLines(); }
    } else if p.current.Some? {
      NewLinesAppend(p.current.value.lines, line);
    }
  }

  lemma NoNewLines()
    ensures NewLines([]) == []
  {
  }

  /** On tidy input the two scans see the same hunks. */
  lemma {:induction false} ScansAgree(p: Parser, s: Scanner, lines: seq<string>)
    requires InStep(p, s)
    requires Tidy(p.path.Some?, p.current.Some?, lines)
    requires ParseFrom(p, lines).Some?
    ensures ScanFrom(s, lines).Some?
    ensures SameHunks(ParseFrom(p, lines).value, ScanFrom(s, lines).value)
    decreases |lines|
  {
    hide InStep, Scan, Release, SameHunks;
    if lines == [] {
      ReleaseInStep(p, s);
      InStepHunks(Flush(p).value, Release(s));
    } else {
      StepInStep(p, s, lines[0]);
      ConsumePath(p, lines[0]);
      ScansAgree(Consume(p, lines[0]).value, Scan(s, lines[0]).value, lines[1..]);
    }
  }

  lemma ConsumePath(p: Parser, line: string)
    requires Consume(p, line).Some?
    ensures Consume(p, line).value.path.Some? <==> p.path.Some? || StartsWith(line, "+++ b/")
    ensures !StartsWith(line, "+++ b/") && StartsWith(line, "@@ ") ==> Consume(p, line).value.current.Some?
  {
    hide NormalizePath, MatchHeader, NewLines, CountsHold;
  }

  lemma InStepHunks(p: Parser, s: Scanner)
    requires InStep(p, s)
    ensures SameHunks(p.parsed, s.claims)
  {
  }

  /** Where a hunk's new text belongs: its old start moved by the growth of the hunks before it. */
  function PlaceOf(hunks: seq<Hunk>, i: nat): int
    requires i < |hunks|
  {
    hunks[i].oldStart - 1 + GrowthOf(hunks, Before(hunks, i), |hunks|)
  }

  /** Every hunk's new start is where its new text belongs. */
  predicate Renumbered(hunks: seq<Hunk>) {
    forall i | 0 <= i < |hunks| :: hunks[i].newStart - 1 == PlaceOf(hunks, i)
  }

  lemma PlainSlice(s: seq<string>, i: int, j: int)
    requires 0 <= i <= j <= |s|
    ensures PySlice(s, i, j) == s[i..j]
  {
  }

  /** A parsed diff names each file once at least one of its hunks is kept. */
  lemma SamePaths(files: seq<FilePatch>, claims: seq<Claim>)
    requires WellCounted(files) && SameHunks(files, claims)
    ensures ClaimPaths(claims) == PathsOf(files)
    ensures files != [] ==> claims != []
  {
    hide ClaimOf, AllCountsHold;
    forall f | f in files ensures f.path in ClaimPaths(claims) {
      var c := ClaimOf(f.path, f.hunks[0]);
      assert f.hunks[0] in f.hunks;
      assert Claims(files, c);
      assert c.path == f.path by { ClaimPath(f.path, f.hunks[0]); }
      assert c in claims;
    }
    forall c | c in claims ensures c.path in PathsOf(files) {
      assert Claims(files, c);
      var f, h :| f in files && h in f.hunks && c == ClaimOf(f.path, h);
      ClaimPath(f.path, h);
    }
    if files != [] {
      assert files[0].path in ClaimPaths(claims);
    }
  }

  lemma ClaimPath(path: string, h: Hunk)
    ensures ClaimOf(path, h).path == path
  {
  }

  /** By its stated start a hunk of the finished file reads what stands at the hunk's place in the patched lines. */
  predicate ReadsItsPlace(base: string, out: string, hunks: seq<Hunk>, k: nat)
    requires PatchedLines(base, hunks).Some? && k < |hunks|
  {
    var h, place := hunks[k], PlaceOf(hunks, k);
    PySlice(SplitLines(out), h.newStart - 1, h.newStart - 1 + h.newCount) ==
    PySlice(PatchedLines(base, hunks).value, place, place + h.newCount)
  }

  lemma PlaceHoldsNewLines(base: string, hunks: seq<Hunk>, k: nat)
    requires AllCountsHold(hunks) && PatchedLines(base, hunks).Some? && k < |hunks|
    ensures var h, place := hunks[k], PlaceOf(hunks, k);
            PySlice(PatchedLines(base, hunks).value, place, place + h.newCount) == NewLines(h.lines)
  {
    hide SplitLines, NewLines, PySlice, AllCountsHold, PatchedLines, Before, GrowthOf, Fit;
    var lines, place := PatchedLines(base, hunks).value, PlaceOf(hunks, k);
    FileFits(base, hunks);
    assert NewTextPlaced(hunks, lines, k);
    PlainSlice(lines, place, place + hunks[k].newCount);
  }

  /** A correctly numbered new start finds the hunk's new lines. */
  lemma ClaimMet(base: string, lines: seq<string>, hunks: seq<Hunk>, h: Hunk)
    requires AllCountsHold(hunks) && h in hunks
    requires PatchedLines(base, hunks) == Some(lines)
    requires Renumbered(hunks)
    ensures PySlice(lines, h.newStart - 1, h.newStart - 1 + h.newCount) == NewLines(h.lines)
  {
    hide SplitLines, NewLines, PySlice, AllCountsHold, PatchedLines, PlaceOf;
    var k :| 0 <= k < |hunks| && hunks[k] == h;
    PlaceHoldsNewLines(base, hunks, k);
  }

  lemma HoldsAtPlace(f: FilePatch, base: string, contents: map<string, string>, k: nat)
    requires AllCountsHold(f.hunks) && PatchedLines(base, f.hunks).Some? && f.path in contents
    requires k < |f.hunks|
    ensures Holds(ClaimOf(f.path, f.hunks[k]), contents) <==> ReadsItsPlace(base, contents[f.path], f.hunks, k)
  {
    hide SplitLines, NewLines, PySlice, AllCountsHold, PatchedLines, PlaceOf;
    PlaceHoldsNewLines(base, f.hunks, k);
  }

  /** The claims of one file hold exactly when every hunk reads its place. */
  lemma FileClaims(f: FilePatch, base: string, contents: map<string, string>)
    requires AllCountsHold(f.hunks) && PatchedLines(base, f.hunks).Some? && f.path in contents
    ensures (forall h | h in f.hunks :: Holds(ClaimOf(f.path, h), contents)) <==>
            (forall k | 0 <= k < |f.hunks| :: ReadsItsPlace(base, contents[f.path], f.hunks, k))
  {
    hide *;
    forall k | 0 <= k < |f.hunks|
      ensures Holds(ClaimOf(f.path, f.hunks[k]), contents) <==> ReadsItsPlace(base, contents[f.path], f.hunks, k)
    {
      HoldsAtPlace(f, base, contents, k);
    }
  }

  lemma SameHunksClaims(files: seq<FilePatch>, claims: seq<Claim>, contents: map<string, string>)
    requires SameHunks(files, claims)
    ensures (forall c | c in claims :: Holds(c, contents)) <==>
            (forall f, h | f in files && h in f.hunks :: Holds(ClaimOf(f.path, h), contents))
  {
    hide Holds, ClaimOf;
    forall f, h | f in files && h in f.hunks ensures ClaimOf(f.path, h) in claims {
      assert Claims(files, ClaimOf(f.path, h));
    }
    forall c | c in claims ensures Claims(files, c) {
    }
  }

  lemma PatchedTextLines(base: string, hunks: seq<Hunk>)
    ensures PatchedText(base, hunks).Some? ==> PatchedLines(base, hunks).Some?
  {
  }

  /** For tidy diffs the second validator accepts what the applier wrote exactly when
      every hunk's stated new start reads the hunk's place: renumbering, lost blank
      lines and lines that repeat by chance all show here. */
  lemma ContentsExactlyWhen(diff: string, baseFiles: map<string, string>, out: map<string, string>)
    requires Parsed(diff).Some? && Parsed(diff).value != []
    requires Materialized(Parsed(diff).value, baseFiles, out)
    requires Tidy(false, false, SplitLines(diff))
    ensures ContentsMatch(SplitLines(diff), out) <==>
            forall f, k | f in Parsed(diff).value && 0 <= k < |f.hunks| ::
              ReadsItsPlace(baseFiles[f.path], out[f.path], f.hunks, k)
  {
    hide Parsed, SplitLines, ScanFrom, SameHunks, PatchedText, PatchedLines, Holds, ClaimOf, ReadsItsPlace;
    hide AllCountsHold;
    var files := Parsed(diff).value;
    TidyScan(diff);
    var claims := ScanFrom(SCAN_START, SplitLines(diff)).value;
    SamePaths(files, claims);
    SameHunksClaims(files, claims, out);
    forall f | f in files
      ensures PatchedLines(baseFiles[f.path], f.hunks).Some?
      ensures (forall h | h in f.hunks :: Holds(ClaimOf(f.path, h), out)) <==>
              (forall k | 0 <= k < |f.hunks| :: ReadsItsPlace(baseFiles[f.path], out[f.path], f.hunks, k))
    {
      PatchedTextLines(baseFiles[f.path], f.hunks);
      FileClaims(f, baseFiles[f.path], out);
    }
  }

  lemma RenumberedReads(diff: string, f: FilePatch, base: string, out: string, k: nat)
    requires Parsed(diff).Some? && f in Parsed(diff).value && k < |f.hunks|
    requires PatchedText(base, f.hunks) == Some(out) && Renumbered(f.hunks)
    requires WritesBack(PatchedLines(base, f.hunks).value, EndsWithNewline(base))
    ensures ReadsItsPlace(base, out, f.hunks, k)
  {
    hide Parsed, SplitLines, WritesBack, Assemble, PySlice, EndsWithNewline, PatchedLines, PlaceOf;
    PatchedLinesClean(diff, base, f);
    WrittenBack(PatchedLines(base, f.hunks).value, EndsWithNewline(base));
  }

  /** The text the applier writes also passes the independent validator, for tidy
      diffs whose hunks are renumbered correctly and whose files can be written back. */
  lemma ContentsOfMaterialized(diff: string, baseFiles: map<string, string>, out: map<string, string>)
    requires Parsed(diff).Some? && Parsed(diff).value != []
    requires Materialized(Parsed(diff).value, baseFiles, out)
    requires Tidy(false, false, SplitLines(diff))
    requires forall f | f in Parsed(diff).value :: Renumbered(f.hunks)
    requires forall f | f in Parsed(diff).value ::
               WritesBack(PatchedLines(baseFiles[f.path], f.hunks).value, EndsWithNewline(baseFiles[f.path]))
    ensures ContentsMatch(SplitLines(diff), out)
  {
    hide Parsed, SplitLines, PatchedText, PatchedLines, ReadsItsPlace, Renumbered, WritesBack, ContentsMatch;
    hide Tidy, EndsWithNewline;
    ContentsExactlyWhen(diff, baseFiles, out);
    forall f, k | f in Parsed(diff).value && 0 <= k < |f.hunks|
      ensures PatchedLines(baseFiles[f.path], f.hunks).Some?
      ensures ReadsItsPlace(baseFiles[f.path], out[f.path], f.hunks, k)
    {
      PatchedTextLines(baseFiles[f.path], f.hunks);
      RenumberedReads(diff, f, baseFiles[f.path], out[f.path], k);
    }
  }

  lemma TidyScan(diff: string)
    requires Parsed(diff).Some? && Tidy(false, false, SplitLines(diff))
    ensures ScanFrom(SCAN_START, SplitLines(diff)).Some?
    ensures SameHunks(Parsed(diff).value, ScanFrom(SCAN_START, SplitLines(diff)).value)
    ensures WellCounted(Parsed(diff).value)
  {
    hide SplitLines, ParseFrom, ScanFrom, SameHunks, Tidy, WellCounted;
    var lines := SplitLines(diff);
    assert WellCounted([]) && InStep(START, SCAN_START) by { Together(); }
    ParsedCounts(START, lines);
    ScansAgree(START, SCAN_START, lines);
  }

  lemma Together()
    ensures InStep(START, SCAN_START) && WellCounted([])
  {
  }
}
