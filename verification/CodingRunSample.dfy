/** Two coding runs that the store writes and then refuses to read, in full: the diff they
    review, the worktree they describe, and every check they pass on the way. */
module CodingRunSample {
  import opened Text
  import opened DiffText
  import opened Sorting
  import opened PatchContents
  import HunkCounts
  import opened CodingRunCodec
  import opened CodingRunRoundTrip
  import opened IsoTime

  const RANGE := Range("1", Some("1"))
  const HEAD := Header(RANGE, RANGE, "").Text()

  /** One line of a file replaced. */
  function Block(path: string): seq<string> {
    ["--- a/" + path, "+++ b/" + path, HEAD, "-old", "+new"]
  }

  function Lines(p: string, q: string): seq<string> {
    Block(p) + (Block(q) + [])
  }

  function Diff(p: string, q: string): string {
    JoinLines(Lines(p, q))
  }

  predicate Plain(path: string) {
    path == "a" || path == "b"
  }

  // ----------------------------------------------------------------------- the diff

  lemma HeadIs()
    ensures MatchHeader(HEAD) == Some(Header(RANGE, RANGE, ""))
    ensures RANGE.Start() == 1 && RANGE.Count() == 1
    ensures BreakFree(HEAD)
  {
    hide MatchHeader, IsBreak;
    One();
    MatchHeaderText(Header(RANGE, RANGE, ""));
    HunkCounts.TextBreakFree(Header(RANGE, RANGE, ""));
  }

  lemma HeadStarts()
    ensures |HEAD| == 15 && HEAD[0] == '@' && StartsWith(HEAD, "@@ ")
  {
    assert |RANGE.Text()| == 3;
    var rest := RANGE.Text() + (" +" + (RANGE.Text() + (" @@" + "")));
    assert |rest| == 11;
    assert HEAD == "@@ -" + rest;
    assert HEAD[..3] == "@@ ";
  }

  lemma One()
    ensures AllDigits("1") && NumberOf("1") == 1
  {
    assert "1"[..0] == "";
  }

  lemma PlainPath(path: string)
    requires Plain(path)
    ensures NormalizePath(path) == path && path != "/dev/null" && BreakFree(path)
  {
    NotStripped(path);
  }

  lemma NotStripped(path: string)
    requires |path| == 1 && !IsSpace(path[0]) && path[0] != '\\' && path[0] != '.'
    ensures NormalizePath(path) == path
  {
    assert StripLeft(path) == path;
    assert StripRight(path) == path;
    assert ForwardSlashes(path) == path;
  }

  lemma ScanStep(s: Scanner, line: string, rest: seq<string>)
    ensures Scan(s, line).Some? ==> ScanFrom(s, [line] + rest) == ScanFrom(Scan(s, line).value, rest)
  {
    hide Scan;
    assert ([line] + rest)[1..] == rest;
  }

  lemma ScanMarked(s: Scanner)
    ensures Scan(s, "-old") == Some(s)
    ensures s.current.Some? ==>
            Scan(s, "+new") == Some(s.(current := Some(s.current.value.(lines := s.current.value.lines + ["new"]))))
  {
    hide NormalizePath, MatchHeader;
    assert "-old"[0] == '-' && "+new"[0] == '+' && "+new"[1] == 'n' && "+new"[1..] == "new";
  }

  lemma ScanHeads(s: Scanner, path: string)
    requires Plain(path)
    ensures Scan(s, "--- a/" + path) == Some(s)
    ensures Scan(s, "+++ b/" + path) == Some(Release(s).(path := Some(path)))
    ensures Scan(s, HEAD) == Some(Release(s).(current := Some(Open(1, 1, []))))
  {
    hide NormalizePath, MatchHeader, Release;
    PlainPath(path);
    HeadIs();
    HeadStarts();
    assert ("--- a/" + path)[0] == '-';
    assert ("+++ b/" + path)[6..] == path;
  }

  /** What the second scanner makes of one file's part of the diff. */
  lemma ScanBlock(s: Scanner, path: string, rest: seq<string>)
    requires Plain(path)
    ensures ScanFrom(s, Block(path) + rest) ==
            ScanFrom(Scanner(Some(path), Some(Open(1, 1, ["new"])), Release(s).claims), rest)
  {
    hide ScanFrom, Scan;
    var marked: seq<string> := ["+new"] + rest;
    var body: seq<string> := ["-old"] + marked;
    var hunk: seq<string> := [HEAD] + body;
    var file: seq<string> := ["+++ b/" + path] + hunk;
    assert Block(path) + rest == ["--- a/" + path] + file;
    ScanHeads(s, path);
    ScanStep(s, "--- a/" + path, file);
    var t := Release(s).(path := Some(path));
    ScanStep(s, "+++ b/" + path, hunk);
    ScanHeads(t, path);
    ScanStep(t, HEAD, body);
    var u := t.(current := Some(Open(1, 1, [])));
    ScanMarked(u);
    ScanStep(u, "-old", marked);
    assert [] + ["new"] == ["new"];
    ScanStep(u, "+new", rest);
  }

  lemma LinesScanned(p: string, q: string)
    requires Plain(p) && Plain(q)
    ensures ScanFrom(SCAN_START, Lines(p, q)) == Some([Claim(p, 1, 1, ["new"]), Claim(q, 1, 1, ["new"])])
  {
    hide Block;
    ScanBlock(SCAN_START, p, Block(q) + []);
    var s := Scanner(Some(p), Some(Open(1, 1, ["new"])), []);
    ScanBlock(s, q, []);
    assert Release(s).claims == [Claim(p, 1, 1, ["new"])];
    assert [Claim(p, 1, 1, ["new"])] + [Claim(q, 1, 1, ["new"])] == [Claim(p, 1, 1, ["new"]), Claim(q, 1, 1, ["new"])];
  }

  lemma ChangedStep(files: seq<string>, line: string, rest: seq<string>)
    ensures ChangedFiles(files, [line] + rest) ==
            match ChangedPath(line)
            case Some(path) => ChangedFiles(if path in files then files else files + [path], rest)
            case None => ChangedFiles(files, rest)
  {
    hide ChangedPath;
    assert ([line] + rest)[1..] == rest;
  }

  lemma ChangedLines(path: string)
    requires Plain(path)
    ensures ChangedPath("--- a/" + path) == None && ChangedPath("+++ b/" + path) == Some(path)
            && ChangedPath(HEAD) == None
    ensures ChangedPath("-old") == None && ChangedPath("+new") == None
  {
    hide NormalizePath;
    PlainPath(path);
    HeadStarts();
    assert ("--- a/" + path)[0] == '-' && "-old"[0] == '-' && "+new"[1] == 'n';
    assert ("+++ b/" + path)[6..] == path;
  }

  lemma ChangedBlock(files: seq<string>, path: string, rest: seq<string>)
    requires Plain(path)
    ensures ChangedFiles(files, Block(path) + rest) ==
            ChangedFiles(if path in files then files else files + [path], rest)
  {
    hide ChangedFiles, ChangedPath;
    var marked: seq<string> := ["+new"] + rest;
    var body: seq<string> := ["-old"] + marked;
    var hunk: seq<string> := [HEAD] + body;
    var file: seq<string> := ["+++ b/" + path] + hunk;
    assert Block(path) + rest == ["--- a/" + path] + file;
    ChangedLines(path);
    ChangedStep(files, "--- a/" + path, file);
    ChangedStep(files, "+++ b/" + path, hunk);
    var more := if path in files then files else files + [path];
    ChangedStep(more, HEAD, body);
    ChangedStep(more, "-old", marked);
    ChangedStep(more, "+new", rest);
  }

  lemma LinesChanged(p: string, q: string)
    requires Plain(p) && Plain(q) && p != q
    ensures ChangedFiles([], Lines(p, q)) == [p, q]
  {
    hide Block;
    ChangedBlock([], p, Block(q) + []);
    assert [] + [p] == [p];
    ChangedBlock([p], q, []);
    assert [p] + [q] == [p, q];
  }

  lemma WordsBreakFree()
    ensures BreakFree("--- a/") && BreakFree("+++ b/") && BreakFree("-old") && BreakFree("+new")
  {
  }

  lemma BlockBreakFree(path: string)
    requires Plain(path)
    ensures AllBreakFree(Block(path))
  {
    hide BreakFree, NormalizePath;
    PlainPath(path);
    HeadIs();
    WordsBreakFree();
    BreakFreeConcat("--- a/", path);
    BreakFreeConcat("+++ b/", path);
    FiveBreakFree("--- a/" + path, "+++ b/" + path, HEAD, "-old", "+new");
  }

  lemma FiveBreakFree(a: string, b: string, c: string, d: string, e: string)
    requires BreakFree(a) && BreakFree(b) && BreakFree(c) && BreakFree(d) && BreakFree(e)
    ensures AllBreakFree([a, b, c, d, e])
  {
    hide BreakFree;
  }

  lemma BreakFreeConcat(a: string, b: string)
    requires BreakFree(a) && BreakFree(b)
    ensures BreakFree(a + b)
  {
    hide IsBreak;
  }

  lemma DiffLines(p: string, q: string)
    requires Plain(p) && Plain(q)
    ensures SplitLines(Diff(p, q)) == Lines(p, q)
  {
    hide SplitLines, JoinLines, BreakFree, HEAD;
    BlockBreakFree(p);
    BlockBreakFree(q);
    SplitAssemble(Lines(p, q), false);
    assert Diff(p, q) + "" == Diff(p, q);
    assert Lines(p, q)[9] == "+new";
  }

  // --------------------------------------------------------------------- the record

  function Digest64(): string {
    seq(64, i => 'a')
  }

  const CONTENT := "new\n"

  function Contents(p: string, q: string): seq<File> {
    [File(p, CONTENT), File(q, CONTENT)]
  }

  const REASON := "patch is reviewable and has not been applied"

  function Reviewed(p: string, q: string): Review {
    Review(true, REASON, Digest64(), [p, q], 2, 2)
  }

  const REPOSITORY := "o/r"
  const BASE := "main"
  const BRANCH := "fix"

  function Sha(): string {
    seq(40, i => 'a')
  }

  const IDENTITY := Identity(REPOSITORY, BASE, BRANCH, Sha())

  const WRITTEN := Stamp("08:00:00", "+00:00")

  function Sample(p: string, q: string, attempts: seq<Attempt>): Record {
    Record("r", IDENTITY, Proposal(REPOSITORY, REPOSITORY, Digest64()),
           Run(READY_FOR_APPROVAL, Digest64(), attempts, Some(Candidate(Diff(p, q), Contents(p, q), "x", [])),
               Some(Reviewed(p, q)), "x", true),
           "a", Digest64(), Digest64(), Digest64(), CodingBridge.READY, WRITTEN, WRITTEN)
  }

  const PROTECTED: set<string> := {"main", "master", "production", "prod", "release"}

  predicate NameChar(c: char) {
    'A' <= c <= 'Z' || 'a' <= c <= 'z' || '0' <= c <= '9' || c in {'_', '.', '-'}
  }

  predicate OwnerRepository(s: string) {
    exists k :: 0 < k < |s| - 1 && s[k] == '/' && forall i | 0 <= i < |s| && i != k :: NameChar(s[i])
  }

  predicate CommitId(s: string) {
    |s| == 40 && forall i | 0 <= i < 40 :: HexDigit(LowerChar(s[i]))
  }

  /** `validate_draft_identity` */
  predicate ValidDraftIdentity(i: Identity) {
    && OwnerRepository(Strip(i.repository)) && Strip(i.base) != ""
    && Strip(i.head) != "" && Lower(Strip(i.head)) !in PROTECTED
    && CommitId(Strip(i.sha))
  }

  /** The outside: it knows this one diff, checks identity and times, and sees no secret. */
  function World(p: string, q: string): Outside {
    Outside(diff => if diff == Diff(p, q) then Reviewed(p, q) else Review(false, REASON, "", [], 0, 0),
            i => ValidDraftIdentity(i), t => ReadIso(t).Some?, m => Digest64(), t => false)
  }

  lemma Unspaced(s: string)
    requires s != "" && !IsSpace(s[0]) && !IsSpace(s[|s| - 1])
    ensures Strip(s) == s
  {
    assert StripLeft(s) == s;
  }

  lemma Short(s: string, limit: nat)
    requires s != "" && !IsSpace(s[0]) && 4 * |s| <= limit
    ensures Bounded(s, limit)
  {
    hide IsSpace, Strip, Utf8Length;
    Unstripped(s);
    Utf8AtMost(s);
  }

  lemma IdentityChecks()
    ensures ValidDraftIdentity(IDENTITY)
  {
    hide Strip, IsSpace;
    NamesUnspaced();
    assert REPOSITORY[0] == 'o' && REPOSITORY[1] == '/' && REPOSITORY[2] == 'r';
    assert |Lower(BRANCH)| == 3;
  }

  lemma NamesUnspaced()
    ensures Strip(REPOSITORY) == REPOSITORY && Strip(BASE) == BASE && Strip(BRANCH) == BRANCH && Strip(Sha()) == Sha()
  {
    hide Strip;
    Unspaced(REPOSITORY);
    Unspaced(BASE);
    Unspaced(BRANCH);
    Unspaced(Sha());
  }

  lemma IdentityBounded()
    ensures DecodeIdentity(IDENTITY) == Some(IDENTITY) && Lower(Sha()) == Sha()
    ensures Bounded(REPOSITORY, 512)
  {
    hide Strip, Utf8Length;
    Short(REPOSITORY, 512);
    Short(BASE, 512);
    Short(BRANCH, 512);
    AsciiLength(Sha());
    Unstripped(Sha());
    assert Lower(Sha()) == Sha();
  }

  lemma TimeChecks()
    ensures Bounded(WRITTEN, 128) && ReadIso(WRITTEN).Some?
  {
    hide ReadIso, ReadDate, Strip, Utf8Length, IsSpace;
    MayDay();
    UtcMorning();
    ReadParts(MAY_DAY, "08:00:00", "+00:00");
    assert WRITTEN[0] == '2' && !IsSpace('2') by { Digits(); }
    Short(WRITTEN, 128);
  }

  lemma Digits()
    ensures WRITTEN[0] == '2' && |WRITTEN| == 25 && !IsSpace('2')
  {
    assert MAY_DAY[0] == '2';
  }

  lemma UtcMorning()
    ensures ReadClock("08:00:00").Some? && ReadOffset("+00:00").Some?
  {
  }

  lemma ReasonBounded()
    ensures Bounded(REASON, 4096)
  {
    hide Strip, Utf8Length;
    Short(REASON, 4096);
  }

  lemma WorldHonest(p: string, q: string)
    requires Plain(p) && Plain(q) && p != q
    ensures Honest(World(p, q))
  {
    hide SplitLines, Lines, Diff;
    DiffLines(p, q);
    LinesChanged(p, q);
  }

  lemma Letters()
    ensures forall s | s in {"x", "r", "a", "b"} :: Strip(s) == s && Utf8Length(s) == 1 && Lower(s) == s
    ensures IsIdentifier("r") && IsIdentifier("a")
  {
    forall s | s in {"x", "r", "a", "b"} ensures Strip(s) == s && Utf8Length(s) == 1 && Lower(s) == s { OneLetter(s); }
  }

  lemma OneLetter(s: string)
    requires |s| == 1 && 'a' <= s[0] <= 'z'
    ensures Strip(s) == s && Utf8Length(s) == 1 && Lower(s) == s
  {
    assert StripLeft(s) == s;
    assert Utf8Length(s[1..]) == 0;
  }

  lemma ContentLines()
    ensures SplitLines(CONTENT) == ["new"] && Utf8Length(CONTENT) == 4
  {
    hide SplitLines;
    assert BreakFree("new");
    SplitAssemble(["new"], true);
    assert CONTENT == "new" + "\n";
    AsciiLength(CONTENT);
  }

  lemma ContentsHold(p: string, q: string)
    requires Plain(p) && Plain(q) && p != q
    ensures ContentsMatch(SplitLines(Diff(p, q)), AsMap(Contents(p, q)))
  {
    hide SplitLines, ScanFrom, Diff, Lines;
    DiffLines(p, q);
    LinesScanned(p, q);
    ContentLines();
    var m := AsMap(Contents(p, q));
    ContentsMap(p, q);
    assert ["new"][0..1] == ["new"];
    assert Holds(Claim(p, 1, 1, ["new"]), m) && Holds(Claim(q, 1, 1, ["new"]), m);
    var claims := [Claim(p, 1, 1, ["new"]), Claim(q, 1, 1, ["new"])];
    assert claims[0] in claims && claims[1] in claims;
    TwoPaths(p, q);
    assert m.Keys == {p, q};
  }

  lemma ContentsMap(p: string, q: string)
    ensures AsMap(Contents(p, q)) == map[q := CONTENT, p := CONTENT]
  {
    var none: seq<File> := [];
    assert AsMap(none) == map[];
    assert [File(q, CONTENT)][1..] == none;
    assert AsMap([File(q, CONTENT)]) == map[q := CONTENT];
    assert Contents(p, q)[1..] == [File(q, CONTENT)];
  }

  lemma TwoPaths(p: string, q: string)
    ensures ClaimPaths([Claim(p, 1, 1, ["new"]), Claim(q, 1, 1, ["new"])]) == {p, q}
  {
    var claims := [Claim(p, 1, 1, ["new"]), Claim(q, 1, 1, ["new"])];
    assert claims[0] in claims && claims[1] in claims;
    assert claims[0].path in ClaimPaths(claims) && claims[1].path in ClaimPaths(claims);
  }

  lemma ManifestHolds(p: string, q: string)
    requires Plain(p) && Plain(q) && p != q
    ensures Paths(Contents(p, q)) == [p, q] && Manifest([p, q]) == [p, q] && Distinct(Paths(Contents(p, q)))
  {
    hide NormalizePath;
    PlainPath(p);
    PlainPath(q);
  }

  lemma SampleValid(p: string, q: string, attempts: seq<Attempt>)
    requires Plain(p) && Plain(q) && p != q
    ensures Valid(World(p, q), Sample(p, q, attempts)) && Written(Sample(p, q, attempts))
  {
    hide SplitLines, Diff, ContentsMatch, AsMap, Strip, Utf8Length, Contents, Texts, Lower, IsIdentifier, Manifest,
         Paths, Distinct, IsDigest, ReadIso, ValidDraftIdentity, Bounded;
    Letters();
    IdentityChecks();
    TimeChecks();
    IdentityBounded();
    ContentsHold(p, q);
    ManifestHolds(p, q);
    SampleDigest();
  }

  lemma SampleDigest()
    ensures IsDigest(Digest64()) && ReadDigest(Digest64()) == Some(Digest64())
  {
    hide ReadDigest;
    DigestRead(Digest64());
  }

  // ---------------------------------------------------------------------- its bounds

  lemma {:induction false} Utf8AtMost(s: string)
    ensures Utf8Length(s) <= 4 * |s|
  {
    if s != "" { Utf8AtMost(s[1..]); }
  }

  lemma {:induction false} JoinLength(lines: seq<string>, n: nat)
    requires forall i | 0 <= i < |lines| :: |lines[i]| <= n
    ensures |JoinLines(lines)| <= (n + 1) * |lines|
  {
    if |lines| > 1 {
      JoinLength(lines[1..], n);
      assert (n + 1) * |lines| == (n + 1) + (n + 1) * |lines[1..]|;
    }
  }

  lemma BlockShort(path: string)
    requires Plain(path)
    ensures forall i | 0 <= i < |Block(path)| :: |Block(path)[i]| <= 15
  {
    HeadStarts();
  }

  lemma DiffBounded(p: string, q: string)
    requires Plain(p) && Plain(q)
    ensures Bounded(Diff(p, q), MAX_PATCH_BYTES)
  {
    hide JoinLines, Strip, Utf8Length, HEAD, Block;
    BlockShort(p);
    BlockShort(q);
    ShortLines(p, q);
    JoinLength(Lines(p, q), 15);
    Utf8AtMost(Diff(p, q));
    DiffStarts(p, q);
    Unstripped(Diff(p, q));
  }

  lemma ShortLines(p: string, q: string)
    requires forall i | 0 <= i < |Block(p)| :: |Block(p)[i]| <= 15
    requires forall i | 0 <= i < |Block(q)| :: |Block(q)[i]| <= 15
    ensures |Lines(p, q)| == 10 && forall i | 0 <= i < 10 :: |Lines(p, q)[i]| <= 15
  {
    assert |Block(p)| == 5 && |Block(q)| == 5;
    hide Block;
  }

  lemma DiffStarts(p: string, q: string)
    ensures Diff(p, q) != "" && Diff(p, q)[0] == '-' && !IsSpace('-')
  {
    var lines := Lines(p, q);
    assert lines[0] == "--- a/" + p;
    assert ("--- a/" + p)[0] == '-';
  }

  lemma SampleInBounds(p: string, q: string, attempts: seq<Attempt>)
    requires Plain(p) && Plain(q) && p != q
    requires |attempts| <= 4 && forall i | 0 <= i < |attempts| :: AttemptInBounds(attempts[i])
    ensures InBounds(Sample(p, q, attempts))
  {
    hide Diff, Strip, Utf8Length, AttemptInBounds, DecodeCandidate, IsDigest, ReadDigest, DecodeIdentity;
    Letters();
    IdentityBounded();
    ReasonBounded();
    CandidateInBounds(p, q);
  }

  lemma CandidateInBounds(p: string, q: string)
    requires Plain(p) && Plain(q)
    ensures DecodeCandidate(Candidate(Diff(p, q), Contents(p, q), "x", [])).Some?
  {
    hide Diff, Strip, Utf8Length, Sum;
    Letters();
    DiffBounded(p, q);
    ContentLines();
    ContentsSum(p, q);
  }

  lemma ContentsSum(p: string, q: string)
    ensures TotalBytes(Contents(p, q)) == 8
  {
    hide Utf8Length, Sum;
    ContentLines();
    var bytes := (f: File) => Utf8Length(f.content);
    assert Contents(p, q) == [File(p, CONTENT)] + [File(q, CONTENT)];
    SumConcat([File(p, CONTENT)], [File(q, CONTENT)], bytes);
    SumOne(File(p, CONTENT), bytes);
    SumOne(File(q, CONTENT), bytes);
  }

  // ---------------------------------------------------------------------- the results

  lemma NotAscending()
    ensures !Ascending(["b", "a"])
  {
    assert "b"[0] == 'b' && "a"[0] == 'a';
    var files := ["b", "a"];
    assert !StringLe(files[0], files[1]);
  }

  /** The attempt that produced the reviewed candidate. */
  function Passed(revision: nat, p: string, q: string): Attempt {
    Attempt(revision, Digest64(), [p, q], true, "")
  }

  lemma PassedInBounds(revision: nat, p: string, q: string)
    requires revision <= 3 && Plain(p) && Plain(q)
    ensures AttemptInBounds(Passed(revision, p, q))
  {
    hide Strip, Utf8Length;
    Letters();
    assert Utf8Length("") == 0 by { NoBytes(); }
  }

  lemma NoBytes()
    ensures Utf8Length("") == 0
  {
  }

  /** A diff that changes "b" before "a": the store writes the run and refuses to read it. */
  lemma WrittenOutOfOrder()
    ensures var o, r := World("b", "a"), Sample("b", "a", [Passed(0, "b", "a")]);
            && Honest(o) && Written(r) && InBounds(r)
            && Encode(o, r).Some? && Decode(o, Encode(o, r).value).None?
  {
    hide *;
    assert Plain("b") && Plain("a") by { BothPlain(); }
    var attempts := [Passed(0, "b", "a")];
    PassedInBounds(0, "b", "a");
    SampleFits("b", "a", attempts);
    NotAscending();
    WrittenButUnreadable(World("b", "a"), Sample("b", "a", attempts));
    assert Sample("b", "a", attempts).run.review.value.files == ["b", "a"] by { SampleFiles("b", "a", attempts); }
  }

  lemma BothPlain()
    ensures Plain("b") && Plain("a") && "a" != "b"
  {
    assert "b"[0] != "a"[0];
  }

  lemma SampleFiles(p: string, q: string, attempts: seq<Attempt>)
    ensures Sample(p, q, attempts).run.review == Some(Reviewed(p, q)) && Reviewed(p, q).files == [p, q]
    ensures Sample(p, q, attempts).run.attempts == attempts
  {
  }

  lemma SampleFits(p: string, q: string, attempts: seq<Attempt>)
    requires Plain(p) && Plain(q) && p != q
    requires |attempts| <= 4 && forall i | 0 <= i < |attempts| :: AttemptInBounds(attempts[i])
    ensures Honest(World(p, q)) && Valid(World(p, q), Sample(p, q, attempts))
    ensures Written(Sample(p, q, attempts)) && InBounds(Sample(p, q, attempts))
  {
    hide *;
    WorldHonest(p, q);
    SampleValid(p, q, attempts);
    SampleInBounds(p, q, attempts);
  }

  const UNDIGESTED := Attempt(0, "", [], false, "")

  lemma UndigestedIs()
    ensures AttemptInBounds(UNDIGESTED) && ReadDigest(UNDIGESTED.digest).None?
  {
  }

  /** Files in order, but a first attempt whose patch was never reviewed and so carries no
      digest: written, and refused as well. */
  lemma WrittenWithoutDigest()
    ensures var o, r := World("a", "b"), Sample("a", "b", [UNDIGESTED, Passed(1, "a", "b")]);
            && Honest(o) && Written(r) && InBounds(r)
            && Encode(o, r).Some? && Decode(o, Encode(o, r).value).None?
  {
    hide *;
    assert Plain("b") && Plain("a") by { BothPlain(); }
    var attempts := [UNDIGESTED, Passed(1, "a", "b")];
    UndigestedIs();
    PassedInBounds(1, "a", "b");
    SampleFits("a", "b", attempts);
    SampleFiles("a", "b", attempts);
    assert attempts[0] == UNDIGESTED;
    WrittenButUnreadable(World("a", "b"), Sample("a", "b", attempts));
  }
}
