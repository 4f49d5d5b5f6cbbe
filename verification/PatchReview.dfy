/** The unified-diff engine: parser, applier and the two validators. */
module PatchReview {
  import opened Text
  import opened DiffText
  import Sorting

  datatype Hunk = Hunk(oldStart: nat, oldCount: nat, newStart: nat, newCount: nat, lines: seq<string>)

  /** One entry of the parser's path-to-hunks dictionary, kept in insertion order. */
  datatype FilePatch = FilePatch(path: string, hunks: seq<Hunk>)

  predicate Context(line: string) { line != "" && line[0] == ' ' }
  predicate Added(line: string) { line != "" && line[0] == '+' }
  predicate Removed(line: string) { line != "" && line[0] == '-' }

  /** The text a hunk expects to find, marker dropped. */
  function OldLines(lines: seq<string>): seq<string> {
    if lines == [] then []
    else (if Context(lines[0]) || Removed(lines[0]) then [lines[0][1..]] else []) + OldLines(lines[1..])
  }

  /** The text a hunk leaves behind, marker dropped. */
  function NewLines(lines: seq<string>): seq<string> {
    if lines == [] then []
    else (if Context(lines[0]) || Added(lines[0]) then [lines[0][1..]] else []) + NewLines(lines[1..])
  }

  predicate CountsHold(h: Hunk) {
    |OldLines(h.lines)| == h.oldCount && |NewLines(h.lines)| == h.newCount
  }

  predicate AllCountsHold(hunks: seq<Hunk>) {
    forall i | 0 <= i < |hunks| :: CountsHold(hunks[i])
  }

  // ---------------------------------------------------------------- parsing

  /** `parsed.setdefault(path, []).append(hunk)` */
  function AddHunk(parsed: seq<FilePatch>, path: string, h: Hunk): seq<FilePatch> {
    if parsed == [] then [FilePatch(path, [h])]
    else if parsed[0].path == path then [FilePatch(path, parsed[0].hunks + [h])] + parsed[1..]
    else [parsed[0]] + AddHunk(parsed[1..], path, h)
  }

  /** What the parser's nested function and its loop share. */
  datatype Parser = Parser(path: Option<string>, current: Option<Hunk>, parsed: seq<FilePatch>)

  const START := Parser(None, None, [])

  /** Closes the open hunk; refuses it when its counts are wrong. A hunk that no
      path claims yet stays open. */
  function Flush(p: Parser): Option<Parser> {
    if p.path.None? || p.current.None? then Some(p)
    else if !CountsHold(p.current.value) then None
    else Some(Parser(p.path, None, AddHunk(p.parsed, p.path.value, p.current.value)))
  }

  function OpenHunk(line: string): Option<Hunk> {
    match MatchHeader(line)
    case None => None
    case Some(h) => Some(Hunk(h.before.Start(), h.before.Count(), h.after.Start(), h.after.Count(), []))
  }

  function BodyLine(h: Hunk, line: string): Option<Hunk> {
    if line == "" then Some(h.(lines := h.lines + [" "]))
    else if line[0] in {' ', '+', '-'} then Some(h.(lines := h.lines + [line]))
    else None
  }

  function Consume(p: Parser, line: string): Option<Parser> {
    if StartsWith(line, "+++ b/") then
      match Flush(p)
      case None => None
      case Some(q) => Some(q.(path := Some(NormalizePath(line[6..]))))
    else if StartsWith(line, "@@ ") then
      match Flush(p)
      case None => None
      case Some(q) =>
        var opened_ := OpenHunk(line);
        if opened_.None? then None else Some(q.(current := opened_))
    else if p.current.Some? then
      var grown := BodyLine(p.current.value, line);
      if grown.None? then None else Some(p.(current := grown))
    else Some(p)
  }

  function ParseFrom(p: Parser, lines: seq<string>): Option<seq<FilePatch>>
    decreases |lines|
  {
    if lines == [] then
      match Flush(p)
      case None => None
      case Some(q) => Some(q.parsed)
    else
      match Consume(p, lines[0])
      case None => None
      case Some(q) => ParseFrom(q, lines[1..])
  }

  function Parsed(diff: string): Option<seq<FilePatch>> {
    ParseFrom(START, SplitLines(diff))
  }

  method ParseDiffHunks(diff: string) returns (r: Option<seq<FilePatch>>)
    ensures r == Parsed(diff)
    ensures r.Some? ==> forall f | f in r.value :: f.hunks != [] && AllCountsHold(f.hunks)
  {
    var lines := SplitLines(diff);
    var p := START;
    var i := 0;
    while i < |lines|
      invariant 0 <= i <= |lines|
      invariant ParseFrom(p, lines[i..]) == Parsed(diff)
    {
      assert lines[i..][1..] == lines[i + 1..];
      var q := Consume(p, lines[i]);
      if q.None? {
        return None;
      }
      p := q.value;
      i := i + 1;
    }
    assert lines[i..] == [];
    var last := Flush(p);
    if last.None? {
      return None;
    }
    ParsedCounts(START, lines);
    return Some(last.value.parsed);
  }

  ghost predicate WellCounted(parsed: seq<FilePatch>) {
    forall f | f in parsed :: f.hunks != [] && AllCountsHold(f.hunks)
  }

  lemma {:induction false} AddHunkWellCounted(parsed: seq<FilePatch>, path: string, h: Hunk)
    requires WellCounted(parsed) && CountsHold(h)
    ensures WellCounted(AddHunk(parsed, path, h))
  {
    if parsed != [] {
      assert forall f | f in parsed[1..] :: f in parsed;
      assert parsed[0] in parsed;
      if parsed[0].path != path {
        AddHunkWellCounted(parsed[1..], path, h);
      }
    }
  }

  lemma {:induction false} ParsedCounts(p: Parser, lines: seq<string>)
    requires WellCounted(p.parsed)
    ensures ParseFrom(p, lines).Some? ==> WellCounted(ParseFrom(p, lines).value)
    decreases |lines|
  {
    if p.path.Some? && p.current.Some? && CountsHold(p.current.value) {
      AddHunkWellCounted(p.parsed, p.path.value, p.current.value);
    }
    if lines != [] && Consume(p, lines[0]).Some? {
      ParsedCounts(Consume(p, lines[0]).value, lines[1..]);
    }
  }

  // ---------------------------------------------------------------- applying

  predicate HunkLe(a: Hunk, b: Hunk) {
    a.oldStart < b.oldStart || (a.oldStart == b.oldStart && a.newStart <= b.newStart)
  }

  /** `sorted(hunks, key=lambda item: (item[0], item[2]))` */
  function InOrder(hunks: seq<Hunk>): (r: seq<Hunk>)
    ensures |r| == |hunks|
    ensures forall h :: h in r <==> h in hunks
  {
    Sorting.SortMembers(hunks, HunkLe);
    Sorting.Sort(hunks, HunkLe)
  }

  /** The slice `s[i:j]`, for 0 <= i. */
  function Slice<T>(s: seq<T>, i: nat, j: nat): (r: seq<T>)
    ensures |r| <= (if i <= j then j - i else 0)
    ensures i <= j <= |s| ==> r == s[i..j]
  {
    var hi := if j < |s| then j else |s|;
    if i < hi then s[i..hi] else []
  }

  /** Line index of the hunk in the base; -1 when its start is line zero. */
  function At(h: Hunk): int { h.oldStart - 1 }

  function Growth(h: Hunk): int { h.newCount - h.oldCount }

  /** Total growth of the first `k` hunks. */
  function Shift(hunks: seq<Hunk>, k: nat): int
    requires k <= |hunks|
  {
    if k == 0 then 0 else Growth(hunks[0]) + Shift(hunks[1..], k - 1)
  }

  /** First base line after hunk `k - 1`, or `from` when there is none. */
  function After(hunks: seq<Hunk>, from: int, k: nat): int
    requires k <= |hunks|
  {
    if k == 0 then from else At(hunks[k - 1]) + hunks[k - 1].oldCount
  }

  /** Where the untouched stretch before hunk `k` ends. */
  function Upto(base: seq<string>, hunks: seq<Hunk>, k: nat): int
    requires k <= |hunks|
  {
    if k == |hunks| then |base| else At(hunks[k])
  }

  /** The hunks lie one after another in the base from line `from` on, and each
      finds the text it expects. */
  ghost predicate Fits(base: seq<string>, from: nat, hunks: seq<Hunk>) {
    forall k | 0 <= k < |hunks| :: FitsAt(base, from, hunks, k)
  }

  ghost predicate FitsAt(base: seq<string>, from: nat, hunks: seq<Hunk>, k: nat)
    requires k < |hunks|
  {
    var h := hunks[k];
    && After(hunks, from, k) <= At(h)
    && 0 <= At(h) && At(h) + h.oldCount <= |base|
    && base[At(h)..At(h) + h.oldCount] == OldLines(h.lines)
  }

  /** `out` is `base[from..]` with every hunk's old range replaced by its new
      lines: the length, the place of each hunk's new text, and every other line. */
  ghost predicate Patched(base: seq<string>, from: nat, hunks: seq<Hunk>, out: seq<string>)
    requires from <= |base|
  {
    && |out| == |base| - from + Shift(hunks, |hunks|)
    && (forall k | 0 <= k < |hunks| :: NewTextAt(from, hunks, out, k))
    && (forall k, i | 0 <= k <= |hunks| && After(hunks, from, k) <= i < Upto(base, hunks, k) ::
          KeptLine(base, from, hunks, out, k, i))
  }

  ghost predicate NewTextAt(from: nat, hunks: seq<Hunk>, out: seq<string>, k: nat)
    requires k < |hunks|
  {
    var h := hunks[k];
    var at := At(h) - from + Shift(hunks, k);
    0 <= at && at + h.newCount <= |out| && out[at..at + h.newCount] == NewLines(h.lines)
  }

  ghost predicate KeptLine(base: seq<string>, from: nat, hunks: seq<Hunk>, out: seq<string>, k: nat, i: int)
    requires k <= |hunks|
  {
    var j := i - from + Shift(hunks, k);
    0 <= i < |base| && 0 <= j < |out| && out[j] == base[i]
  }

  /** The two guards of the loop: the hunk lies ahead of the cursor, inside the file,
      and finds its old text. */
  predicate Lands(base: seq<string>, cursor: nat, h: Hunk) {
    cursor <= At(h) <= |base| && OldLines(h.lines) == Slice(base, At(h), At(h) + h.oldCount)
  }

  /** The loop of both appliers from hunk `hunks[0]` on, `cursor` lines of the base used up. */
  function Rebuilt(base: seq<string>, cursor: nat, hunks: seq<Hunk>): Option<seq<string>>
    decreases |hunks|
  {
    if hunks == [] then Some(Slice(base, cursor, |base|))
    else
      var h := hunks[0];
      if !Lands(base, cursor, h) then None
      else
        match Rebuilt(base, At(h) + h.oldCount, hunks[1..])
        case None => None
        case Some(rest) => Some(Slice(base, cursor, At(h)) + NewLines(h.lines) + rest)
  }

  function Prepend(front: seq<string>, r: Option<seq<string>>): Option<seq<string>> {
    if r.None? then None else Some(front + r.value)
  }

  method RebuildLines(base: seq<string>, hunks: seq<Hunk>) returns (r: Option<seq<string>>)
    ensures r == Rebuilt(base, 0, hunks)
  {
    hide *;
    var cursor: nat := 0;
    var rebuilt: seq<string> := [];
    var k := 0;
    PrependNothing(Rebuilt(base, 0, hunks));
    assert hunks[0..] == hunks;
    while k < |hunks|
      invariant 0 <= k <= |hunks|
      invariant Prepend(rebuilt, Rebuilt(base, cursor, hunks[k..])) == Rebuilt(base, 0, hunks)
    {
      var h := hunks[k];
      assert hunks[k..][0] == h && hunks[k..][1..] == hunks[k + 1..];
      PrependStep(base, cursor, hunks[k..], rebuilt);
      var index := h.oldStart - 1;
      if index < cursor || index > |base| {
        return None;
      }
      rebuilt := rebuilt + Slice(base, cursor, index);
      if OldLines(h.lines) != Slice(base, index, index + h.oldCount) {
        return None;
      }
      rebuilt := rebuilt + NewLines(h.lines);
      cursor := index + h.oldCount;
      k := k + 1;
    }
    PrependDone(base, cursor, rebuilt);
    assert hunks[k..] == [];
    return Some(rebuilt + Slice(base, cursor, |base|));
  }

  lemma PrependNothing(r: Option<seq<string>>)
    ensures Prepend([], r) == r
  {
    if r.Some? { assert [] + r.value == r.value; }
  }

  lemma PrependDone(base: seq<string>, cursor: nat, front: seq<string>)
    ensures Prepend(front, Rebuilt(base, cursor, [])) == Some(front + Slice(base, cursor, |base|))
  {
  }

  /** What one turn of the loop does to the text built so far. */
  lemma PrependStep(base: seq<string>, cursor: nat, hunks: seq<Hunk>, front: seq<string>)
    requires hunks != []
    ensures var h := hunks[0];
            var index := h.oldStart - 1;
            Prepend(front, Rebuilt(base, cursor, hunks)) ==
            if index < cursor || index > |base| then None
            else if OldLines(h.lines) != Slice(base, index, index + h.oldCount) then None
            else Prepend(front + Slice(base, cursor, index) + NewLines(h.lines),
                         Rebuilt(base, index + h.oldCount, hunks[1..]))
  {
    hide OldLines, NewLines, Slice;
    var h := hunks[0];
    if Lands(base, cursor, h) {
      var rest := Rebuilt(base, At(h) + h.oldCount, hunks[1..]);
      if rest.Some? {
        assert front + (Slice(base, cursor, At(h)) + NewLines(h.lines) + rest.value)
            == front + Slice(base, cursor, At(h)) + NewLines(h.lines) + rest.value;
      }
    }
  }

  // ------------------------------------------------ what applying amounts to

  lemma ShiftTail(hunks: seq<Hunk>, k: nat)
    requires 1 <= k <= |hunks|
    ensures Shift(hunks, k) == Growth(hunks[0]) + Shift(hunks[1..], k - 1)
  {
  }

  /** `Rebuilt` succeeds exactly when the hunks fit. */
  lemma {:induction false} RebuiltFits(base: seq<string>, cursor: nat, hunks: seq<Hunk>)
    requires cursor <= |base| && AllCountsHold(hunks)
    ensures Rebuilt(base, cursor, hunks).Some? <==> Fits(base, cursor, hunks)
    decreases |hunks|
  {
    hide OldLines, NewLines;
    if hunks != [] {
      var h, tail := hunks[0], hunks[1..];
      if !Lands(base, cursor, h) {
        assert !FitsAt(base, cursor, hunks, 0);
      } else {
        var next := At(h) + h.oldCount;
        RebuiltFits(base, next, tail);
        assert FitsAt(base, cursor, hunks, 0);
        forall k | 1 <= k < |hunks|
          ensures FitsAt(base, cursor, hunks, k) <==> FitsAt(base, next, tail, k - 1)
        {
          assert hunks[k] == tail[k - 1];
          assert After(hunks, cursor, k) == After(tail, next, k - 1);
        }
        assert forall k | 0 <= k < |tail| :: FitsAt(base, cursor, hunks, k + 1) <==> FitsAt(base, next, tail, k);
      }
    }
  }

  /** Peeling the first hunk: the places of the others move by the text before them. */
  lemma TailPlaces(base: seq<string>, from: nat, hunks: seq<Hunk>, k: nat)
    requires hunks != [] && k < |hunks|
    requires from <= At(hunks[0]) && At(hunks[0]) + hunks[0].oldCount <= |base|
    ensures var next := At(hunks[0]) + hunks[0].oldCount;
            var skip := At(hunks[0]) - from + hunks[0].newCount;
            && After(hunks, from, k + 1) == After(hunks[1..], next, k)
            && Upto(base, hunks, k + 1) == Upto(base, hunks[1..], k)
            && Shift(hunks, k + 1) - from == Shift(hunks[1..], k) - next + skip
  {
    ShiftTail(hunks, k + 1);
  }

  lemma FitsTail(base: seq<string>, from: nat, hunks: seq<Hunk>)
    requires hunks != [] && Fits(base, from, hunks)
    ensures FitsAt(base, from, hunks, 0)
    ensures Fits(base, At(hunks[0]) + hunks[0].oldCount, hunks[1..])
  {
    assert FitsAt(base, from, hunks, 0);
    var next, tail := At(hunks[0]) + hunks[0].oldCount, hunks[1..];
    forall k | 0 <= k < |tail| ensures FitsAt(base, next, tail, k) {
      assert FitsAt(base, from, hunks, k + 1);
      TailPlaces(base, from, hunks, k);
    }
  }

  /** Places in the result never fall before its start. */
  lemma {:induction false} PlacesStart(base: seq<string>, from: nat, hunks: seq<Hunk>, k: nat)
    requires k <= |hunks| && Fits(base, from, hunks)
    ensures After(hunks, from, k) - from + Shift(hunks, k) >= 0
    decreases |hunks|
  {
    if k > 0 {
      FitsTail(base, from, hunks);
      PlacesStart(base, At(hunks[0]) + hunks[0].oldCount, hunks[1..], k - 1);
      TailPlaces(base, from, hunks, k - 1);
    }
  }

  lemma PatchedHead(base: seq<string>, from: nat, hunks: seq<Hunk>, out: seq<string>)
    requires hunks != [] && from <= |base| && Fits(base, from, hunks)
    requires Patched(base, from, hunks, out)
    ensures FitsAt(base, from, hunks, 0)
    ensures var h := hunks[0];
            var pre := At(h) - from;
            && pre + h.newCount <= |out|
            && out[..pre] == base[from..At(h)]
            && out[pre..pre + h.newCount] == NewLines(h.lines)
            && Patched(base, At(h) + h.oldCount, hunks[1..], out[pre + h.newCount..])
  {
    FitsTail(base, from, hunks);
    var h, tail := hunks[0], hunks[1..];
    var pre, next := At(h) - from, At(h) + h.oldCount;
    assert NewTextAt(from, hunks, out, 0);
    forall i | from <= i < At(h) ensures out[i - from] == base[i] {
      assert KeptLine(base, from, hunks, out, 0, i);
    }
    PatchedRest(base, from, hunks, out);
  }

  lemma PatchedRest(base: seq<string>, from: nat, hunks: seq<Hunk>, out: seq<string>)
    requires hunks != [] && from <= |base| && Fits(base, from, hunks)
    requires Patched(base, from, hunks, out)
    requires At(hunks[0]) - from + hunks[0].newCount <= |out|
    ensures FitsAt(base, from, hunks, 0)
    ensures Patched(base, At(hunks[0]) + hunks[0].oldCount, hunks[1..], out[At(hunks[0]) - from + hunks[0].newCount..])
  {
    FitsTail(base, from, hunks);
    var h, tail := hunks[0], hunks[1..];
    var skip, next := At(h) - from + h.newCount, At(h) + h.oldCount;
    var rest := out[skip..];
    TailPlaces(base, from, hunks, |tail|);
    forall k | 0 <= k < |tail| ensures NewTextAt(next, tail, rest, k) {
      TailPlaces(base, from, hunks, k);
      PlacesStart(base, next, tail, k);
      assert FitsAt(base, next, tail, k);
      assert NewTextAt(from, hunks, out, k + 1);
      var at := At(tail[k]) - next + Shift(tail, k);
      assert rest[at..at + tail[k].newCount] == out[at + skip..at + skip + tail[k].newCount];
    }
    forall k, i | 0 <= k <= |tail| && After(tail, next, k) <= i < Upto(base, tail, k)
      ensures KeptLine(base, next, tail, rest, k, i)
    {
      TailPlaces(base, from, hunks, k);
      PlacesStart(base, next, tail, k);
      assert KeptLine(base, from, hunks, out, k + 1, i);
    }
  }

  lemma PatchedCons(base: seq<string>, from: nat, hunks: seq<Hunk>, rest: seq<string>)
    requires hunks != [] && CountsHold(hunks[0]) && from <= |base|
    requires FitsAt(base, from, hunks, 0)
    requires Patched(base, At(hunks[0]) + hunks[0].oldCount, hunks[1..], rest)
    ensures Patched(base, from, hunks, base[from..At(hunks[0])] + NewLines(hunks[0].lines) + rest)
  {
    hide OldLines, NewLines, Shift;
    var h, tail := hunks[0], hunks[1..];
    var out := base[from..At(h)] + NewLines(h.lines) + rest;
    TailPlaces(base, from, hunks, |tail|);
    forall k | 0 <= k < |hunks| ensures NewTextAt(from, hunks, out, k) {
      NewTextCons(base, from, hunks, rest, k);
    }
    forall k, i | 0 <= k <= |hunks| && After(hunks, from, k) <= i < Upto(base, hunks, k)
      ensures KeptLine(base, from, hunks, out, k, i)
    {
      if k > 0 {
        TailPlaces(base, from, hunks, k - 1);
        assert KeptLine(base, At(h) + h.oldCount, tail, rest, k - 1, i);
      } else {
        assert Shift(hunks, 0) == 0 by { ShiftNone(hunks); }
      }
    }
  }

  lemma ShiftNone(hunks: seq<Hunk>)
    ensures Shift(hunks, 0) == 0
  {
  }

  lemma NewTextCons(base: seq<string>, from: nat, hunks: seq<Hunk>, rest: seq<string>, k: nat)
    requires k < |hunks| && CountsHold(hunks[0]) && from <= |base|
    requires FitsAt(base, from, hunks, 0)
    requires Patched(base, At(hunks[0]) + hunks[0].oldCount, hunks[1..], rest)
    ensures NewTextAt(from, hunks, base[from..At(hunks[0])] + NewLines(hunks[0].lines) + rest, k)
  {
    hide OldLines, NewLines, Shift;
    var h, tail := hunks[0], hunks[1..];
    var skip, next := At(h) - from + h.newCount, At(h) + h.oldCount;
    var out := base[from..At(h)] + NewLines(h.lines) + rest;
    if k == 0 {
      ShiftNone(hunks);
    } else {
      assert out[skip..] == rest;
      TailPlaces(base, from, hunks, k - 1);
      assert NewTextAt(next, tail, rest, k - 1);
      var at := At(hunks[k]) - from + Shift(hunks, k);
      assert out[at..at + hunks[k].newCount] == rest[at - skip..at - skip + hunks[k].newCount];
    }
  }

  /** The loop computes the one text that `Patched` describes. */
  lemma {:induction false} RebuiltIsPatched(base: seq<string>, from: nat, hunks: seq<Hunk>, out: seq<string>)
    requires from <= |base| && AllCountsHold(hunks) && Fits(base, from, hunks)
    ensures Rebuilt(base, from, hunks).Some?
    ensures Patched(base, from, hunks, out) <==> out == Rebuilt(base, from, hunks).value
    decreases |hunks|
  {
    hide OldLines, NewLines, Fits, Patched, Slice;
    RebuiltFits(base, from, hunks);
    if hunks == [] {
      PatchedNoHunks(base, from, out);
    } else {
      FitsTail(base, from, hunks);
      var h, tail := hunks[0], hunks[1..];
      var pre, next := At(h) - from, At(h) + h.oldCount;
      var rest := Rebuilt(base, next, tail).value;
      if Patched(base, from, hunks, out) {
        PatchedHead(base, from, hunks, out);
        RebuiltIsPatched(base, next, tail, out[pre + h.newCount..]);
        assert out == out[..pre] + out[pre..pre + h.newCount] + out[pre + h.newCount..];
      }
      if out == base[from..At(h)] + NewLines(h.lines) + rest {
        RebuiltIsPatched(base, next, tail, rest);
        PatchedCons(base, from, hunks, rest);
      }
    }
  }

  lemma PatchedNoHunks(base: seq<string>, from: nat, out: seq<string>)
    requires from <= |base|
    ensures Patched(base, from, [], out) <==> out == base[from..]
  {
    if Patched(base, from, [], out) {
      forall i | from <= i < |base| ensures out[i - from] == base[i] {
        assert KeptLine(base, from, [], out, 0, i);
      }
    }
  }

  // ---------------------------------------------------------- distinct paths

  ghost predicate DistinctPaths(parsed: seq<FilePatch>) {
    forall i, j | 0 <= i < j < |parsed| :: parsed[i].path != parsed[j].path
  }

  lemma {:induction false} AddHunkDistinct(parsed: seq<FilePatch>, path: string, h: Hunk)
    requires DistinctPaths(parsed)
    ensures DistinctPaths(AddHunk(parsed, path, h))
    ensures forall f | f in AddHunk(parsed, path, h) :: f.path == path || exists g :: g in parsed && g.path == f.path
  {
    if parsed != [] {
      if parsed[0].path == path {
        forall f | f in AddHunk(parsed, path, h)
          ensures f.path == path || exists g :: g in parsed && g.path == f.path
        {
          assert f.path == path || f in parsed;
        }
      } else {
        AddHunkDistinct(parsed[1..], path, h);
        var rest := AddHunk(parsed[1..], path, h);
        forall f | f in rest ensures f.path != parsed[0].path
          ensures f.path == path || exists g :: g in parsed && g.path == f.path
        {
          if f.path != path {
            var g :| g in parsed[1..] && g.path == f.path;
            assert g in parsed;
          }
        }
        forall f | f in AddHunk(parsed, path, h)
          ensures f.path == path || exists g :: g in parsed && g.path == f.path
        {
          assert f == parsed[0] || f in rest;
          assert parsed[0] in parsed;
        }
      }
    }
  }

  lemma {:induction false} ParsedDistinct(p: Parser, lines: seq<string>)
    requires DistinctPaths(p.parsed)
    ensures ParseFrom(p, lines).Some? ==> DistinctPaths(ParseFrom(p, lines).value)
    decreases |lines|
  {
    if p.path.Some? && p.current.Some? {
      AddHunkDistinct(p.parsed, p.path.value, p.current.value);
    }
    if lines != [] && Consume(p, lines[0]).Some? {
      ParsedDistinct(Consume(p, lines[0]).value, lines[1..]);
    }
  }
}
