/** Repair of hunk counts in diffs written by lightweight models. */
module HunkCounts {
  import opened Text
  import opened DiffText
  import opened PatchReview
  import PA = PatchAgreement

  predicate IsHeader(line: string) {
    StartsWith(line, "@@ ")
  }

  /** Lines that close the body of a hunk. */
  predicate ClosesBody(line: string) {
    IsHeader(line) || StartsWith(line, "diff --git ") || StartsWith(line, "--- ") || StartsWith(line, "+++ ")
  }

  /** The hunk body at the front of `lines`. */
  function Body(lines: seq<string>): seq<string> {
    if lines == [] || ClosesBody(lines[0]) then [] else [lines[0]] + Body(lines[1..])
  }

  /** The header with its counts taken from `body`; anything that is no header is left alone. */
  function Recount(header: string, body: seq<string>): string {
    match MatchHeader(header)
    case None => header
    case Some(h) =>
      Header(Range(h.before.start, Some(Decimal(|OldLines(body)|))),
             Range(h.after.start, Some(Decimal(|NewLines(body)|))), h.tail).Text()
  }

  function RepairedLine(lines: seq<string>, i: nat): string
    requires i < |lines|
  {
    if IsHeader(lines[i]) then Recount(lines[i], Body(lines[i + 1..])) else lines[i]
  }

  function Repaired(lines: seq<string>): (r: seq<string>)
    ensures |r| == |lines|
    ensures forall i | 0 <= i < |r| :: r[i] == RepairedLine(lines, i)
  {
    seq(|lines|, i requires 0 <= i < |lines| => RepairedLine(lines, i))
  }

  /** Counts the lines that carry one of two markers. */
  method CountMarked(body: seq<string>) returns (before: nat, after: nat)
    ensures before == |OldLines(body)| && after == |NewLines(body)|
  {
    before, after := 0, 0;
    var i := 0;
    assert body[0..] == body;
    while i < |body|
      invariant 0 <= i <= |body|
      invariant before + |OldLines(body[i..])| == |OldLines(body)|
      invariant after + |NewLines(body[i..])| == |NewLines(body)|
    {
      assert body[i..][0] == body[i] && body[i..][1..] == body[i + 1..];
      if body[i] != "" && body[i][0] in {' ', '-'} {
        before := before + 1;
      }
      if body[i] != "" && body[i][0] in {' ', '+'} {
        after := after + 1;
      }
      i := i + 1;
    }
  }

  lemma {:induction false} BodyIs(body: seq<string>, rest: seq<string>)
    requires forall i | 0 <= i < |body| :: !ClosesBody(body[i])
    requires rest == [] || ClosesBody(rest[0])
    ensures Body(body + rest) == body
  {
    if body == [] {
      assert body + rest == rest;
    } else {
      assert (body + rest)[1..] == body[1..] + rest;
      BodyIs(body[1..], rest);
    }
  }

  /** `lines[from..upto]` is the body found from line `from` on. */
  lemma BodyBetween(lines: seq<string>, from: nat, upto: nat)
    requires from <= upto <= |lines|
    requires forall i | from <= i < upto :: !ClosesBody(lines[i])
    requires upto == |lines| || ClosesBody(lines[upto])
    ensures Body(lines[from..]) == lines[from..upto]
  {
    assert lines[from..] == lines[from..upto] + lines[upto..];
    BodyIs(lines[from..upto], lines[upto..]);
  }

  method RecountHeader(header: string, body: seq<string>) returns (r: string)
    ensures r == Recount(header, body)
  {
    var h := MatchHeader(header);
    if h.None? {
      return header;
    }
    var before, after := CountMarked(body);
    return Header(Range(h.value.before.start, Some(Decimal(before))),
                  Range(h.value.after.start, Some(Decimal(after))), h.value.tail).Text();
  }

  /** State of the scan after `i` lines: everything written is final, except the
      header of the hunk that is still open. */
  ghost predicate Scanned(lines: seq<string>, i: nat, out: seq<string>, open_: Option<nat>) {
    && i <= |lines| && |out| == i
    && (open_.Some? ==> open_.value < i && IsHeader(lines[open_.value]) && out[open_.value] == lines[open_.value])
    && (forall k | 0 <= k < i && open_ != Some(k) :: out[k] == RepairedLine(lines, k))
    && (open_.Some? ==> forall k | open_.value < k < i :: !ClosesBody(lines[k]))
  }

  lemma ScannedClose(lines: seq<string>, i: nat, out: seq<string>, start: nat)
    requires Scanned(lines, i, out, Some(start))
    requires i == |lines| || ClosesBody(lines[i])
    ensures Scanned(lines, i, out[start := Recount(lines[start], lines[start + 1..i])], None)
  {
    hide RepairedLine, ClosesBody;
    BodyBetween(lines, start + 1, i);
    assert RepairedLine(lines, start) == Recount(lines[start], lines[start + 1..i]) by { RepairedHeader(lines, start); }
  }

  lemma RepairedHeader(lines: seq<string>, i: nat)
    requires i < |lines|
    ensures IsHeader(lines[i]) ==> RepairedLine(lines, i) == Recount(lines[i], Body(lines[i + 1..]))
    ensures !IsHeader(lines[i]) ==> RepairedLine(lines, i) == lines[i]
  {
  }

  lemma ScannedNext(lines: seq<string>, i: nat, out: seq<string>, open_: Option<nat>)
    requires Scanned(lines, i, out, open_) && i < |lines|
    requires open_.Some? ==> !ClosesBody(lines[i])
    ensures !IsHeader(lines[i]) ==> Scanned(lines, i + 1, out + [lines[i]], open_)
    ensures open_.None? && IsHeader(lines[i]) ==> Scanned(lines, i + 1, out + [lines[i]], Some(i))
  {
    hide RepairedLine, ClosesBody;
    RepairedHeader(lines, i);
  }

  lemma ScannedStart(lines: seq<string>)
    ensures Scanned(lines, 0, [], None)
  {
  }

  lemma ScannedDone(lines: seq<string>, out: seq<string>)
    requires Scanned(lines, |lines|, out, None)
    ensures out == Repaired(lines)
  {
  }

  lemma ScannedHeader(lines: seq<string>, i: nat, out: seq<string>, start: nat)
    requires Scanned(lines, i, out, Some(start))
    ensures start < i == |out| && out[start] == lines[start]
  {
  }

  /** The text with every hunk header's counts recomputed. */
  function Canonical(text: string): string {
    JoinLines(Repaired(SplitLines(text)))
  }

  method CanonicalizeHunkCounts(text: string) returns (r: string)
    ensures r == Canonical(text)
  {
    hide *;
    var lines := SplitLines(text);
    var out: seq<string> := [];
    var hunkStart: Option<nat> := None;
    var hunkLines: seq<string> := [];
    var i := 0;
    ScannedStart(lines);
    while i < |lines|
      invariant 0 <= i <= |lines|
      invariant Scanned(lines, i, out, hunkStart)
      invariant hunkStart.Some? ==> hunkStart.value < i && hunkLines == lines[hunkStart.value + 1..i]
    {
      var line := lines[i];
      Closing(line);
      if IsHeader(line) {
        if hunkStart.Some? {
          out := FlushHunk(lines, i, out, hunkStart.value, hunkLines);
        }
        ScannedNext(lines, i, out, None);
        hunkStart, hunkLines := Some(i), [];
        out := out + [line];
      } else {
        if hunkStart.Some? {
          if StartsWith(line, "diff --git ") || StartsWith(line, "--- ") || StartsWith(line, "+++ ") {
            out := FlushHunk(lines, i, out, hunkStart.value, hunkLines);
            hunkStart := None;
          } else {
            hunkLines := hunkLines + [line];
          }
        }
        ScannedNext(lines, i, out, hunkStart);
        out := out + [line];
      }
      i := i + 1;
    }
    if hunkStart.Some? {
      out := FlushHunk(lines, i, out, hunkStart.value, hunkLines);
    }
    ScannedDone(lines, out);
    CanonicalIs(text);
    return JoinLines(out);
  }

  lemma Closing(line: string)
    ensures ClosesBody(line) <==>
            IsHeader(line) || StartsWith(line, "diff --git ") || StartsWith(line, "--- ") || StartsWith(line, "+++ ")
  {
  }

  lemma CanonicalIs(text: string)
    ensures Canonical(text) == JoinLines(Repaired(SplitLines(text)))
  {
  }

  /** Writes the recomputed header of the open hunk back into the output. */
  method FlushHunk(ghost lines: seq<string>, ghost i: nat, out: seq<string>, start: nat, body: seq<string>)
    returns (r: seq<string>)
    requires Scanned(lines, i, out, Some(start)) && start < i <= |lines| && body == lines[start + 1..i]
    requires i == |lines| || ClosesBody(lines[i])
    ensures Scanned(lines, i, r, None)
  {
    hide *;
    ScannedHeader(lines, i, out, start);
    var header := RecountHeader(out[start], body);
    ScannedClose(lines, i, out, start);
    return out[start := header];
  }

  // ------------------------------------------------------------- what it keeps

  lemma RecountKeeps(header: string, body: seq<string>)
    ensures IsHeader(header) ==> IsHeader(Recount(header, body))
    ensures MatchHeader(header).None? ==> Recount(header, body) == header
    ensures MatchHeader(header).Some? ==>
              var h := MatchHeader(header).value;
              MatchHeader(Recount(header, body)) ==
              Some(Header(Range(h.before.start, Some(Decimal(|OldLines(body)|))),
                          Range(h.after.start, Some(Decimal(|NewLines(body)|))), h.tail))
  {
    hide MatchHeader, OldLines, NewLines, Decimal;
    if MatchHeader(header).Some? {
      var h := MatchHeader(header).value;
      var g := Header(Range(h.before.start, Some(Decimal(|OldLines(body)|))),
                      Range(h.after.start, Some(Decimal(|NewLines(body)|))), h.tail);
      MatchHeaderText(g);
      assert g.Text()[..3] == "@@ ";
    }
  }

  /** Only hunk headers change, and of those only the counts. */
  lemma OnlyCountsChange(lines: seq<string>, i: nat)
    requires i < |lines|
    ensures Repaired(lines)[i] != lines[i] ==> IsHeader(lines[i]) && MatchHeader(lines[i]).Some?
    ensures IsHeader(lines[i]) && MatchHeader(lines[i]).Some? ==>
              var was, now := MatchHeader(lines[i]).value, MatchHeader(Repaired(lines)[i]);
              && now.Some?
              && now.value.before.start == was.before.start && now.value.after.start == was.after.start
              && now.value.tail == was.tail
              && now.value.before.Count() == |OldLines(Body(lines[i + 1..]))|
              && now.value.after.Count() == |NewLines(Body(lines[i + 1..]))|
  {
    hide MatchHeader, OldLines, NewLines, Body, Decimal, Recount;
    var body := Body(lines[i + 1..]);
    RecountKeeps(lines[i], body);
    NumberOfDecimal(|OldLines(body)|);
    NumberOfDecimal(|NewLines(body)|);
  }

  lemma SameClosers(lines: seq<string>, i: nat)
    requires i < |lines|
    ensures IsHeader(Repaired(lines)[i]) <==> IsHeader(lines[i])
    ensures ClosesBody(Repaired(lines)[i]) <==> ClosesBody(lines[i])
    ensures !ClosesBody(lines[i]) ==> Repaired(lines)[i] == lines[i]
  {
    hide Recount, Body;
    if IsHeader(lines[i]) {
      RecountKeeps(lines[i], Body(lines[i + 1..]));
    }
  }

  lemma {:induction false} SameBody(lines: seq<string>, i: nat)
    requires i <= |lines|
    ensures Body(Repaired(lines)[i..]) == Body(lines[i..])
    decreases |lines| - i
  {
    hide Recount, ClosesBody, IsHeader;
    if i < |lines| {
      SameClosers(lines, i);
      SameBody(lines, i + 1);
      assert lines[i..][1..] == lines[i + 1..];
      assert Repaired(lines)[i..][1..] == Repaired(lines)[i + 1..];
    }
  }

  lemma RecountTwice(header: string, body: seq<string>)
    ensures Recount(Recount(header, body), body) == Recount(header, body)
  {
    hide MatchHeader, OldLines, NewLines, Decimal;
    RecountKeeps(header, body);
  }

  /** Repairing a repaired diff changes nothing, line by line. */
  lemma RepairIdempotent(lines: seq<string>)
    ensures Repaired(Repaired(lines)) == Repaired(lines)
  {
    hide Recount, Body, IsHeader;
    var once := Repaired(lines);
    forall i | 0 <= i < |lines| ensures RepairedLine(once, i) == once[i] {
      SameClosers(lines, i);
      SameBody(lines, i + 1);
      RecountTwice(lines[i], Body(lines[i + 1..]));
    }
  }

  lemma RecountBreakFree(header: string, body: seq<string>)
    requires BreakFree(header)
    ensures BreakFree(Recount(header, body))
  {
    hide MatchHeader, OldLines, NewLines, IsBreak;
    if MatchHeader(header).Some? {
      var h := MatchHeader(header).value;
      MatchHeaderSound(header);
      TextBreakFree(h);
      var g := Header(Range(h.before.start, Some(Decimal(|OldLines(body)|))),
                      Range(h.after.start, Some(Decimal(|NewLines(body)|))), h.tail);
      TextBreakFree(g);
    }
  }

  lemma DigitsBreakFree(s: string)
    requires AllDigits(s)
    ensures BreakFree(s)
  {
  }

  /** A header is free of separators when its tail is. */
  lemma TextBreakFree(h: Header)
    requires h.Valid()
    ensures BreakFree(h.Text()) <==> BreakFree(h.tail)
  {
    hide AllDigits;
    DigitsBreakFree(h.before.start);
    DigitsBreakFree(h.after.start);
    if h.before.count.Some? { DigitsBreakFree(h.before.count.value); }
    if h.after.count.Some? { DigitsBreakFree(h.after.count.value); }
    var front := "@@ -" + (h.before.Text() + (" +" + (h.after.Text() + " @@")));
    assert h.Text() == front + h.tail;
    assert BreakFree(front) by { FrontBreakFree(h); }
    hide IsBreak;
    assert forall i | 0 <= i < |h.tail| :: h.tail[i] == h.Text()[|front| + i];
  }

  lemma FrontBreakFree(h: Header)
    requires BreakFree(h.before.start) && (h.before.count.Some? ==> BreakFree(h.before.count.value))
    requires BreakFree(h.after.start) && (h.after.count.Some? ==> BreakFree(h.after.count.value))
    ensures BreakFree("@@ -" + (h.before.Text() + (" +" + (h.after.Text() + " @@"))))
  {
  }

  lemma RepairedBreakFree(lines: seq<string>)
    requires AllBreakFree(lines)
    ensures AllBreakFree(Repaired(lines))
  {
    hide Recount, Body, BreakFree, IsHeader;
    forall i | 0 <= i < |lines| ensures BreakFree(Repaired(lines)[i]) {
      RecountBreakFree(lines[i], Body(lines[i + 1..]));
    }
  }

  lemma LastBlank(lines: seq<string>)
    requires lines != []
    ensures Repaired(lines)[|lines| - 1] == "" <==> lines[|lines| - 1] == ""
  {
    hide Recount, Body;
    var last := lines[|lines| - 1];
    if IsHeader(last) {
      RecountKeeps(last, Body(lines[|lines|..]));
    }
  }

  /** Dropping a final blank line shows in the joined text. */
  lemma DroppedBlankShows(once: seq<string>, cut: seq<string>)
    requires AllBreakFree(once) && AllBreakFree(cut)
    requires |once| >= 2 && once[|once| - 1] == "" && |cut| == |once| - 1
    ensures JoinLines(cut) != JoinLines(once)
  {
    hide SplitLines, JoinLines, AllBreakFree;
    assert JoinLines(once) + "" == JoinLines(once) && JoinLines(cut) + "" == JoinLines(cut);
    SplitAssemble(once, false);
    SplitAssemble(cut, false);
    JoinEndsWithNewline(once);
    JoinEndsWithNewline(cut);
    if cut[|cut| - 1] == "" {
      assert |SplitLines(JoinLines(cut))| == |once| - 2;
      assert |SplitLines(JoinLines(once))| == |once| - 1;
    }
  }

  /** On whole texts the repair is idempotent exactly when the text does not end in a
      blank line after an earlier one. */
  lemma CanonicalIdempotent(text: string)
    ensures var lines := SplitLines(text);
            Canonical(Canonical(text)) == Canonical(text) <==> |lines| <= 1 || lines[|lines| - 1] != ""
  {
    hide SplitLines, JoinLines, AllBreakFree, RepairedLine;
    var lines := SplitLines(text);
    var once := Repaired(lines);
    RepairedBreakFree(lines);
    assert JoinLines(once) + "" == JoinLines(once);
    SplitAssemble(once, false);
    RepairIdempotent(lines);
    if lines != [] {
      LastBlank(lines);
      if once[|lines| - 1] == "" {
        var cut := once[..|lines| - 1];
        assert AllBreakFree(cut) by { PrefixBreakFree(once, |lines| - 1); }
        RepairedBreakFree(cut);
        if |lines| == 1 {
          OneBlank(once);
        } else {
          DroppedBlankShows(once, Repaired(cut));
        }
      }
    }
  }

  /** Two empty lines: the second repair takes one more away. */
  lemma BlankLinesShrink()
    ensures Canonical(Canonical("\n\n")) != Canonical("\n\n")
  {
    hide SplitLines, Canonical;
    TwoBlankLines();
    CanonicalIdempotent("\n\n");
  }

  lemma TwoBlankLines()
    ensures SplitLines("\n\n") == ["", ""]
  {
    hide SplitLines;
    var lines: seq<string> := ["", ""];
    SplitAssemble(lines, true);
    assert lines[1..] == [""];
    assert JoinLines(lines) == "\n";
    assert "\n" + "\n" == "\n\n";
  }

  lemma PrefixBreakFree(lines: seq<string>, n: nat)
    requires n <= |lines| && AllBreakFree(lines)
    ensures AllBreakFree(lines[..n])
  {
  }

  lemma OneBlank(once: seq<string>)
    requires |once| == 1 && once[0] == ""
    ensures JoinLines(Repaired(once[..0])) == JoinLines(once)
  {
  }

  // --------------------------------------------------- what the parser demands

  /** Lines whose hunks the repair can make right: one file header before the hunks,
      every hunk header well formed, every body line marked and no file header. */
  predicate Repairable(path: bool, inHunk: bool, lines: seq<string>)
    decreases |lines|
  {
    if lines == [] then true
    else if IsHeader(lines[0]) then path && MatchHeader(lines[0]).Some? && Repairable(path, true, lines[1..])
    else if inHunk then MarkedBody(lines[0]) && Repairable(path, true, lines[1..])
    else Repairable(path || StartsWith(lines[0], "+++ b/"), false, lines[1..])
  }

  predicate MarkedBody(line: string) {
    && (Context(line) || Added(line) || Removed(line))
    && !StartsWith(line, "--- ") && !StartsWith(line, "+++ ")
  }

  lemma MarkedIsBody(line: string)
    requires MarkedBody(line)
    ensures !ClosesBody(line) && !StartsWith(line, "+++ b/")
  {
    assert "@@ "[0] != line[0] && "diff --git "[0] != line[0];
    assert "+++ b/"[..4] == "+++ ";
  }

  /** The open hunk will have the counts its header promises once the body that is
      still ahead has been read. */
  ghost predicate Promised(p: Parser, ahead: seq<string>) {
    p.current.Some? ==>
      && p.path.Some?
      && |OldLines(p.current.value.lines + Body(ahead))| == p.current.value.oldCount
      && |NewLines(p.current.value.lines + Body(ahead))| == p.current.value.newCount
  }

  // ------------------------------------------------------- what the parser makes of it

  /** The hunk under header `i`: where its header says, with the body below it. */
  function HunkAt(lines: seq<string>, i: nat): Hunk
    requires i < |lines| && MatchHeader(lines[i]).Some?
  {
    var h, body := MatchHeader(lines[i]).value, Body(lines[i + 1..]);
    Hunk(h.before.Start(), |OldLines(body)|, h.after.Start(), |NewLines(body)|, body)
  }

  /** The hunks of all headers from line `k` on. */
  function HunksFrom(lines: seq<string>, k: nat): seq<Hunk>
    requires k <= |lines|
    decreases |lines| - k
  {
    if k == |lines| then []
    else if IsHeader(lines[k]) && MatchHeader(lines[k]).Some? then [HunkAt(lines, k)] + HunksFrom(lines, k + 1)
    else HunksFrom(lines, k + 1)
  }

  /** The path of the last file header before the first hunk. */
  function PathFrom(path: Option<string>, inHunk: bool, lines: seq<string>): Option<string>
    decreases |lines|
  {
    if lines == [] || inHunk || IsHeader(lines[0]) then path
    else if StartsWith(lines[0], "+++ b/") then PathFrom(Some(NormalizePath(lines[0][6..])), false, lines[1..])
    else PathFrom(path, false, lines[1..])
  }

  function Collected(path: Option<string>, hunks: seq<Hunk>): seq<FilePatch> {
    if hunks == [] || path.None? then [] else [FilePatch(path.value, hunks)]
  }

  /** The open hunk as it will be once the body ahead has been read. */
  function Opened(p: Parser, ahead: seq<string>): seq<Hunk> {
    if p.current.None? then [] else [p.current.value.(lines := p.current.value.lines + Body(ahead))]
  }

  /** The parser has collected `done`, and the open hunk will keep its promise. */
  ghost predicate OnTrack(p: Parser, ahead: seq<string>, done: seq<Hunk>) {
    && Promised(p, ahead)
    && p.parsed == Collected(p.path, done)
    && (p.current.None? ==> done == [])
    && (done != [] ==> p.path.Some?)
  }

  lemma PromiseKept(p: Parser, ahead: seq<string>, done: seq<Hunk>)
    requires OnTrack(p, ahead, done) && Body(ahead) == []
    ensures Flush(p).Some? && Flush(p).value.path == p.path && Flush(p).value.current.None?
    ensures Flush(p).value.parsed == Collected(p.path, done + Opened(p, ahead))
  {
    hide OldLines, NewLines, AddHunk, Body;
    if p.current.Some? {
      assert p.current.value.lines + [] == p.current.value.lines;
      PA.AddToSame(p.path.value, done, p.current.value);
    } else {
      assert done + [] == done;
    }
  }

  lemma ReadHeader(p: Parser, lines: seq<string>, k: nat)
    requires k < |lines| && IsHeader(lines[k]) && MatchHeader(lines[k]).Some?
    requires p.path.Some? && Flush(p).Some?
    ensures var q := Consume(p, Recount(lines[k], Body(lines[k + 1..])));
            && q.Some? && q.value.path == p.path && q.value.parsed == Flush(p).value.parsed
            && q.value.current == Some(HunkAt(lines, k).(lines := []))
  {
    hide MatchHeader, OldLines, NewLines, Recount, AddHunk, Decimal, NumberOf, CountsHold, Body;
    var header, body := lines[k], Body(lines[k + 1..]);
    RecountKeeps(header, body);
    NumberOfDecimal(|OldLines(body)|);
    NumberOfDecimal(|NewLines(body)|);
    var line := Recount(header, body);
    assert "+++ b/"[0] != '@';
    assert line[0] == '@' by { assert "@@ "[0] == '@'; }
  }

  lemma HeaderOnTrack(p: Parser, q: Parser, lines: seq<string>, k: nat, done: seq<Hunk>)
    requires k < |lines| && MatchHeader(lines[k]).Some? && p.path.Some?
    requires q.path == p.path && q.parsed == Collected(p.path, done)
    requires q.current == Some(HunkAt(lines, k).(lines := []))
    ensures OnTrack(q, lines[k + 1..], done)
    ensures Opened(q, lines[k + 1..]) == [HunkAt(lines, k)]
  {
    hide OldLines, NewLines, Body, MatchHeader;
    assert [] + Body(lines[k + 1..]) == Body(lines[k + 1..]);
  }

  lemma ReadBody(p: Parser, line: string, rest: seq<string>, done: seq<Hunk>)
    requires MarkedBody(line) && p.current.Some? && OnTrack(p, [line] + rest, done)
    ensures var q := Consume(p, line);
            && q.Some? && q.value.path == p.path && q.value.current.Some?
            && OnTrack(q.value, rest, done) && Opened(q.value, rest) == Opened(p, [line] + rest)
  {
    hide OldLines, NewLines, MatchHeader, AddHunk, NormalizePath, Collected;
    MarkedIsBody(line);
    var h := p.current.value;
    assert ([line] + rest)[1..] == rest;
    assert Body([line] + rest) == [line] + Body(rest);
    assert h.lines + ([line] + Body(rest)) == (h.lines + [line]) + Body(rest);
  }

  lemma ReadOutside(p: Parser, line: string, rest: seq<string>)
    requires OnTrack(p, [line] + rest, []) && p.current.None? && !IsHeader(line)
    ensures var q := Consume(p, line);
            && q.Some? && q.value.current.None? && OnTrack(q.value, rest, [])
            && q.value.path.Some? == (p.path.Some? || StartsWith(line, "+++ b/"))
            && PathFrom(q.value.path, false, rest) == PathFrom(p.path, false, [line] + rest)
  {
    hide NormalizePath, OldLines, NewLines, PathFrom, Body;
    OutsidePath(p.path, line, rest);
  }

  lemma OutsidePath(path: Option<string>, line: string, rest: seq<string>)
    requires !IsHeader(line)
    ensures PathFrom(path, false, [line] + rest) ==
            PathFrom(if StartsWith(line, "+++ b/") then Some(NormalizePath(line[6..])) else path, false, rest)
  {
    assert ([line] + rest)[1..] == rest;
  }

  lemma HunksNext(lines: seq<string>, k: nat)
    requires k < |lines|
    ensures HunksFrom(lines, k) ==
            if IsHeader(lines[k]) && MatchHeader(lines[k]).Some? then [HunkAt(lines, k)] + HunksFrom(lines, k + 1)
            else HunksFrom(lines, k + 1)
  {
  }

  lemma PathInHunk(path: Option<string>, lines: seq<string>)
    ensures PathFrom(path, true, lines) == path
    ensures lines != [] && IsHeader(lines[0]) ==> PathFrom(path, false, lines) == path
  {
  }

  /** The parser makes of the repaired lines the hunks the repair meant: every count is what it
      sees at flush, and every body line is where it was. */
  lemma {:induction false} RepairedParses(p: Parser, lines: seq<string>, k: nat, done: seq<Hunk>)
    requires k <= |lines|
    requires Repairable(p.path.Some?, p.current.Some?, lines[k..])
    requires OnTrack(p, lines[k..], done)
    ensures ParseFrom(p, Repaired(lines)[k..]) ==
            Some(Collected(PathFrom(p.path, p.current.Some?, lines[k..]),
                           (done + Opened(p, lines[k..])) + HunksFrom(lines, k)))
    decreases |lines| - k
  {
    hide Recount, OnTrack, Consume, Flush, MarkedBody, MatchHeader, IsHeader, HunksFrom, HunkAt, PathFrom, Opened,
         Collected;
    var ahead, out := lines[k..], Repaired(lines)[k..];
    var hunks := done + Opened(p, ahead);
    PathInHunk(p.path, ahead);
    if k == |lines| {
      assert Body(ahead) == [];
      PromiseKept(p, ahead, done);
      NothingAhead(p.path, p.current.Some?, lines);
      assert hunks + [] == hunks;
    } else {
      var line := lines[k];
      var rest := lines[k + 1..];
      assert ahead == [line] + rest;
      assert ahead[0] == line && ahead[1..] == rest;
      assert out[0] == RepairedLine(lines, k) && out[1..] == Repaired(lines)[k + 1..];
      RepairedHeader(lines, k);
      HunksNext(lines, k);
      if IsHeader(line) {
        assert Body(ahead) == [];
        PromiseKept(p, ahead, done);
        ReadHeader(p, lines, k);
        var q := Consume(p, out[0]).value;
        HeaderOnTrack(p, q, lines, k, hunks);
        PathInHunk(q.path, rest);
        RepairedParses(q, lines, k + 1, hunks);
        assert (hunks + [HunkAt(lines, k)]) + HunksFrom(lines, k + 1) ==
               hunks + ([HunkAt(lines, k)] + HunksFrom(lines, k + 1));
      } else if p.current.Some? {
        ReadBody(p, line, rest, done);
        PathInHunk(p.path, rest);
        RepairedParses(Consume(p, line).value, lines, k + 1, done);
      } else {
        NothingDone(p, ahead, done);
        ReadOutside(p, line, rest);
        RepairedParses(Consume(p, line).value, lines, k + 1, done);
        NothingOpen(p, Consume(p, line).value, ahead, rest);
      }
    }
  }

  lemma NothingAhead(path: Option<string>, inHunk: bool, lines: seq<string>)
    ensures PathFrom(path, inHunk, lines[|lines|..]) == path && HunksFrom(lines, |lines|) == []
  {
  }

  lemma NothingDone(p: Parser, ahead: seq<string>, done: seq<Hunk>)
    requires OnTrack(p, ahead, done) && p.current.None?
    ensures done == []
  {
  }

  lemma NothingOpen(p: Parser, q: Parser, ahead: seq<string>, rest: seq<string>)
    requires p.current.None? && q.current.None?
    ensures Opened(p, ahead) == Opened(q, rest)
  {
  }

  /** A repairable single-file diff with a hunk parses after the repair, to the file its header
      names and to exactly the hunks of its hunk headers: started where they say, counted and
      filled with the body that stands under them. */
  lemma CanonicalParses(text: string)
    requires Repairable(false, false, SplitLines(text))
    requires exists i :: 0 <= i < |SplitLines(text)| && IsHeader(SplitLines(text)[i])
    ensures var lines := SplitLines(text);
            && PathFrom(None, false, lines).Some? && HunksFrom(lines, 0) != []
            && Parsed(Canonical(text)) == Some([FilePatch(PathFrom(None, false, lines).value, HunksFrom(lines, 0))])
  {
    hide SplitLines, ParseFrom, JoinLines, Repairable, RepairedLine, AllBreakFree, IsHeader, HunksFrom, PathFrom,
         OnTrack;
    var lines := SplitLines(text);
    var once := Repaired(lines);
    assert lines[0..] == lines && once[0..] == once;
    NothingPromised(lines);
    RepairedParses(START, lines, 0, []);
    assert ([] + Opened(START, lines)) + HunksFrom(lines, 0) == HunksFrom(lines, 0);
    RepairedBreakFree(lines);
    assert JoinLines(once) + "" == JoinLines(once);
    SplitAssemble(once, false);
    var i :| 0 <= i < |lines| && IsHeader(lines[i]);
    LastMarked(false, false, lines, i);
    LastBlank(lines);
    HeaderFound(None, false, lines, 0, i);
  }

  /** A header that is reached has a path and makes a hunk. */
  lemma {:induction false} HeaderFound(path: Option<string>, inHunk: bool, lines: seq<string>, k: nat, i: nat)
    requires k <= i < |lines| && IsHeader(lines[i]) && Repairable(path.Some?, inHunk, lines[k..])
    ensures HunksFrom(lines, k) != []
    ensures !inHunk ==> PathFrom(path, false, lines[k..]).Some?
    decreases i - k
  {
    hide MatchHeader, HunkAt, MarkedBody, NormalizePath;
    var line, rest := lines[k], lines[k + 1..];
    assert lines[k..] == [line] + rest && lines[k..][1..] == rest;
    if !IsHeader(line) {
      var next := if !inHunk && StartsWith(line, "+++ b/") then Some(NormalizePath(line[6..])) else path;
      HeaderFound(next, inHunk, lines, k + 1, i);
    }
  }

  lemma NothingPromised(ahead: seq<string>)
    ensures OnTrack(START, ahead, [])
  {
  }

  lemma {:induction false} LastMarked(path: bool, inHunk: bool, lines: seq<string>, i: nat)
    requires lines != [] && Repairable(path, inHunk, lines)
    requires inHunk || (i < |lines| && IsHeader(lines[i]))
    ensures lines[|lines| - 1] != ""
    decreases |lines|
  {
    hide MatchHeader;
    if |lines| > 1 {
      var now := inHunk || IsHeader(lines[0]);
      LastMarked(path || (!inHunk && StartsWith(lines[0], "+++ b/")), now, lines[1..],
                 if now || i == 0 then 0 else i - 1);
    }
  }
}
