/** Option values, and the few Python text operations the patch engine relies on: line
    splitting, joining, stripping and prefixes. */
module Text {

  datatype Option<+T> = None | Some(value: T)

  /** The characters at which `str.splitlines` ends a line. */
  predicate IsBreak(c: char) {
    || c == '\n' || c == '\r'
    || c == '\U{000B}' || c == '\U{000C}'
    || c == '\U{001C}' || c == '\U{001D}' || c == '\U{001E}'
    || c == '\U{0085}' || c == '\U{2028}' || c == '\U{2029}'
  }

  predicate BreakFree(s: string) {
    forall i | 0 <= i < |s| :: !IsBreak(s[i])
  }

  predicate AllBreakFree(lines: seq<string>) {
    forall i | 0 <= i < |lines| :: BreakFree(lines[i])
  }

  /** Text whose only line separator is the newline. */
  predicate NewlineOnly(s: string) {
    forall i | 0 <= i < |s| :: IsBreak(s[i]) ==> s[i] == '\n'
  }

  /** Length of the first line of `s`, separator excluded. */
  function LineEnd(s: string): (k: nat)
    ensures k <= |s|
    ensures BreakFree(s[..k])
    ensures k < |s| ==> IsBreak(s[k])
  {
    if s == "" || IsBreak(s[0]) then 0
    else
      var k := LineEnd(s[1..]);
      assert s[..1 + k] == [s[0]] + s[1..][..k];
      1 + k
  }

  /** `str.splitlines()`: "\r\n" is one separator, a final separator adds no line. */
  function SplitLines(s: string): (lines: seq<string>)
    ensures AllBreakFree(lines)
    decreases |s|
  {
    if s == "" then []
    else
      var k := LineEnd(s);
      if k == |s| then [s]
      else if s[k] == '\r' && k + 1 < |s| && s[k + 1] == '\n' then [s[..k]] + SplitLines(s[k + 2..])
      else [s[..k]] + SplitLines(s[k + 1..])
  }

  /** `"\n".join(lines)` */
  function JoinLines(lines: seq<string>): string {
    if lines == [] then ""
    else if |lines| == 1 then lines[0]
    else lines[0] + "\n" + JoinLines(lines[1..])
  }

  predicate EndsWithNewline(s: string) {
    s != "" && s[|s| - 1] == '\n'
  }

  /** The text the patch engine writes for a list of lines. */
  function Assemble(lines: seq<string>, newline: bool): string {
    JoinLines(lines) + if newline then "\n" else ""
  }

  predicate StartsWith(s: string, prefix: string) {
    prefix <= s
  }

  lemma LineEndIs(line: string, rest: string)
    requires BreakFree(line)
    requires rest == "" || IsBreak(rest[0])
    ensures LineEnd(line + rest) == |line|
  {
    hide IsBreak, LineEnd;
    var s := line + rest;
    var k := LineEnd(s);
    assert forall i | 0 <= i < |line| :: s[i] == line[i];
    assert forall i | 0 <= i < k :: s[..k][i] == s[i];
    assert rest != "" ==> s[|line|] == rest[0];
  }

  lemma SplitFirst(line: string, rest: string)
    requires BreakFree(line)
    ensures SplitLines(line + "\n" + rest) == [line] + SplitLines(rest)
  {
    var s := line + ("\n" + rest);
    LineEndIs(line, "\n" + rest);
    assert s == line + "\n" + rest;
    assert s[..|line|] == line;
    assert s[|line| + 1..] == rest;
  }

  /** The lines `splitlines` sees in an assembled text. */
  function Resplit(lines: seq<string>, newline: bool): seq<string> {
    if newline then (if lines == [] then [""] else lines)
    else if lines != [] && lines[|lines| - 1] == "" then lines[..|lines| - 1]
    else lines
  }

  /** Splitting what `Assemble` wrote gives the lines back, except that an empty
      text followed by a newline gains a line, and a last blank line is dropped when no
      newline follows it. */
  lemma {:induction false} SplitAssemble(lines: seq<string>, newline: bool)
    requires AllBreakFree(lines)
    ensures SplitLines(Assemble(lines, newline)) == Resplit(lines, newline)
  {
    hide SplitLines;
    if |lines| <= 1 {
      SplitAssembleOne(lines, newline);
    } else {
      var tail := lines[1..];
      assert lines == [lines[0]] + tail;
      SplitAssemble(tail, newline);
      AssembleCons(lines[0], tail, newline);
      SplitFirst(lines[0], Assemble(tail, newline));
      assert [lines[0]] + tail[..|tail| - 1] == lines[..|lines| - 1];
    }
  }

  lemma SplitAssembleOne(lines: seq<string>, newline: bool)
    requires AllBreakFree(lines) && |lines| <= 1
    ensures SplitLines(Assemble(lines, newline)) == Resplit(lines, newline)
  {
    var line := if lines == [] then "" else lines[0];
    assert JoinLines(lines) == line;
    if newline {
      SplitFirst(line, "");
      assert line + "\n" + "" == Assemble(lines, newline);
      assert [line] + [] == [line];
    } else {
      LineEndIs(line, "");
      assert line + "" == line;
      assert line[..|line|] == line;
    }
  }

  lemma AssembleCons(line: string, lines: seq<string>, newline: bool)
    requires lines != []
    ensures Assemble([line] + lines, newline) == line + "\n" + Assemble(lines, newline)
  {
    assert ([line] + lines)[1..] == lines;
  }

  lemma {:induction false} JoinEndsWithNewline(lines: seq<string>)
    requires AllBreakFree(lines)
    ensures EndsWithNewline(JoinLines(lines)) <==> |lines| >= 2 && lines[|lines| - 1] == ""
  {
    if |lines| == 1 {
      if lines[0] != "" {
        assert !IsBreak(lines[0][|lines[0]| - 1]);
      }
    } else if |lines| >= 2 {
      JoinEndsWithNewline(lines[1..]);
      var rest := JoinLines(lines[1..]);
      var s := JoinLines(lines);
      assert s == lines[0] + "\n" + rest;
      if rest == "" {
        assert s[|s| - 1] == '\n';
        assert |lines[1..]| == 1 && lines[1] == "";
      } else {
        assert s[|s| - 1] == rest[|rest| - 1];
        assert lines[|lines| - 1] == lines[1..][|lines| - 2];
        if |lines| == 2 { assert rest == lines[1]; }
      }
    }
  }

  /** Newline-only text is determined by its lines and by how it ends. */
  lemma {:induction false} AssembleSplit(s: string)
    requires NewlineOnly(s)
    ensures Assemble(SplitLines(s), EndsWithNewline(s)) == s
    decreases |s|
  {
    if s != "" {
      var k := LineEnd(s);
      if k < |s| {
        AssembleSplitFirst(s, k);
      } else {
        assert s[..k] == s;
        assert !IsBreak(s[|s| - 1]);
        assert s + "" == s;
      }
    }
  }

  lemma CutAt(s: string, k: nat)
    requires k < |s|
    ensures s == s[..k] + [s[k]] + s[k + 1..]
  {
  }

  lemma SplitsAt(s: string, k: nat)
    requires NewlineOnly(s) && k < |s| && k == LineEnd(s)
    ensures s == s[..k] + "\n" + s[k + 1..]
    ensures SplitLines(s) == [s[..k]] + SplitLines(s[k + 1..])
    ensures NewlineOnly(s[k + 1..])
  {
    hide JoinLines;
    CutAt(s, k);
    assert IsBreak(s[k]);
    assert s[k] == '\n';
    assert [s[k]] == "\n";
  }

  lemma {:induction false} AssembleSplitFirst(s: string, k: nat)
    requires NewlineOnly(s) && k < |s| && k == LineEnd(s)
    ensures Assemble(SplitLines(s), EndsWithNewline(s)) == s
    decreases |s|, 0
  {
    hide IsBreak, LineEnd, JoinLines, NewlineOnly;
    SplitsAt(s, k);
    var first, rest := s[..k], s[k + 1..];
    AssembleSplit(rest);
    if rest == "" {
      assert SplitLines(s) == [first];
      assert JoinLines([first]) == first by { JoinOne(first); }
    } else {
      assert s[|s| - 1] == rest[|rest| - 1];
      AssembleCons(first, SplitLines(rest), EndsWithNewline(rest));
    }
  }

  lemma JoinOne(line: string)
    ensures JoinLines([line]) == line
  {
  }
}
