/** The textual layer of unified diffs: decimal numbers, the two header patterns, and the
    normal form of paths. */
module DiffText {
  import opened Text

  predicate IsDigit(c: char) {
    '0' <= c <= '9'
  }

  predicate AllDigits(s: string) {
    forall i | 0 <= i < |s| :: IsDigit(s[i])
  }

  /** Length of the longest run of digits at the front of `s`. */
  function DigitRun(s: string): (k: nat)
    ensures k <= |s|
    ensures AllDigits(s[..k])
    ensures k < |s| ==> !IsDigit(s[k])
  {
    if s == "" || !IsDigit(s[0]) then 0
    else
      var k := DigitRun(s[1..]);
      assert s[..1 + k] == [s[0]] + s[1..][..k];
      1 + k
  }

  /** `int(s)` for a run of decimal digits. */
  function NumberOf(s: string): nat
    requires AllDigits(s)
  {
    if s == "" then 0
    else 10 * NumberOf(s[..|s| - 1]) + (s[|s| - 1] as int - '0' as int)
  }

  /** `str(n)` */
  function Decimal(n: nat): (s: string)
    ensures s != "" && AllDigits(s)
  {
    var digit := [('0' as int + n % 10) as char];
    if n < 10 then digit else Decimal(n / 10) + digit
  }

  lemma {:induction false} NumberOfDecimal(n: nat)
    ensures NumberOf(Decimal(n)) == n
  {
    var s := Decimal(n);
    if n >= 10 {
      NumberOfDecimal(n / 10);
      assert s[..|s| - 1] == Decimal(n / 10);
    } else {
      assert s[..|s| - 1] == "";
    }
  }

  lemma DigitRunIs(digits: string, rest: string)
    requires AllDigits(digits)
    requires rest == "" || !IsDigit(rest[0])
    ensures DigitRun(digits + rest) == |digits|
  {
    if digits == "" {
      assert digits + rest == rest;
    } else {
      assert (digits + rest)[1..] == digits[1..] + rest;
      DigitRunIs(digits[1..], rest);
    }
  }

  /** One `N` or `N,M` range of a hunk header, and what follows it. */
  datatype Range = Range(start: string, count: Option<string>)
  {
    predicate Valid() {
      start != "" && AllDigits(start) && (count.Some? ==> count.value != "" && AllDigits(count.value))
    }

    function Text(): string {
      start + if count.Some? then "," + count.value else ""
    }

    function Start(): nat requires Valid() { NumberOf(start) }

    function Count(): nat requires Valid() { if count.Some? then NumberOf(count.value) else 1 }
  }

  /** Matches `(\d+)(?:,(\d+))?` at the front of `s`, greedily. */
  function MatchRange(s: string): (r: Option<(Range, string)>)
    ensures r.Some? ==> r.value.0.Valid() && s == r.value.0.Text() + r.value.1
  {
    var k := DigitRun(s);
    if k == 0 then None
    else
      var rest := s[k..];
      if rest != "" && rest[0] == ',' && DigitRun(rest[1..]) > 0 then
        var m := DigitRun(rest[1..]);
        assert rest == "," + rest[1..][..m] + rest[1 + m..];
        Some((Range(s[..k], Some(rest[1..][..m])), rest[1 + m..]))
      else
        Some((Range(s[..k], None), rest))
  }

  lemma MatchRangeOf(r: Range, rest: string)
    requires r.Valid() && r.count.Some?
    requires rest == "" || !IsDigit(rest[0])
    ensures MatchRange(r.Text() + rest) == Some((r, rest))
  {
    hide AllDigits;
    var s := r.Text() + rest;
    var after := "," + r.count.value + rest;
    assert s == r.start + after;
    DigitRunIs(r.start, after);
    assert s[|r.start|..] == after && s[..|r.start|] == r.start;
    assert after[1..] == r.count.value + rest;
    DigitRunIs(r.count.value, rest);
    assert after[1..][..|r.count.value|] == r.count.value;
    assert after[1 + |r.count.value|..] == rest;
  }

  datatype Header = Header(before: Range, after: Range, tail: string)
  {
    predicate Valid() { before.Valid() && after.Valid() }

    function Text(): string {
      "@@ -" + (before.Text() + (" +" + (after.Text() + (" @@" + tail))))
    }
  }

  /** `^@@ -(\d+)(?:,(\d+))? \+(\d+)(?:,(\d+))? @@(.*)$` */
  function MatchHeader(line: string): (h: Option<Header>)
    ensures h.Some? ==> h.value.Valid()
  {
    if !StartsWith(line, "@@ -") then None
    else
      match MatchRange(line[4..])
      case None => None
      case Some((before, mid)) =>
        if !StartsWith(mid, " +") then None
        else
          match MatchRange(mid[2..])
          case None => None
          case Some((after, end)) =>
            if !StartsWith(end, " @@") then None
            else Some(Header(before, after, end[3..]))
  }

  /** A match accounts for every character of the line. */
  lemma MatchHeaderSound(line: string)
    requires MatchHeader(line).Some?
    ensures MatchHeader(line).value.Text() == line
  {
    hide MatchRange;
    var (before, mid) := MatchRange(line[4..]).value;
    var (after, end) := MatchRange(mid[2..]).value;
    assert line == "@@ -" + (before.Text() + mid);
    assert mid == " +" + (after.Text() + end);
    assert end == " @@" + end[3..];
  }

  /** A header written with explicit counts is read back exactly. */
  lemma MatchHeaderText(h: Header)
    requires h.Valid() && h.before.count.Some? && h.after.count.Some?
    ensures MatchHeader(h.Text()) == Some(h)
  {
    var end := " @@" + h.tail;
    var mid := " +" + (h.after.Text() + end);
    var line := h.Text();
    assert line[4..] == h.before.Text() + mid;
    MatchRangeOf(h.before, mid);
    assert mid[2..] == h.after.Text() + end;
    MatchRangeOf(h.after, end);
    assert end[3..] == h.tail;
  }

  predicate IsSpace(c: char) {
    var n := c as int;
    || 9 <= n <= 13 || 28 <= n <= 32 || n == 0x85 || n == 0xA0 || n == 0x1680
    || 0x2000 <= n <= 0x200A || n == 0x2028 || n == 0x2029 || n == 0x202F
    || n == 0x205F || n == 0x3000
  }

  function StripLeft(s: string): string {
    if s != "" && IsSpace(s[0]) then StripLeft(s[1..]) else s
  }

  function StripRight(s: string): string {
    if s != "" && IsSpace(s[|s| - 1]) then StripRight(s[..|s| - 1]) else s
  }

  /** `str.strip()` */
  function Strip(s: string): string {
    StripRight(StripLeft(s))
  }

  lemma {:induction false} StripRightEnds(s: string)
    ensures StripRight(s) == "" || !IsSpace(StripRight(s)[|StripRight(s)| - 1])
    ensures StripRight(s) <= s
    decreases |s|
  {
    if s != "" && IsSpace(s[|s| - 1]) {
      StripRightEnds(s[..|s| - 1]);
    }
  }

  lemma {:induction false} StripLeftStarts(s: string)
    ensures StripLeft(s) == "" || !IsSpace(StripLeft(s)[0])
    decreases |s|
  {
    if s != "" && IsSpace(s[0]) {
      StripLeftStarts(s[1..]);
    }
  }

  lemma StripIdempotent(s: string)
    ensures Strip(Strip(s)) == Strip(s)
  {
    hide IsSpace;
    var l := StripLeft(s);
    StripLeftStarts(s);
    StripRightEnds(l);
    var t := StripRight(l);
    assert t == Strip(s);
    if t != "" {
      assert t[0] == l[0];
    }
  }

  function ForwardSlashes(s: string): string {
    seq(|s|, i requires 0 <= i < |s| => if s[i] == '\\' then '/' else s[i])
  }

  function NormalizePath(path: string): string {
    var p := ForwardSlashes(Strip(path));
    if StartsWith(p, "./") then p[2..] else p
  }
}
