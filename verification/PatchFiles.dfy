/** Whole files: what the applier writes and what the validator accepts. */
module PatchFiles {
  import opened Text
  import opened PatchReview
  import opened PatchPlaces

  /** The lines of one file after its hunks. */
  function PatchedLines(base: string, hunks: seq<Hunk>): Option<seq<string>>
  {
    Rebuilt(SplitLines(base), 0, InOrder(hunks))
  }

  function PathsOf(parsed: seq<FilePatch>): set<string> {
    set f | f in parsed :: f.path
  }

  /** Every patched file is among the base files and its hunks fit it. */
  ghost predicate Applies(parsed: seq<FilePatch>, baseFiles: map<string, string>)
  {
    forall f | f in parsed :: f.path in baseFiles && PatchedLines(baseFiles[f.path], f.hunks).Some?
  }

  /** The text one file must have after its hunks. */
  function PatchedText(base: string, hunks: seq<Hunk>): Option<string>
  {
    var lines := PatchedLines(base, hunks);
    if lines.None? then None else Some(Assemble(lines.value, EndsWithNewline(base)))
  }

  method PatchFile(base: string, hunks: seq<Hunk>) returns (r: Option<string>)
    ensures r == PatchedText(base, hunks)
  {
    var rebuilt := RebuildLines(SplitLines(base), InOrder(hunks));
    if rebuilt.None? {
      return None;
    }
    return Some(JoinLines(rebuilt.value) + if EndsWithNewline(base) then "\n" else "");
  }

  method MaterializePatchFileContents(diff: string, baseFiles: map<string, string>)
    returns (r: Option<map<string, string>>)
    ensures r.Some? <==>
            && Parsed(diff).Some? && Parsed(diff).value != []
            && forall f | f in Parsed(diff).value :: f.path in baseFiles && Fit(SplitLines(baseFiles[f.path]), f.hunks)
    ensures r.Some? ==>
              && r.value.Keys == PathsOf(Parsed(diff).value)
              && forall f | f in Parsed(diff).value :: TextPlaced(baseFiles[f.path], f.hunks, r.value[f.path])
    ensures r.Some? ==> Materialized(Parsed(diff).value, baseFiles, r.value)
  {
    hide Fit, Placed, TextPlaced, PatchedText, PatchedLines;
    var parsed := ParseDiffHunks(diff);
    if parsed.None? || parsed.value == [] {
      return None;
    }
    var files := parsed.value;
    ParsedDistinct(START, SplitLines(diff));
    if exists f | f in files :: f.path !in baseFiles {
      return None;
    }
    r := MaterializeFiles(files, baseFiles);
    forall f | f in files
      ensures PatchedLines(baseFiles[f.path], f.hunks).Some? <==> Fit(SplitLines(baseFiles[f.path]), f.hunks)
      ensures forall text | PatchedText(baseFiles[f.path], f.hunks) == Some(text) ::
                TextPlaced(baseFiles[f.path], f.hunks, text)
    {
      FileFits(baseFiles[f.path], f.hunks);
    }
  }

  /** `text` is the base text with every hunk applied, and ends in a newline if the base does. */
  ghost predicate TextPlaced(base: string, hunks: seq<Hunk>, text: string) {
    exists lines :: Placed(SplitLines(base), hunks, lines)
                    && text == JoinLines(lines) + if EndsWithNewline(base) then "\n" else ""
  }

  lemma FileFits(base: string, hunks: seq<Hunk>)
    requires AllCountsHold(hunks)
    ensures PatchedLines(base, hunks).Some? <==> Fit(SplitLines(base), hunks)
    ensures forall lines :: PatchedLines(base, hunks) == Some(lines) <==>
                            Fit(SplitLines(base), hunks) && Placed(SplitLines(base), hunks, lines)
    ensures forall text | PatchedText(base, hunks) == Some(text) :: TextPlaced(base, hunks, text)
  {
    hide Fit, Placed, SplitLines, AllCountsHold, JoinLines, EndsWithNewline;
    AnyOrder(SplitLines(base), hunks);
    forall text | PatchedText(base, hunks) == Some(text) ensures TextPlaced(base, hunks, text) {
      assert Placed(SplitLines(base), hunks, PatchedLines(base, hunks).value);
    }
  }

  /** `out` holds the patched text of every patched file and nothing else. */
  ghost predicate Materialized(files: seq<FilePatch>, baseFiles: map<string, string>, out: map<string, string>)
  {
    && out.Keys == PathsOf(files)
    && forall f | f in files ::
         f.path in baseFiles && f.path in out && PatchedText(baseFiles[f.path], f.hunks) == Some(out[f.path])
  }

  method MaterializeFiles(files: seq<FilePatch>, baseFiles: map<string, string>)
    returns (r: Option<map<string, string>>)
    requires DistinctPaths(files)
    requires forall f | f in files :: f.path in baseFiles
    ensures r.Some? <==> Applies(files, baseFiles)
    ensures r.Some? ==> Materialized(files, baseFiles, r.value)
  {
    hide PatchedLines;
    var result: map<string, string> := map[];
    var i := 0;
    while i < |files|
      invariant 0 <= i <= |files|
      invariant Materialized(files[..i], baseFiles, result)
    {
      var f := files[i];
      assert f in files;
      var text := PatchFile(baseFiles[f.path], f.hunks);
      if text.None? {
        return None;
      }
      assert files[..i + 1] == files[..i] + [f];
      result := result[f.path := text.value];
      i := i + 1;
    }
    assert files[..i] == files;
    return Some(result);
  }

  /** What `validate_patch_applies_to_base` accepts. */
  ghost predicate Accepts(files: seq<FilePatch>, baseFiles: map<string, string>, resultFiles: map<string, string>)
  {
    && files != []
    && PathsOf(files) == resultFiles.Keys
    && PathsOf(files) == baseFiles.Keys
    && forall f | f in files ::
         && f.path in baseFiles && f.path in resultFiles
         && AcceptsText(f.hunks, baseFiles[f.path], resultFiles[f.path])
  }

  predicate AcceptsText(hunks: seq<Hunk>, base: string, result: string)
  {
    && PatchedLines(base, hunks) == Some(SplitLines(result))
    && EndsWithNewline(base) == EndsWithNewline(result)
  }

  lemma AcceptsPlaced(base: string, hunks: seq<Hunk>, result: string)
    requires AllCountsHold(hunks)
    ensures AcceptsText(hunks, base, result) <==>
            && Fit(SplitLines(base), hunks) && Placed(SplitLines(base), hunks, SplitLines(result))
            && EndsWithNewline(base) == EndsWithNewline(result)
  {
    hide Fit, Placed, SplitLines, AllCountsHold, EndsWithNewline;
    FileFits(base, hunks);
  }

  method CheckFile(hunks: seq<Hunk>, base: string, result: string) returns (ok: bool)
    ensures ok <==> AcceptsText(hunks, base, result)
  {
    var rebuilt := RebuildLines(SplitLines(base), InOrder(hunks));
    return rebuilt.Some? && rebuilt.value == SplitLines(result) && EndsWithNewline(base) == EndsWithNewline(result);
  }

  method ValidatePatchAppliesToBase(diff: string, baseFiles: map<string, string>, resultFiles: map<string, string>)
    returns (ok: bool)
    ensures ok <==> Parsed(diff).Some? && Accepts(Parsed(diff).value, baseFiles, resultFiles)
    ensures ok <==>
            && Parsed(diff).Some? && Parsed(diff).value != []
            && PathsOf(Parsed(diff).value) == resultFiles.Keys == baseFiles.Keys
            && forall f | f in Parsed(diff).value ::
                 var base, result := baseFiles[f.path], resultFiles[f.path];
                 && Fit(SplitLines(base), f.hunks) && Placed(SplitLines(base), f.hunks, SplitLines(result))
                 && EndsWithNewline(base) == EndsWithNewline(result)
  {
    hide Parsed, AcceptsText, AllCountsHold, Fit, Placed, EndsWithNewline, SplitLines;
    var parsed := ParseDiffHunks(diff);
    if parsed.None? || parsed.value == [] || PathsOf(parsed.value) != resultFiles.Keys {
      return false;
    }
    if PathsOf(parsed.value) != baseFiles.Keys {
      return false;
    }
    var files := parsed.value;
    forall f | f in files
      ensures f.path in baseFiles && f.path in resultFiles
      ensures AcceptsText(f.hunks, baseFiles[f.path], resultFiles[f.path]) <==>
              && Fit(SplitLines(baseFiles[f.path]), f.hunks)
              && Placed(SplitLines(baseFiles[f.path]), f.hunks, SplitLines(resultFiles[f.path]))
              && EndsWithNewline(baseFiles[f.path]) == EndsWithNewline(resultFiles[f.path])
    {
      assert f.path in PathsOf(files);
      AcceptsPlaced(baseFiles[f.path], f.hunks, resultFiles[f.path]);
    }
    var i := 0;
    while i < |files|
      invariant 0 <= i <= |files|
      invariant forall j | 0 <= j < i ::
                  && files[j].path in baseFiles && files[j].path in resultFiles
                  && AcceptsText(files[j].hunks, baseFiles[files[j].path], resultFiles[files[j].path])
    {
      var f := files[i];
      assert f in files;
      assert f.path in PathsOf(files);
      var same := CheckFile(f.hunks, baseFiles[f.path], resultFiles[f.path]);
      if !same {
        return false;
      }
      i := i + 1;
    }
    return true;
  }
}
