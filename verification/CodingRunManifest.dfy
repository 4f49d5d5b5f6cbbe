/** In a record the store accepts, the candidate's paths are the reviewed files themselves. */
module CodingRunManifest {
  import opened Text
  import opened DiffText
  import opened Sorting
  import opened PatchContents
  import opened CodingRunCodec

  // -------------------------------------------------------------- normalised paths

  lemma StripLength(s: string)
    ensures |Strip(s)| <= |s|
    ensures |Strip(s)| == |s| ==> Strip(s) == s
  {
    StripLeftLength(s);
    StripRightLength(StripLeft(s));
  }

  lemma {:induction false} StripLeftLength(s: string)
    ensures |StripLeft(s)| <= |s|
    ensures |StripLeft(s)| == |s| ==> StripLeft(s) == s
  {
    hide IsSpace;
    if s != "" && IsSpace(s[0]) { StripLeftLength(s[1..]); }
  }

  lemma {:induction false} StripRightLength(s: string)
    ensures |StripRight(s)| <= |s|
    ensures |StripRight(s)| == |s| ==> StripRight(s) == s
  {
    hide IsSpace;
    if s != "" && IsSpace(s[|s| - 1]) { StripRightLength(s[..|s| - 1]); }
  }

  lemma NormalLength(s: string)
    ensures |NormalizePath(s)| <= |s|
    ensures '\\' !in NormalizePath(s)
    ensures |NormalizePath(s)| == |s| && '\\' !in s ==> NormalizePath(s) == s
  {
    hide Strip;
    StripLength(s);
    var t := Strip(s);
    assert '\\' !in ForwardSlashes(t);
    assert '\\' !in t ==> ForwardSlashes(t) == t;
  }

  // ------------------------------------------------------------------ changed files

  lemma {:induction false} ChangedFilesKeep(files: seq<string>, lines: seq<string>)
    requires Distinct(files) && forall f | f in files :: '\\' !in f && f != "/dev/null"
    ensures var all := ChangedFiles(files, lines);
            Distinct(all) && forall f | f in all :: '\\' !in f && f != "/dev/null"
    decreases |lines|
  {
    hide NormalizePath;
    if lines != [] {
      NormalLength(if StartsWith(lines[0], "+++ b/") then lines[0][6..] else "");
      match ChangedPath(lines[0]) {
        case Some(path) => ChangedFilesKeep(if path in files then files else files + [path], lines[1..]);
        case None => ChangedFilesKeep(files, lines[1..]);
      }
    }
  }

  lemma {:induction false} ChangedFilesGrow(files: seq<string>, lines: seq<string>)
    ensures forall f | f in files :: f in ChangedFiles(files, lines)
    ensures forall l | l in lines && ChangedPath(l).Some? :: ChangedPath(l).value in ChangedFiles(files, lines)
    decreases |lines|
  {
    hide ChangedPath;
    if lines != [] {
      assert forall l :: l in lines <==> l == lines[0] || l in lines[1..];
      match ChangedPath(lines[0]) {
        case Some(path) => ChangedFilesGrow(if path in files then files else files + [path], lines[1..]);
        case None => ChangedFilesGrow(files, lines[1..]);
      }
    }
  }

  // ------------------------------------------------------------------- claimed paths

  /** A path that the scanner may attach a claim to. */
  predicate Mentioned(path: string, lines: seq<string>) {
    path == "/dev/null" || exists l :: l in lines && ChangedPath(l) == Some(path)
  }

  predicate ClaimsMentioned(s: Scanner, lines: seq<string>) {
    && (s.path.Some? ==> Mentioned(s.path.value, lines))
    && forall c | c in s.claims :: Mentioned(c.path, lines)
  }

  lemma ReleaseMentioned(s: Scanner, all: seq<string>)
    requires ClaimsMentioned(s, all)
    ensures ClaimsMentioned(Release(s), all)
  {
    hide Mentioned;
  }

  lemma ScanMentioned(s: Scanner, line: string, all: seq<string>)
    requires ClaimsMentioned(s, all) && line in all
    ensures Scan(s, line).Some? ==> ClaimsMentioned(Scan(s, line).value, all)
  {
    hide NormalizePath, MatchHeader, Mentioned, Release;
    ReleaseMentioned(s, all);
    if StartsWith(line, "+++ b/") { HeaderMentioned(line, all); }
  }

  lemma HeaderMentioned(line: string, all: seq<string>)
    requires line in all && StartsWith(line, "+++ b/")
    ensures Mentioned(NormalizePath(line[6..]), all)
  {
    hide NormalizePath;
    if NormalizePath(line[6..]) != "/dev/null" { assert ChangedPath(line) == Some(NormalizePath(line[6..])); }
  }

  lemma {:induction false} ScanFromMentioned(s: Scanner, lines: seq<string>, all: seq<string>)
    requires ClaimsMentioned(s, all) && forall l | l in lines :: l in all
    ensures ScanFrom(s, lines).Some? ==> forall c | c in ScanFrom(s, lines).value :: Mentioned(c.path, all)
    decreases |lines|
  {
    hide Scan, Mentioned, Release;
    if lines == [] {
      ReleaseMentioned(s, all);
    } else {
      ScanMentioned(s, lines[0], all);
      if Scan(s, lines[0]).Some? { ScanFromMentioned(Scan(s, lines[0]).value, lines[1..], all); }
    }
  }

  lemma {:induction false} AsMapKeys(contents: seq<File>)
    ensures forall k :: k in AsMap(contents) <==> k in Paths(contents)
  {
    if contents != [] {
      AsMapKeys(contents[1..]);
      assert Paths(contents) == [contents[0].path] + Paths(contents[1..]);
    }
  }

  lemma ContentsMentioned(lines: seq<string>, contents: seq<File>)
    requires ContentsMatch(lines, AsMap(contents))
    ensures forall p | p in Paths(contents) :: p == "/dev/null" || p in ChangedFiles([], lines)
  {
    hide ScanFrom, Holds, ChangedPath, ChangedFiles, AsMap, Paths;
    AsMapKeys(contents);
    ScanFromMentioned(SCAN_START, lines, lines);
    ChangedFilesGrow([], lines);
  }

  // -------------------------------------------------------------------- the manifest

  lemma {:induction false} NoShorter(paths: seq<string>)
    requires Sum(Manifest(paths), (s: string) => |s|) >= Sum(paths, (s: string) => |s|)
    ensures forall p | p in paths :: |NormalizePath(p)| == |p|
  {
    hide NormalizePath;
    if paths != [] {
      assert Manifest(paths)[1..] == Manifest(paths[1..]);
      NormalLength(paths[0]);
      ManifestNoLonger(paths[1..]);
      NoShorter(paths[1..]);
      assert forall p :: p in paths <==> p == paths[0] || p in paths[1..];
    }
  }

  lemma {:induction false} ManifestNoLonger(paths: seq<string>)
    ensures Sum(Manifest(paths), (s: string) => |s|) <= Sum(paths, (s: string) => |s|)
  {
    hide NormalizePath;
    if paths != [] {
      assert Manifest(paths)[1..] == Manifest(paths[1..]);
      NormalLength(paths[0]);
      ManifestNoLonger(paths[1..]);
    }
  }

  lemma ManifestUnchanged(paths: seq<string>)
    requires forall p | p in paths :: NormalizePath(p) == p
    ensures Manifest(paths) == paths
  {
    hide NormalizePath;
  }

  /** Distinct paths that normalise to the reviewed files, in order, are those files: a path
      normalises to something no longer than itself, and the lengths must add up. */
  lemma KeysAreTheManifest(paths: seq<string>, lines: seq<string>)
    requires Distinct(paths) && Manifest(paths) == ChangedFiles([], lines)
    requires forall p | p in paths :: p == "/dev/null" || p in ChangedFiles([], lines)
    ensures paths == ChangedFiles([], lines)
    ensures forall p | p in paths :: NormalizePath(p) == p
  {
    hide NormalizePath, ChangedFiles;
    var files := ChangedFiles([], lines);
    ChangedFilesKeep([], lines);
    if "/dev/null" in paths { DevNull(paths); }
    SameMembers(paths, files);
    SumPermuted(files, paths, (s: string) => |s|);
    NoShorter(paths);
    forall p | p in paths ensures NormalizePath(p) == p { NormalLength(p); }
    ManifestUnchanged(paths);
  }

  lemma DevNull(paths: seq<string>)
    requires "/dev/null" in paths
    ensures "/dev/null" in Manifest(paths)
  {
    hide NormalizePath;
    var i :| 0 <= i < |paths| && paths[i] == "/dev/null";
    AlreadyNormal("/dev/null");
    assert Manifest(paths)[i] == NormalizePath("/dev/null");
  }

  lemma AlreadyNormal(s: string)
    requires s != "" && s[0] == '/' && !IsSpace(s[|s| - 1]) && '\\' !in s
    ensures NormalizePath(s) == s
  {
    assert Strip(s) == s;
    assert ForwardSlashes(s) == s;
  }
}
