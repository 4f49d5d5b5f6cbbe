/** Writing a coding run and reading it back: when the record read is the record written, and when
    what was written cannot be read. */
module CodingRunRoundTrip {
  import opened Text
  import opened DiffText
  import opened Sorting
  import opened PatchContents
  import opened CodingRunCodec
  import opened CodingRunManifest

  // ------------------------------------------------------------------------ digests

  lemma {:induction false} AsciiLength(s: string)
    requires forall i | 0 <= i < |s| :: s[i] < '\U{0080}'
    ensures Utf8Length(s) == |s|
  {
    if s != "" { AsciiLength(s[1..]); }
  }

  lemma DigestRead(s: string)
    ensures ReadDigest(s).Some? ==> IsDigest(ReadDigest(s).value)
    ensures ReadDigest(s) == Some(s) <==> IsDigest(s)
  {
    hide Utf8Length, Strip;
    if IsDigest(s) {
      assert Lower(s) == s;
      AsciiLength(s);
      Unstripped(s);
    }
  }

  lemma Unstripped(s: string)
    requires s != "" && !IsSpace(s[0])
    ensures Strip(s) != ""
  {
    hide IsSpace;
    StripRightKeepsFirst(s);
  }

  lemma {:induction false} StripRightKeepsFirst(s: string)
    requires s != "" && !IsSpace(s[0])
    ensures StripRight(s) != ""
  {
    hide IsSpace;
    if IsSpace(s[|s| - 1]) { StripRightKeepsFirst(s[..|s| - 1]); }
  }

  // ----------------------------------------------------------------------- attempts

  /** An attempt within the decoder's bounds, its digest aside. */
  predicate AttemptInBounds(a: Attempt) {
    0 <= a.revision <= 3 && AllBounded(a.files, MAX_FILES, 4096) && Utf8Length(a.detail) <= 4096
  }

  lemma AttemptRead(a: Attempt)
    requires AttemptInBounds(a)
    ensures DecodeAttempt(a) == Some(a) <==> IsDigest(a.digest)
    ensures DecodeAttempt(a).None? <==> ReadDigest(a.digest).None?
    ensures DecodeAttempt(a).Some? ==> IsDigest(DecodeAttempt(a).value.digest)
  {
    hide ReadDigest, IsDigest, AllBounded, Utf8Length;
    DigestRead(a.digest);
  }

  predicate AllDigested(attempts: seq<Attempt>) {
    forall i | 0 <= i < |attempts| :: IsDigest(attempts[i].digest)
  }

  lemma {:induction false} AttemptsRead(attempts: seq<Attempt>)
    requires forall i | 0 <= i < |attempts| :: AttemptInBounds(attempts[i])
    ensures DecodeAttempts(attempts) == Some(attempts) <==> AllDigested(attempts)
    ensures DecodeAttempts(attempts).Some? ==> AllDigested(DecodeAttempts(attempts).value)
    ensures DecodeAttempts(attempts).None? <==> exists i :: 0 <= i < |attempts| && ReadDigest(attempts[i].digest).None?
  {
    hide ReadDigest, IsDigest, AttemptInBounds, DecodeAttempt;
    if attempts != [] {
      AttemptRead(attempts[0]);
      AttemptsRead(attempts[1..]);
      assert attempts == [attempts[0]] + attempts[1..];
      assert AllDigested(attempts) <==> IsDigest(attempts[0].digest) && AllDigested(attempts[1..]);
      assert (exists i :: 0 <= i < |attempts| && ReadDigest(attempts[i].digest).None?) <==>
             || ReadDigest(attempts[0].digest).None?
             || exists i :: 0 <= i < |attempts[1..]| && ReadDigest(attempts[1..][i].digest).None?;
    }
  }

  // ------------------------------------------------------------------- the candidate

  ghost predicate Ascending(s: seq<string>) {
    SortedBy(s, StringLe)
  }

  lemma KeyOrder()
    ensures TotalPreorder(ByKey)
    ensures forall a, b :: ByKey(a, b) && ByKey(b, a) <==> a.path == b.path
  {
    hide StringLe;
    StringLeOrder();
    assert forall s :: StringLe(s, s);
  }

  lemma CandidateRead(c: Candidate, contents: seq<File>)
    requires DecodeCandidate(c) == Some(c) && multiset(contents) == multiset(c.contents)
    ensures DecodeCandidate(c.(contents := contents)) == Some(c.(contents := contents))
  {
    hide FileBounded, Bounded, AllBounded, Sum, Utf8Length;
    SumPermuted(contents, c.contents, (f: File) => Utf8Length(f.content));
    MembersPermuted(contents, c.contents);
    assert |contents| == |multiset(contents)| == |multiset(c.contents)| == |c.contents|;
    forall i | 0 <= i < |contents| ensures FileBounded(contents[i]) { assert contents[i] in c.contents; }
  }

  lemma {:induction false} AsMapValues(contents: seq<File>)
    requires Distinct(Paths(contents))
    ensures forall f | f in contents :: f.path in AsMap(contents) && AsMap(contents)[f.path] == f.content
  {
    if contents != [] {
      assert Paths(contents)[1..] == Paths(contents[1..]);
      AsMapValues(contents[1..]);
      assert forall f :: f in contents <==> f == contents[0] || f in contents[1..];
      forall f | f in contents[1..] ensures f.path != contents[0].path { PathElsewhere(contents, f); }
    }
  }

  lemma PathElsewhere(contents: seq<File>, f: File)
    requires contents != [] && Distinct(Paths(contents)) && f in contents[1..]
    ensures f.path != contents[0].path
  {
    var i :| 0 <= i < |contents[1..]| && contents[1..][i] == f;
    assert Paths(contents)[i + 1] == f.path;
    assert Paths(contents)[0] == contents[0].path;
  }

  lemma PathMembers(contents: seq<File>)
    ensures forall p :: p in Paths(contents) <==> exists f :: f in contents && f.path == p
  {
    forall p | p in Paths(contents) ensures exists f :: f in contents && f.path == p {
      var i :| 0 <= i < |contents| && Paths(contents)[i] == p;
      assert contents[i] in contents;
    }
    forall f | f in contents ensures f.path in Paths(contents) {
      var i :| 0 <= i < |contents| && contents[i] == f;
      assert Paths(contents)[i] == f.path;
    }
  }

  lemma DistinctFiles(contents: seq<File>)
    requires Distinct(Paths(contents))
    ensures Distinct(contents)
    ensures forall f, g | f in contents && g in contents && f.path == g.path :: f == g
  {
    forall i, j | 0 <= i < j < |contents| ensures contents[i].path != contents[j].path {
      assert Paths(contents)[i] == contents[i].path && Paths(contents)[j] == contents[j].path;
    }
  }

  lemma DistinctPaths(contents: seq<File>)
    requires Distinct(contents)
    requires forall f, g | f in contents && g in contents && f.path == g.path :: f == g
    ensures Distinct(Paths(contents))
  {
    forall i, j | 0 <= i < j < |contents| ensures Paths(contents)[i] != Paths(contents)[j] {
      assert contents[i] in contents && contents[j] in contents;
    }
  }

  lemma PathsPermuted(p: seq<File>, s: seq<File>)
    requires multiset(p) == multiset(s) && Distinct(Paths(s))
    ensures Distinct(Paths(p))
    ensures forall k :: k in Paths(p) <==> k in Paths(s)
  {
    hide *;
    DistinctFiles(s);
    MembersPermuted(p, s);
    DistinctPermuted(p, s);
    DistinctPaths(p);
    PathMembers(p);
    PathMembers(s);
  }

  lemma AsMapPermuted(p: seq<File>, s: seq<File>)
    requires multiset(p) == multiset(s) && Distinct(Paths(s))
    ensures AsMap(p) == AsMap(s)
  {
    hide *;
    PathsPermuted(p, s);
    MembersPermuted(p, s);
    AsMapKeys(p);
    AsMapKeys(s);
    AsMapValues(p);
    AsMapValues(s);
    PathMembers(s);
    forall k | k in AsMap(s) ensures AsMap(p)[k] == AsMap(s)[k] {
      var f :| f in s && f.path == k;
      assert f in p;
    }
    assert forall k :: k in AsMap(p) <==> k in AsMap(s);
  }

  lemma SortedPaths(contents: seq<File>)
    ensures SortedBy(contents, ByKey) <==> Ascending(Paths(contents))
  {
    hide StringLe;
    if SortedBy(contents, ByKey) {
      forall i, j | 0 <= i < j < |contents| ensures StringLe(Paths(contents)[i], Paths(contents)[j]) {
        assert ByKey(contents[i], contents[j]);
      }
    }
    if Ascending(Paths(contents)) {
      forall i, j | 0 <= i < j < |contents| ensures ByKey(contents[i], contents[j]) {
        assert StringLe(Paths(contents)[i], Paths(contents)[j]);
      }
    }
  }

  // ------------------------------------------------------------------- the manifest

  /** The stored contents match the reviewed manifest exactly when it was ascending. */
  lemma StoredManifest(contents: seq<File>, files: seq<string>)
    requires Distinct(Paths(contents)) && Paths(contents) == files
    requires forall p | p in files :: NormalizePath(p) == p
    ensures Manifest(Paths(Sort(contents, ByKey))) == files <==> Ascending(files)
    ensures Ascending(files) ==> Sort(contents, ByKey) == contents
  {
    hide *;
    var stored := Sort(contents, ByKey);
    KeyOrder();
    SortSorted(contents, ByKey);
    SortKeeps(contents);
    PathsPermuted(stored, contents);
    SortedPaths(stored);
    SortedPaths(contents);
    ManifestUnchanged(Paths(stored));
    if Ascending(files) { SortOfSorted(contents, ByKey); }
  }

  lemma SortKeeps(contents: seq<File>)
    ensures multiset(Sort(contents, ByKey)) == multiset(contents)
  {
  }

  // --------------------------------------------------------------------- the record

  /** A record as `create` makes it and every later transition keeps it. */
  predicate Written(r: Record) {
    && Strip(r.runId) == r.runId && Strip(r.actionId) == r.actionId
    && Lower(r.identity.sha) == r.identity.sha
    && IsDigest(r.actionDigest) && IsDigest(r.contentsDigest)
    && r.run.candidate.Some? && Distinct(Paths(r.run.candidate.value.contents))
  }

  /** Within the decoder's bounds, the digests of the proposal and the attempts aside. */
  predicate InBounds(r: Record) {
    && DecodeIdentity(r.identity).Some?
    && Bounded(r.proposal.project, 512) && Bounded(r.proposal.impactProject, 512)
    && |r.run.attempts| <= 4 && (forall i | 0 <= i < |r.run.attempts| :: AttemptInBounds(r.run.attempts[i]))
    && (r.run.candidate.Some? ==> DecodeCandidate(r.run.candidate.value).Some?)
    && (r.run.review.Some? ==>
        Bounded(r.run.review.value.reason, 4096) && AllBounded(r.run.review.value.files, MAX_FILES, 4096))
    && Bounded(r.run.reason, 4096)
  }

  lemma RunRead(run: Run, contents: seq<File>)
    requires run.candidate.Some? && DecodeCandidate(run.candidate.value).Some?
             && multiset(contents) == multiset(run.candidate.value.contents)
    requires |run.attempts| <= 4 && (forall i | 0 <= i < |run.attempts| :: AttemptInBounds(run.attempts[i]))
    requires run.review.Some? && IsDigest(run.review.value.digest)
    requires Bounded(run.review.value.reason, 4096) && AllBounded(run.review.value.files, MAX_FILES, 4096)
             && Bounded(run.reason, 4096)
    ensures var stored := run.(candidate := Some(run.candidate.value.(contents := contents)));
            && (DecodeRun(stored) == Some(stored) <==> IsDigest(run.fingerprint) && AllDigested(run.attempts))
            && (DecodeRun(stored).Some? ==>
                  var read := DecodeRun(stored).value;
                  read.candidate == stored.candidate && read.review == stored.review
                  && IsDigest(read.fingerprint) && AllDigested(read.attempts))
            && ((exists i :: 0 <= i < |run.attempts| && ReadDigest(run.attempts[i].digest).None?) ==>
                DecodeRun(stored).None?)
  {
    hide ReadDigest, IsDigest, Bounded, AllBounded, AttemptInBounds, DecodeAttempts, DecodeCandidate, AllDigested;
    Unchanged(run.candidate.value);
    CandidateRead(run.candidate.value, contents);
    AttemptsRead(run.attempts);
    DigestRead(run.fingerprint);
    DigestRead(run.review.value.digest);
  }

  lemma Unchanged(c: Candidate)
    requires DecodeCandidate(c).Some?
    ensures DecodeCandidate(c) == Some(c)
  {
    hide FileBounded, Bounded, AllBounded, Sum;
  }

  // ---------------------------------------------------------------------- round trip

  lemma SameTexts(r: Record)
    requires r.run.candidate.Some?
    ensures Texts(SortKeys(r)) == Texts(r)
  {
    hide AttemptTexts, Sort;
    var contents := r.run.candidate.value.contents;
    SortKeeps(contents);
    MembersPermuted(Sort(contents, ByKey), contents);
  }

  /** In a record the encoder accepts, the contents' paths are the reviewed files. */
  lemma ContentsAreReviewed(o: Outside, r: Record)
    requires Honest(o) && Valid(o, r) && Written(r)
    ensures Paths(r.run.candidate.value.contents) == r.run.review.value.files
    ensures forall p | p in r.run.review.value.files :: NormalizePath(p) == p
    ensures IsDigest(r.run.review.value.digest)
  {
    hide Paths, Manifest, ContentsMatch, SplitLines, ChangedFiles, AsMap, Texts, ReadId, ReadDigest, NormalizePath;
    var c := r.run.candidate.value;
    ContentsMentioned(SplitLines(c.diff), c.contents);
    KeysAreTheManifest(Paths(c.contents), SplitLines(c.diff));
  }

  /** What is read back is valid exactly when the reviewed files were in ascending order. */
  lemma StoredValid(o: Outside, r: Record)
    requires Honest(o) && Valid(o, r) && Written(r)
    ensures Valid(o, SortKeys(r)) <==> Ascending(r.run.review.value.files)
  {
    hide Paths, Manifest, ContentsMatch, AsMap, Texts, ReadId, ReadDigest, Sort, Ascending, SplitLines, Honest,
         NormalizePath;
    var contents := r.run.candidate.value.contents;
    ContentsAreReviewed(o, r);
    SameTexts(r);
    SortKeeps(contents);
    AsMapPermuted(Sort(contents, ByKey), contents);
    StoredManifest(contents, r.run.review.value.files);
  }

  lemma IdRead(s: string)
    requires ReadId(s).Some? && Strip(s) == s
    ensures ReadId(s) == Some(s)
  {
  }

  lemma FieldsRead(o: Outside, r: Record)
    requires Honest(o) && Valid(o, r) && Written(r) && InBounds(r)
    ensures DecodeFields(o, SortKeys(r)) == Some(SortKeys(r)) <==>
            IsDigest(r.run.fingerprint) && AllDigested(r.run.attempts)
    ensures DecodeFields(o, SortKeys(r)).Some? ==>
              var x := DecodeFields(o, SortKeys(r)).value;
              && IsDigest(x.run.fingerprint) && AllDigested(x.run.attempts)
              && x.run.candidate == SortKeys(r).run.candidate && x.run.review == r.run.review
    ensures (exists i :: 0 <= i < |r.run.attempts| && ReadDigest(r.run.attempts[i].digest).None?) ==>
            DecodeFields(o, SortKeys(r)).None?
  {
    hide Paths, Manifest, ContentsMatch, AsMap, Texts, ReadId, ReadDigest, Sort, SplitLines, Honest, NormalizePath,
         DecodeRun, IsDigest, AllDigested, Bounded, AllBounded, DecodeCandidate, AttemptInBounds;
    var contents := r.run.candidate.value.contents;
    ContentsAreReviewed(o, r);
    SortKeeps(contents);
    RunRead(r.run, Sort(contents, ByKey));
    IdRead(r.runId);
    IdRead(r.actionId);
    DigestRead(r.actionDigest);
    DigestRead(r.contentsDigest);
    DigestRead(r.patchDigest);
    DigestRead(r.proposal.fingerprint);
  }

  /** A record the encoder accepts comes back unchanged exactly when the reviewed files are in
      ascending order and the digests its run carries are in lower case. */
  lemma RoundTrip(o: Outside, r: Record)
    requires Honest(o) && Valid(o, r) && Written(r) && InBounds(r)
    ensures Encode(o, r).Some?
    ensures Decode(o, Encode(o, r).value) == Some(r) <==>
            Ascending(r.run.review.value.files) && AllDigested(r.run.attempts) && IsDigest(r.run.fingerprint)
  {
    hide Valid, DecodeFields, AllDigested, IsDigest, Ascending, Honest, InBounds, Sort;
    FieldsRead(o, r);
    StoredValid(o, r);
    StoredUnchanged(o, r);
  }

  lemma StoredUnchanged(o: Outside, r: Record)
    requires Honest(o) && Valid(o, r) && Written(r)
    ensures Ascending(r.run.review.value.files) ==> SortKeys(r) == r
  {
    hide Paths, Honest, Sort, Ascending, ValidCandidate, ReadId, ReadDigest, NormalizePath, Texts;
    ContentsAreReviewed(o, r);
    StoredManifest(r.run.candidate.value.contents, r.run.review.value.files);
  }

  /** A run the encoder wrote cannot be read again when its files are not in ascending order or
      when an attempt carries something other than a digest. */
  lemma WrittenButUnreadable(o: Outside, r: Record)
    requires Honest(o) && Valid(o, r) && Written(r) && InBounds(r)
    ensures Encode(o, r).Some?
    ensures !Ascending(r.run.review.value.files) ==> Decode(o, Encode(o, r).value).None?
    ensures (exists i :: 0 <= i < |r.run.attempts| && ReadDigest(r.run.attempts[i].digest).None?) ==>
            Decode(o, Encode(o, r).value).None?
  {
    hide DecodeFields, AllDigested, IsDigest, Ascending, Honest, InBounds, Sort, ReadDigest, ReadId, Texts,
         ContentsMatch, AsMap, Manifest, Paths;
    FieldsRead(o, r);
    ContentsAreReviewed(o, r);
    StoredManifest(r.run.candidate.value.contents, r.run.review.value.files);
  }
}
