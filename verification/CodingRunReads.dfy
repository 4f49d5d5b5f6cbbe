/** Which stored coding runs are read, and as what. */
module CodingRunReads {
  import opened Text
  import opened DiffText
  import opened Sorting
  import opened PatchContents
  import opened CodingRunCodec
  import opened CodingRunManifest
  import RT = CodingRunRoundTrip

  // ------------------------------------------------------- fields, in plain terms

  /** At most so many bytes of UTF-8, and not blank. */
  predicate Filled(s: string, most: nat) {
    Utf8Length(s) <= most && exists i :: 0 <= i < |s| && !IsSpace(s[i])
  }

  /** A SHA-256 digest in hexadecimal, in either case. */
  predicate IsHex(s: string) {
    |s| == 64 && forall i | 0 <= i < 64 :: '0' <= s[i] <= '9' || 'a' <= s[i] <= 'f' || 'A' <= s[i] <= 'F'
  }

  predicate PathsWithin(files: seq<string>) {
    |files| <= 20 && forall f | f in files :: Filled(f, 4096)
  }

  predicate AttemptWithin(a: Attempt) {
    0 <= a.revision <= 3 && IsHex(a.digest) && PathsWithin(a.files) && Utf8Length(a.detail) <= 4096
  }

  /** The contents one behind the other. */
  function AllContent(contents: seq<File>): string {
    if contents == [] then "" else contents[0].content + AllContent(contents[1..])
  }

  predicate CandidateWithin(c: Candidate) {
    && Filled(c.diff, 512_000) && Filled(c.summary, 4096)
    && 1 <= |c.contents| <= 20
    && (forall f | f in c.contents :: Filled(f.path, 512) && Utf8Length(f.content) <= 200_000)
    && Utf8Length(AllContent(c.contents)) <= 1_000_000
    && |c.commands| <= 12 && forall x | x in c.commands :: Filled(x, 1024)
  }

  predicate ReviewWithin(v: Review) {
    Filled(v.reason, 4096) && PathsWithin(v.files) && IsHex(v.digest)
  }

  predicate RunWithin(run: Run) {
    && |run.attempts| <= 4 && (forall a | a in run.attempts :: AttemptWithin(a))
    && (run.candidate.Some? ==> CandidateWithin(run.candidate.value))
    && (run.review.Some? ==> ReviewWithin(run.review.value))
    && IsHex(run.fingerprint) && Filled(run.reason, 4096)
  }

  predicate Within(o: Outside, p: Record) {
    && ReadId(p.runId).Some? && ReadId(p.actionId).Some?
    && Filled(p.identity.repository, 512) && Filled(p.identity.base, 512) && Filled(p.identity.head, 512)
    && Filled(p.identity.sha, 128)
    && Filled(p.proposal.project, 512) && Filled(p.proposal.impactProject, 512) && IsHex(p.proposal.fingerprint)
    && RunWithin(p.run)
    && IsHex(p.actionDigest) && IsHex(p.patchDigest) && IsHex(p.contentsDigest)
    && Filled(p.createdAt, 128) && o.timestampOk(p.createdAt) && Filled(p.updatedAt, 128) && o.timestampOk(p.updatedAt)
  }

  // ------------------------------------------------------------ what a record is read as

  function NormalAttempts(attempts: seq<Attempt>): (r: seq<Attempt>)
    ensures |r| == |attempts|
    ensures forall i | 0 <= i < |r| :: r[i] == attempts[i].(digest := Lower(attempts[i].digest))
  {
    seq(|attempts|, i requires 0 <= i < |attempts| => attempts[i].(digest := Lower(attempts[i].digest)))
  }

  function NormalRun(run: Run): Run {
    run.(attempts := NormalAttempts(run.attempts), fingerprint := Lower(run.fingerprint),
         review := if run.review.None? then None
                   else Some(run.review.value.(digest := Lower(run.review.value.digest))))
  }

  /** Ids without the blanks around them, digests and commit in lower case, all else as it is. */
  function Normal(p: Record): Record {
    Record(Strip(p.runId), p.identity.(sha := Lower(p.identity.sha)),
           p.proposal.(fingerprint := Lower(p.proposal.fingerprint)), NormalRun(p.run), Strip(p.actionId),
           Lower(p.actionDigest), Lower(p.patchDigest), Lower(p.contentsDigest), p.state, p.createdAt, p.updatedAt)
  }

  // ------------------------------------------------------------------------- texts

  lemma {:induction false} StripRightBlank(s: string)
    ensures StripRight(s) == "" <==> Blank(s)
    decreases |s|
  {
    hide IsSpace;
    if s != "" && IsSpace(s[|s| - 1]) {
      var front := s[..|s| - 1];
      StripRightBlank(front);
      assert forall i | 0 <= i < |front| :: front[i] == s[i];
    }
  }

  predicate Blank(s: string) {
    forall i | 0 <= i < |s| :: IsSpace(s[i])
  }

  lemma {:induction false} StripLeftBlank(s: string)
    ensures Blank(StripLeft(s)) <==> Blank(s)
    decreases |s|
  {
    hide IsSpace;
    if s != "" && IsSpace(s[0]) {
      StripLeftBlank(s[1..]);
      assert s == [s[0]] + s[1..];
    }
  }

  lemma BoundedIs(s: string, most: nat)
    ensures Bounded(s, most) <==> Filled(s, most)
  {
    hide IsSpace, Utf8Length;
    StripLeftBlank(s);
    StripRightBlank(StripLeft(s));
  }

  /** A digest is read exactly when it is hexadecimal, in lower case. */
  lemma DigestIs(s: string)
    ensures ReadDigest(s) == if IsHex(s) then Some(Lower(s)) else None
  {
    hide Utf8Length, Strip;
    if |s| == 64 {
      forall i | 0 <= i < 64
        ensures HexDigit(Lower(s)[i]) <==> '0' <= s[i] <= '9' || 'a' <= s[i] <= 'f' || 'A' <= s[i] <= 'F'
      {
      }
      if IsHex(s) {
        RT.AsciiLength(s);
        RT.Unstripped(s);
      }
    }
  }

  lemma LowerSpace(c: char)
    ensures IsSpace(LowerChar(c)) <==> IsSpace(c)
    ensures LowerChar(LowerChar(c)) == LowerChar(c)
  {
  }

  lemma {:induction false} LowerLength(s: string)
    ensures Utf8Length(Lower(s)) == Utf8Length(s)
  {
    if s != "" {
      LowerLength(s[1..]);
      assert Lower(s)[1..] == Lower(s[1..]);
    }
  }

  lemma LowerAgain(s: string)
    ensures Lower(Lower(s)) == Lower(s)
    ensures IsHex(s) ==> IsHex(Lower(s))
    ensures forall most: nat :: Filled(Lower(s), most) <==> Filled(s, most)
  {
    hide IsSpace, Utf8Length;
    LowerLength(s);
    forall i | 0 <= i < |s| ensures IsSpace(Lower(s)[i]) <==> IsSpace(s[i]) { LowerSpace(s[i]); }
  }

  lemma {:induction false} LengthConcat(a: string, b: string)
    ensures Utf8Length(a + b) == Utf8Length(a) + Utf8Length(b)
  {
    if a == "" {
      assert a + b == b;
    } else {
      LengthConcat(a[1..], b);
      assert (a + b)[1..] == a[1..] + b;
    }
  }

  lemma {:induction false} TotalIs(contents: seq<File>)
    ensures TotalBytes(contents) == Utf8Length(AllContent(contents))
  {
    hide Utf8Length;
    if contents == [] {
      NoBytes();
    } else {
      TotalIs(contents[1..]);
      LengthConcat(contents[0].content, AllContent(contents[1..]));
    }
  }

  lemma NoBytes()
    ensures Utf8Length("") == 0
  {
  }

  function CountFrom(s: string, least: int): nat {
    if s == "" then 0 else (if s[0] as int >= least then 1 else 0) + CountFrom(s[1..], least)
  }

  /** One byte for every character, and one more for each of three bounds it reaches. */
  lemma {:induction false} Utf8LengthIs(s: string)
    ensures Utf8Length(s) == |s| + CountFrom(s, 0x80) + CountFrom(s, 0x800) + CountFrom(s, 0x10000)
  {
    if s != "" { Utf8LengthIs(s[1..]); }
  }

  // ------------------------------------------------------------------------ the parts

  lemma ListIs(items: seq<string>, most: nat, limit: nat)
    ensures AllBounded(items, most, limit) <==> |items| <= most && forall x | x in items :: Filled(x, limit)
  {
    hide Bounded, Filled;
    forall i | 0 <= i < |items| ensures Bounded(items[i], limit) <==> Filled(items[i], limit) {
      BoundedIs(items[i], limit);
    }
  }

  lemma AttemptIs(a: Attempt)
    ensures DecodeAttempt(a) == if AttemptWithin(a) then Some(a.(digest := Lower(a.digest))) else None
  {
    hide ReadDigest, AllBounded, IsHex, Lower, Utf8Length, Filled;
    DigestIs(a.digest);
    ListIs(a.files, 20, 4096);
  }

  lemma {:induction false} AttemptsAre(attempts: seq<Attempt>)
    ensures DecodeAttempts(attempts) ==
            if forall a | a in attempts :: AttemptWithin(a) then Some(NormalAttempts(attempts)) else None
  {
    hide DecodeAttempt, AttemptWithin, Lower;
    if attempts != [] {
      AttemptIs(attempts[0]);
      AttemptsAre(attempts[1..]);
      assert forall a :: a in attempts <==> a == attempts[0] || a in attempts[1..];
      var first := attempts[0].(digest := Lower(attempts[0].digest));
      assert NormalAttempts(attempts) == [first] + NormalAttempts(attempts[1..]);
    }
  }

  lemma CandidateIs(c: Candidate)
    ensures DecodeCandidate(c) == if CandidateWithin(c) then Some(c) else None
  {
    hide Bounded, Filled, AllBounded, Utf8Length, TotalBytes, AllContent;
    BoundedIs(c.diff, 512_000);
    BoundedIs(c.summary, 4096);
    ListIs(c.commands, 12, 1024);
    TotalIs(c.contents);
    forall i | 0 <= i < |c.contents| ensures Bounded(c.contents[i].path, 512) <==> Filled(c.contents[i].path, 512) {
      BoundedIs(c.contents[i].path, 512);
    }
  }

  lemma ReviewIs(v: Review)
    ensures DecodeReview(v) == if ReviewWithin(v) then Some(v.(digest := Lower(v.digest))) else None
  {
    hide Bounded, Filled, AllBounded, ReadDigest, IsHex, Lower;
    BoundedIs(v.reason, 4096);
    ListIs(v.files, 20, 4096);
    DigestIs(v.digest);
  }

  lemma RunIs(run: Run)
    ensures DecodeRun(run) == if RunWithin(run) then Some(NormalRun(run)) else None
  {
    hide Bounded, Filled, ReadDigest, IsHex, Lower, DecodeAttempts, DecodeCandidate, DecodeReview, AttemptWithin,
         CandidateWithin, ReviewWithin, NormalAttempts;
    AttemptsAre(run.attempts);
    if run.candidate.Some? { CandidateIs(run.candidate.value); }
    if run.review.Some? { ReviewIs(run.review.value); }
    DigestIs(run.fingerprint);
    BoundedIs(run.reason, 4096);
  }

  lemma IdentityIs(i: Identity)
    ensures DecodeIdentity(i) ==
            if Filled(i.repository, 512) && Filled(i.base, 512) && Filled(i.head, 512) && Filled(i.sha, 128) then
              Some(i.(sha := Lower(i.sha)))
            else None
  {
    hide Bounded, Filled, Lower;
    BoundedIs(i.repository, 512);
    BoundedIs(i.base, 512);
    BoundedIs(i.head, 512);
    BoundedIs(i.sha, 128);
  }

  lemma ProposalIs(p: Proposal)
    ensures DecodeProposal(p) ==
            if Filled(p.project, 512) && Filled(p.impactProject, 512) && IsHex(p.fingerprint) then
              Some(p.(fingerprint := Lower(p.fingerprint)))
            else None
  {
    hide Bounded, Filled, Lower, IsHex, ReadDigest;
    BoundedIs(p.project, 512);
    BoundedIs(p.impactProject, 512);
    DigestIs(p.fingerprint);
  }

  lemma IdIs(s: string)
    ensures ReadId(s).Some? ==> ReadId(s) == Some(Strip(s)) && ReadId(Strip(s)) == Some(Strip(s))
    ensures ReadId(s).Some? <==>
            var t := Strip(s);
            && 1 <= |t| <= 128 && t[0] != '_' && t[0] != '.' && t[0] != '-'
            && forall c | c in t ::
                 'A' <= c <= 'Z' || 'a' <= c <= 'z' || '0' <= c <= '9' || c == '_' || c == '.' || c == '-'
  {
    hide Strip;
    StripIdempotent(s);
    var t := Strip(s);
    assert forall c: char :: c in "_.-" <==> c == '_' || c == '.' || c == '-';
    assert (forall c | c in t :: IdChar(c)) <==> forall i | 0 <= i < |t| :: IdChar(t[i]);
  }

  lemma FieldsAre(o: Outside, p: Record)
    ensures DecodeFields(o, p) == if Within(o, p) then Some(Normal(p)) else None
  {
    hide Bounded, Filled, ReadDigest, ReadId, IsHex, Lower, Strip, DecodeRun, DecodeIdentity, DecodeProposal, RunWithin,
         NormalRun;
    IdIs(p.runId);
    IdIs(p.actionId);
    IdentityIs(p.identity);
    ProposalIs(p.proposal);
    RunIs(p.run);
    DigestIs(p.actionDigest);
    DigestIs(p.patchDigest);
    DigestIs(p.contentsDigest);
    BoundedIs(p.createdAt, 128);
    BoundedIs(p.updatedAt, 128);
  }

  /** A stored record is read exactly when its fields are within the limits and what they say is
      valid, and it is read as it stands but for the case of digests and the blanks around ids. */
  lemma ReadExactly(o: Outside, p: Record)
    ensures Decode(o, p) == if Within(o, p) && Valid(o, Normal(p)) then Some(Normal(p)) else None
  {
    hide Within, Valid, DecodeFields, Normal;
    FieldsAre(o, p);
  }

  /** The bounds the round trip asks for, in plain terms. */
  lemma BoundsAre(r: Record)
    ensures RT.InBounds(r) <==>
            && Filled(r.identity.repository, 512) && Filled(r.identity.base, 512) && Filled(r.identity.head, 512)
            && Filled(r.identity.sha, 128) && Filled(r.proposal.project, 512) && Filled(r.proposal.impactProject, 512)
            && |r.run.attempts| <= 4
            && (forall a | a in r.run.attempts ::
                  0 <= a.revision <= 3 && PathsWithin(a.files) && Utf8Length(a.detail) <= 4096)
            && (r.run.candidate.Some? ==> CandidateWithin(r.run.candidate.value))
            && (r.run.review.Some? ==>
                  Filled(r.run.review.value.reason, 4096) && PathsWithin(r.run.review.value.files))
            && Filled(r.run.reason, 4096)
  {
    hide Bounded, Filled, AllBounded, DecodeCandidate, DecodeIdentity, CandidateWithin, Utf8Length;
    IdentityIs(r.identity);
    BoundedIs(r.proposal.project, 512);
    BoundedIs(r.proposal.impactProject, 512);
    BoundedIs(r.run.reason, 4096);
    forall i | 0 <= i < |r.run.attempts|
      ensures AllBounded(r.run.attempts[i].files, 20, 4096) <==> PathsWithin(r.run.attempts[i].files)
    {
      ListIs(r.run.attempts[i].files, 20, 4096);
    }
    if r.run.candidate.Some? { CandidateIs(r.run.candidate.value); }
    if r.run.review.Some? {
      BoundedIs(r.run.review.value.reason, 4096);
      ListIs(r.run.review.value.files, 20, 4096);
    }
  }

  // ---------------------------------------------------------------- what was read is good

  lemma {:induction false} ChangedFilesList(files: seq<string>, done: seq<string>, lines: seq<string>)
    requires ListsMentions(files, done)
    ensures ListsMentions(ChangedFiles(files, lines), done + lines)
    decreases |lines|
  {
    hide ChangedPath, ListsMentions;
    if lines == [] {
      assert done + lines == done;
    } else {
      var path := ChangedPath(lines[0]);
      var next := if path.Some? && path.value !in files then files + [path.value] else files;
      NextMention(files, done, lines[0]);
      ChangedFilesList(next, done + [lines[0]], lines[1..]);
      assert done + lines == (done + [lines[0]]) + lines[1..];
    }
  }

  /** A run that was read is ready for an approval it still needs, of the repository its proposal is
      about, with the review its diff gets; it holds exactly the files the diff mentions, in their
      order, with the lines the diff claims for them; its digests are those of its parts, and no
      text of it looks like a secret. */
  lemma ReadIsReviewed(o: Outside, p: Record)
    requires Honest(o) && Decode(o, p).Some?
    requires p.run.candidate.Some? ==> Distinct(Paths(p.run.candidate.value.contents))
    ensures var r := Decode(o, p).value;
            && r.run.candidate.Some? && r.run.review.Some?
            && r.run.status == READY_FOR_APPROVAL && r.run.approvalRequired
            && o.identityOk(r.identity) && r.run.fingerprint == r.proposal.fingerprint
            && Strip(r.proposal.project) == Strip(r.identity.repository) == Strip(r.proposal.impactProject)
            && var c, review := r.run.candidate.value, r.run.review.value;
               && review.allowed && review == o.reviewOf(c.diff) && review.files == Paths(c.contents)
               && ListsMentions(Paths(c.contents), SplitLines(c.diff))
               && ContentsMatch(SplitLines(c.diff), AsMap(c.contents))
               && r.patchDigest == review.digest && r.contentsDigest == o.contentsDigest(AsMap(c.contents))
               && !o.secret(c.diff) && !o.secret(c.summary) && !o.secret(r.run.reason)
               && (forall x | x in c.commands :: !o.secret(x)) && (forall f | f in c.contents :: !o.secret(f.content))
  {
    hide Within, Normal, Decode, Paths, Manifest, ContentsMatch, AsMap, ListsMentions, ChangedFiles, SplitLines, Strip,
         ReadId, ReadDigest, IsDigest, Distinct, NormalizePath;
    ReadExactly(o, p);
    NormalKeeps(p);
    var c := Decode(o, p).value.run.candidate.value;
    var lines := SplitLines(c.diff);
    ContentsMentioned(lines, c.contents);
    KeysAreTheManifest(Paths(c.contents), lines);
    NothingMentioned();
    ChangedFilesList([], [], lines);
    assert [] + lines == lines;
  }

  /** Nothing is written without ids, an action digest and times that can be read again. */
  lemma WrittenChecks(o: Outside, x: Record)
    requires Encode(o, x).Some?
    ensures ReadId(x.runId).Some? && ReadId(x.actionId).Some? && IsHex(x.actionDigest)
    ensures Filled(x.createdAt, 128) && o.timestampOk(x.createdAt)
    ensures Filled(x.updatedAt, 128) && o.timestampOk(x.updatedAt)
  {
    hide Texts, ValidCandidate, ReadId, ReadDigest, Filled, Bounded, IsHex;
    DigestIs(x.actionDigest);
    BoundedIs(x.createdAt, 128);
    BoundedIs(x.updatedAt, 128);
  }

  lemma NormalKeeps(p: Record)
    ensures Normal(p).run.candidate == p.run.candidate
  {
  }

  // ------------------------------------------------------------------- reading again

  lemma NormalRunAgain(run: Run)
    requires RunWithin(run)
    ensures RunWithin(NormalRun(run)) && NormalRun(NormalRun(run)) == NormalRun(run)
  {
    hide Filled, IsHex, Lower, CandidateWithin;
    LowerAgain(run.fingerprint);
    if run.review.Some? { LowerAgain(run.review.value.digest); }
    var attempts := NormalAttempts(run.attempts);
    forall i | 0 <= i < |attempts|
      ensures AttemptWithin(attempts[i]) && Lower(attempts[i].digest) == attempts[i].digest
    {
      assert run.attempts[i] in run.attempts;
      LowerAgain(run.attempts[i].digest);
    }
    assert NormalAttempts(attempts) == attempts;
  }

  lemma NormalAgain(o: Outside, p: Record)
    requires Within(o, p)
    ensures Within(o, Normal(p)) && Normal(Normal(p)) == Normal(p)
  {
    hide Filled, IsHex, Lower, Strip, ReadId, RunWithin, NormalRun;
    IdIs(p.runId);
    IdIs(p.actionId);
    StripIdempotent(p.runId);
    StripIdempotent(p.actionId);
    LowerAgain(p.identity.sha);
    LowerAgain(p.proposal.fingerprint);
    LowerAgain(p.actionDigest);
    LowerAgain(p.patchDigest);
    LowerAgain(p.contentsDigest);
    NormalRunAgain(p.run);
  }

  /** What was read is read as itself; and what was once written and could be read is written
      again as it was read, and so can be read and written for ever. */
  lemma ReadAgain(o: Outside, p: Record)
    requires Decode(o, p).Some?
    ensures var r := Decode(o, p).value;
            && Decode(o, r) == Some(r)
            && Encode(o, r) == Some(SortKeys(r))
            && (SortKeys(p) == p ==> Encode(o, r) == Some(r))
    ensures forall x | Encode(o, x) == Some(p) :: Encode(o, Decode(o, p).value) == Some(Decode(o, p).value)
  {
    hide Within, Valid, Normal, Decode, SortKeys;
    ReadExactly(o, p);
    NormalAgain(o, p);
    ReadExactly(o, Normal(p));
    SortedStill(p);
    forall x | Encode(o, x) == Some(p) ensures SortKeys(p) == p { SortedOnce(x); }
  }

  lemma SortedStill(p: Record)
    ensures SortKeys(p) == p ==> SortKeys(Normal(p)) == Normal(p)
  {
    hide Sort, Lower, Strip, NormalAttempts;
  }

  lemma SortedOnce(x: Record)
    ensures SortKeys(SortKeys(x)) == SortKeys(x)
  {
    hide Sort, StringLe;
    if x.run.candidate.Some? {
      var contents := x.run.candidate.value.contents;
      RT.KeyOrder();
      SortSorted(contents, ByKey);
      SortOfSorted(Sort(contents, ByKey), ByKey);
    }
  }
}
