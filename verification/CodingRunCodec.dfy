/** The durable form of a coding run: what the encoder writes, what the decoder accepts, and
    the checks of fields both make. */
module CodingRunCodec {
  import opened Text
  import opened DiffText
  import opened Sorting
  import opened PatchContents
  import opened CodingBridge

  const MAX_FILES := 20
  const MAX_PATCH_BYTES := 512_000
  const MAX_FILE_BYTES := 200_000
  const MAX_TOTAL_FILE_BYTES := 1_000_000

  datatype Attempt = Attempt(revision: int, digest: string, files: seq<string>, passed: bool, detail: string)

  /** One entry of the candidate's mapping from path to content, in the mapping's order. */
  datatype File = File(path: string, content: string)

  datatype Candidate = Candidate(diff: string, contents: seq<File>, summary: string, commands: seq<string>)

  datatype Review = Review(allowed: bool, reason: string, digest: string, files: seq<string>, additions: int,
                           deletions: int)

  datatype RunStatus = RUN_REJECTED | VALIDATION_FAILED | READY_FOR_APPROVAL

  datatype Run = Run(status: RunStatus, fingerprint: string, attempts: seq<Attempt>, candidate: Option<Candidate>,
                     review: Option<Review>, reason: string, approvalRequired: bool)

  datatype Proposal = Proposal(project: string, impactProject: string, fingerprint: string)

  datatype Identity = Identity(repository: string, base: string, head: string, sha: string)

  datatype Record = Record(runId: string, identity: Identity, proposal: Proposal, run: Run, actionId: string,
                           actionDigest: string, patchDigest: string, contentsDigest: string, state: RunState,
                           createdAt: string, updatedAt: string)

  /** Functions of other modules that the store calls on a record. */
  datatype Outside = Outside(reviewOf: string -> Review, identityOk: Identity -> bool, timestampOk: string -> bool,
                             contentsDigest: map<string, string> -> string, secret: string -> bool)

  // ---------------------------------------------------------------- field checks

  function Utf8Length(s: string): nat {
    if s == "" then 0
    else
      var c := s[0] as int;
      (if c < 0x80 then 1 else if c < 0x800 then 2 else if c < 0x1_0000 then 3 else 4) + Utf8Length(s[1..])
  }

  predicate Bounded(s: string, limit: nat) {
    Strip(s) != "" && Utf8Length(s) <= limit
  }

  predicate AllBounded(items: seq<string>, maximum: nat, limit: nat) {
    |items| <= maximum && forall i | 0 <= i < |items| :: Bounded(items[i], limit)
  }

  function LowerChar(c: char): char {
    if 'A' <= c <= 'Z' then ((c as int) + 32) as char else c
  }

  function Lower(s: string): string {
    seq(|s|, i requires 0 <= i < |s| => LowerChar(s[i]))
  }

  predicate HexDigit(c: char) { '0' <= c <= '9' || 'a' <= c <= 'f' }

  predicate IsDigest(s: string) {
    |s| == 64 && forall i | 0 <= i < 64 :: HexDigit(s[i])
  }

  /** A digest is read in lower case. */
  function ReadDigest(s: string): Option<string> {
    if Bounded(s, 128) && IsDigest(Lower(s)) then Some(Lower(s)) else None
  }

  predicate IdChar(c: char) {
    'A' <= c <= 'Z' || 'a' <= c <= 'z' || '0' <= c <= '9' || c == '_' || c == '.' || c == '-'
  }

  predicate IsIdentifier(s: string) {
    1 <= |s| <= 128 && s[0] !in "_.-" && forall i | 0 <= i < |s| :: IdChar(s[i])
  }

  /** An identifier is read without the blanks around it. */
  function ReadId(s: string): Option<string> {
    if IsIdentifier(Strip(s)) then Some(Strip(s)) else None
  }

  // ---------------------------------------------------------------- the candidate

  function Paths(contents: seq<File>): seq<string> {
    seq(|contents|, i requires 0 <= i < |contents| => contents[i].path)
  }

  function Manifest(paths: seq<string>): seq<string> {
    seq(|paths|, i requires 0 <= i < |paths| => NormalizePath(paths[i]))
  }

  function AsMap(contents: seq<File>): map<string, string> {
    if contents == [] then map[] else AsMap(contents[1..])[contents[0].path := contents[0].content]
  }

  function ChangedPath(line: string): Option<string> {
    if StartsWith(line, "+++ b/") && NormalizePath(line[6..]) != "/dev/null" then Some(NormalizePath(line[6..]))
    else None
  }

  /** The files a diff changes, each once, in order of first mention. */
  function ChangedFiles(files: seq<string>, lines: seq<string>): seq<string>
    decreases |lines|
  {
    if lines == [] then files
    else
      match ChangedPath(lines[0])
      case Some(path) => ChangedFiles(if path in files then files else files + [path], lines[1..])
      case None => ChangedFiles(files, lines[1..])
  }

  /** The first line that mentions `path`, or the number of lines. */
  function FirstMention(lines: seq<string>, path: string): (k: nat)
    ensures k <= |lines|
  {
    if lines == [] then 0
    else if ChangedPath(lines[0]) == Some(path) then 0
    else 1 + FirstMention(lines[1..], path)
  }

  predicate MentionedIn(lines: seq<string>, path: string) {
    exists i :: 0 <= i < |lines| && ChangedPath(lines[i]) == Some(path)
  }

  /** Exactly the paths the lines mention, each once, in order of first mention. */
  ghost predicate ListsMentions(files: seq<string>, lines: seq<string>) {
    && Distinct(files)
    && (forall path :: path in files <==> MentionedIn(lines, path))
    && (forall i, j | 0 <= i < j < |files| :: FirstMention(lines, files[i]) < FirstMention(lines, files[j]))
  }

  lemma {:induction false} FirstMentionIs(lines: seq<string>, path: string)
    ensures FirstMention(lines, path) < |lines| <==> MentionedIn(lines, path)
  {
    hide ChangedPath;
    if lines != [] {
      FirstMentionIs(lines[1..], path);
      MentionedFirst(lines, path);
    }
  }

  lemma MentionedFirst(lines: seq<string>, path: string)
    requires lines != []
    ensures MentionedIn(lines, path) <==> ChangedPath(lines[0]) == Some(path) || MentionedIn(lines[1..], path)
  {
    hide ChangedPath;
    if i :| 0 <= i < |lines| && ChangedPath(lines[i]) == Some(path) {
      assert i == 0 || ChangedPath(lines[1..][i - 1]) == Some(path);
    }
    if i :| 0 <= i < |lines[1..]| && ChangedPath(lines[1..][i]) == Some(path) {
      assert ChangedPath(lines[i + 1]) == Some(path);
    }
  }

  /** One more line changes no first mention, and makes one if the path is new. */
  lemma {:induction false} FirstMentionMore(lines: seq<string>, line: string, path: string)
    ensures FirstMention(lines + [line], path) ==
            if FirstMention(lines, path) < |lines| then FirstMention(lines, path)
            else |lines| + if ChangedPath(line) == Some(path) then 0 else 1
  {
    hide ChangedPath;
    if lines == [] {
      assert lines + [line] == [line];
      assert [line][1..] == [];
    } else {
      assert (lines + [line])[1..] == lines[1..] + [line];
      FirstMentionMore(lines[1..], line, path);
    }
  }

  lemma MentionedMore(lines: seq<string>, line: string, path: string)
    ensures MentionedIn(lines + [line], path) <==> MentionedIn(lines, path) || ChangedPath(line) == Some(path)
  {
    hide ChangedPath, MentionedIn, FirstMention;
    FirstMentionMore(lines, line, path);
    FirstMentionIs(lines + [line], path);
    FirstMentionIs(lines, path);
  }

  lemma NextMention(files: seq<string>, lines: seq<string>, line: string)
    requires ListsMentions(files, lines)
    ensures var path := ChangedPath(line);
            ListsMentions(if path.Some? && path.value !in files then files + [path.value] else files, lines + [line])
  {
    hide ChangedPath, MentionedIn, FirstMention;
    var path := ChangedPath(line);
    var next := if path.Some? && path.value !in files then files + [path.value] else files;
    forall p ensures p in next <==> MentionedIn(lines + [line], p) { MentionedMore(lines, line, p); }
    forall i, j | 0 <= i < j < |next|
      ensures FirstMention(lines + [line], next[i]) < FirstMention(lines + [line], next[j])
    {
      FirstMentionMore(lines, line, next[i]);
      FirstMentionMore(lines, line, next[j]);
      FirstMentionIs(lines, next[i]);
      FirstMentionIs(lines, next[j]);
      assert next[i] == files[i];
    }
  }

  /** The changed files of a diff. */
  method ExtractChangedFiles(diff: string) returns (files: seq<string>)
    ensures ListsMentions(files, SplitLines(diff))
    ensures files == ChangedFiles([], SplitLines(diff))
  {
    hide ChangedPath, SplitLines, ListsMentions;
    var lines := SplitLines(diff);
    files := [];
    var i := 0;
    assert lines[0..] == lines && lines[..0] == [];
    NothingMentioned();
    while i < |lines|
      invariant 0 <= i <= |lines|
      invariant ListsMentions(files, lines[..i])
      invariant ChangedFiles(files, lines[i..]) == ChangedFiles([], lines)
    {
      assert lines[i..][1..] == lines[i + 1..];
      assert lines[..i + 1] == lines[..i] + [lines[i]];
      NextMention(files, lines[..i], lines[i]);
      match ChangedPath(lines[i]) {
        case Some(path) => if path !in files { files := files + [path]; }
        case None =>
      }
      i := i + 1;
    }
    assert lines[i..] == [] && lines[..i] == lines;
  }

  lemma NothingMentioned()
    ensures ListsMentions([], [])
  {
  }

  /** An allowed review lists the files the diff changes and a digest. */
  ghost predicate Honest(o: Outside) {
    forall diff: string :: o.reviewOf(diff).allowed ==>
      o.reviewOf(diff).files == ChangedFiles([], SplitLines(diff)) && IsDigest(o.reviewOf(diff).digest)
  }

  // ------------------------------------------------------------------- validation

  /** Every text value of a record: what the search for secrets looks at. Paths are keys of
      the contents mapping, and keys are not searched. */
  function Texts(r: Record): set<string> {
    {r.runId, r.identity.repository, r.identity.base, r.identity.head, r.identity.sha, r.proposal.project,
     r.proposal.impactProject, r.proposal.fingerprint, r.run.fingerprint, r.run.reason, r.actionId, r.actionDigest,
     r.patchDigest, r.contentsDigest, r.createdAt, r.updatedAt}
    + AttemptTexts(r.run.attempts)
    + (if r.run.candidate.None? then {} else
         var c := r.run.candidate.value;
         {c.diff, c.summary} + (set x | x in c.commands) + (set f | f in c.contents :: f.content))
    + (if r.run.review.None? then {} else
         var v := r.run.review.value;
         {v.reason, v.digest} + (set x | x in v.files))
  }

  function AttemptTexts(attempts: seq<Attempt>): set<string> {
    if attempts == [] then {}
    else {attempts[0].digest, attempts[0].detail} + (set x | x in attempts[0].files) + AttemptTexts(attempts[1..])
  }

  predicate ValidCandidate(o: Outside, r: Record, c: Candidate, v: Review) {
    && o.reviewOf(c.diff).allowed && o.reviewOf(c.diff) == v
    && ContentsMatch(SplitLines(c.diff), AsMap(c.contents))
    && Manifest(Paths(c.contents)) == v.files
    && r.patchDigest == v.digest
    && r.contentsDigest == o.contentsDigest(AsMap(c.contents))
  }

  /** `_validate_record`: what the encoder demands before writing and the decoder after reading. */
  predicate Valid(o: Outside, r: Record) {
    && ReadId(r.runId).Some? && ReadId(r.actionId).Some?
    && o.identityOk(r.identity)
    && Strip(r.proposal.project) == Strip(r.identity.repository) == Strip(r.proposal.impactProject)
    && r.run.status == READY_FOR_APPROVAL && r.run.approvalRequired
    && r.run.fingerprint == r.proposal.fingerprint
    && r.run.candidate.Some? && r.run.review.Some?
    && ValidCandidate(o, r, r.run.candidate.value, r.run.review.value)
    && ReadDigest(r.actionDigest).Some?
    && Bounded(r.createdAt, 128) && o.timestampOk(r.createdAt)
    && Bounded(r.updatedAt, 128) && o.timestampOk(r.updatedAt)
    && forall t | t in Texts(r) :: !o.secret(t)
  }

  // ---------------------------------------------------------------------- encoding

  predicate ByKey(a: File, b: File) { StringLe(a.path, b.path) }

  /** A record as its file holds it: keys in ascending order. */
  function SortKeys(r: Record): Record {
    if r.run.candidate.None? then r
    else
      var c := r.run.candidate.value;
      r.(run := r.run.(candidate := Some(c.(contents := Sort(c.contents, ByKey)))))
  }

  function Encode(o: Outside, r: Record): Option<Record> {
    if Valid(o, r) then Some(SortKeys(r)) else None
  }

  // ---------------------------------------------------------------------- decoding

  function DecodeAttempt(a: Attempt): Option<Attempt> {
    if !(0 <= a.revision <= 3) then None
    else
      match ReadDigest(a.digest)
      case None => None
      case Some(digest) =>
        if AllBounded(a.files, MAX_FILES, 4096) && Utf8Length(a.detail) <= 4096 then Some(a.(digest := digest))
        else None
  }

  function DecodeAttempts(attempts: seq<Attempt>): Option<seq<Attempt>> {
    if attempts == [] then Some([])
    else
      match DecodeAttempt(attempts[0])
      case None => None
      case Some(first) =>
        match DecodeAttempts(attempts[1..])
        case None => None
        case Some(rest) => Some([first] + rest)
  }

  function TotalBytes(contents: seq<File>): nat {
    Sum(contents, (f: File) => Utf8Length(f.content))
  }

  predicate FileBounded(f: File) {
    Bounded(f.path, 512) && Utf8Length(f.content) <= MAX_FILE_BYTES
  }

  function DecodeCandidate(c: Candidate): Option<Candidate> {
    if !Bounded(c.diff, MAX_PATCH_BYTES) then None
    else if c.contents == [] || |c.contents| > MAX_FILES then None
    else if !(forall i | 0 <= i < |c.contents| :: FileBounded(c.contents[i])) then None
    else if TotalBytes(c.contents) > MAX_TOTAL_FILE_BYTES then None
    else if !Bounded(c.summary, 4096) || !AllBounded(c.commands, 12, 1024) then None
    else Some(c)
  }

  function DecodeReview(v: Review): Option<Review> {
    if !Bounded(v.reason, 4096) || !AllBounded(v.files, MAX_FILES, 4096) then None
    else
      match ReadDigest(v.digest)
      case None => None
      case Some(digest) => Some(v.(digest := digest))
  }

  function DecodeRun(run: Run): Option<Run> {
    var attempts := if |run.attempts| > 4 then None else DecodeAttempts(run.attempts);
    var candidate := if run.candidate.None? then Some(None) else
      match DecodeCandidate(run.candidate.value) { case None => None case Some(c) => Some(Some(c)) };
    var review := if run.review.None? then Some(None) else
      match DecodeReview(run.review.value) { case None => None case Some(v) => Some(Some(v)) };
    var fingerprint := ReadDigest(run.fingerprint);
    if attempts.None? || candidate.None? || review.None? || fingerprint.None? || !Bounded(run.reason, 4096) then None
    else Some(run.(fingerprint := fingerprint.value, attempts := attempts.value, candidate := candidate.value,
                   review := review.value))
  }

  function DecodeIdentity(i: Identity): Option<Identity> {
    if Bounded(i.repository, 512) && Bounded(i.base, 512) && Bounded(i.head, 512) && Bounded(i.sha, 128)
    then Some(i.(sha := Lower(i.sha))) else None
  }

  function DecodeProposal(p: Proposal): Option<Proposal> {
    var fingerprint := ReadDigest(p.fingerprint);
    if Bounded(p.project, 512) && Bounded(p.impactProject, 512) && fingerprint.Some? then
      Some(p.(fingerprint := fingerprint.value))
    else None
  }

  function DecodeFields(o: Outside, p: Record): Option<Record> {
    var runId, actionId := ReadId(p.runId), ReadId(p.actionId);
    var identity, proposal, run := DecodeIdentity(p.identity), DecodeProposal(p.proposal), DecodeRun(p.run);
    var action, patch, contents := ReadDigest(p.actionDigest), ReadDigest(p.patchDigest), ReadDigest(p.contentsDigest);
    if runId.None? || actionId.None? || identity.None? || proposal.None? || run.None? || action.None? || patch.None?
       || contents.None? || !Bounded(p.createdAt, 128) || !o.timestampOk(p.createdAt)
       || !Bounded(p.updatedAt, 128) || !o.timestampOk(p.updatedAt)
    then None
    else
      Some(Record(runId.value, identity.value, proposal.value, run.value, actionId.value, action.value, patch.value,
                  contents.value, p.state, p.createdAt, p.updatedAt))
  }

  function Decode(o: Outside, p: Record): Option<Record> {
    match DecodeFields(o, p)
    case None => None
    case Some(r) => if Valid(o, r) then Some(r) else None
  }
}
