/** The post-change verification gate: four evidence stages, one report. */
module PostChangeGate {
  import opened Text
  import opened Sorting

  datatype FileEntry = FileEntry(path: string, digest: string)
  datatype RequiredCheck = RequiredCheck(name: string, required: bool)
  datatype TestPolicy = TestPolicy(checks: seq<RequiredCheck>, requireAllReported: bool, manifestUnordered: bool)

  datatype Request = Request(repository: string, number: int, head: string, base: string, sha: string,
                             files: seq<FileEntry>, policy: TestPolicy)

  datatype CommitEvidence = CommitEvidence(sha: string, head: string, base: string, resolved: bool)
  datatype PullEvidence = PullEvidence(number: int, state: string, head: string, base: string, sha: string, draft: bool)
  datatype SnapshotEvidence = SnapshotEvidence(at: string, entries: seq<FileEntry>, complete: bool)
  datatype CheckOutcome = CheckOutcome(name: string, passed: bool, detail: string)
  datatype TestEvidence = TestEvidence(at: string, outcomes: seq<CheckOutcome>, complete: bool)

  datatype Evidence = Evidence(commit: Option<CommitEvidence>, pull: Option<PullEvidence>,
                               snapshot: Option<SnapshotEvidence>, tests: Option<TestEvidence>)

  /** Evidence as it reaches the gate; a mapping that does not parse is malformed. */
  datatype Input = Given(evidence: Evidence) | Malformed(reason: string)

  datatype Stage = COMMIT_IDENTITY | PULL_REQUEST | FILE_SNAPSHOT | POST_CHANGE_TESTS | FINAL_RESULT
  datatype StageState = PASS | FAIL | BLOCKED | MISSING | MALFORMED | STALE | CONTRADICTORY
  datatype Verdict = VERDICT_PASS | VERDICT_FAIL | VERDICT_BLOCKED

  /** What a detail says, without its wording. */
  datatype Note =
    | NOT_COLLECTED | NOT_RESOLVED | INCOMPLETE | ANOTHER_COMMIT | COMMIT_DIFFERS
    | HEAD_BRANCH_DIFFERS | BASE_BRANCH_DIFFERS | NUMBER_DIFFERS | DISAGREES_WITH_COMMIT | DRAFT_CONTRADICTED
    | DUPLICATES | NOT_FOUND | UNEXPECTED | DIFFERENT | FAILED
    | BEHIND_COMMIT | BEHIND_PULL_REQUEST | BEHIND_SNAPSHOT | BEHIND_MALFORMED | AS_EXPECTED

  datatype Detail =
    | Plain(note: Note)
    | Listing(note: Note, names: seq<string>)
    | NotReviewable(observed: string)
    | Unparsed(reason: string)
    | Quoting(of: Stage, state: StageState, detail: Detail)

  datatype Summary = PASSED | NOT_PASSED | WAS_MALFORMED

  datatype StageResult = StageResult(stage: Stage, state: StageState, detail: Detail, evaluated: bool)

  datatype Report = Report(verdict: Verdict, stages: seq<StageResult>, request: Request, evidence: Evidence,
                           summary: Summary)

  function Say(stage: Stage, state: StageState, note: Note): StageResult {
    StageResult(stage, state, Plain(note), true)
  }

  function SayNames(stage: Stage, state: StageState, note: Note, names: seq<string>): StageResult {
    var sorted := Sort(names, StringLe);
    StageResult(stage, state, Listing(note, if |sorted| <= 5 then sorted else sorted[..5]), true)
  }

  // ------------------------------------------------------------ names and keys

  /** `[key(x) for x in s if keep(x)]` */
  function Pick<T>(s: seq<T>, keep: T -> bool, key: T -> string): seq<string> {
    if s == [] then []
    else (if keep(s[0]) then [key(s[0])] else []) + Pick(s[1..], keep, key)
  }

  /** `{entry.path: entry.content_sha256 for entry in entries}` */
  function Index(entries: seq<FileEntry>): map<string, string> {
    if entries == [] then map[]
    else
      var last := entries[|entries| - 1];
      Index(entries[..|entries| - 1])[last.path := last.digest]
  }

  function Passing(outcomes: seq<CheckOutcome>): map<string, bool> {
    if outcomes == [] then map[]
    else
      var last := outcomes[|outcomes| - 1];
      Passing(outcomes[..|outcomes| - 1])[last.name := last.passed]
  }

  function Paths(entries: seq<FileEntry>): seq<string> {
    Pick(entries, e => true, (e: FileEntry) => e.path)
  }

  function Names(outcomes: seq<CheckOutcome>): seq<string> {
    Pick(outcomes, o => true, (o: CheckOutcome) => o.name)
  }

  function CheckNames(checks: seq<RequiredCheck>): seq<string> {
    Pick(checks, c => true, (c: RequiredCheck) => c.name)
  }

  // ---------------------------------------------------------------- the stages

  function CommitStage(r: Request, e: Option<CommitEvidence>): StageResult {
    if e.None? then Say(COMMIT_IDENTITY, MISSING, NOT_COLLECTED)
    else if !e.value.resolved then Say(COMMIT_IDENTITY, MISSING, NOT_RESOLVED)
    else if e.value.sha != r.sha then Say(COMMIT_IDENTITY, FAIL, COMMIT_DIFFERS)
    else if e.value.head != r.head then Say(COMMIT_IDENTITY, FAIL, HEAD_BRANCH_DIFFERS)
    else if e.value.base != r.base then Say(COMMIT_IDENTITY, FAIL, BASE_BRANCH_DIFFERS)
    else Say(COMMIT_IDENTITY, PASS, AS_EXPECTED)
  }

  function PullStage(r: Request, e: Option<PullEvidence>, commit: CommitEvidence): StageResult {
    if e.None? then Say(PULL_REQUEST, MISSING, NOT_COLLECTED)
    else if e.value.number != r.number then Say(PULL_REQUEST, CONTRADICTORY, NUMBER_DIFFERS)
    else if e.value.sha != commit.sha then Say(PULL_REQUEST, CONTRADICTORY, DISAGREES_WITH_COMMIT)
    else if e.value.sha != r.sha then Say(PULL_REQUEST, STALE, ANOTHER_COMMIT)
    else if e.value.head != r.head then Say(PULL_REQUEST, FAIL, HEAD_BRANCH_DIFFERS)
    else if e.value.base != r.base then Say(PULL_REQUEST, FAIL, BASE_BRANCH_DIFFERS)
    else if e.value.state == "draft" && !e.value.draft then Say(PULL_REQUEST, CONTRADICTORY, DRAFT_CONTRADICTED)
    else if e.value.state !in {"open", "draft"} then StageResult(PULL_REQUEST, FAIL, NotReviewable(e.value.state), true)
    else Say(PULL_REQUEST, PASS, AS_EXPECTED)
  }

  function Missing(files: seq<FileEntry>, observed: map<string, string>): seq<string> {
    Pick(files, (f: FileEntry) => f.path !in observed, (f: FileEntry) => f.path)
  }

  function Mismatched(files: seq<FileEntry>, observed: map<string, string>): seq<string> {
    Pick(files, (f: FileEntry) => f.path in observed && observed[f.path] != f.digest, (f: FileEntry) => f.path)
  }

  function SnapshotStage(r: Request, e: Option<SnapshotEvidence>): StageResult {
    if e.None? then Say(FILE_SNAPSHOT, MISSING, NOT_COLLECTED)
    else if !e.value.complete then Say(FILE_SNAPSHOT, MISSING, INCOMPLETE)
    else if e.value.at != r.sha then Say(FILE_SNAPSHOT, STALE, ANOTHER_COMMIT)
    else if !Distinct(Paths(e.value.entries)) then Say(FILE_SNAPSHOT, CONTRADICTORY, DUPLICATES)
    else
      var observed, expected := Index(e.value.entries), Index(r.files);
      var missing := Missing(r.files, observed);
      var extra := Missing(e.value.entries, expected);
      var mismatched := Mismatched(r.files, observed);
      if missing != [] then SayNames(FILE_SNAPSHOT, MISSING, NOT_FOUND, missing)
      else if extra != [] then SayNames(FILE_SNAPSHOT, FAIL, UNEXPECTED, extra)
      else if mismatched != [] then SayNames(FILE_SNAPSHOT, FAIL, DIFFERENT, mismatched)
      else Say(FILE_SNAPSHOT, PASS, AS_EXPECTED)
  }

  function Unreported(policy: TestPolicy, reported: map<string, bool>): seq<string> {
    Pick(policy.checks, (c: RequiredCheck) => c.required && c.name !in reported, (c: RequiredCheck) => c.name)
  }

  function Unexpected(outcomes: seq<CheckOutcome>, known: set<string>): seq<string> {
    Pick(outcomes, (o: CheckOutcome) => o.name !in known, (o: CheckOutcome) => o.name)
  }

  function Failed(policy: TestPolicy, reported: map<string, bool>): seq<string> {
    Pick(policy.checks, (c: RequiredCheck) => c.required && c.name in reported && !reported[c.name],
         (c: RequiredCheck) => c.name)
  }

  function Known(policy: TestPolicy): set<string> {
    set c | c in policy.checks :: c.name
  }

  function TestStage(r: Request, e: Option<TestEvidence>): StageResult {
    if e.None? then Say(POST_CHANGE_TESTS, MISSING, NOT_COLLECTED)
    else if !e.value.complete then Say(POST_CHANGE_TESTS, MISSING, INCOMPLETE)
    else if e.value.at != r.sha then Say(POST_CHANGE_TESTS, STALE, ANOTHER_COMMIT)
    else if !Distinct(Names(e.value.outcomes)) then Say(POST_CHANGE_TESTS, CONTRADICTORY, DUPLICATES)
    else
      var reported := Passing(e.value.outcomes);
      var missing := Unreported(r.policy, reported);
      var unexpected := Unexpected(e.value.outcomes, Known(r.policy));
      var failed := Failed(r.policy, reported);
      if missing != [] then SayNames(POST_CHANGE_TESTS, MISSING, NOT_FOUND, missing)
      else if r.policy.requireAllReported && unexpected != [] then
        SayNames(POST_CHANGE_TESTS, MALFORMED, UNEXPECTED, unexpected)
      else if failed != [] then SayNames(POST_CHANGE_TESTS, FAIL, FAILED, failed)
      else Say(POST_CHANGE_TESTS, PASS, AS_EXPECTED)
  }

  function Held(stage: Stage, note: Note): StageResult {
    StageResult(stage, BLOCKED, Plain(note), false)
  }

  /** The four evidence stages: the first that does not pass blocks the rest. */
  function EvidenceStages(r: Request, e: Evidence): (s: seq<StageResult>)
    ensures |s| == 4
  {
    var commit := CommitStage(r, e.commit);
    if commit.state != PASS then
      [commit] + [Held(PULL_REQUEST, BEHIND_COMMIT),
                  Held(FILE_SNAPSHOT, BEHIND_COMMIT),
                  Held(POST_CHANGE_TESTS, BEHIND_COMMIT)]
    else
      var pull := PullStage(r, e.pull, e.commit.value);
      if pull.state != PASS then
        [commit, pull] + [Held(FILE_SNAPSHOT, BEHIND_PULL_REQUEST),
                          Held(POST_CHANGE_TESTS, BEHIND_PULL_REQUEST)]
      else
        var snapshot := SnapshotStage(r, e.snapshot);
        if snapshot.state != PASS then
          [commit, pull, snapshot] + [Held(POST_CHANGE_TESTS, BEHIND_SNAPSHOT)]
        else [commit, pull, snapshot, TestStage(r, e.tests)]
  }

  function VerdictFor(s: StageState): Verdict {
    if s == PASS then VERDICT_PASS else if s == FAIL then VERDICT_FAIL else VERDICT_BLOCKED
  }

  // ------------------------------------------------------------ canonical forms

  predicate ByPath(a: FileEntry, b: FileEntry) { StringLe(a.path, b.path) }
  predicate ByName(a: CheckOutcome, b: CheckOutcome) { StringLe(a.name, b.name) }
  predicate ByCheck(a: RequiredCheck, b: RequiredCheck) { StringLe(a.name, b.name) }

  /** What the request digest is taken of. */
  function CanonicalRequest(r: Request): Request {
    r.(files := if r.policy.manifestUnordered then Sort(r.files, ByPath) else r.files,
       policy := r.policy.(checks := Sort(r.policy.checks, ByCheck)))
  }

  /** What the evidence digest is taken of. */
  function CanonicalEvidence(e: Evidence): Evidence {
    e.(snapshot := if e.snapshot.None? then None
                   else Some(e.snapshot.value.(entries := Sort(e.snapshot.value.entries, ByPath))),
       tests := if e.tests.None? then None else Some(e.tests.value.(outcomes := Sort(e.tests.value.outcomes, ByName))))
  }

  const NO_EVIDENCE := Evidence(None, None, None, None)

  function FirstFailure(stages: seq<StageResult>): Option<StageResult> {
    if stages == [] then None
    else if stages[0].state != PASS then Some(stages[0])
    else FirstFailure(stages[1..])
  }

  function Conclude(r: Request, e: Evidence, stages: seq<StageResult>): Report {
    var first := FirstFailure(stages);
    var final :=
      if first.None? then Say(FINAL_RESULT, PASS, AS_EXPECTED)
      else
        StageResult(FINAL_RESULT, if VerdictFor(first.value.state) == VERDICT_FAIL then FAIL else BLOCKED,
                    Quoting(first.value.stage, first.value.state, first.value.detail), true);
    Report(if first.None? then VERDICT_PASS else VerdictFor(first.value.state), stages + [final],
           CanonicalRequest(r), CanonicalEvidence(e),
           if first.None? then PASSED else NOT_PASSED)
  }

  function MalformedReport(r: Request, reason: string): Report {
    var blocked := BEHIND_MALFORMED;
    Report(VERDICT_BLOCKED,
           [StageResult(COMMIT_IDENTITY, MALFORMED, Unparsed(reason), true), Held(PULL_REQUEST, blocked),
            Held(FILE_SNAPSHOT, blocked), Held(POST_CHANGE_TESTS, blocked),
            Say(FINAL_RESULT, BLOCKED, BEHIND_MALFORMED)],
           CanonicalRequest(r), NO_EVIDENCE, WAS_MALFORMED)
  }

  function Evaluated(r: Request, input: Input): Report {
    match input
    case Malformed(reason) => MalformedReport(r, reason)
    case Given(e) => Conclude(r, e, EvidenceStages(r, e))
  }

  lemma CommitPassed(r: Request, e: Option<CommitEvidence>)
    ensures CommitStage(r, e).state == PASS <==>
            e.Some? && e.value.resolved && e.value.sha == r.sha && e.value.head == r.head && e.value.base == r.base
  {
  }
}
