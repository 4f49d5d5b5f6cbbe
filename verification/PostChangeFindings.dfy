/** Which finding each stage of the gate reports, and when. */
module PostChangeFindings {
  import opened Text
  import opened Sorting
  import opened PostChangeGate
  import opened PostChangeOrder
  import opened PostChangeVerdict

  /** The commit is MISSING when it was not collected or not resolved, and FAIL when it is another
      commit or between other branches. */
  lemma CommitFinding(r: Request, e: Evidence)
    ensures var s := EvidenceStages(r, e)[0];
            && (s.state == MISSING <==> e.commit.None? || !e.commit.value.resolved)
            && (s.state == FAIL <==>
                && e.commit.Some? && e.commit.value.resolved
                && (e.commit.value.sha != r.sha || e.commit.value.head != r.head || e.commit.value.base != r.base))
            && (s.state == PASS <==> CommitHolds(r, e))
  {
    hide PullStage, SnapshotStage, TestStage;
  }

  /** Behind a commit as expected the pull request is MISSING when it was not collected, FAIL when its
      branches differ or it is not reviewable, and CONTRADICTORY when it names another number or
      commit or contradicts its own draft flag. It is never STALE: a pull request at another commit
      has already contradicted the commit by then. */
  lemma PullFinding(r: Request, e: Evidence)
    requires CommitHolds(r, e)
    ensures var s, pull := EvidenceStages(r, e)[1].state, e.pull;
            && (s == MISSING <==> pull.None?)
            && (s == CONTRADICTORY <==>
                pull.Some? && (|| pull.value.number != r.number
                               || pull.value.sha != r.sha
                               || (&& pull.value.head == r.head && pull.value.base == r.base
                                   && pull.value.state == "draft" && !pull.value.draft)))
            && (s == FAIL <==>
                pull.Some? && pull.value.number == r.number && pull.value.sha == r.sha
                && (pull.value.head != r.head || pull.value.base != r.base || pull.value.state !in {"open", "draft"}))
            && (s == PASS <==> PullHolds(r, e))
            && s != STALE
  {
    hide SnapshotStage, TestStage;
    CommitPassed(r, e.commit);
    PullStagePasses(r, e);
  }

  // ------------------------------------------------------------ the file snapshot

  /** A complete snapshot of the expected commit that lists each path once. */
  predicate Comparable(r: Request, s: Option<SnapshotEvidence>) {
    s.Some? && s.value.complete && s.value.at == r.sha && Distinct(Paths(s.value.entries))
  }

  /** Every file is among the entries, whatever its contents. */
  predicate AllFound(files: seq<FileEntry>, entries: seq<FileEntry>) {
    forall f | f in files :: exists g :: g in entries && g.path == f.path
  }

  /** The snapshot is MISSING when it is not complete or lacks a file of the manifest, STALE when it is
      of another commit, CONTRADICTORY when it lists a path twice, and FAIL when it has every path of
      the manifest but another one too, or other contents. */
  lemma SnapshotFinding(r: Request, e: Evidence)
    requires ValidRequest(r) && CommitHolds(r, e) && PullHolds(r, e)
    ensures var s, snapshot := EvidenceStages(r, e)[2].state, e.snapshot;
            && (s == MISSING <==>
                || snapshot.None? || !snapshot.value.complete
                || (Comparable(r, snapshot) && !AllFound(r.files, snapshot.value.entries)))
            && (s == STALE <==> snapshot.Some? && snapshot.value.complete && snapshot.value.at != r.sha)
            && (s == CONTRADICTORY <==>
                && snapshot.Some? && snapshot.value.complete && snapshot.value.at == r.sha
                && !Distinct(Paths(snapshot.value.entries)))
            && (s == FAIL <==>
                && Comparable(r, snapshot) && AllFound(r.files, snapshot.value.entries)
                && !(forall f :: f in snapshot.value.entries <==> f in r.files))
            && (s == PASS <==> SnapshotHolds(r, e))
  {
    hide EvidenceStages, SnapshotStage, SnapshotHolds, PullHolds, CommitHolds, AllFound, Distinct, Paths;
    StagesReached(r, e);
    SnapshotStagePasses(r, e);
    SnapshotStates(r, e.snapshot);
    SnapshotHoldsIs(r, e);
  }

  lemma SnapshotHoldsIs(r: Request, e: Evidence)
    ensures SnapshotHolds(r, e) <==>
            Comparable(r, e.snapshot) && forall f :: f in e.snapshot.value.entries <==> f in r.files
  {
  }

  lemma StagesReached(r: Request, e: Evidence)
    requires CommitHolds(r, e) && PullHolds(r, e)
    ensures EvidenceStages(r, e)[2] == SnapshotStage(r, e.snapshot)
    ensures SnapshotStage(r, e.snapshot).state == PASS ==> EvidenceStages(r, e)[3] == TestStage(r, e.tests)
  {
    hide SnapshotStage, TestStage;
    CommitStagePasses(r, e);
    PullStagePasses(r, e);
  }

  lemma SnapshotStates(r: Request, snapshot: Option<SnapshotEvidence>)
    ensures var s := SnapshotStage(r, snapshot).state;
            && (s == MISSING <==>
                || snapshot.None? || !snapshot.value.complete
                || (Comparable(r, snapshot) && !AllFound(r.files, snapshot.value.entries)))
            && (s == STALE <==> snapshot.Some? && snapshot.value.complete && snapshot.value.at != r.sha)
            && (s == CONTRADICTORY <==>
                && snapshot.Some? && snapshot.value.complete && snapshot.value.at == r.sha
                && !Distinct(Paths(snapshot.value.entries)))
            && s in {MISSING, STALE, CONTRADICTORY, FAIL, PASS}
  {
    hide Index, Missing, Mismatched, Distinct, Paths, SayNames, AllFound;
    SayNamesState();
    if snapshot.Some? { MissingNone(r.files, snapshot.value.entries); }
  }

  lemma MissingNone(files: seq<FileEntry>, entries: seq<FileEntry>)
    ensures Missing(files, Index(entries)) == [] <==> AllFound(files, entries)
  {
    hide Missing, Index;
    NothingMissing(files, Index(entries));
    IndexKeys(entries);
  }

  // ------------------------------------------------------------ the checks after it

  /** A complete report of the expected commit that names each check once. */
  predicate Reported(r: Request, t: Option<TestEvidence>) {
    t.Some? && t.value.complete && t.value.at == r.sha && Distinct(Names(t.value.outcomes))
  }

  /** Every required check has an outcome, passing or not. */
  predicate AllReported(policy: TestPolicy, outcomes: seq<CheckOutcome>) {
    forall c | c in policy.checks && c.required :: exists o :: o in outcomes && o.name == c.name
  }

  /** Every outcome is of a check the policy names. */
  predicate AllExpected(policy: TestPolicy, outcomes: seq<CheckOutcome>) {
    forall o | o in outcomes :: exists c :: c in policy.checks && c.name == o.name
  }

  /** The tests are MISSING when they are not complete or lack a required check, STALE when they ran on
      another commit, CONTRADICTORY when a check is reported twice, MALFORMED when an unknown check
      is reported where all must be known, and FAIL when a required check failed. */
  lemma TestFinding(r: Request, e: Evidence)
    requires ValidRequest(r) && CommitHolds(r, e) && PullHolds(r, e) && SnapshotHolds(r, e)
    ensures var s, tests := EvidenceStages(r, e)[3].state, e.tests;
            && (s == MISSING <==>
                || tests.None? || !tests.value.complete
                || (Reported(r, tests) && !AllReported(r.policy, tests.value.outcomes)))
            && (s == STALE <==> tests.Some? && tests.value.complete && tests.value.at != r.sha)
            && (s == CONTRADICTORY <==>
                && tests.Some? && tests.value.complete && tests.value.at == r.sha
                && !Distinct(Names(tests.value.outcomes)))
            && (s == MALFORMED <==>
                && Reported(r, tests) && AllReported(r.policy, tests.value.outcomes)
                && r.policy.requireAllReported && !AllExpected(r.policy, tests.value.outcomes))
            && (s == PASS <==> TestsHold(r, e))
            && s in {MISSING, STALE, CONTRADICTORY, MALFORMED, FAIL, PASS}
  {
    hide EvidenceStages, SnapshotStage, TestStage, SnapshotHolds, PullHolds, CommitHolds, Distinct, Names, TestsHold,
         AllReported, AllExpected;
    SnapshotStagePasses(r, e);
    StagesReached(r, e);
    TestStagePasses(r, e);
    TestStates(r, e.tests);
  }

  lemma TestStates(r: Request, tests: Option<TestEvidence>)
    ensures var s := TestStage(r, tests).state;
            && (s == MISSING <==>
                || tests.None? || !tests.value.complete
                || (Reported(r, tests) && !AllReported(r.policy, tests.value.outcomes)))
            && (s == STALE <==> tests.Some? && tests.value.complete && tests.value.at != r.sha)
            && (s == CONTRADICTORY <==>
                && tests.Some? && tests.value.complete && tests.value.at == r.sha
                && !Distinct(Names(tests.value.outcomes)))
            && (s == MALFORMED <==>
                && Reported(r, tests) && AllReported(r.policy, tests.value.outcomes)
                && r.policy.requireAllReported && !AllExpected(r.policy, tests.value.outcomes))
            && s in {MISSING, STALE, CONTRADICTORY, MALFORMED, FAIL, PASS}
  {
    hide Passing, Unreported, Unexpected, Failed, Known, Distinct, Names, SayNames, AllReported, AllExpected;
    SayNamesState();
    if tests.Some? {
      ReportedIs(r.policy, tests.value.outcomes);
      ExpectedIs(r.policy, tests.value.outcomes);
    }
  }

  lemma ReportedIs(policy: TestPolicy, outcomes: seq<CheckOutcome>)
    ensures Unreported(policy, Passing(outcomes)) == [] <==> AllReported(policy, outcomes)
  {
    hide Passing, Unreported, Failed;
    NothingUnreported(policy, Passing(outcomes));
    PassingKeys(outcomes);
  }

  lemma ExpectedIs(policy: TestPolicy, outcomes: seq<CheckOutcome>)
    ensures Unexpected(outcomes, Known(policy)) == [] <==> AllExpected(policy, outcomes)
  {
    hide Unexpected, Known;
    NothingUnexpected(policy, outcomes);
  }

  // ------------------------------------------------------------------ the last stage

  /** Verdict, last stage and summary agree in every report, and only malformed evidence is said to be
      malformed: nothing of it is kept, its first stage is MALFORMED and the rest is held. */
  lemma ReportAgrees(r: Request, input: Input)
    ensures var report := Evaluated(r, input);
            && |report.stages| == 5 && report.stages[4].evaluated
            && (report.verdict == VERDICT_PASS <==> report.stages[4].state == PASS)
            && (report.verdict == VERDICT_FAIL <==> report.stages[4].state == FAIL)
            && (report.verdict == VERDICT_BLOCKED <==> report.stages[4].state == BLOCKED)
            && (report.verdict == VERDICT_PASS <==> report.summary == PASSED)
            && (input.Malformed? <==> report.summary == WAS_MALFORMED)
            && (input.Malformed? ==>
                && report.verdict == VERDICT_BLOCKED && report.evidence == Evidence(None, None, None, None)
                && report.stages[0].state == MALFORMED && report.stages[0].detail == Unparsed(input.reason)
                && forall i | 1 <= i < 4 :: report.stages[i].state == BLOCKED && !report.stages[i].evaluated)
  {
    hide EvidenceStages, CanonicalRequest, CanonicalEvidence, FirstFailure;
    if input.Given? { NoFailure(EvidenceStages(r, input.evidence)); }
  }

  /** The `most` smallest names in ascending order, or all of them. */
  predicate Smallest(l: seq<string>, names: seq<string>, most: nat) {
    && |l| == (if |names| < most then |names| else most)
    && (forall i, j | 0 <= i < j < |l| :: StringLe(l[i], l[j]))
    && (forall n | n in l :: n in names)
    && (forall n, k | n in names && n !in l && 0 <= k < |l| :: StringLe(l[k], n))
  }

  /** A stage that lists names says the first five of them in ascending order, or all when there are
      no more. */
  lemma ListedNames(stage: Stage, state: StageState, note: Note, names: seq<string>)
    ensures var said := SayNames(stage, state, note, names);
            && said.stage == stage && said.state == state && said.evaluated
            && said.detail.Listing? && said.detail.note == note
            && Smallest(said.detail.names, names, 5)
  {
    hide Sort, StringLe, Smallest, TotalPreorder;
    StringLeOrder();
    SortSorted(names, StringLe);
    SortMembers(names, StringLe);
    FirstAreSmallest(Sort(names, StringLe), names, 5);
  }

  /** The detail lists the five smallest of the names that are meant, or all of them. */
  ghost predicate Lists(d: Detail, note: Note, meant: set<string>) {
    d.Listing? && d.note == note
    && exists names: seq<string> :: (forall n :: n in names <==> n in meant) && Smallest(d.names, names, 5)
  }

  lemma ListsNames(stage: Stage, state: StageState, note: Note, names: seq<string>, meant: set<string>)
    requires forall n :: n in names <==> n in meant
    ensures Lists(SayNames(stage, state, note, names).detail, note, meant)
  {
    hide SayNames, Smallest;
    ListedNames(stage, state, note, names);
  }

  lemma {:induction false} PickMembers<T>(s: seq<T>, keep: T -> bool, key: T -> string)
    ensures forall n :: n in Pick(s, keep, key) <==> exists x :: x in s && keep(x) && key(x) == n
  {
    if s != [] {
      PickMembers(s[1..], keep, key);
      assert forall x :: x in s <==> x == s[0] || x in s[1..];
    }
  }

  predicate HasPath(files: seq<FileEntry>, path: string) {
    exists f :: f in files && f.path == path
  }

  function Lacking(files: seq<FileEntry>, entries: seq<FileEntry>): set<string> {
    set f | f in files && !HasPath(entries, f.path) :: f.path
  }

  function Differing(files: seq<FileEntry>, entries: seq<FileEntry>): set<string> {
    set f | f in files && exists g :: g in entries && g.path == f.path && g.digest != f.digest :: f.path
  }

  lemma LackingIs(files: seq<FileEntry>, entries: seq<FileEntry>)
    ensures forall n :: n in Missing(files, Index(entries)) <==> n in Lacking(files, entries)
  {
    hide Pick, Index;
    IndexKeys(entries);
    PickMembers(files, (f: FileEntry) => f.path !in Index(entries), (f: FileEntry) => f.path);
  }

  lemma DifferingIs(files: seq<FileEntry>, entries: seq<FileEntry>)
    requires Distinct(Paths(entries))
    ensures forall n :: n in Mismatched(files, Index(entries)) <==> n in Differing(files, entries)
  {
    hide Pick, Index, Distinct, Paths;
    IndexKeys(entries);
    IndexValues(entries);
    var observed := Index(entries);
    PickMembers(files, (f: FileEntry) => f.path in observed && observed[f.path] != f.digest, (f: FileEntry) => f.path);
  }

  /** A comparable snapshot that does not pass lists the manifest's paths it lacks; if it lacks none,
      its own paths that the manifest lacks; and if there are none either, those whose contents
      differ. */
  lemma SnapshotNames(r: Request, snapshot: Option<SnapshotEvidence>)
    requires Comparable(r, snapshot)
    ensures var s, entries := SnapshotStage(r, snapshot), snapshot.value.entries;
            s.state != PASS ==>
              if Lacking(r.files, entries) != {} then
                s.state == MISSING && Lists(s.detail, NOT_FOUND, Lacking(r.files, entries))
              else if Lacking(entries, r.files) != {} then
                s.state == FAIL && Lists(s.detail, UNEXPECTED, Lacking(entries, r.files))
              else
                s.state == FAIL && Lists(s.detail, DIFFERENT, Differing(r.files, entries))
  {
    hide Index, Missing, Mismatched, Distinct, Paths, SayNames, Lists, Lacking, Differing;
    SayNamesState();
    var entries := snapshot.value.entries;
    var missing, extra := Missing(r.files, Index(entries)), Missing(entries, Index(r.files));
    var mismatched := Mismatched(r.files, Index(entries));
    LackingIs(r.files, entries);
    LackingIs(entries, r.files);
    DifferingIs(r.files, entries);
    NoneLeft(missing, Lacking(r.files, entries));
    NoneLeft(extra, Lacking(entries, r.files));
    ListsNames(FILE_SNAPSHOT, MISSING, NOT_FOUND, missing, Lacking(r.files, entries));
    ListsNames(FILE_SNAPSHOT, FAIL, UNEXPECTED, extra, Lacking(entries, r.files));
    ListsNames(FILE_SNAPSHOT, FAIL, DIFFERENT, mismatched, Differing(r.files, entries));
  }

  lemma NoneLeft(names: seq<string>, meant: set<string>)
    requires forall n :: n in names <==> n in meant
    ensures names == [] <==> meant == {}
  {
    if names != [] { assert names[0] in meant; }
  }

  /** The required checks without an outcome. */
  function Unanswered(policy: TestPolicy, outcomes: seq<CheckOutcome>): set<string> {
    set c | c in policy.checks && c.required && !(exists o :: o in outcomes && o.name == c.name) :: c.name
  }

  /** The outcomes of checks the policy does not name. */
  function Unknown(policy: TestPolicy, outcomes: seq<CheckOutcome>): set<string> {
    set o | o in outcomes && !(exists c :: c in policy.checks && c.name == o.name) :: o.name
  }

  /** The required checks with an outcome that failed. */
  function Failing(policy: TestPolicy, outcomes: seq<CheckOutcome>): set<string> {
    set c | c in policy.checks && c.required && exists o :: o in outcomes && o.name == c.name && !o.passed :: c.name
  }

  lemma ChecksAre(policy: TestPolicy, outcomes: seq<CheckOutcome>)
    requires Distinct(Names(outcomes))
    ensures forall n :: n in Unreported(policy, Passing(outcomes)) <==> n in Unanswered(policy, outcomes)
    ensures forall n :: n in Failed(policy, Passing(outcomes)) <==> n in Failing(policy, outcomes)
  {
    hide Pick, Passing, Distinct, Names;
    PassingKeys(outcomes);
    PassingValues(outcomes);
    var reported := Passing(outcomes);
    PickMembers(policy.checks, (c: RequiredCheck) => c.required && c.name !in reported, (c: RequiredCheck) => c.name);
    PickMembers(policy.checks, (c: RequiredCheck) => c.required && c.name in reported && !reported[c.name],
                (c: RequiredCheck) => c.name);
  }

  lemma UnknownIs(policy: TestPolicy, outcomes: seq<CheckOutcome>)
    ensures forall n :: n in Unexpected(outcomes, Known(policy)) <==> n in Unknown(policy, outcomes)
  {
    hide Pick;
    PickMembers(outcomes, (o: CheckOutcome) => o.name !in Known(policy), (o: CheckOutcome) => o.name);
  }

  /** Reported tests that do not pass list the required checks without an outcome; if there are none,
      the unknown ones where all must be known; and if there are none either, those that failed. */
  lemma TestNames(r: Request, tests: Option<TestEvidence>)
    requires Reported(r, tests)
    ensures var s, outcomes := TestStage(r, tests), tests.value.outcomes;
            s.state != PASS ==>
              if Unanswered(r.policy, outcomes) != {} then
                s.state == MISSING && Lists(s.detail, NOT_FOUND, Unanswered(r.policy, outcomes))
              else if r.policy.requireAllReported && Unknown(r.policy, outcomes) != {} then
                s.state == MALFORMED && Lists(s.detail, UNEXPECTED, Unknown(r.policy, outcomes))
              else
                s.state == FAIL && Lists(s.detail, FAILED, Failing(r.policy, outcomes))
  {
    hide Passing, Unreported, Unexpected, Failed, Known, Distinct, Names, SayNames, Lists, Unanswered, Unknown, Failing;
    SayNamesState();
    var outcomes := tests.value.outcomes;
    var missing, failed := Unreported(r.policy, Passing(outcomes)), Failed(r.policy, Passing(outcomes));
    var unexpected := Unexpected(outcomes, Known(r.policy));
    ChecksAre(r.policy, outcomes);
    UnknownIs(r.policy, outcomes);
    NoneLeft(missing, Unanswered(r.policy, outcomes));
    NoneLeft(unexpected, Unknown(r.policy, outcomes));
    ListsNames(POST_CHANGE_TESTS, MISSING, NOT_FOUND, missing, Unanswered(r.policy, outcomes));
    ListsNames(POST_CHANGE_TESTS, MALFORMED, UNEXPECTED, unexpected, Unknown(r.policy, outcomes));
    ListsNames(POST_CHANGE_TESTS, FAIL, FAILED, failed, Failing(r.policy, outcomes));
  }

  lemma FirstAreSmallest(sorted: seq<string>, names: seq<string>, most: nat)
    requires SortedBy(sorted, StringLe) && |sorted| == |names| && forall n :: n in sorted <==> n in names
    ensures Smallest(if |sorted| <= most then sorted else sorted[..most], names, most)
  {
    hide StringLe;
    var l := if |sorted| <= most then sorted else sorted[..most];
    var rest := sorted[|l|..];
    assert sorted == l + rest;
    forall n, k | n in rest && 0 <= k < |l| ensures StringLe(l[k], n) {
      var i :| 0 <= i < |rest| && rest[i] == n;
      assert l[k] == sorted[k] && rest[i] == sorted[|l| + i];
    }
  }
}
