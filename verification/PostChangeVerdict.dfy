/** When the gate passes, and what its report says when it does not. */
module PostChangeVerdict {
  import opened Text
  import opened Sorting
  import opened PostChangeGate
  import opened PostChangeOrder

  // ------------------------------------------- what each stage is there to establish

  predicate CommitHolds(r: Request, e: Evidence) {
    && e.commit.Some?
    && e.commit.value == CommitEvidence(r.sha, r.head, r.base, true)
  }

  predicate PullHolds(r: Request, e: Evidence) {
    && e.pull.Some?
    && e.pull.value.number == r.number
    && e.pull.value.sha == r.sha && e.pull.value.head == r.head && e.pull.value.base == r.base
    && (e.pull.value.state == "open" || (e.pull.value.state == "draft" && e.pull.value.draft))
  }

  /** The snapshot holds exactly the manifest's files, with the manifest's contents. */
  ghost predicate SnapshotHolds(r: Request, e: Evidence) {
    && e.snapshot.Some? && e.snapshot.value.complete && e.snapshot.value.at == r.sha
    && Distinct(Paths(e.snapshot.value.entries))
    && forall f :: f in e.snapshot.value.entries <==> f in r.files
  }

  predicate TestsHold(r: Request, e: Evidence) {
    && e.tests.Some? && e.tests.value.complete && e.tests.value.at == r.sha
    && Distinct(Names(e.tests.value.outcomes))
    && (forall c | c in r.policy.checks && c.required ::
          exists o :: o in e.tests.value.outcomes && o.name == c.name && o.passed)
    && (r.policy.requireAllReported ==>
        forall o | o in e.tests.value.outcomes :: exists c :: c in r.policy.checks && c.name == o.name)
  }

  lemma CommitStagePasses(r: Request, e: Evidence)
    ensures CommitStage(r, e.commit).state == PASS <==> CommitHolds(r, e)
  {
    CommitPassed(r, e.commit);
  }

  lemma PullStagePasses(r: Request, e: Evidence)
    requires CommitHolds(r, e)
    ensures PullStage(r, e.pull, e.commit.value).state == PASS <==> PullHolds(r, e)
  {
  }

  lemma NothingMissing(files: seq<FileEntry>, observed: map<string, string>)
    ensures Missing(files, observed) == [] <==> forall f | f in files :: f.path in observed
  {
    hide Pick;
    PickNone(files, (f: FileEntry) => f.path !in observed, (f: FileEntry) => f.path);
  }

  lemma NothingMismatched(files: seq<FileEntry>, observed: map<string, string>)
    ensures Mismatched(files, observed) == [] <==>
            forall f | f in files && f.path in observed :: observed[f.path] == f.digest
  {
    hide Pick;
    PickNone(files, (f: FileEntry) => f.path in observed && observed[f.path] != f.digest, (f: FileEntry) => f.path);
  }

  /** A dictionary built from entries with distinct paths holds an entry exactly when they do. */
  lemma IndexHolds(s: seq<FileEntry>, f: FileEntry)
    requires Distinct(Paths(s))
    ensures f in s <==> f.path in Index(s) && Index(s)[f.path] == f.digest
  {
    hide Index, Paths, Distinct;
    IndexKeys(s);
    IndexValues(s);
    if f.path in Index(s) {
      var e :| e in s && e.path == f.path;
    }
  }

  lemma SameFiles(entries: seq<FileEntry>, files: seq<FileEntry>)
    requires Distinct(Paths(entries)) && Distinct(Paths(files))
    ensures Missing(files, Index(entries)) == [] && Missing(entries, Index(files)) == []
            && Mismatched(files, Index(entries)) == [] <==>
            forall f :: f in entries <==> f in files
  {
    hide *;
    NothingMissing(files, Index(entries));
    NothingMissing(entries, Index(files));
    NothingMismatched(files, Index(entries));
    forall f ensures f in entries <==> f.path in Index(entries) && Index(entries)[f.path] == f.digest {
      IndexHolds(entries, f);
    }
    forall f ensures f in files <==> f.path in Index(files) && Index(files)[f.path] == f.digest {
      IndexHolds(files, f);
    }
    IndexKeys(files);
    if Missing(files, Index(entries)) == [] && Missing(entries, Index(files)) == []
       && Mismatched(files, Index(entries)) == [] {
      forall f | f in entries ensures f in files {
        var g :| g in files && g.path == f.path;
      }
    }
  }

  lemma SnapshotStagePasses(r: Request, e: Evidence)
    requires ValidRequest(r)
    ensures SnapshotStage(r, e.snapshot).state == PASS <==> SnapshotHolds(r, e)
  {
    hide Index, Missing, Mismatched, Distinct, Paths, SayNames, CheckNames;
    SayNamesState();
    if e.snapshot.Some? && Distinct(Paths(e.snapshot.value.entries)) {
      SameFiles(e.snapshot.value.entries, r.files);
    }
  }

  lemma SayNamesState()
    ensures forall stage, state, note, names :: SayNames(stage, state, note, names).state == state
  {
  }

  lemma ChecksHold(policy: TestPolicy, outcomes: seq<CheckOutcome>)
    requires Distinct(Names(outcomes))
    ensures Unreported(policy, Passing(outcomes)) == [] && Failed(policy, Passing(outcomes)) == [] <==>
            forall c | c in policy.checks && c.required :: exists o :: o in outcomes && o.name == c.name && o.passed
  {
    hide *;
    NothingUnreported(policy, Passing(outcomes));
    PassingKeys(outcomes);
    PassingValues(outcomes);
    if Unreported(policy, Passing(outcomes)) == [] && Failed(policy, Passing(outcomes)) == [] {
      forall c | c in policy.checks && c.required ensures exists o :: o in outcomes && o.name == c.name && o.passed {
        var o :| o in outcomes && o.name == c.name;
        assert o.passed;
      }
    }
  }

  lemma NothingUnreported(policy: TestPolicy, reported: map<string, bool>)
    ensures Unreported(policy, reported) == [] <==> forall c | c in policy.checks && c.required :: c.name in reported
    ensures Failed(policy, reported) == [] <==>
            forall c | c in policy.checks && c.required && c.name in reported :: reported[c.name]
  {
    hide Pick;
    PickNone(policy.checks, (c: RequiredCheck) => c.required && c.name !in reported, (c: RequiredCheck) => c.name);
    PickNone(policy.checks, (c: RequiredCheck) => c.required && c.name in reported && !reported[c.name],
             (c: RequiredCheck) => c.name);
  }

  lemma NothingUnexpected(policy: TestPolicy, outcomes: seq<CheckOutcome>)
    ensures Unexpected(outcomes, Known(policy)) == [] <==>
            forall o | o in outcomes :: exists c :: c in policy.checks && c.name == o.name
  {
    hide Pick;
    PickNone(outcomes, (o: CheckOutcome) => o.name !in Known(policy), (o: CheckOutcome) => o.name);
    assert forall o: CheckOutcome :: o.name in Known(policy) <==> exists c :: c in policy.checks && c.name == o.name;
  }

  lemma TestStagePasses(r: Request, e: Evidence)
    ensures TestStage(r, e.tests).state == PASS <==> TestsHold(r, e)
  {
    hide Passing, Unreported, Unexpected, Failed, Known, Distinct, Names, SayNames;
    SayNamesState();
    if e.tests.Some? && Distinct(Names(e.tests.value.outcomes)) {
      ChecksHold(r.policy, e.tests.value.outcomes);
      NothingUnexpected(r.policy, e.tests.value.outcomes);
    }
  }

  /** Every stage passes exactly when all four do. */
  lemma AllStagesPass(r: Request, e: Evidence)
    ensures (forall i | 0 <= i < 4 :: EvidenceStages(r, e)[i].state == PASS) <==>
            && CommitStage(r, e.commit).state == PASS
            && (e.commit.Some? ==> PullStage(r, e.pull, e.commit.value).state == PASS)
            && SnapshotStage(r, e.snapshot).state == PASS
            && TestStage(r, e.tests).state == PASS
  {
    hide CommitStage, PullStage, SnapshotStage, TestStage;
    CommitPassed(r, e.commit);
    var s := EvidenceStages(r, e);
    assert (forall i | 0 <= i < 4 :: s[i].state == PASS) <==>
           s[0].state == PASS && s[1].state == PASS && s[2].state == PASS && s[3].state == PASS;
  }

  /** The gate passes exactly when commit, pull request, snapshot and tests all hold. */
  lemma PassesExactlyWhen(r: Request, e: Evidence)
    requires ValidRequest(r)
    ensures Evaluated(r, Given(e)).verdict == VERDICT_PASS <==>
            CommitHolds(r, e) && PullHolds(r, e) && SnapshotHolds(r, e) && TestsHold(r, e)
  {
    hide EvidenceStages, CommitStage, PullStage, SnapshotStage, TestStage, ValidRequest, PullHolds, SnapshotHolds,
         TestsHold, CanonicalRequest, CanonicalEvidence, FirstFailure;
    CommitStagePasses(r, e);
    if CommitHolds(r, e) { PullStagePasses(r, e); }
    SnapshotStagePasses(r, e);
    TestStagePasses(r, e);
    AllStagesPass(r, e);
    NoFailure(EvidenceStages(r, e));
  }

  lemma {:induction false} NoFailure(s: seq<StageResult>)
    ensures FirstFailure(s).None? <==> forall i | 0 <= i < |s| :: s[i].state == PASS
    ensures FirstFailure(s).Some? ==> FirstFailure(s).value.state != PASS
  {
    if s != [] { NoFailure(s[1..]); }
  }

  const STAGE_ORDER := [COMMIT_IDENTITY, PULL_REQUEST, FILE_SNAPSHOT, POST_CHANGE_TESTS, FINAL_RESULT]

  /** A stage's own finding: never BLOCKED, and evaluated. */
  predicate Finding(s: StageResult, stage: Stage) {
    s.stage == stage && s.state != BLOCKED && s.evaluated
  }

  lemma CommitIsFinding(r: Request, e: Option<CommitEvidence>)
    ensures Finding(CommitStage(r, e), COMMIT_IDENTITY)
  {
  }

  lemma PullIsFinding(r: Request, e: Option<PullEvidence>, commit: CommitEvidence)
    ensures Finding(PullStage(r, e, commit), PULL_REQUEST)
  {
  }

  lemma SnapshotIsFinding(r: Request, e: Option<SnapshotEvidence>)
    ensures Finding(SnapshotStage(r, e), FILE_SNAPSHOT)
  {
    hide Index, Missing, Mismatched, Distinct, Paths, SayNames;
    NamesAreFindings();
  }

  lemma TestIsFinding(r: Request, e: Option<TestEvidence>)
    ensures Finding(TestStage(r, e), POST_CHANGE_TESTS)
  {
    hide Passing, Unreported, Unexpected, Failed, Known, Distinct, Names, SayNames;
    NamesAreFindings();
  }

  lemma NamesAreFindings()
    ensures forall stage, state, note, names | state != BLOCKED :: Finding(SayNames(stage, state, note, names), stage)
  {
  }

  /** What the reports' lists of four evidence stages have in common. */
  predicate Staged(s: seq<StageResult>) {
    && |s| == 4
    && s[0].evaluated
    && (forall i | 0 < i < 4 :: s[i].evaluated <==> s[i - 1].state == PASS)
    && (forall i | 0 <= i < 4 :: s[i].stage == STAGE_ORDER[i] && (s[i].state == BLOCKED <==> !s[i].evaluated))
  }

  lemma EvidenceStaged(r: Request, e: Evidence)
    ensures Staged(EvidenceStages(r, e))
  {
    hide CommitStage, PullStage, SnapshotStage, TestStage;
    CommitIsFinding(r, e.commit);
    CommitPassed(r, e.commit);
    if e.commit.Some? { PullIsFinding(r, e.pull, e.commit.value); }
    SnapshotIsFinding(r, e.snapshot);
    TestIsFinding(r, e.tests);
  }

  lemma ReportStaged(r: Request, input: Input)
    ensures |Evaluated(r, input).stages| == 5
    ensures Evaluated(r, input).stages[4].stage == FINAL_RESULT
    ensures Staged(Evaluated(r, input).stages[..4])
    ensures input.Given? ==> Evaluated(r, input).stages[..4] == EvidenceStages(r, input.evidence)
  {
    hide EvidenceStages, CanonicalRequest, CanonicalEvidence, FirstFailure, Staged;
    if input.Given? {
      EvidenceStaged(r, input.evidence);
    } else {
      MalformedStaged(r, input.reason);
    }
  }

  lemma MalformedStaged(r: Request, reason: string)
    ensures Staged(MalformedReport(r, reason).stages[..4])
  {
    hide CanonicalRequest;
  }

  /** Every report names the stages in the authoritative order. */
  lemma StagesInOrder(r: Request, input: Input)
    ensures var stages := Evaluated(r, input).stages;
            |stages| == 5 && forall i | 0 <= i < 5 :: stages[i].stage == STAGE_ORDER[i]
  {
    hide Evaluated;
    ReportStaged(r, input);
    var stages := Evaluated(r, input).stages;
    forall i | 0 <= i < 4 ensures stages[i].stage == STAGE_ORDER[i] { assert stages[i] == stages[..4][i]; }
  }

  lemma {:induction false} EvaluatedWhenAllBeforePassed(s: seq<StageResult>, i: nat)
    requires Staged(s) && i < 4
    ensures s[i].evaluated <==> forall j | 0 <= j < i :: s[j].state == PASS
  {
    if i > 0 { EvaluatedWhenAllBeforePassed(s, i - 1); }
  }

  /** An evidence stage is evaluated exactly when every stage before it passed; the others are
      BLOCKED, and nothing but an unevaluated stage is. */
  lemma FirstFailureBlocksTheRest(r: Request, input: Input, i: nat)
    requires i < 4
    ensures var stages := Evaluated(r, input).stages;
            |stages| == 5
            && (stages[i].evaluated <==> forall j | 0 <= j < i :: stages[j].state == PASS)
            && (stages[i].state == BLOCKED <==> !stages[i].evaluated)
  {
    hide Evaluated;
    ReportStaged(r, input);
    EvaluatedWhenAllBeforePassed(Evaluated(r, input).stages[..4], i);
  }

  /** The verdict, the last stage and the first failing stage tell the same story: FAIL for a
      failure, BLOCKED for everything else that is not a pass. */
  lemma VerdictFollowsFirstFailure(r: Request, input: Input, i: nat)
    requires i < 4
    ensures var report := Evaluated(r, input);
            && |report.stages| == 5
            && (report.stages[i].evaluated && report.stages[i].state != PASS ==>
                  && report.verdict == (if report.stages[i].state == FAIL then VERDICT_FAIL else VERDICT_BLOCKED)
                  && report.stages[4].state == (if report.stages[i].state == FAIL then FAIL else BLOCKED)
                  && report.summary != PASSED)
  {
    hide EvidenceStages, CanonicalRequest, CanonicalEvidence, FirstFailure, Staged;
    ReportStaged(r, input);
    if input.Given? && EvidenceStages(r, input.evidence)[i].evaluated
       && EvidenceStages(r, input.evidence)[i].state != PASS {
      var s := EvidenceStages(r, input.evidence);
      assert Staged(s) by { EvidenceStaged(r, input.evidence); }
      assert s[i] == Evaluated(r, input).stages[i];
      EvaluatedWhenAllBeforePassed(s, i);
      FirstFailureAt(s, i);
    }
  }

  lemma {:induction false} FirstFailureAt(s: seq<StageResult>, i: nat)
    requires i < |s| && s[i].state != PASS
    requires forall j | 0 <= j < i :: s[j].state == PASS
    ensures FirstFailure(s) == Some(s[i])
  {
    if i > 0 { FirstFailureAt(s[1..], i - 1); }
  }

  // ------------------------------------------------------------------- the program

  /** `evaluate_verification`: what passes, which stages are evaluated, and in what order they
      are reported. */
  method EvaluateVerification(r: Request, input: Input) returns (report: Report)
    ensures report == Evaluated(r, input)
    ensures ValidRequest(r) ==>
              (report.verdict == VERDICT_PASS <==>
               && input.Given?
               && CommitHolds(r, input.evidence) && PullHolds(r, input.evidence)
               && SnapshotHolds(r, input.evidence) && TestsHold(r, input.evidence))
    ensures |report.stages| == 5 && forall i | 0 <= i < 5 :: report.stages[i].stage == STAGE_ORDER[i]
    ensures forall i | 0 <= i < 4 ::
              && (report.stages[i].evaluated <==> forall j | 0 <= j < i :: report.stages[j].state == PASS)
              && (report.stages[i].state == BLOCKED <==> !report.stages[i].evaluated)
  {
    report := RunStages(r, input);
    hide *;
    if ValidRequest(r) { ReportIs(r, input); }
    StagesInOrder(r, input);
    forall i: nat | i < 4 { FirstFailureBlocksTheRest(r, input, i); }
  }

  lemma ReportIs(r: Request, input: Input)
    requires ValidRequest(r)
    ensures Evaluated(r, input).verdict == VERDICT_PASS <==>
            && input.Given?
            && CommitHolds(r, input.evidence) && PullHolds(r, input.evidence)
            && SnapshotHolds(r, input.evidence) && TestsHold(r, input.evidence)
  {
    hide PullHolds, SnapshotHolds, TestsHold, CommitHolds, Conclude, CanonicalRequest, EvidenceStages;
    if input.Given? { PassesExactlyWhen(r, input.evidence); }
  }

  /** The stages as they run, the next one only if the last one passed. */
  method RunStages(r: Request, input: Input) returns (report: Report)
    ensures report == Evaluated(r, input)
  {
    hide CommitStage, PullStage, SnapshotStage, TestStage;
    if input.Malformed? {
      return MalformedReport(r, input.reason);
    }
    var e := input.evidence;
    var stages: seq<StageResult> := [];
    var identity := CommitStage(r, e.commit);
    stages := stages + [identity];
    if identity.state != PASS {
      var note := BEHIND_COMMIT;
      stages := stages + [Held(PULL_REQUEST, note), Held(FILE_SNAPSHOT, note), Held(POST_CHANGE_TESTS, note)];
    } else {
      assert e.commit.Some? by { CommitPassed(r, e.commit); }
      var pull := PullStage(r, e.pull, e.commit.value);
      stages := stages + [pull];
      if pull.state != PASS {
        var note := BEHIND_PULL_REQUEST;
        stages := stages + [Held(FILE_SNAPSHOT, note), Held(POST_CHANGE_TESTS, note)];
      } else {
        var snapshot := SnapshotStage(r, e.snapshot);
        stages := stages + [snapshot];
        if snapshot.state != PASS {
          stages := stages + [Held(POST_CHANGE_TESTS, BEHIND_SNAPSHOT)];
        } else {
          stages := stages + [TestStage(r, e.tests)];
        }
      }
    }
    assert stages == EvidenceStages(r, e);
    return Conclude(r, e, stages);
  }
}
