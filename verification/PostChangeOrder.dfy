/** The report of the post-change gate does not depend on the order of its inputs, and where its
    digests do. */
module PostChangeOrder {
  import opened Text
  import opened Sorting
  import opened PostChangeGate

  // ------------------------------------------------------- lists up to reordering

  lemma PickFirst<T>(s: seq<T>, keep: T -> bool, key: T -> string)
    requires s != []
    ensures Pick(s, keep, key) == Pick([s[0]], keep, key) + Pick(s[1..], keep, key)
  {
    assert [s[0]][1..] == [];
  }

  lemma Regroup<T>(a: seq<T>, b: seq<T>, c: seq<T>)
    ensures (a + b) + c == a + (b + c)
  {
  }

  lemma {:induction false} PickConcat<T>(a: seq<T>, b: seq<T>, keep: T -> bool, key: T -> string)
    ensures Pick(a + b, keep, key) == Pick(a, keep, key) + Pick(b, keep, key)
  {
    if a == [] {
      assert a + b == b;
    } else {
      hide *;
      PickConcat(a[1..], b, keep, key);
      PickFirst(a, keep, key);
      PickFirst(a + b, keep, key);
      assert (a + b)[1..] == a[1..] + b;
      Regroup(Pick([a[0]], keep, key), Pick(a[1..], keep, key), Pick(b, keep, key));
    }
  }

  lemma Swapped<T>(a: seq<T>, x: seq<T>, b: seq<T>, r: seq<T>)
    requires multiset(a + b) == multiset(r)
    ensures multiset((a + x) + b) == multiset(x + r)
  {
    calc {
      multiset((a + x) + b);
      multiset(a) + multiset(x) + multiset(b);
      multiset(x) + multiset(a + b);
      multiset(x + r);
    }
  }

  lemma {:induction false} PickPermuted<T>(p: seq<T>, s: seq<T>, keep: T -> bool, key: T -> string)
    requires multiset(p) == multiset(s)
    ensures multiset(Pick(p, keep, key)) == multiset(Pick(s, keep, key))
    decreases |s|
  {
    hide *;
    if s == [] {
      assert |p| == |multiset(p)| == 0;
      assert p == s;
    } else {
      var x, rest := s[0], s[1..];
      MembersPermuted(p, s);
      var before, after := SplitAt(p, x);
      WithoutOne(p, s, x, before, after);
      PickPermuted(before + after, rest, keep, key);
      PickFirst(s, keep, key);
      PickConcat(before + [x], after, keep, key);
      PickConcat(before, [x], keep, key);
      PickConcat(before, after, keep, key);
      Swapped(Pick(before, keep, key), Pick([x], keep, key), Pick(after, keep, key), Pick(rest, keep, key));
    }
  }

  lemma {:induction false} PickNone<T>(s: seq<T>, keep: T -> bool, key: T -> string)
    ensures Pick(s, keep, key) == [] <==> forall x | x in s :: !keep(x)
  {
    if s != [] {
      PickNone(s[1..], keep, key);
      assert forall x :: x in s <==> x == s[0] || x in s[1..];
    }
  }

  lemma NamesPermuted(stage: Stage, state: StageState, note: Note, p: seq<string>, s: seq<string>)
    requires multiset(p) == multiset(s)
    ensures SayNames(stage, state, note, p) == SayNames(stage, state, note, s)
    ensures p == [] <==> s == []
  {
    hide Sort, StringLe;
    StringLeOrder();
    SortPermuted(p, s, StringLe);
    assert |p| == |multiset(p)| == |multiset(s)| == |s|;
  }

  // ------------------------------------------------------------------- dictionaries

  lemma {:induction false} IndexKeys(s: seq<FileEntry>)
    ensures forall k :: k in Index(s) <==> exists e :: e in s && e.path == k
  {
    if s != [] {
      var last, front := s[|s| - 1], s[..|s| - 1];
      IndexKeys(front);
      assert forall e :: e in s <==> e in front || e == last;
    }
  }

  lemma {:induction false} IndexValues(s: seq<FileEntry>)
    requires Distinct(Paths(s))
    ensures forall e :: e in s ==> e.path in Index(s) && Index(s)[e.path] == e.digest
  {
    if s != [] {
      var last, front := s[|s| - 1], s[..|s| - 1];
      assert s == front + [last];
      PathsAt(s);
      PathsAt(front);
      IndexValues(front);
      assert forall e :: e in s <==> e in front || e == last;
    }
  }

  lemma {:induction false} PathsAt(s: seq<FileEntry>)
    ensures |Paths(s)| == |s|
    ensures forall i | 0 <= i < |s| :: Paths(s)[i] == s[i].path
  {
    if s != [] { PathsAt(s[1..]); }
  }

  lemma {:induction false} NamesAt(s: seq<CheckOutcome>)
    ensures |Names(s)| == |s|
    ensures forall i | 0 <= i < |s| :: Names(s)[i] == s[i].name
  {
    if s != [] { NamesAt(s[1..]); }
  }

  lemma {:induction false} PassingKeys(s: seq<CheckOutcome>)
    ensures forall k :: k in Passing(s) <==> exists o :: o in s && o.name == k
  {
    if s != [] {
      var last, front := s[|s| - 1], s[..|s| - 1];
      PassingKeys(front);
      assert forall o :: o in s <==> o in front || o == last;
    }
  }

  lemma {:induction false} PassingValues(s: seq<CheckOutcome>)
    requires Distinct(Names(s))
    ensures forall o :: o in s ==> o.name in Passing(s) && Passing(s)[o.name] == o.passed
  {
    if s != [] {
      var last, front := s[|s| - 1], s[..|s| - 1];
      assert s == front + [last];
      NamesAt(s);
      NamesAt(front);
      PassingValues(front);
      assert forall o :: o in s <==> o in front || o == last;
    }
  }

  lemma IndexPermuted(p: seq<FileEntry>, s: seq<FileEntry>)
    requires multiset(p) == multiset(s) && Distinct(Paths(s))
    ensures Distinct(Paths(p)) && Index(p) == Index(s)
  {
    hide *;
    PathsPermuted(p, s);
    MembersPermuted(p, s);
    IndexKeys(p);
    IndexKeys(s);
    IndexValues(p);
    IndexValues(s);
    forall k | k in Index(s) ensures Index(p)[k] == Index(s)[k] {
      var e :| e in s && e.path == k;
      assert e in p;
    }
    assert forall k :: k in Index(p) <==> k in Index(s);
  }

  lemma PassingPermuted(p: seq<CheckOutcome>, s: seq<CheckOutcome>)
    requires multiset(p) == multiset(s) && Distinct(Names(s))
    ensures Distinct(Names(p)) && Passing(p) == Passing(s)
  {
    hide *;
    OutcomeNamesPermuted(p, s);
    MembersPermuted(p, s);
    PassingKeys(p);
    PassingKeys(s);
    PassingValues(p);
    PassingValues(s);
    forall k | k in Passing(s) ensures Passing(p)[k] == Passing(s)[k] {
      var o :| o in s && o.name == k;
      assert o in p;
    }
    assert forall k :: k in Passing(p) <==> k in Passing(s);
  }

  lemma PathsPermuted(p: seq<FileEntry>, s: seq<FileEntry>)
    requires multiset(p) == multiset(s)
    ensures Distinct(Paths(p)) <==> Distinct(Paths(s))
  {
    hide Pick, Distinct;
    PickPermuted(p, s, e => true, (e: FileEntry) => e.path);
    DistinctPermuted(Paths(p), Paths(s));
  }

  lemma OutcomeNamesPermuted(p: seq<CheckOutcome>, s: seq<CheckOutcome>)
    requires multiset(p) == multiset(s)
    ensures Distinct(Names(p)) <==> Distinct(Names(s))
  {
    hide Pick, Distinct;
    PickPermuted(p, s, o => true, (o: CheckOutcome) => o.name);
    DistinctPermuted(Names(p), Names(s));
  }

  // ------------------------------------------------------------------------ stages

  /** What the constructors of the request and its policy insist on. */
  predicate ValidRequest(r: Request) {
    Distinct(Paths(r.files)) && Distinct(CheckNames(r.policy.checks))
  }

  /** The same request with its manifest and its checks in another order. */
  predicate Reordered(p: Request, r: Request) {
    && p == r.(files := p.files, policy := r.policy.(checks := p.policy.checks))
    && multiset(p.files) == multiset(r.files)
    && multiset(p.policy.checks) == multiset(r.policy.checks)
  }

  predicate SameSnapshot(p: Option<SnapshotEvidence>, e: Option<SnapshotEvidence>) {
    && p.Some? == e.Some?
    && (p.Some? ==>
        p.value == e.value.(entries := p.value.entries) && multiset(p.value.entries) == multiset(e.value.entries))
  }

  predicate SameTests(p: Option<TestEvidence>, e: Option<TestEvidence>) {
    && p.Some? == e.Some?
    && (p.Some? ==>
        p.value == e.value.(outcomes := p.value.outcomes) && multiset(p.value.outcomes) == multiset(e.value.outcomes))
  }

  /** The same evidence with its entries and outcomes in another order. */
  predicate Shuffled(p: Evidence, e: Evidence) {
    && p == e.(snapshot := p.snapshot, tests := p.tests)
    && SameSnapshot(p.snapshot, e.snapshot)
    && SameTests(p.tests, e.tests)
  }

  lemma MissingPermuted(p: seq<FileEntry>, s: seq<FileEntry>, m: map<string, string>)
    requires multiset(p) == multiset(s)
    ensures multiset(Missing(p, m)) == multiset(Missing(s, m))
    ensures multiset(Mismatched(p, m)) == multiset(Mismatched(s, m))
  {
    hide Pick;
    PickPermuted(p, s, (f: FileEntry) => f.path !in m, (f: FileEntry) => f.path);
    PickPermuted(p, s, (f: FileEntry) => f.path in m && m[f.path] != f.digest, (f: FileEntry) => f.path);
  }

  lemma ChecksPermuted(p: TestPolicy, s: TestPolicy, m: map<string, bool>)
    requires multiset(p.checks) == multiset(s.checks)
    ensures multiset(Unreported(p, m)) == multiset(Unreported(s, m))
    ensures multiset(Failed(p, m)) == multiset(Failed(s, m))
    ensures Known(p) == Known(s)
  {
    hide Pick;
    PickPermuted(p.checks, s.checks, (c: RequiredCheck) => c.required && c.name !in m, (c: RequiredCheck) => c.name);
    PickPermuted(p.checks, s.checks, (c: RequiredCheck) => c.required && c.name in m && !m[c.name],
                 (c: RequiredCheck) => c.name);
    MembersPermuted(p.checks, s.checks);
  }

  lemma UnexpectedPermuted(p: seq<CheckOutcome>, s: seq<CheckOutcome>, known: set<string>)
    requires multiset(p) == multiset(s)
    ensures multiset(Unexpected(p, known)) == multiset(Unexpected(s, known))
  {
    hide Pick;
    PickPermuted(p, s, (o: CheckOutcome) => o.name !in known, (o: CheckOutcome) => o.name);
  }

  lemma SnapshotStageOrderFree(p: Request, r: Request, pe: Option<SnapshotEvidence>, e: Option<SnapshotEvidence>)
    requires ValidRequest(r) && Reordered(p, r) && SameSnapshot(pe, e)
    ensures SnapshotStage(p, pe) == SnapshotStage(r, e)
  {
    hide Pick, Distinct, Paths, Index, Missing, Mismatched, SayNames, CheckNames;
    if e.Some? {
      PathsPermuted(pe.value.entries, e.value.entries);
      if Distinct(Paths(e.value.entries)) {
        IndexPermuted(pe.value.entries, e.value.entries);
        IndexPermuted(p.files, r.files);
        var observed, expected := Index(e.value.entries), Index(r.files);
        MissingPermuted(p.files, r.files, observed);
        MissingPermuted(pe.value.entries, e.value.entries, expected);
        NamesPermuted(FILE_SNAPSHOT, MISSING, NOT_FOUND, Missing(p.files, observed), Missing(r.files, observed));
        NamesPermuted(FILE_SNAPSHOT, FAIL, UNEXPECTED, Missing(pe.value.entries, expected),
                      Missing(e.value.entries, expected));
        NamesPermuted(FILE_SNAPSHOT, FAIL, DIFFERENT, Mismatched(p.files, observed), Mismatched(r.files, observed));
      }
    }
  }

  lemma TestStageOrderFree(p: Request, r: Request, pe: Option<TestEvidence>, e: Option<TestEvidence>)
    requires Reordered(p, r) && SameTests(pe, e)
    ensures TestStage(p, pe) == TestStage(r, e)
  {
    hide Pick, Distinct, Names, Passing, Unreported, Unexpected, Failed, Known, SayNames;
    if e.Some? {
      OutcomeNamesPermuted(pe.value.outcomes, e.value.outcomes);
      if Distinct(Names(e.value.outcomes)) {
        PassingPermuted(pe.value.outcomes, e.value.outcomes);
        var reported, known := Passing(e.value.outcomes), Known(r.policy);
        ChecksPermuted(p.policy, r.policy, reported);
        UnexpectedPermuted(pe.value.outcomes, e.value.outcomes, known);
        NamesPermuted(POST_CHANGE_TESTS, MISSING, NOT_FOUND, Unreported(p.policy, reported),
                      Unreported(r.policy, reported));
        NamesPermuted(POST_CHANGE_TESTS, MALFORMED, UNEXPECTED, Unexpected(pe.value.outcomes, known),
                      Unexpected(e.value.outcomes, known));
        NamesPermuted(POST_CHANGE_TESTS, FAIL, FAILED, Failed(p.policy, reported), Failed(r.policy, reported));
      }
    }
  }

  lemma CommitStageOrderFree(p: Request, r: Request, e: Option<CommitEvidence>)
    requires Reordered(p, r)
    ensures CommitStage(p, e) == CommitStage(r, e)
  {
  }

  lemma PullStageOrderFree(p: Request, r: Request, e: Option<PullEvidence>, commit: CommitEvidence)
    requires Reordered(p, r)
    ensures PullStage(p, e, commit) == PullStage(r, e, commit)
  {
  }

  lemma StagesOrderFree(p: Request, r: Request, pe: Evidence, e: Evidence)
    requires ValidRequest(r) && Reordered(p, r) && Shuffled(pe, e)
    ensures EvidenceStages(p, pe) == EvidenceStages(r, e)
  {
    hide CommitStage, PullStage, SnapshotStage, TestStage, ValidRequest, SameSnapshot, SameTests;
    CommitStageOrderFree(p, r, e.commit);
    if CommitStage(r, e.commit).state == PASS {
      CommitPassed(r, e.commit);
      PullStageOrderFree(p, r, e.pull, e.commit.value);
    }
    SnapshotStageOrderFree(p, r, pe.snapshot, e.snapshot);
    TestStageOrderFree(p, r, pe.tests, e.tests);
  }

  /** Reordering the manifest, the policy, the snapshot or the outcomes changes neither the
      verdict, nor any stage, nor the summary. */
  lemma VerdictOrderFree(p: Request, r: Request, pe: Evidence, e: Evidence)
    requires ValidRequest(r) && Reordered(p, r) && Shuffled(pe, e)
    ensures var a, b := Evaluated(p, Given(pe)), Evaluated(r, Given(e));
            a.verdict == b.verdict && a.stages == b.stages && a.summary == b.summary
  {
    hide EvidenceStages, ValidRequest, Reordered, Shuffled, FirstFailure, CanonicalRequest, CanonicalEvidence;
    StagesOrderFree(p, r, pe, e);
  }

  // ----------------------------------------------------------------------- digests

  lemma PathOrder()
    ensures TotalPreorder(ByPath) && TotalPreorder(ByName) && TotalPreorder(ByCheck)
    ensures forall a, b :: ByPath(a, b) && ByPath(b, a) <==> a.path == b.path
    ensures forall a, b :: ByName(a, b) && ByName(b, a) <==> a.name == b.name
    ensures forall a, b :: ByCheck(a, b) && ByCheck(b, a) <==> a.name == b.name
  {
    hide StringLe;
    StringLeOrder();
    assert forall s :: StringLe(s, s);
  }

  lemma FilesSeparated(s: seq<FileEntry>)
    requires Distinct(Paths(s))
    ensures Separates(ByPath, s)
  {
    hide StringLe, Paths, ByPath;
    PathOrder();
    PathsAt(s);
  }

  lemma {:induction false} CheckNamesAt(s: seq<RequiredCheck>)
    ensures |CheckNames(s)| == |s|
    ensures forall i | 0 <= i < |s| :: CheckNames(s)[i] == s[i].name
  {
    if s != [] { CheckNamesAt(s[1..]); }
  }

  lemma ChecksSeparated(s: seq<RequiredCheck>)
    requires Distinct(CheckNames(s))
    ensures Separates(ByCheck, s)
  {
    hide StringLe, CheckNames, ByCheck;
    PathOrder();
    CheckNamesAt(s);
  }

  /** The request digest forgets the order of the checks always, and the order of the manifest
      exactly when the policy says the manifest is unordered. */
  lemma RequestDigest(p: Request, r: Request)
    requires ValidRequest(r) && Reordered(p, r)
    ensures CanonicalRequest(p) == CanonicalRequest(r) <==> r.policy.manifestUnordered || p.files == r.files
  {
    hide Sort, Distinct, Paths, CheckNames, Separates, TotalPreorder;
    PathOrder();
    FilesSeparated(r.files);
    ChecksSeparated(r.policy.checks);
    SortPermuted(p.files, r.files, ByPath);
    SortPermuted(p.policy.checks, r.policy.checks, ByCheck);
  }

  /** No two snapshot entries disagree about a path and no two outcomes about a name. */
  ghost predicate Consistent(e: Evidence) {
    && (e.snapshot.Some? ==>
        forall a, b | a in e.snapshot.value.entries && b in e.snapshot.value.entries && a.path == b.path :: a == b)
    && (e.tests.Some? ==>
        forall a, b | a in e.tests.value.outcomes && b in e.tests.value.outcomes && a.name == b.name :: a == b)
  }

  lemma EntriesCanonical(s: seq<FileEntry>)
    ensures (forall p: seq<FileEntry> | multiset(p) == multiset(s) :: Sort(p, ByPath) == Sort(s, ByPath)) <==>
            (forall a, b | a in s && b in s && a.path == b.path :: a == b)
  {
    hide Sort, ByPath;
    PathOrder();
    SortOrderFree(s, ByPath);
  }

  lemma OutcomesCanonical(s: seq<CheckOutcome>)
    ensures (forall p: seq<CheckOutcome> | multiset(p) == multiset(s) :: Sort(p, ByName) == Sort(s, ByName)) <==>
            (forall a, b | a in s && b in s && a.name == b.name :: a == b)
  {
    hide Sort, ByName;
    PathOrder();
    SortOrderFree(s, ByName);
  }

  lemma EntriesForgotten(p: seq<FileEntry>, s: seq<FileEntry>)
    requires forall a, b | a in s && b in s && a.path == b.path :: a == b
    requires multiset(p) == multiset(s)
    ensures Sort(p, ByPath) == Sort(s, ByPath)
  {
    hide Sort, ByPath;
    EntriesCanonical(s);
  }

  lemma OutcomesForgotten(p: seq<CheckOutcome>, s: seq<CheckOutcome>)
    requires forall a, b | a in s && b in s && a.name == b.name :: a == b
    requires multiset(p) == multiset(s)
    ensures Sort(p, ByName) == Sort(s, ByName)
  {
    hide Sort, ByName;
    OutcomesCanonical(s);
  }

  lemma DigestForgets(p: Evidence, e: Evidence)
    requires Consistent(e) && Shuffled(p, e)
    ensures CanonicalEvidence(p) == CanonicalEvidence(e)
  {
    hide Sort, ByPath, ByName;
    if e.snapshot.Some? { EntriesForgotten(p.snapshot.value.entries, e.snapshot.value.entries); }
    if e.tests.Some? { OutcomesForgotten(p.tests.value.outcomes, e.tests.value.outcomes); }
  }

  lemma EntriesRemembered(e: Evidence) returns (p: Evidence)
    requires e.snapshot.Some?
    requires exists a, b :: a in e.snapshot.value.entries && b in e.snapshot.value.entries && a.path == b.path && a != b
    ensures Shuffled(p, e) && CanonicalEvidence(p) != CanonicalEvidence(e)
  {
    hide Sort, ByPath, ByName;
    var entries := e.snapshot.value.entries;
    EntriesCanonical(entries);
    var s: seq<FileEntry> :| multiset(s) == multiset(entries) && Sort(s, ByPath) != Sort(entries, ByPath);
    p := e.(snapshot := Some(e.snapshot.value.(entries := s)));
    assert CanonicalEvidence(p).snapshot.value.entries == Sort(s, ByPath);
  }

  lemma OutcomesRemembered(e: Evidence) returns (p: Evidence)
    requires e.tests.Some?
    requires exists a, b :: a in e.tests.value.outcomes && b in e.tests.value.outcomes && a.name == b.name && a != b
    ensures Shuffled(p, e) && CanonicalEvidence(p) != CanonicalEvidence(e)
  {
    hide Sort, ByPath, ByName;
    var outcomes := e.tests.value.outcomes;
    OutcomesCanonical(outcomes);
    var s: seq<CheckOutcome> :| multiset(s) == multiset(outcomes) && Sort(s, ByName) != Sort(outcomes, ByName);
    p := e.(tests := Some(e.tests.value.(outcomes := s)));
    assert CanonicalEvidence(p).tests.value.outcomes == Sort(s, ByName);
  }

  lemma DigestRemembers(e: Evidence) returns (p: Evidence)
    requires !Consistent(e)
    ensures Shuffled(p, e) && CanonicalEvidence(p) != CanonicalEvidence(e)
  {
    hide Shuffled, CanonicalEvidence;
    if e.snapshot.Some? && exists a, b ::
         a in e.snapshot.value.entries && b in e.snapshot.value.entries && a.path == b.path && a != b {
      p := EntriesRemembered(e);
    } else {
      p := OutcomesRemembered(e);
    }
  }

  /** The evidence digest forgets the order of entries and outcomes exactly when no two of
      them disagree about a path or a name. */
  lemma EvidenceDigest(e: Evidence)
    ensures (forall p: Evidence | Shuffled(p, e) :: CanonicalEvidence(p) == CanonicalEvidence(e)) <==> Consistent(e)
  {
    hide *;
    if Consistent(e) {
      forall p: Evidence | Shuffled(p, e) ensures CanonicalEvidence(p) == CanonicalEvidence(e) {
        DigestForgets(p, e);
      }
    } else {
      var p := DigestRemembers(e);
    }
  }

  /** The whole report, both digests with it, is the same for every order of the inputs. */
  lemma ReportOrderFree(p: Request, r: Request, pe: Evidence, e: Evidence)
    requires ValidRequest(r) && Reordered(p, r) && Shuffled(pe, e)
    requires r.policy.manifestUnordered || p.files == r.files
    requires Consistent(e)
    ensures Evaluated(p, Given(pe)) == Evaluated(r, Given(e))
  {
    hide EvidenceStages, ValidRequest, Reordered, Shuffled, FirstFailure, CanonicalRequest, CanonicalEvidence,
         Consistent;
    StagesOrderFree(p, r, pe, e);
    RequestDigest(p, r);
    EvidenceDigest(e);
  }
}
