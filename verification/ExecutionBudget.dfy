/** How often a run issues an operation, and when it starts at all. */
module ExecutionBudget {
  import opened Text
  import opened DiffText
  import opened ExecutionEngine
  import opened ExecutionTraces

  // --------------------------------------------------------------- operations issued

  /** How often the operation of a step occurs. */
  function Issues(h: seq<Moment>, e: string, id: string): nat {
    if h == [] then 0 else (if h[0] == Issue(e, id) then 1 else 0) + Issues(h[1..], e, id)
  }

  lemma {:induction false} IssuesConcat(g: seq<Moment>, h: seq<Moment>, e: string, id: string)
    ensures Issues(g + h, e, id) == Issues(g, e, id) + Issues(h, e, id)
  {
    if g == [] {
      assert g + h == h;
    } else {
      assert (g + h)[1..] == g[1..] + h;
      IssuesConcat(g[1..], h, e, id);
    }
  }

  lemma IssuesCut(h: seq<Moment>, n: nat, e: string, id: string)
    ensures Issues(Cut(h, n), e, id) <= Issues(h, e, id)
  {
    if n < |h| {
      assert h == h[..n] + h[n..];
      IssuesConcat(h[..n], h[n..], e, id);
    }
  }

  lemma {:induction false} NoIssues(h: seq<Moment>, e: string, id: string)
    requires forall i | 0 <= i < |h| :: !h[i].Issue?
    ensures Issues(h, e, id) == 0
  {
    if h != [] { NoIssues(h[1..], e, id); }
  }

  /** The attempts made on a step from attempt `k` on. */
  function Tried(world: World, s: Step, k: nat, n: nat): nat
    decreases n - k
  {
    if k >= n || !world.affords(s, k) then 0
    else if VerifiedAt(world, s, k) then 1
    else 1 + Tried(world, s, k + 1, n)
  }

  lemma {:induction false} TriedIs(world: World, s: Step, k: nat, n: nat, m: nat)
    requires k <= m <= n
    requires forall a: nat | k <= a < m :: world.affords(s, a)
    requires forall a: nat | k <= a && a + 1 < m :: !VerifiedAt(world, s, a)
    requires m == n || !world.affords(s, m) || (m > k && VerifiedAt(world, s, m - 1))
    ensures Tried(world, s, k, n) == m - k
    decreases m - k
  {
    if k < m && !VerifiedAt(world, s, k) { TriedIs(world, s, k + 1, n, m); }
  }

  lemma {:induction false} TriedBounded(world: World, s: Step, k: nat, n: nat)
    ensures k <= n ==> Tried(world, s, k, n) <= n - k
    decreases n - k
  {
    if k < n { TriedBounded(world, s, k + 1, n); }
  }

  lemma OperatingIssues(req: Request, step: Step, answer: Answer, id: string)
    ensures Issues(Operating(req, step, answer), req.binding.execution, id) == if id == step.id then 1 else 0
  {
    var e, h := req.binding.execution, Operating(req, step, answer);
    var first, second := [h[0]], [h[1]];
    assert h == first + second && first[1..] == [];
    IssuesConcat(first, second, e, id);
    NoIssues(second, e, id);
  }

  lemma {:induction false} StepIssues(req: Request, world: World, step: Step, k: nat, n: nat, completed: set<string>,
                                      id: string)
    ensures Issues(StepTrace(req, world, step, k, n, completed), req.binding.execution, id) ==
            if id == step.id then Tried(world, step, k, n) else 0
    decreases n - k
  {
    hide Operating, GivingUp, Issues;
    var e := req.binding.execution;
    if k >= n || !world.affords(step, k) {
      GivingUpIssues(req, completed, id);
    } else {
      var answer := world.answer(step, k);
      OperatingIssues(req, step, answer, id);
      if !VerifiedAt(world, step, k) {
        StepIssues(req, world, step, k + 1, n, completed, id);
        IssuesConcat(Operating(req, step, answer), StepTrace(req, world, step, k + 1, n, completed), e, id);
      }
    }
  }

  lemma GivingUpIssues(req: Request, completed: set<string>, id: string)
    ensures Issues(GivingUp(req, completed), req.binding.execution, id) == 0
  {
    NoIssues(GivingUp(req, completed), req.binding.execution, id);
  }

  /** One step of the plan, whose turn comes at `k`. */
  lemma StepOfPlan(req: Request, world: World, k: nat, completed: set<string>, id: string)
    requires k < |req.steps|
    ensures var s, e, n := req.steps[k], req.binding.execution, Attempts(req);
            var issues := Issues(PlanTrace(req, world, k, completed), e, id);
            if s.id in completed then issues == Issues(PlanTrace(req, world, k + 1, completed), e, id)
            else if world.gate(s) != PASS then issues == 0
            else
              var here := if id == s.id then Tried(world, s, 0, n) else 0;
              if StepFate(world, s, 0, n) == PASSED then
                issues == here + Issues(PlanTrace(req, world, k + 1, completed + {s.id}), e, id)
              else issues == here
  {
    hide Issues, StepTrace, StepFate, Attempts, Stored, Tried;
    var s, e, n := req.steps[k], req.binding.execution, Attempts(req);
    if s.id in completed {
      var skipped := [Plain(req, RUNNING, STEP_SKIPPED, s.id)];
      NoIssues(skipped, e, id);
      IssuesConcat(skipped, PlanTrace(req, world, k + 1, completed), e, id);
    } else if world.gate(s) != PASS {
      NoIssues(PlanTrace(req, world, k, completed), e, id);
    } else {
      var done := completed + {s.id};
      StepIssues(req, world, s, 0, n, completed, id);
      if StepFate(world, s, 0, n) == PASSED {
        var tried, saved := StepTrace(req, world, s, 0, n, completed), Progress(req, done, s.id);
        NoIssues(saved, e, id);
        IssuesConcat(saved, PlanTrace(req, world, k + 1, done), e, id);
        IssuesConcat(tried, saved + PlanTrace(req, world, k + 1, done), e, id);
      }
    }
  }

  lemma {:induction false} PlanIssues(req: Request, world: World, k: nat, completed: set<string>, id: string)
    requires k <= |req.steps|
    ensures var issues := Issues(PlanTrace(req, world, k, completed), req.binding.execution, id);
            issues <= Attempts(req) && (id in completed ==> issues == 0)
    decreases |req.steps| - k
  {
    hide Issues, PlanTrace, StepFate, Attempts, Tried;
    if k == |req.steps| {
      ConcludingIssues(req, world, completed, id);
    } else {
      var s := req.steps[k];
      StepOfPlan(req, world, k, completed, id);
      TriedBounded(world, s, 0, Attempts(req));
      PlanIssues(req, world, k + 1, completed, id);
      PlanIssues(req, world, k + 1, completed + {s.id}, id);
    }
  }

  lemma ConcludingIssues(req: Request, world: World, completed: set<string>, id: string)
    ensures Issues(PlanTrace(req, world, |req.steps|, completed), req.binding.execution, id) == 0
  {
    NoIssues(Concluding(req, completed), req.binding.execution, id);
  }

  /** What an admitted run has done already. */
  function Start(d: Decision): set<string> {
    if d.Resume? then d.completed else {}
  }

  /** Between its start and its return a run issues what its plan does, if it starts one. */
  lemma RunIssues(audit: seq<Record>, checkpoint: Option<Checkpoint>, req: Request, world: World, id: string)
    ensures var issues := Issues(Trace(audit, checkpoint, req, world), req.binding.execution, id);
            var d := Decide(audit, checkpoint, req);
            issues == if d.Stop? || d.Refuse? then 0
                      else Issues(PlanTrace(req, world, 0, Start(d)), req.binding.execution, id)
  {
    hide Issues, PlanTrace, Decide, RunFate, Stored;
    var e := req.binding.execution;
    var inner := RunTrace(audit, checkpoint, req, world);
    var last := [Return(e, RunFate(audit, checkpoint, req, world), req.steps)];
    NoIssues([Boot], e, id);
    NoIssues(last, e, id);
    IssuesConcat(inner, last, e, id);
    IssuesConcat([Boot], inner + last, e, id);
    match Decide(audit, checkpoint, req) {
      case Stop(_) => NoIssues(inner, e, id);
      case Refuse => NoIssues(inner, e, id);
      case Fresh =>
        var opening := [Plain(req, RUNNING, STARTED, ""), Saving(req, RUNNING, {})];
        NoIssues(opening, e, id);
        IssuesConcat(opening, PlanTrace(req, world, 0, {}), e, id);
      case Resume(completed) =>
        var opening := [Plain(req, RUNNING, RESUMED, ""), Saving(req, RUNNING, completed)];
        NoIssues(opening, e, id);
        IssuesConcat(opening, PlanTrace(req, world, 0, completed), e, id);
    }
  }

  /** However a run is cut off, it issues no operation more often than one attempt and at most
      two retries, and none of a retry more than it was allowed. */
  lemma IssuesBounded(audit: seq<Record>, checkpoint: Option<Checkpoint>, req: Request, world: World, n: nat,
                      id: string)
    ensures Issues(Cut(Trace(audit, checkpoint, req, world), n), req.binding.execution, id) <=
            if req.retries <= 0 then 1 else if req.retries == 1 then 2 else 3
  {
    hide Issues, Trace, PlanTrace, Decide;
    IssuesCut(Trace(audit, checkpoint, req, world), n, req.binding.execution, id);
    RunIssues(audit, checkpoint, req, world, id);
    match Decide(audit, checkpoint, req) {
      case Fresh => PlanIssues(req, world, 0, {}, id);
      case Resume(completed) => PlanIssues(req, world, 0, completed, id);
      case _ =>
    }
  }

  /** What is done when the turn of step `k` comes, if all before it were done or succeeded. */
  function DoneBy(req: Request, start: set<string>, k: nat): set<string>
    requires k <= |req.steps|
  {
    start + Ids(req.steps[..k])
  }

  /** Every step before `k` is done when its turn comes, or succeeds. */
  ghost predicate Reaches(req: Request, world: World, k: nat, start: set<string>)
    requires k <= |req.steps|
  {
    forall i | 0 <= i < k && req.steps[i].id !in DoneBy(req, start, i) :: Succeeds(world, req, req.steps[i])
  }

  lemma DoneByMore(req: Request, start: set<string>, i: nat, k: nat)
    requires i < k <= |req.steps|
    ensures DoneBy(req, start, i + 1) == DoneBy(req, start, i) + {req.steps[i].id} <= DoneBy(req, start, k)
    ensures DoneBy(req, start, 0) == start
  {
    var steps := req.steps;
    assert steps[..i + 1] == steps[..i] + [steps[i]];
    forall id | id in Ids(steps[..i + 1]) ensures id in Ids(steps[..k]) {
      var s :| s in steps[..i + 1] && s.id == id;
      assert s in steps[..k];
    }
  }

  lemma ReachedStep(req: Request, world: World, i: nat, now: set<string>, id: string)
    requires i < |req.steps| && req.steps[i].id != id
    requires req.steps[i].id in now || Succeeds(world, req, req.steps[i])
    ensures var next := now + {req.steps[i].id};
            && Issues(PlanTrace(req, world, i, now), req.binding.execution, id) ==
               Issues(PlanTrace(req, world, i + 1, next), req.binding.execution, id)
            && PlanFate(world, req, i, now) == PlanFate(world, req, i + 1, next)
  {
    hide Issues, PlanTrace, StepFate, Attempts, Tried, Succeeds;
    StepOfPlan(req, world, i, now, id);
    SucceedsIs(world, req, req.steps[i]);
    if req.steps[i].id in now { assert now + {req.steps[i].id} == now; }
  }

  lemma {:induction false} ReachedIssues(req: Request, world: World, k: nat, from: nat, start: set<string>, id: string)
    requires from <= k <= |req.steps| && Reaches(req, world, k, start) && id !in DoneBy(req, start, k)
    ensures Issues(PlanTrace(req, world, from, DoneBy(req, start, from)), req.binding.execution, id) ==
            Issues(PlanTrace(req, world, k, DoneBy(req, start, k)), req.binding.execution, id)
    ensures PlanFate(world, req, from, DoneBy(req, start, from)) == PlanFate(world, req, k, DoneBy(req, start, k))
    decreases k - from
  {
    hide Issues, PlanTrace, PlanFate, Succeeds, DoneBy;
    if from < k {
      DoneByMore(req, start, from, k);
      ReachedStep(req, world, from, DoneBy(req, start, from), id);
      ReachedIssues(req, world, k, from + 1, start, id);
    }
  }

  /** A step whose turn comes and whose gate is open is issued exactly as often as its attempts
      go on: up to the first verified success, the first attempt that cannot be afforded, or the
      last one allowed. Without a verified success the run fails. */
  lemma IssuedExactly(req: Request, world: World, k: nat, start: set<string>, m: nat)
    requires k < |req.steps| && Reaches(req, world, k, start)
    requires req.steps[k].id !in DoneBy(req, start, k) && world.gate(req.steps[k]) == PASS
    requires m <= if req.retries <= 0 then 1 else if req.retries == 1 then 2 else 3
    requires forall a: nat | a < m :: world.affords(req.steps[k], a)
    requires forall a: nat | a + 1 < m :: !VerifiedAt(world, req.steps[k], a)
    requires || m == (if req.retries <= 0 then 1 else if req.retries == 1 then 2 else 3)
             || !world.affords(req.steps[k], m)
             || (m > 0 && VerifiedAt(world, req.steps[k], m - 1))
    ensures var run := PlanTrace(req, world, 0, start);
            && (m == 0 || !VerifiedAt(world, req.steps[k], m - 1) ==>
                  Issues(run, req.binding.execution, req.steps[k].id) == m && PlanFate(world, req, 0, start) == FAILED)
            && (m > 0 && VerifiedAt(world, req.steps[k], m - 1) ==>
                  Issues(run, req.binding.execution, req.steps[k].id) == m)
  {
    hide Issues, PlanTrace, Attempts, Tried, VerifiedAt, StepFate, DoneBy, Reaches;
    var s, n := req.steps[k], Attempts(req);
    var done := DoneBy(req, start, k);
    DoneByMore(req, start, k, k + 1);
    ReachedIssues(req, world, k, 0, start, s.id);
    StepOfPlan(req, world, k, done, s.id);
    TriedIs(world, s, 0, n, m);
    StepPasses(world, s, 0, n);
    PlanIssues(req, world, k + 1, done + {s.id}, s.id);
    if m == 0 || !VerifiedAt(world, s, m - 1) {
      forall a: nat | a < n && VerifiedAt(world, s, a) ensures exists b: nat :: b <= a && !world.affords(s, b) {
        assert !(a + 1 < m);
        assert m <= a && !world.affords(s, m);
      }
    }
  }

  // ------------------------------------------------------------------------ admission

  /** The last record of the execution in the audit. */
  ghost predicate LastRecord(audit: seq<Record>, e: string, i: nat) {
    && i < |audit| && audit[i].execution == e
    && forall j | i < j < |audit| :: audit[j].execution != e
  }

  lemma {:induction false} LastStateIs(audit: seq<Record>, e: string)
    ensures LastState(audit, e).None? <==> forall r | r in audit :: r.execution != e
    ensures forall i: nat | LastRecord(audit, e, i) :: LastState(audit, e) == Some(audit[i].state)
    ensures LastState(audit, e).Some? ==> exists i: nat :: LastRecord(audit, e, i)
  {
    if audit != [] {
      var front, last := audit[..|audit| - 1], audit[|audit| - 1];
      LastStateIs(front, e);
      assert audit == front + [last];
      assert forall r :: r in audit <==> r in front || r == last;
      forall i: nat | LastRecord(audit, e, i) ensures LastState(audit, e) == Some(audit[i].state) {
        assert last.execution == e ==> i == |front|;
        assert last.execution != e ==> LastRecord(front, e, i);
      }
      if last.execution == e {
        assert LastRecord(audit, e, |front|);
      } else if i: nat :| LastRecord(front, e, i) {
        assert LastRecord(audit, e, i);
      }
    }
  }

  predicate Asked(req: Request) {
    Strip(req.binding.execution) != "" && req.executable && req.sandbox && req.admission != REFUSED
  }

  /** Without a checkpoint a request that is admitted starts its execution if and only if the
      execution has no audit record or its last one says VERIFIED, FAILED or BLOCKED;
      otherwise it does nothing and asks for recovery. */
  lemma StartsExactlyWhen(h: seq<Moment>, req: Request, world: World)
    requires Asked(req) && LastSaved(h).None?
    ensures var e := req.binding.execution;
            var t := Trace(Logs(h), LastSaved(h), req, world);
            && (|t| > 2 <==>
                || (forall r | r in Logs(h) :: r.execution != e)
                || exists i: nat :: LastRecord(Logs(h), e, i) && Logs(h)[i].state in {VERIFIED, FAILED, BLOCKED})
            && (|t| > 2 ==> t[1] == Log(Record(e, RUNNING, STARTED, "", false, false)))
            && (|t| <= 2 ==> t == [Boot, Return(e, RECOVERY_REQUIRED, req.steps)])
  {
    hide Logs, LastSaved, LastState, LastRecord, PlanTrace, PlanFate, Strip;
    LastStateIs(Logs(h), req.binding.execution);
  }

  /** What a request comes to that does not start: nothing is issued or saved, and this is
      returned. */
  lemma TurnedAway(h: seq<Moment>, req: Request, world: World)
    ensures var e := req.binding.execution;
            var t := Trace(Logs(h), LastSaved(h), req, world);
            && (Strip(e) == "" || !req.executable || !req.sandbox ==> t == [Boot, Return(e, BLOCKED, req.steps)])
            && (Strip(e) != "" && req.executable && req.sandbox && req.admission == REFUSED ==>
                  t == [Boot, Log(Record(e, BLOCKED, ADMISSION_BLOCKED, "", false, false)),
                        Return(e, BLOCKED, req.steps)])
            && (Asked(req) && LastSaved(h).Some? ==>
                  var cp := LastSaved(h).value;
                  && (cp.binding != req.binding || cp.state in {BLOCKED, RECOVERY_REQUIRED} ==>
                        t == [Boot, Return(e, BLOCKED, req.steps)])
                  && (cp.binding == req.binding && cp.state == FAILED ==>
                        t == [Boot, Return(e, RECOVERY_REQUIRED, req.steps)])
                  && (cp.binding == req.binding && cp.state == VERIFIED ==>
                        t == [Boot, Return(e, if Accounted(Logs(h), e, req.steps) then VERIFIED else RECOVERY_REQUIRED,
                                           req.steps)]))
  {
    hide Logs, LastSaved, PlanTrace, PlanFate, Strip, Unfinished, VerifiedIds, HasVerifiedCompletion;
    AccountedIs(Logs(h), req.binding.execution, req.steps);
  }

  /** The audit shows a verified success of every step, none of them without an id, and the end
      of the execution. */
  ghost predicate Accounted(audit: seq<Record>, e: string, steps: seq<Step>) {
    && (forall s | s in steps :: s.id != "" && exists i :: 0 <= i < |audit| && Shows(audit[i], e, s.id))
    && exists i :: 0 <= i < |audit| && Ends(audit[i], e)
  }

  predicate Shows(r: Record, e: string, id: string) {
    r.execution == e && r.event == TOOL_RESULT && r.success && r.verified && r.stepId == id
  }

  predicate Ends(r: Record, e: string) {
    r.execution == e && r.event == COMPLETED && r.state == VERIFIED
  }

  lemma AccountedIs(audit: seq<Record>, e: string, steps: seq<Step>)
    ensures HasVerifiedCompletion(audit, e, steps) <==> Accounted(audit, e, steps)
  {
    forall id ensures id in EvidenceIds(audit, e) <==> exists i :: 0 <= i < |audit| && Shows(audit[i], e, id) {
      if id in EvidenceIds(audit, e) {
        var r :| r in audit && IsEvidence(r, e) && r.stepId == id;
        var i :| 0 <= i < |audit| && audit[i] == r;
        assert Shows(audit[i], e, id);
      }
      if i :| 0 <= i < |audit| && Shows(audit[i], e, id) {
        assert audit[i] in audit && IsEvidence(audit[i], e);
      }
    }
    if i :| 0 <= i < |audit| && Ends(audit[i], e) { assert audit[i] in audit; }
    if r :| r in audit && r.execution == e && r.event == COMPLETED && r.state == VERIFIED {
      var i :| 0 <= i < |audit| && audit[i] == r;
      assert Ends(audit[i], e);
    }
  }
}
