/** A step whose id is empty: when its verified operation is issued again. */
module EmptyStepId {
  import opened Text
  import opened DiffText
  import opened ExecutionEngine
  import opened ExecutionTraces

  /** The audit record of a verified operation without a step id. */
  predicate EmptyEvidence(m: Moment, e: string) {
    m.Log? && IsEvidence(m.record, e) && m.record.stepId == ""
  }

  predicate SavesEmpty(m: Moment, req: Request) {
    m.Save? && m.checkpoint.binding == req.binding && "" in m.checkpoint.completed
  }

  /** In the trace of one step such a record can only be the last. */
  lemma {:induction false} StepEvidence(req: Request, world: World, step: Step, k: nat, n: nat, completed: set<string>,
                                        m: nat)
    requires 0 < m <= |StepTrace(req, world, step, k, n, completed)|
    requires EmptyEvidence(StepTrace(req, world, step, k, n, completed)[m - 1], req.binding.execution)
    ensures StepFate(world, step, k, n) == PASSED && step.id == ""
            && m == |StepTrace(req, world, step, k, n, completed)|
    decreases n - k
  {
    hide Stored;
    if k < n && world.affords(step, k) {
      var answer := world.answer(step, k);
      if !(answer.success && answer.verified) && m > 2 {
        StepEvidence(req, world, step, k + 1, n, completed, m - 2);
      }
    }
  }

  /** A step that passes replaces no checkpoint on the way. */
  lemma {:induction false} PassedNoSave(h: seq<Moment>, req: Request, world: World, step: Step, k: nat, n: nat,
                                        completed: set<string>)
    requires StepFate(world, step, k, n) == PASSED
    ensures LastSaved(h + StepTrace(req, world, step, k, n, completed)) == LastSaved(h)
    decreases n - k
  {
    hide LastSaved, GivingUp, Logs;
    var answer := world.answer(step, k);
    TwoNoSave(h, req, step, answer);
    if !(answer.success && answer.verified) {
      PassedNoSave(h + Operating(req, step, answer), req, world, step, k + 1, n, completed);
      Regroup(h, Operating(req, step, answer), StepTrace(req, world, step, k + 1, n, completed));
    }
  }

  lemma TwoNoSave(h: seq<Moment>, req: Request, step: Step, answer: Answer)
    ensures LastSaved(h + Operating(req, step, answer)) == LastSaved(h)
  {
    var t := Operating(req, step, answer);
    assert (h + t)[..|h| + 1] == h + [t[0]];
    assert (h + [t[0]])[..|h|] == h;
  }

  /** Where a run stands that was cut off behind such a record: at the first step without an
      id, all before it done, and the next moment would have been the checkpoint that lists it. */
  ghost predicate AtEmptyStep(g: seq<Moment>, req: Request, p: nat, done: set<string>) {
    && p < |req.steps| && req.steps[p].id == "" && "" !in done
    && (forall s | s in req.steps[..p] :: s.id in done)
    && Underway(g, req, done + {""})
    && "" !in LastSaved(g).value.completed
  }

  lemma CutAtStep(h: seq<Moment>, req: Request, world: World, k: nat, completed: set<string>)
    requires k < |req.steps| && Underway(h, req, completed) && forall s | s in req.steps[..k] :: s.id in completed
    requires var s := req.steps[k]; s.id == "" && s.id !in completed && StepFate(world, s, 0, Attempts(req)) == PASSED
    ensures AtEmptyStep(h + StepTrace(req, world, req.steps[k], 0, Attempts(req), completed), req, k, completed)
  {
    hide StepTrace, StepFate, Attempts, Lawful, Pending, Logs, LastSaved, EvidenceIds, VerifiedIds;
    StepUnderway(h, req, world, req.steps[k], 0, Attempts(req), completed);
    PassedNoSave(h, req, world, req.steps[k], 0, Attempts(req), completed);
  }

  lemma SavesAfter(req: Request, completed: set<string>, k: nat)
    requires k < |req.steps| && req.steps[k].id == ""
    ensures SavesEmpty(Progress(req, completed + {""}, "")[0], req)
  {
    hide Stored;
    StoredMembers(req.steps, completed + {""});
    assert req.steps[k] in req.steps;
  }

  lemma {:induction false} PlanCut(h: seq<Moment>, req: Request, world: World, k: nat, completed: set<string>, m: nat)
    returns (p: nat, done: set<string>)
    requires k <= |req.steps| && Underway(h, req, completed) && forall s | s in req.steps[..k] :: s.id in completed
    requires 0 < m <= |PlanTrace(req, world, k, completed)|
    requires EmptyEvidence(PlanTrace(req, world, k, completed)[m - 1], req.binding.execution)
    ensures AtEmptyStep(h + PlanTrace(req, world, k, completed)[..m], req, p, done)
    ensures m < |PlanTrace(req, world, k, completed)| && SavesEmpty(PlanTrace(req, world, k, completed)[m], req)
    decreases |req.steps| - k
  {
    hide Underway, StepTrace, StepFate, Attempts, Stored, AtEmptyStep, SavesEmpty, IsEvidence, Concluding,
         EmptyEvidence;
    var t := PlanTrace(req, world, k, completed);
    EvidenceNotDone(req, world, k, completed, m);
    NoEvidenceIn(req, world, k, completed);
    var s := req.steps[k];
    assert req.steps[..k + 1] == req.steps[..k] + [s];
    if s.id in completed {
      var skipped := [Plain(req, RUNNING, STEP_SKIPPED, s.id)];
      PlainUnderway(h, req, completed, RUNNING, STEP_SKIPPED, s.id);
      p, done := PlanCut(h + skipped, req, world, k + 1, completed, m - 1);
      assert t[..m] == skipped + PlanTrace(req, world, k + 1, completed)[..m - 1];
      Regroup(h, skipped, PlanTrace(req, world, k + 1, completed)[..m - 1]);
    } else {
      var tried := StepTrace(req, world, s, 0, Attempts(req), completed);
      if m <= |tried| {
        assert t[m - 1] == tried[m - 1];
        StepEvidence(req, world, s, 0, Attempts(req), completed, m);
        CutAtStep(h, req, world, k, completed);
        SavesAfter(req, completed, k);
        p, done := k, completed;
        assert t[..m] == tried;
      } else {
        var next := completed + {s.id};
        var saved, more := Progress(req, next, s.id), PlanTrace(req, world, k + 1, next);
        assert t == tried + (saved + more);
        PlainIsNone(req, RUNNING, SAVED, s.id);
        LaterEvidence(tried, saved, more, m, req.binding.execution);
        PassedStep(h, req, world, k, completed);
        p, done := PlanCut((h + tried) + saved, req, world, k + 1, next, m - |tried| - 2);
        Regroup(h, tried, saved + more[..m - |tried| - 2]);
        Regroup(h + tried, saved, more[..m - |tried| - 2]);
        assert t[..m] == tried + (saved + more[..m - |tried| - 2]);
      }
    }
  }

  lemma PlainIsNone(req: Request, state: State, event: Event, stepId: string)
    ensures !EmptyEvidence(Plain(req, state, event, stepId), req.binding.execution)
    ensures forall completed :: !EmptyEvidence(Saving(req, state, completed), req.binding.execution)
  {
  }

  lemma LaterEvidence(tried: seq<Moment>, saved: seq<Moment>, more: seq<Moment>, m: nat, e: string)
    requires |saved| == 2 && !EmptyEvidence(saved[0], e) && !EmptyEvidence(saved[1], e)
    requires |tried| < m <= |tried + (saved + more)| && EmptyEvidence((tried + (saved + more))[m - 1], e)
    ensures 0 < m - |tried| - 2 <= |more| && EmptyEvidence(more[m - |tried| - 3], e)
    ensures m < |tried + (saved + more)| <==> m - |tried| - 2 < |more|
    ensures m < |tried + (saved + more)| ==> (tried + (saved + more))[m] == more[m - |tried| - 2]
  {
    hide IsEvidence;
  }

  lemma {:induction false} StepNotEmpty(req: Request, world: World, step: Step, k: nat, n: nat, completed: set<string>)
    requires step.id != ""
    ensures forall x | x in StepTrace(req, world, step, k, n, completed) :: !EmptyEvidence(x, req.binding.execution)
    decreases n - k
  {
    hide Stored;
    if k < n && world.affords(step, k) { StepNotEmpty(req, world, step, k + 1, n, completed); }
  }

  lemma {:induction false} NoneOnceDone(req: Request, world: World, k: nat, completed: set<string>)
    requires k <= |req.steps| && "" in completed
    ensures forall x | x in PlanTrace(req, world, k, completed) :: !EmptyEvidence(x, req.binding.execution)
    decreases |req.steps| - k
  {
    hide StepTrace, StepFate, Attempts, Stored;
    if k < |req.steps| {
      var s := req.steps[k];
      if s.id in completed {
        NoneOnceDone(req, world, k + 1, completed);
      } else {
        StepNotEmpty(req, world, s, 0, Attempts(req), completed);
        NoneOnceDone(req, world, k + 1, completed + {s.id});
      }
    }
  }

  lemma EvidenceNotDone(req: Request, world: World, k: nat, completed: set<string>, m: nat)
    requires k <= |req.steps| && 0 < m <= |PlanTrace(req, world, k, completed)|
    requires EmptyEvidence(PlanTrace(req, world, k, completed)[m - 1], req.binding.execution)
    ensures "" !in completed
  {
    hide PlanTrace, IsEvidence;
    if "" in completed { NoneOnceDone(req, world, k, completed); }
  }

  /** Neither the end of a plan nor a closed gate audits an operation. */
  lemma NoEvidenceIn(req: Request, world: World, k: nat, completed: set<string>)
    requires k <= |req.steps|
    ensures k == |req.steps| ==>
            forall x | x in PlanTrace(req, world, k, completed) :: !EmptyEvidence(x, req.binding.execution)
    ensures k < |req.steps| && req.steps[k].id !in completed && world.gate(req.steps[k]) != PASS ==>
              forall x | x in PlanTrace(req, world, k, completed) :: !EmptyEvidence(x, req.binding.execution)
    ensures k < |req.steps| && req.steps[k].id in completed ==>
              !EmptyEvidence(PlanTrace(req, world, k, completed)[0], req.binding.execution)
  {
    hide StepTrace, StepFate, Attempts, Stored;
  }

  // ---------------------------------------------------------------- the next run

  /** A run that finds the earlier steps done and the one without an id not done issues it. */
  lemma {:induction false} PlanReaches(req: Request, world: World, k: nat, p: nat, completed: set<string>)
    requires k <= p < |req.steps| && (forall i | k <= i < p :: req.steps[i].id in completed)
    requires req.steps[p].id == "" && "" !in completed
    requires world.gate(req.steps[p]) == PASS && world.affords(req.steps[p], 0)
    ensures Issue(req.binding.execution, "") in PlanTrace(req, world, k, completed)
    decreases p - k
  {
    hide StepFate, Stored;
    if k < p {
      PlanReaches(req, world, k + 1, p, completed);
    } else {
      StepIssues(req, world, req.steps[p], completed);
      var t := PlanTrace(req, world, k, completed);
      assert StepTrace(req, world, req.steps[p], 0, Attempts(req), completed) <= t;
      assert t[0] == Issue(req.binding.execution, "");
    }
  }

  lemma StepIssues(req: Request, world: World, step: Step, completed: set<string>)
    requires world.affords(step, 0)
    ensures var t := StepTrace(req, world, step, 0, Attempts(req), completed);
            t != [] && t[0] == Issue(req.binding.execution, step.id)
  {
    hide Stored;
  }

  lemma DoneIsRead(g: seq<Moment>, req: Request, p: nat, done: set<string>)
    requires AtEmptyStep(g, req, p, done)
    ensures done <= VerifiedIds(Logs(g), req.binding.execution) && "" !in VerifiedIds(Logs(g), req.binding.execution)
  {
    hide Logs, LastSaved, Lawful, Pending;
  }

  lemma AtEmptyStepResumes(g: seq<Moment>, req: Request, p: nat, done: set<string>)
    requires AtEmptyStep(g, req, p, done)
    requires Strip(req.binding.execution) != "" && req.executable && req.sandbox && req.admission != REFUSED
    ensures Decide(Logs(g), LastSaved(g), req) == Resume(VerifiedIds(Logs(g), req.binding.execution))
  {
    hide Logs, LastSaved, Lawful, Pending, Strip, Decide, VerifiedIds;
    RefusalOnlyForEmptyId(g, req);
  }

  lemma ResumedIssues(g: seq<Moment>, req: Request, again: World, p: nat, done: set<string>)
    requires AtEmptyStep(g, req, p, done)
    requires Strip(req.binding.execution) != "" && req.executable && req.sandbox && req.admission != REFUSED
    requires again.gate(req.steps[p]) == PASS && again.affords(req.steps[p], 0)
    ensures Issue(req.binding.execution, "") in Trace(Logs(g), LastSaved(g), req, again)
  {
    hide Logs, LastSaved, Lawful, Pending, Strip, Decide, VerifiedIds, PlanTrace, Stored, RunFate;
    AtEmptyStepResumes(g, req, p, done);
    DoneIsRead(g, req, p, done);
    var ids := VerifiedIds(Logs(g), req.binding.execution);
    forall i | 0 <= i < p ensures req.steps[i].id in ids { assert req.steps[i] in req.steps[..p]; }
    PlanReaches(req, again, 0, p, ids);
    assert Issue(req.binding.execution, "") in BeginTrace(req, again, RESUMED, ids);
  }

  /** Such a record is made only by a run that begins. */
  lemma Begun(h: seq<Moment>, req: Request, world: World, m: nat) returns (event: Event, completed: set<string>)
    requires Lawful(h) && 0 < m <= |Trace(Logs(h), LastSaved(h), req, world)|
    requires EmptyEvidence(Trace(Logs(h), LastSaved(h), req, world)[m - 1], req.binding.execution)
    ensures event in {STARTED, RESUMED} && completed == VerifiedIds(Logs(h), req.binding.execution)
    ensures RunTrace(Logs(h), LastSaved(h), req, world) == BeginTrace(req, world, event, completed)
    ensures LastSaved(h).Some? ==>
              && LastSaved(h).value.state == RUNNING && LastSaved(h).value.binding == req.binding
              && "" !in LastSaved(h).value.completed
    ensures Strip(req.binding.execution) != "" && req.executable && req.sandbox && req.admission != REFUSED
  {
    hide Logs, LastSaved, Lawful, BeginTrace, RunFate, VerifiedIds, Decide, IsEvidence;
    Proceeds(h, req, world, m);
    DecidedToBegin(h, req);
    match Decide(Logs(h), LastSaved(h), req) {
      case Fresh =>
        FreshNothing(h, req);
        event, completed := STARTED, {};
      case Resume(ids) =>
        ResumedCheckpoint(h, req, ids);
        event, completed := RESUMED, ids;
    }
  }

  lemma Proceeds(h: seq<Moment>, req: Request, world: World, m: nat)
    requires 0 < m <= |Trace(Logs(h), LastSaved(h), req, world)|
    requires EmptyEvidence(Trace(Logs(h), LastSaved(h), req, world)[m - 1], req.binding.execution)
    ensures Decide(Logs(h), LastSaved(h), req).Fresh? || Decide(Logs(h), LastSaved(h), req).Resume?
  {
    hide Logs, LastSaved, BeginTrace, RunFate, VerifiedIds, Decide;
  }

  lemma DecidedToBegin(h: seq<Moment>, req: Request)
    requires Decide(Logs(h), LastSaved(h), req).Fresh? || Decide(Logs(h), LastSaved(h), req).Resume?
    ensures Strip(req.binding.execution) != "" && req.executable && req.sandbox && req.admission != REFUSED
  {
    hide Logs, LastSaved, VerifiedIds, Strip, Unfinished;
  }

  /** The record stands in the part of the trace that walks the plan. */
  lemma InPlan(opening: seq<Moment>, inner: seq<Moment>, last: Moment, m: nat, e: string)
    requires |opening| == 2 && !EmptyEvidence(opening[0], e) && !EmptyEvidence(opening[1], e) && !EmptyEvidence(last, e)
    requires 0 < m <= |[Boot] + ((opening + inner) + [last])|
             && EmptyEvidence(([Boot] + ((opening + inner) + [last]))[m - 1], e)
    ensures 0 < m - 3 <= |inner| && EmptyEvidence(inner[m - 4], e)
    ensures ([Boot] + ((opening + inner) + [last]))[..m] == [Boot] + (opening + inner[..m - 3])
    ensures m - 3 < |inner| ==> ([Boot] + ((opening + inner) + [last]))[m] == inner[m - 3]
  {
    hide IsEvidence;
  }

  lemma RunCut(h: seq<Moment>, req: Request, world: World, m: nat) returns (p: nat, done: set<string>)
    requires Lawful(h) && 0 < m <= |Trace(Logs(h), LastSaved(h), req, world)|
    requires EmptyEvidence(Trace(Logs(h), LastSaved(h), req, world)[m - 1], req.binding.execution)
    ensures AtEmptyStep(h + Trace(Logs(h), LastSaved(h), req, world)[..m], req, p, done)
    ensures m < |Trace(Logs(h), LastSaved(h), req, world)|
            && SavesEmpty(Trace(Logs(h), LastSaved(h), req, world)[m], req)
    ensures Strip(req.binding.execution) != "" && req.executable && req.sandbox && req.admission != REFUSED
  {
    hide Logs, LastSaved, Lawful, PlanTrace, Stored, RunFate, VerifiedIds, IsEvidence, SavesEmpty, AtEmptyStep,
         Pending, Strip, Unfinished;
    var event, completed := Begun(h, req, world, m);
    var t := Trace(Logs(h), LastSaved(h), req, world);
    var opening := [Plain(req, RUNNING, event, ""), Saving(req, RUNNING, completed)];
    var inner := PlanTrace(req, world, 0, completed);
    PlainIsNone(req, RUNNING, event, "");
    InPlan(opening, inner, Return(req.binding.execution, RunFate(Logs(h), LastSaved(h), req, world), req.steps), m,
           req.binding.execution);
    LawfulNext(h, Boot);
    BeginUnderway(h + [Boot], req, event, completed);
    var g := (h + [Boot]) + opening;
    p, done := PlanCut(g, req, world, 0, completed, m - 3);
    Regroup(h, [Boot], opening + inner[..m - 3]);
    Regroup(h + [Boot], opening, inner[..m - 3]);
  }

  /** A run that is cut off right behind the audit record of a verified operation without a
      step id would next have saved the checkpoint that lists it; instead, the next run of the
      same request issues that operation again, if its gate is open and its budget allows. */
  lemma EmptyIdIsReissued(runs: seq<Attempt>, req: Request, world: World, m: nat, again: World)
    requires var h := History(runs);
             && 0 < m <= |Trace(Logs(h), LastSaved(h), req, world)|
             && EmptyEvidence(Trace(Logs(h), LastSaved(h), req, world)[m - 1], req.binding.execution)
    requires forall s | s in req.steps && s.id == "" :: again.gate(s) == PASS && again.affords(s, 0)
    ensures var h := History(runs);
            var t := Trace(Logs(h), LastSaved(h), req, world);
            var g := h + t[..m];
            && g == History(runs + [Attempt(req, world, m)])
            && m < |t| && SavesEmpty(t[m], req)
            && Issue(req.binding.execution, "") in Trace(Logs(g), LastSaved(g), req, again)
  {
    hide Logs, LastSaved, Trace, Lawful, AtEmptyStep, SavesEmpty, EmptyEvidence;
    EveryHistory(runs);
    var h := History(runs);
    var p, done := RunCut(h, req, world, m);
    AtStep(h + Trace(Logs(h), LastSaved(h), req, world)[..m], req, p, done);
    ResumedIssues(h + Trace(Logs(h), LastSaved(h), req, world)[..m], req, again, p, done);
    assert (runs + [Attempt(req, world, m)])[..|runs|] == runs;
  }

  lemma AtStep(g: seq<Moment>, req: Request, p: nat, done: set<string>)
    requires AtEmptyStep(g, req, p, done)
    ensures p < |req.steps| && req.steps[p] in req.steps && req.steps[p].id == ""
  {
  }

  /** And that is the only way: in every history, between two issues of a step without an id
      of which the first was verified, no checkpoint lists it. With a step id there is none. */
  lemma ReissuedOnlyUnlisted(runs: seq<Attempt>, i: nat, j: nat, e: string)
    requires var h := History(runs);
             && i < j < |h| && h[i].Log? && IsEvidence(h[i].record, e) && h[j] == Issue(e, h[i].record.stepId)
    ensures var h := History(runs);
            && h[i].record.stepId == ""
            && forall k | 0 <= k < j && h[k].Save? && h[k].checkpoint.binding.execution == e ::
                 "" !in h[k].checkpoint.completed
  {
    hide Lawful, History;
    EveryHistory(runs);
    var h := History(runs);
    if h[i].record.stepId != "" { NeverReissued(h, i, j); }
    forall k | 0 <= k < j && h[k].Save? && h[k].checkpoint.binding.execution == e
      ensures "" !in h[k].checkpoint.completed
    {
      if "" in h[k].checkpoint.completed { EmptyIdSealed(h, k, j); }
    }
  }

  /** A plan of one step without an id, and tools that let it verify at once. */
  predicate Unnamed(req: Request, world: World) {
    && |req.steps| == 1 && req.steps[0].id == ""
    && Strip(req.binding.execution) != "" && req.executable && req.sandbox && req.admission != REFUSED
    && world.gate(req.steps[0]) == PASS && world.affords(req.steps[0], 0)
    && world.answer(req.steps[0], 0) == Answer(true, true)
  }

  lemma UnnamedTrace(req: Request, world: World)
    requires Unnamed(req, world)
    ensures var t := Trace([], None, req, world);
            && |t| == 10
            && t[..6] == [Boot, Plain(req, RUNNING, STARTED, ""), Saving(req, RUNNING, {})]
                         + (Operating(req, req.steps[0], Answer(true, true)) + [Saving(req, RUNNING, {""})])
  {
    hide Stored, Strip;
    var s := req.steps[0];
    assert StepTrace(req, world, s, 0, Attempts(req), {}) == Operating(req, s, Answer(true, true));
    assert StepFate(world, s, 0, Attempts(req)) == PASSED;
    assert {} + {""} == {""};
    assert PlanTrace(req, world, 1, {""}) == Concluding(req, {""});
    assert PlanTrace(req, world, 0, {}) ==
           Operating(req, s, Answer(true, true)) + (Progress(req, {""}, "") + Concluding(req, {""}));
    assert Decide([], None, req) == Fresh;
  }

  lemma UnnamedSaved(req: Request)
    requires |req.steps| == 1 && req.steps[0].id == ""
    ensures Stored(req.steps, {""}) == [""]
  {
    assert req.steps[..0] == [];
    assert Stored(req.steps[..0], {""}) == [];
  }

  lemma SavedAfter(h: seq<Moment>, m: Moment)
    ensures m.Save? ==> LastSaved(h + [m]) == Some(m.checkpoint)
  {
  }

  /** Both halves on the smallest plan: cut off behind the audit record, the operation is issued
      again by the next run; cut off one moment later, behind the checkpoint, the next run is
      turned away. */
  lemma UnnamedStep(req: Request, world: World)
    requires Unnamed(req, world)
    ensures var h := History([Attempt(req, world, 5)]);
            && |h| == 5 && EmptyEvidence(h[4], req.binding.execution)
            && Issue(req.binding.execution, "") in Trace(Logs(h), LastSaved(h), req, world)
    ensures var h := History([Attempt(req, world, 6)]);
            && |h| == 6 && EmptyEvidence(h[4], req.binding.execution)
            && Decide(Logs(h), LastSaved(h), req) == Stop(RECOVERY_REQUIRED)
  {
    hide Logs, LastSaved, Trace, Strip, Decide, Stored, History;
    UnnamedTrace(req, world);
    FirstRun(Attempt(req, world, 5));
    FirstRun(Attempt(req, world, 6));
    var t := Trace([], None, req, world);
    assert t[4] == t[..6][4] && t[5] == t[..6][5];
    assert EmptyEvidence(t[4], req.binding.execution);
    NoRuns();
    EmptyIdIsReissued([], req, world, 5, world);
    assert [] + [Attempt(req, world, 5)] == [Attempt(req, world, 5)];
    var h := History([Attempt(req, world, 6)]);
    assert h == h[..5] + [Saving(req, RUNNING, {""})];
    SavedAfter(h[..5], Saving(req, RUNNING, {""}));
    UnnamedSaved(req);
    EveryHistory([Attempt(req, world, 6)]);
    RefusalOnlyForEmptyId(h, req);
  }

  lemma NoRuns()
    ensures History([]) == [] && Logs([]) == [] && LastSaved([]) == None
  {
  }

  lemma FirstRun(a: Attempt)
    ensures History([a]) == Cut(Trace([], None, a.req, a.world), a.moments)
  {
    hide Trace;
    NoRuns();
    assert [a][..0] == [];
    assert [] + Moments([], a) == Moments([], a);
  }
}
