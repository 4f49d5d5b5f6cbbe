/** What a run of `execute_plan` does, moment by moment, and what any list of runs, each cut off
    anywhere, leaves behind as its history. */
module ExecutionTraces {
  import opened Text
  import opened DiffText
  import opened ExecutionEngine

  // ------------------------------------------------------- the moments of one run

  function Plain(req: Request, state: State, event: Event, stepId: string): Moment {
    Log(Record(req.binding.execution, state, event, stepId, false, false))
  }

  function Saving(req: Request, state: State, completed: set<string>): Moment {
    Save(Checkpoint(req.binding, state, Stored(req.steps, completed)))
  }

  /** Giving up: the audit first, then a failed checkpoint. */
  function GivingUp(req: Request, completed: set<string>): seq<Moment> {
    [Plain(req, FAILED, UNNAMED, ""), Saving(req, FAILED, completed)]
  }

  /** An operation and the audit record of its answer. */
  function Operating(req: Request, step: Step, answer: Answer): seq<Moment> {
    [Issue(req.binding.execution, step.id),
     Log(Record(req.binding.execution, RUNNING, TOOL_RESULT, step.id, answer.success, answer.verified))]
  }

  function StepTrace(req: Request, world: World, step: Step, k: nat, n: nat, completed: set<string>): seq<Moment>
    decreases n - k
  {
    if k >= n || !world.affords(step, k) then GivingUp(req, completed)
    else
      var answer := world.answer(step, k);
      if answer.success && answer.verified then Operating(req, step, answer)
      else Operating(req, step, answer) + StepTrace(req, world, step, k + 1, n, completed)
  }

  function Concluding(req: Request, completed: set<string>): seq<Moment> {
    if completed == {} || |completed| < |req.steps| then [Saving(req, FAILED, completed)]
    else [Saving(req, VERIFIED, completed), Plain(req, VERIFIED, COMPLETED, "")]
  }

  function Progress(req: Request, completed: set<string>, stepId: string): seq<Moment> {
    [Saving(req, RUNNING, completed), Plain(req, RUNNING, SAVED, stepId)]
  }

  function PlanTrace(req: Request, world: World, k: nat, completed: set<string>): seq<Moment>
    requires k <= |req.steps|
    decreases |req.steps| - k
  {
    if k == |req.steps| then Concluding(req, completed)
    else
      var s := req.steps[k];
      if s.id in completed then [Plain(req, RUNNING, STEP_SKIPPED, s.id)] + PlanTrace(req, world, k + 1, completed)
      else
        match world.gate(s)
        case BLOCK_AUDITED => [Plain(req, BLOCKED, UNNAMED, "")]
        case BLOCK_SILENT => []
        case PASS =>
          var tried := StepTrace(req, world, s, 0, Attempts(req), completed);
          if StepFate(world, s, 0, Attempts(req)) == EXHAUSTED then tried
          else
            var done := completed + {s.id};
            tried + (Progress(req, done, s.id) + PlanTrace(req, world, k + 1, done))
  }

  function BeginTrace(req: Request, world: World, event: Event, completed: set<string>): seq<Moment> {
    [Plain(req, RUNNING, event, ""), Saving(req, RUNNING, completed)] + PlanTrace(req, world, 0, completed)
  }

  /** A run between its start and its result. */
  function RunTrace(audit: seq<Record>, checkpoint: Option<Checkpoint>, req: Request, world: World): seq<Moment> {
    match Decide(audit, checkpoint, req)
    case Stop(_) => []
    case Refuse => [Plain(req, BLOCKED, ADMISSION_BLOCKED, "")]
    case Fresh => BeginTrace(req, world, STARTED, {})
    case Resume(completed) => BeginTrace(req, world, RESUMED, completed)
  }

  /** How a run ends that is not cut short. */
  function RunFate(audit: seq<Record>, checkpoint: Option<Checkpoint>, req: Request, world: World): State {
    match Decide(audit, checkpoint, req)
    case Stop(state) => state
    case Refuse => BLOCKED
    case Fresh => PlanFate(world, req, 0, {})
    case Resume(completed) => PlanFate(world, req, 0, completed)
  }

  function Trace(audit: seq<Record>, checkpoint: Option<Checkpoint>, req: Request, world: World): seq<Moment> {
    [Boot] + (RunTrace(audit, checkpoint, req, world)
              + [Return(req.binding.execution, RunFate(audit, checkpoint, req, world), req.steps)])
  }

  function Cut<T>(s: seq<T>, n: nat): seq<T> {
    if n < |s| then s[..n] else s
  }

  /** A run that is cut off after `moments` moments. */
  datatype Attempt = Attempt(req: Request, world: World, moments: nat)

  function Moments(h: seq<Moment>, a: Attempt): seq<Moment> {
    Cut(Trace(Logs(h), LastSaved(h), a.req, a.world), a.moments)
  }

  /** What can be observed of runs one behind the other. */
  function History(runs: seq<Attempt>): seq<Moment>
    decreases |runs|
  {
    if runs == [] then []
    else
      var h := History(runs[..|runs| - 1]);
      h + Moments(h, runs[|runs| - 1])
  }

  lemma CutGoal(h: seq<Moment>, t: seq<Moment>, n: nat)
    ensures n < |t| ==> (h + t)[..|h| + n] == h + Cut(t, n)
  {
  }

  lemma Regroup<T>(a: seq<T>, b: seq<T>, c: seq<T>)
    ensures (a + b) + c == a + (b + c)
  {
  }

  // --------------------------------------------------------- what a run is allowed

  /** A run of `req` is under way and `completed` is what it believes done. */
  ghost predicate Underway(h: seq<Moment>, req: Request, completed: set<string>) {
    && Lawful(h) && !Pending(h)
    && LastSaved(h).Some? && LastSaved(h).value.state == RUNNING && LastSaved(h).value.binding == req.binding
    && (forall id | id in LastSaved(h).value.completed :: id in completed)
    && ("" in LastSaved(h).value.completed ==> exists s :: s in req.steps && s.id == "")
    && VerifiedIds(Logs(h), req.binding.execution) <= completed <= EvidenceIds(Logs(h), req.binding.execution)
  }

  /** What a history must be for a run to report `state`. */
  ghost predicate Ended(h: seq<Moment>, req: Request, state: State) {
    && Lawful(h) && !Pending(h)
    && (state == FAILED ==> LastSaved(h).Some? && LastSaved(h).value.state == FAILED)
    && (state == VERIFIED ==> LastSaved(h).Some? && LastSaved(h).value.state == VERIFIED)
    && (state == VERIFIED ==> forall s | s in req.steps :: s.id in EvidenceIds(Logs(h), req.binding.execution))
  }

  lemma PlainUnderway(h: seq<Moment>, req: Request, completed: set<string>, state: State, event: Event, stepId: string)
    requires Underway(h, req, completed) && event != TOOL_RESULT
    ensures Underway(h + [Plain(req, state, event, stepId)], req, completed)
  {
    hide Logs, LastSaved, Lawful, Pending, EvidenceIds;
    var r := Plain(req, state, event, stepId).record;
    EvidenceGrows(Logs(h), r, req.binding.execution);
    LawfulNext(h, Log(r));
  }

  lemma SavingAllowed(h: seq<Moment>, req: Request, state: State, completed: set<string>)
    requires Underway(h, req, completed) && state in {RUNNING, VERIFIED, FAILED}
    ensures Allowed(h, Saving(req, state, completed))
    ensures "" in Stored(req.steps, completed) ==> exists s :: s in req.steps && s.id == ""
    ensures forall id | id in Stored(req.steps, completed) :: id in completed
  {
    hide Logs, LastSaved, Lawful, Pending, EvidenceIds, VerifiedIds, Stored;
    StoredMembers(req.steps, completed);
  }

  lemma SavingEnds(h: seq<Moment>, req: Request, state: State, completed: set<string>)
    requires Underway(h, req, completed) && state in {RUNNING, VERIFIED, FAILED}
    ensures var g := h + [Saving(req, state, completed)];
            && Lawful(g) && !Pending(g) && Logs(g) == Logs(h)
            && LastSaved(g) == Some(Saving(req, state, completed).checkpoint)
            && (state == RUNNING ==> Underway(g, req, completed))
  {
    hide Logs, LastSaved, Lawful, Pending, EvidenceIds, VerifiedIds, Stored, Allowed;
    SavingAllowed(h, req, state, completed);
    LawfulNext(h, Saving(req, state, completed));
  }

  lemma OperatingUnderway(h: seq<Moment>, req: Request, completed: set<string>, step: Step, answer: Answer)
    requires Underway(h, req, completed) && step.id !in completed
    ensures Underway(h + Operating(req, step, answer), req,
                     if answer.success && answer.verified then completed + {step.id} else completed)
  {
    hide Logs, LastSaved, Lawful, EvidenceIds;
    var e := req.binding.execution;
    var r := Record(e, RUNNING, TOOL_RESULT, step.id, answer.success, answer.verified);
    LawfulNext(h, Issue(e, step.id));
    var g := h + [Issue(e, step.id)];
    EvidenceGrows(Logs(g), r, e);
    LawfulNext(g, Log(r));
    assert h + Operating(req, step, answer) == g + [Log(r)];
  }

  lemma GivingUpEnds(h: seq<Moment>, req: Request, completed: set<string>)
    requires Underway(h, req, completed)
    ensures Ended(h + GivingUp(req, completed), req, FAILED)
  {
    hide Underway, Lawful, LastSaved, Logs, Pending, Stored;
    PlainUnderway(h, req, completed, FAILED, UNNAMED, "");
    var g := h + [Plain(req, FAILED, UNNAMED, "")];
    SavingEnds(g, req, FAILED, completed);
    assert h + GivingUp(req, completed) == g + [Saving(req, FAILED, completed)];
  }

  lemma {:induction false} StepUnderway(h: seq<Moment>, req: Request, world: World, step: Step, k: nat, n: nat,
                                        completed: set<string>)
    requires Underway(h, req, completed) && step.id !in completed
    ensures var g := h + StepTrace(req, world, step, k, n, completed);
            if StepFate(world, step, k, n) == PASSED then Underway(g, req, completed + {step.id})
               else Ended(g, req, FAILED)
    decreases n - k
  {
    hide Underway, Ended, Operating, GivingUp;
    if k >= n || !world.affords(step, k) {
      GivingUpEnds(h, req, completed);
    } else {
      var answer := world.answer(step, k);
      OperatingUnderway(h, req, completed, step, answer);
      if !(answer.success && answer.verified) {
        StepUnderway(h + Operating(req, step, answer), req, world, step, k + 1, n, completed);
        Regroup(h, Operating(req, step, answer), StepTrace(req, world, step, k + 1, n, completed));
      }
    }
  }

  lemma ConcludingEnds(h: seq<Moment>, req: Request, world: World, completed: set<string>)
    requires Underway(h, req, completed) && forall s | s in req.steps :: s.id in completed
    ensures Ended(h + Concluding(req, completed), req, PlanFate(world, req, |req.steps|, completed))
  {
    hide Lawful, LastSaved, Logs, Pending, Stored, EvidenceIds, VerifiedIds;
    if completed == {} || |completed| < |req.steps| {
      SavingEnds(h, req, FAILED, completed);
    } else {
      SavingEnds(h, req, VERIFIED, completed);
      var g := h + [Saving(req, VERIFIED, completed)];
      var last := Plain(req, VERIFIED, COMPLETED, "");
      LawfulNext(g, last);
      EvidenceGrows(Logs(g), last.record, req.binding.execution);
      assert h + Concluding(req, completed) == g + [last];
    }
  }

  lemma ProgressUnderway(h: seq<Moment>, req: Request, completed: set<string>, stepId: string)
    requires Underway(h, req, completed)
    ensures Underway(h + Progress(req, completed, stepId), req, completed)
  {
    hide Underway, Stored;
    SavingEnds(h, req, RUNNING, completed);
    var g := h + [Saving(req, RUNNING, completed)];
    PlainUnderway(g, req, completed, RUNNING, SAVED, stepId);
    assert h + Progress(req, completed, stepId) == g + [Plain(req, RUNNING, SAVED, stepId)];
  }

  lemma UnderwayBlocked(h: seq<Moment>, req: Request, completed: set<string>)
    requires Underway(h, req, completed)
    ensures Ended(h, req, BLOCKED)
  {
  }

  lemma {:induction false} PlanEnds(h: seq<Moment>, req: Request, world: World, k: nat, completed: set<string>)
    requires k <= |req.steps| && Underway(h, req, completed) && forall s | s in req.steps[..k] :: s.id in completed
    ensures Ended(h + PlanTrace(req, world, k, completed), req, PlanFate(world, req, k, completed))
    decreases |req.steps| - k
  {
    hide Underway, Ended, StepTrace, StepFate, Progress, Concluding, Attempts;
    if k == |req.steps| {
      assert req.steps[..k] == req.steps;
      ConcludingEnds(h, req, world, completed);
    } else {
      var s := req.steps[k];
      assert req.steps[..k + 1] == req.steps[..k] + [s];
      if s.id in completed {
        var skipped := [Plain(req, RUNNING, STEP_SKIPPED, s.id)];
        PlainUnderway(h, req, completed, RUNNING, STEP_SKIPPED, s.id);
        PlanEnds(h + skipped, req, world, k + 1, completed);
        Regroup(h, skipped, PlanTrace(req, world, k + 1, completed));
      } else if world.gate(s) != PASS {
        PlainUnderway(h, req, completed, BLOCKED, UNNAMED, "");
        UnderwayBlocked(h, req, completed);
        UnderwayBlocked(h + [Plain(req, BLOCKED, UNNAMED, "")], req, completed);
        assert h + [] == h;
      } else {
        PassedStep(h, req, world, k, completed);
        if StepFate(world, s, 0, Attempts(req)) == PASSED {
          var done := completed + {s.id};
          var tried, saved := StepTrace(req, world, s, 0, Attempts(req), completed), Progress(req, done, s.id);
          PlanEnds((h + tried) + saved, req, world, k + 1, done);
          Regroup(h, tried, saved + PlanTrace(req, world, k + 1, done));
          Regroup(h + tried, saved, PlanTrace(req, world, k + 1, done));
        }
      }
    }
  }

  lemma PassedStep(h: seq<Moment>, req: Request, world: World, k: nat, completed: set<string>)
    requires k < |req.steps| && Underway(h, req, completed) && req.steps[k].id !in completed
    ensures var s := req.steps[k];
            var g := h + StepTrace(req, world, s, 0, Attempts(req), completed);
            if StepFate(world, s, 0, Attempts(req)) == PASSED
            then Underway(g + Progress(req, completed + {s.id}, s.id), req, completed + {s.id})
            else Ended(g, req, FAILED)
  {
    hide Underway, Ended, StepTrace, StepFate, Progress, Attempts;
    var s := req.steps[k];
    StepUnderway(h, req, world, s, 0, Attempts(req), completed);
    if StepFate(world, s, 0, Attempts(req)) == PASSED {
      ProgressUnderway(h + StepTrace(req, world, s, 0, Attempts(req), completed), req, completed + {s.id}, s.id);
    }
  }

  // ------------------------------------------------------------------ every history

  lemma EndedReturns(h: seq<Moment>, req: Request, state: State)
    requires Ended(h, req, state)
    ensures Lawful(h + [Return(req.binding.execution, state, req.steps)])
  {
    hide Logs, LastSaved, Lawful, Pending, EvidenceIds;
    LawfulNext(h, Return(req.binding.execution, state, req.steps));
  }

  /** The first audit record and the first checkpoint put a run under way. */
  lemma BeginUnderway(h: seq<Moment>, req: Request, event: Event, completed: set<string>)
    requires Lawful(h) && !Pending(h) && event != TOOL_RESULT
    requires completed == VerifiedIds(Logs(h), req.binding.execution)
    requires LastSaved(h).Some? ==>
               && LastSaved(h).value.state == RUNNING && LastSaved(h).value.binding == req.binding
               && "" !in LastSaved(h).value.completed
    ensures Underway(h + [Plain(req, RUNNING, event, ""), Saving(req, RUNNING, completed)], req, completed)
  {
    hide Logs, LastSaved, Lawful, EvidenceIds, Stored;
    var first, second := Plain(req, RUNNING, event, ""), Saving(req, RUNNING, completed);
    EvidenceGrows(Logs(h), first.record, req.binding.execution);
    LawfulNext(h, first);
    StoredMembers(req.steps, completed);
    LawfulNext(h + [first], second);
    assert h + [first, second] == (h + [first]) + [second];
  }

  lemma BeginEnds(h: seq<Moment>, req: Request, world: World, event: Event, completed: set<string>)
    requires Lawful(h) && !Pending(h) && event != TOOL_RESULT
    requires completed == VerifiedIds(Logs(h), req.binding.execution)
    requires LastSaved(h).Some? ==>
               && LastSaved(h).value.state == RUNNING && LastSaved(h).value.binding == req.binding
               && "" !in LastSaved(h).value.completed
    ensures Ended(h + BeginTrace(req, world, event, completed), req, PlanFate(world, req, 0, completed))
  {
    hide Logs, LastSaved, Lawful, EvidenceIds, Stored, PlanTrace, PlanFate, Underway, Ended, Pending, VerifiedIds;
    var opening := [Plain(req, RUNNING, event, ""), Saving(req, RUNNING, completed)];
    BeginUnderway(h, req, event, completed);
    PlanEnds(h + opening, req, world, 0, completed);
    Regroup(h, opening, PlanTrace(req, world, 0, completed));
  }

  lemma NothingRun(h: seq<Moment>, req: Request, state: State)
    requires Lawful(h) && !Pending(h) && Decide(Logs(h), LastSaved(h), req) == Stop(state)
    ensures Ended(h, req, state)
  {
    hide Logs, LastSaved, Lawful, Pending, EvidenceIds, Strip, Unfinished;
  }

  lemma RefusedRun(h: seq<Moment>, req: Request)
    requires Lawful(h) && !Pending(h)
    ensures Ended(h + [Plain(req, BLOCKED, ADMISSION_BLOCKED, "")], req, BLOCKED)
  {
    hide Logs, LastSaved, Lawful, EvidenceIds;
    LawfulNext(h, Plain(req, BLOCKED, ADMISSION_BLOCKED, ""));
  }

  lemma ResumedCheckpoint(h: seq<Moment>, req: Request, completed: set<string>)
    requires Decide(Logs(h), LastSaved(h), req) == Resume(completed)
    ensures completed == VerifiedIds(Logs(h), req.binding.execution)
    ensures LastSaved(h).Some? && LastSaved(h).value.state == RUNNING && LastSaved(h).value.binding == req.binding
    ensures "" !in LastSaved(h).value.completed
  {
    hide Logs, LastSaved, EvidenceIds, Strip, Unfinished;
  }

  lemma FreshNothing(h: seq<Moment>, req: Request)
    requires Lawful(h) && Decide(Logs(h), LastSaved(h), req) == Fresh
    ensures LastSaved(h).None? && VerifiedIds(Logs(h), req.binding.execution) == {}
  {
    hide Logs, Lawful, EvidenceIds, Strip, Unfinished;
    NoEvidenceBeforeCheckpoint(h, req.binding.execution);
  }

  lemma RunEnds(h: seq<Moment>, req: Request, world: World)
    requires Lawful(h) && !Pending(h)
    ensures Ended(h + RunTrace(Logs(h), LastSaved(h), req, world), req, RunFate(Logs(h), LastSaved(h), req, world))
  {
    hide Logs, LastSaved, Lawful, Pending, Decide, Ended, BeginTrace, PlanFate, VerifiedIds;
    match Decide(Logs(h), LastSaved(h), req) {
      case Stop(state) =>
        NothingRun(h, req, state);
        assert h + [] == h;
      case Refuse =>
        RefusedRun(h, req);
      case Fresh =>
        FreshNothing(h, req);
        BeginEnds(h, req, world, STARTED, {});
      case Resume(completed) =>
        ResumedCheckpoint(h, req, completed);
        BeginEnds(h, req, world, RESUMED, completed);
    }
  }

  lemma TraceLawful(h: seq<Moment>, req: Request, world: World)
    requires Lawful(h)
    ensures Lawful(h + Trace(Logs(h), LastSaved(h), req, world))
  {
    hide Logs, LastSaved, Lawful, Pending, RunTrace, RunFate, Ended;
    var g := h + [Boot];
    LawfulNext(h, Boot);
    RunEnds(g, req, world);
    var inner, last := RunTrace(Logs(h), LastSaved(h), req, world),
                       [Return(req.binding.execution, RunFate(Logs(h), LastSaved(h), req, world), req.steps)];
    EndedReturns(g + inner, req, RunFate(Logs(h), LastSaved(h), req, world));
    Regroup(h, [Boot], inner + last);
    Regroup(g, inner, last);
  }

  lemma MomentsLawful(h: seq<Moment>, a: Attempt)
    requires Lawful(h)
    ensures Lawful(h + Moments(h, a))
  {
    hide Logs, LastSaved, Lawful, Trace;
    var t := Trace(Logs(h), LastSaved(h), a.req, a.world);
    TraceLawful(h, a.req, a.world);
    if a.moments < |t| {
      LawfulPrefix(h + t, |h| + a.moments);
      CutGoal(h, t, a.moments);
    }
  }

  /** Whatever runs follow each other, and wherever each is cut off, the history is lawful:
      what is proved of lawful histories holds of every history of the engine. */
  lemma {:induction false} EveryHistory(runs: seq<Attempt>)
    ensures Lawful(History(runs))
    decreases |runs|
  {
    if runs != [] {
      hide Lawful, Moments;
      EveryHistory(runs[..|runs| - 1]);
      MomentsLawful(History(runs[..|runs| - 1]), runs[|runs| - 1]);
    }
  }

  /** Checkpoints list audited steps only, and audited results stand behind their operation. */
  ghost predicate Honest(h: seq<Moment>) {
    && (forall i, id | 0 <= i < |h| && h[i].Save? && id in h[i].checkpoint.completed ::
          id in EvidenceIds(Logs(h[..i]), h[i].checkpoint.binding.execution))
    && (forall i | 0 <= i < |h| && h[i].Log? && h[i].record.event == TOOL_RESULT ::
          i > 0 && h[i - 1] == Issue(h[i].record.execution, h[i].record.stepId))
  }

  lemma LawfulHonest(h: seq<Moment>)
    requires Lawful(h)
    ensures Honest(h)
  {
    hide Lawful, Logs, EvidenceIds;
    forall i, id | 0 <= i < |h| && h[i].Save? && id in h[i].checkpoint.completed
      ensures id in EvidenceIds(Logs(h[..i]), h[i].checkpoint.binding.execution)
    {
      CheckpointBacked(h, i, id);
    }
    forall i | 0 <= i < |h| && h[i].Log? && h[i].record.event == TOOL_RESULT
      ensures i > 0 && h[i - 1] == Issue(h[i].record.execution, h[i].record.stepId)
    {
      EvidenceFollowsIssue(h, i);
    }
  }

  lemma RunsHonest(runs: seq<Attempt>)
    ensures Lawful(History(runs)) && Honest(History(runs))
  {
    hide *;
    EveryHistory(runs);
    LawfulHonest(History(runs));
  }
}
