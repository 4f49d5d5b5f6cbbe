/** The runs of `execute_plan`, each cut off anywhere. */
module ExecutionRuns {
  import opened Text
  import opened DiffText
  import opened ExecutionEngine
  import opened ExecutionTraces
  import opened ExecutionBudget

  // ------------------------------------------------------------------- the program

  datatype Effect = Survived | Died
  {
    predicate IsFailure() { Died? }
    function PropagateFailure<T>(): Run<T> { Crashed }
  }

  datatype Run<T> = Done(value: T) | Crashed
  {
    predicate IsFailure() { Crashed? }
    function PropagateFailure<U>(): Run<U> { Crashed }
    function Extract(): T requires Done? { value }
  }

  class Engine {
    var audit: seq<Record>
    var checkpoint: Option<Checkpoint>
    /** Moments left until the process dies; any value may be chosen for a run. */
    var life: nat
    ghost var history: seq<Moment>
    /** The runs so far. */
    ghost var runs: seq<Attempt>
    /** The moments this run still has to make, and where they lead. */
    ghost var ahead: seq<Moment>
    ghost var goal: seq<Moment>
    ghost var end: nat

    ghost predicate Synced()
      reads this
    {
      audit == Logs(history) && checkpoint == LastSaved(history)
    }

    /** `audit` and `checkpoint` are what the runs so far have left. */
    ghost predicate Valid()
      reads this
    {
      Synced() && history == History(runs)
    }

    ghost predicate Under(rest: seq<Moment>)
      reads this
    {
      Synced() && history + ahead == goal && |history| + life == end && ahead == rest
    }

    /** The process died at the moment `end`. */
    ghost predicate Stopped()
      reads this
    {
      Synced() && end < |goal| && history == goal[..end]
    }

    constructor ()
      ensures Valid() && audit == [] && checkpoint == None && history == [] && runs == []
    {
      audit, checkpoint, life, history, runs := [], None, 0, [], [];
    }

    /** One observable moment, unless the process dies first. */
    method Happen(m: Moment, ghost rest: seq<Moment>) returns (w: Effect)
      requires Under([m] + rest)
      modifies this
      ensures goal == old(goal) && end == old(end) && runs == old(runs)
      ensures w.Survived? ==>
                && Under(rest)
                && audit == (if m.Log? then old(audit) + [m.record] else old(audit))
                && checkpoint == (if m.Save? then Some(m.checkpoint) else old(checkpoint))
      ensures w.Died? ==> Stopped()
    {
      if life == 0 {
        assert goal[..|history|] == history;
        return Died;
      }
      life := life - 1;
      assert (history + [m])[..|history|] == history;
      if m.Log? { audit := audit + [m.record]; }
      if m.Save? { checkpoint := Some(m.checkpoint); }
      assert (history + [m]) + rest == history + ([m] + rest);
      history, ahead := history + [m], rest;
      return Survived;
    }

    method GiveUp(req: Request, completed: set<string>, ghost rest: seq<Moment>) returns (w: Effect)
      requires Under(GivingUp(req, completed) + rest)
      modifies this
      ensures goal == old(goal) && end == old(end) && runs == old(runs)
      ensures w.Survived? ==> Under(rest)
      ensures w.Died? ==> Stopped()
    {
      hide Under, Stopped, Stored;
      var first, second := Plain(req, FAILED, UNNAMED, ""), Saving(req, FAILED, completed);
      assert GivingUp(req, completed) + rest == [first] + ([second] + rest);
      w := Happen(first, [second] + rest);
      if w.Survived? { w := Happen(second, rest); }
    }

    method Operate(req: Request, step: Step, answer: Answer, ghost rest: seq<Moment>) returns (w: Effect)
      requires Under(Operating(req, step, answer) + rest)
      modifies this
      ensures goal == old(goal) && end == old(end) && runs == old(runs)
      ensures w.Survived? ==> Under(rest)
      ensures w.Died? ==> Stopped()
    {
      hide Under, Stopped;
      var e := req.binding.execution;
      var issued := Issue(e, step.id);
      var done := Log(Record(e, RUNNING, TOOL_RESULT, step.id, answer.success, answer.verified));
      assert Operating(req, step, answer) + rest == [issued] + ([done] + rest);
      w := Happen(issued, [done] + rest);
      if w.Survived? { w := Happen(done, rest); }
    }

    /** The attempt loop of one step. */
    method RunStep(req: Request, world: World, step: Step, completed: set<string>, ghost rest: seq<Moment>)
      returns (r: Run<Fate>)
      requires Under(StepTrace(req, world, step, 0, Attempts(req), completed) + rest)
      modifies this
      ensures goal == old(goal) && end == old(end) && runs == old(runs)
      ensures r.Done? ==> Under(rest) && r.value == StepFate(world, step, 0, Attempts(req))
      ensures r.Crashed? ==> Stopped()
    {
      hide Under, Stopped, Operating, GivingUp, Attempts;
      var attempt, n := 0, Attempts(req);
      while attempt < n
        invariant 0 <= attempt <= n
        invariant goal == old(goal) && end == old(end) && runs == old(runs)
        invariant Under(StepTrace(req, world, step, attempt, n, completed) + rest)
        invariant StepFate(world, step, attempt, n) == StepFate(world, step, 0, n)
      {
        if !world.affords(step, attempt) {
          :- GiveUp(req, completed, rest);
          return Done(EXHAUSTED);
        }
        var answer := world.answer(step, attempt);
        if answer.success && answer.verified {
          :- Operate(req, step, answer, rest);
          return Done(PASSED);
        }
        ghost var more := StepTrace(req, world, step, attempt + 1, n, completed);
        assert (Operating(req, step, answer) + more) + rest == Operating(req, step, answer) + (more + rest);
        :- Operate(req, step, answer, more + rest);
        attempt := attempt + 1;
      }
      :- GiveUp(req, completed, rest);
      return Done(EXHAUSTED);
    }

    /** Replaces the checkpoint, then audits that it was replaced. */
    method SaveProgress(req: Request, completed: set<string>, stepId: string, ghost rest: seq<Moment>)
      returns (w: Effect)
      requires Under(Progress(req, completed, stepId) + rest)
      modifies this
      ensures goal == old(goal) && end == old(end) && runs == old(runs)
      ensures w.Survived? ==> Under(rest)
      ensures w.Died? ==> Stopped()
    {
      hide Under, Stopped, Stored;
      var saved, logged := Saving(req, RUNNING, completed), Plain(req, RUNNING, SAVED, stepId);
      assert Progress(req, completed, stepId) + rest == [saved] + ([logged] + rest);
      w := Happen(saved, [logged] + rest);
      if w.Survived? { w := Happen(logged, rest); }
    }

    /** The step loop: a step that is done is skipped, any other must pass its gate and succeed. */
    method RunSteps(req: Request, world: World, start: set<string>, ghost rest: seq<Moment>) returns (r: Run<State>)
      requires Under(PlanTrace(req, world, 0, start) + rest)
      modifies this
      ensures goal == old(goal) && end == old(end) && runs == old(runs)
      ensures r.Done? ==> Under(rest) && r.value == PlanFate(world, req, 0, start)
      ensures r.Crashed? ==> Stopped()
    {
      hide Under, Stopped, Progress, Concluding, StepTrace, StepFate, Attempts;
      var completed, k := start, 0;
      while k < |req.steps|
        invariant 0 <= k <= |req.steps|
        invariant goal == old(goal) && end == old(end) && runs == old(runs)
        invariant Under(PlanTrace(req, world, k, completed) + rest)
        invariant PlanFate(world, req, k, completed) == PlanFate(world, req, 0, start)
      {
        var s := req.steps[k];
        if s.id in completed {
          ghost var more := PlanTrace(req, world, k + 1, completed);
          Regroup([Plain(req, RUNNING, STEP_SKIPPED, s.id)], more, rest);
          :- Happen(Plain(req, RUNNING, STEP_SKIPPED, s.id), more + rest);
        } else {
          var gate := world.gate(s);
          if gate == BLOCK_AUDITED {
            :- Happen(Plain(req, BLOCKED, UNNAMED, ""), rest);
            return Done(BLOCKED);
          }
          if gate == BLOCK_SILENT {
            assert [] + rest == rest;
            return Done(BLOCKED);
          }
          if StepFate(world, s, 0, Attempts(req)) == EXHAUSTED {
            var _ :- RunStep(req, world, s, completed, rest);
            return Done(FAILED);
          }
          ghost var done := completed + {s.id};
          ghost var more := PlanTrace(req, world, k + 1, done);
          Regroup(StepTrace(req, world, s, 0, Attempts(req), completed), Progress(req, done, s.id) + more, rest);
          Regroup(Progress(req, done, s.id), more, rest);
          var _ :- RunStep(req, world, s, completed, Progress(req, done, s.id) + (more + rest));
          completed := completed + {s.id};
          :- SaveProgress(req, completed, s.id, more + rest);
        }
        k := k + 1;
      }
      r := Conclude(req, completed, rest);
    }

    /** The final count, the final checkpoint and the final audit record. */
    method Conclude(req: Request, completed: set<string>, ghost rest: seq<Moment>) returns (r: Run<State>)
      requires Under(Concluding(req, completed) + rest)
      modifies this
      ensures goal == old(goal) && end == old(end) && runs == old(runs)
      ensures r.Done? ==>
              Under(rest) && r.value == if completed == {} || |completed| < |req.steps| then FAILED else VERIFIED
      ensures r.Crashed? ==> Stopped()
    {
      hide Under, Stopped, Stored;
      if completed == {} || |completed| < |req.steps| {
        :- Happen(Saving(req, FAILED, completed), rest);
        return Done(FAILED);
      }
      var saved, logged := Saving(req, VERIFIED, completed), Plain(req, VERIFIED, COMPLETED, "");
      assert Concluding(req, completed) + rest == [saved] + ([logged] + rest);
      :- Happen(saved, [logged] + rest);
      :- Happen(logged, rest);
      return Done(VERIFIED);
    }

    /** The first audit record and the first checkpoint of a run, then its steps. */
    method Begin(req: Request, world: World, event: Event, completed: set<string>, ghost rest: seq<Moment>)
      returns (r: Run<State>)
      requires Under(BeginTrace(req, world, event, completed) + rest)
      modifies this
      ensures goal == old(goal) && end == old(end) && runs == old(runs)
      ensures r.Done? ==> Under(rest) && r.value == PlanFate(world, req, 0, completed)
      ensures r.Crashed? ==> Stopped()
    {
      hide Under, Stopped, PlanTrace, PlanFate, Stored;
      var first, second := Plain(req, RUNNING, event, ""), Saving(req, RUNNING, completed);
      ghost var more := PlanTrace(req, world, 0, completed);
      assert BeginTrace(req, world, event, completed) + rest == [first] + ([second] + (more + rest));
      :- Happen(first, [second] + (more + rest));
      :- Happen(second, more + rest);
      r := RunSteps(req, world, completed, rest);
    }

    /** The run between its start and its result. */
    method Proceed(req: Request, world: World, ghost rest: seq<Moment>) returns (r: Run<State>)
      requires Under(RunTrace(audit, checkpoint, req, world) + rest)
      modifies this
      ensures goal == old(goal) && end == old(end) && runs == old(runs)
      ensures r.Done? ==> Under(rest) && r.value == RunFate(old(audit), old(checkpoint), req, world)
      ensures r.Crashed? ==> Stopped()
    {
      hide Under, Stopped, BeginTrace, PlanFate, Strip, Unfinished, VerifiedIds;
      assert [] + rest == rest;
      var e := req.binding.execution;
      if Strip(e) == "" || !req.executable || !req.sandbox {
        return Done(BLOCKED);
      }
      if req.admission == REFUSED {
        :- Happen(Plain(req, BLOCKED, ADMISSION_BLOCKED, ""), rest);
        return Done(BLOCKED);
      }
      var completed: set<string> := {};
      if checkpoint.Some? {
        var cp := checkpoint.value;
        if cp.binding != req.binding {
          return Done(BLOCKED);
        }
        if cp.state == VERIFIED {
          return Done(if HasVerifiedCompletion(audit, e, req.steps) then VERIFIED else RECOVERY_REQUIRED);
        }
        if cp.state == FAILED {
          return Done(RECOVERY_REQUIRED);
        }
        if cp.state != RUNNING {
          return Done(BLOCKED);
        }
        completed := VerifiedStepsFromAudit(audit, e);
        if exists id | id in cp.completed :: id !in completed {
          return Done(RECOVERY_REQUIRED);
        }
        r := Begin(req, world, RESUMED, completed, rest);
      } else {
        var unfinished := HasUnfinishedExecution(audit, e);
        if unfinished {
          return Done(RECOVERY_REQUIRED);
        }
        r := Begin(req, world, STARTED, completed, rest);
      }
    }

    method MakeRun(req: Request, world: World) returns (r: Run<State>)
      requires Under(Trace(audit, checkpoint, req, world))
      modifies this
      ensures goal == old(goal) && end == old(end) && runs == old(runs)
      ensures r.Done? ==> Under([]) && r.value == RunFate(old(audit), old(checkpoint), req, world)
      ensures r.Crashed? ==> Stopped()
    {
      hide Under, Stopped, RunTrace, RunFate;
      ghost var last := Return(req.binding.execution, RunFate(audit, checkpoint, req, world), req.steps);
      :- Happen(Boot, RunTrace(audit, checkpoint, req, world) + [last]);
      r := Proceed(req, world, [last]);
      if r.Done? {
        assert [last] == [last] + [];
        :- Happen(Return(req.binding.execution, r.value, req.steps), []);
      }
    }

    lemma Arrived(h: seq<Moment>, t: seq<Moment>, moments: nat)
      requires goal == h + t && end == |h| + moments && Under([])
      ensures Synced() && history == h + Cut(t, moments) && moments >= |t|
    {
      assert history + [] == history;
    }

    lemma CutShort(h: seq<Moment>, t: seq<Moment>, moments: nat)
      requires goal == h + t && end == |h| + moments && Stopped()
      ensures Synced() && history == h + Cut(t, moments) && moments < |t|
    {
      CutGoal(h, t, moments);
    }

    /** The run, and the note in `runs` that it took place. */
    method RunAndRecord(req: Request, world: World, moments: nat) returns (r: Run<State>)
      requires Valid()
      modifies this
      ensures Valid() && runs == old(runs) + [Attempt(req, world, moments)]
      ensures history == old(history) + Cut(Trace(old(audit), old(checkpoint), req, world), moments)
      ensures r.Crashed? <==> moments < |Trace(old(audit), old(checkpoint), req, world)|
      ensures r.Done? ==> r.value == RunFate(old(audit), old(checkpoint), req, world)
    {
      hide Logs, LastSaved, Trace, RunFate, Stopped, Cut;
      ghost var h, t := history, Trace(audit, checkpoint, req, world);
      life := moments;
      ahead := t;
      goal, end := h + t, |h| + moments;
      r := MakeRun(req, world);
      if r.Done? {
        Arrived(h, t, moments);
      } else {
        CutShort(h, t, moments);
      }
      ghost var next := runs + [Attempt(req, world, moments)];
      assert next[..|runs|] == runs;
      runs := next;
    }

    /** One run of `execute_plan`, cut off after `moments` observable moments: it makes exactly
        the moments of its trace up to there, and returns what the trace ends with. */
    method ExecutePlan(req: Request, world: World, moments: nat) returns (r: Run<State>)
      requires Valid()
      modifies this
      ensures Valid() && runs == old(runs) + [Attempt(req, world, moments)]
      ensures history == old(history) + Cut(Trace(old(audit), old(checkpoint), req, world), moments)
      ensures r.Crashed? <==> moments < |Trace(old(audit), old(checkpoint), req, world)|
      ensures r.Done? ==> r.value == RunFate(old(audit), old(checkpoint), req, world)
      ensures Lawful(history) && Honest(history)
      ensures forall id :: Issues(history[|old(history)|..], req.binding.execution, id) <=
                           if req.retries <= 0 then 1 else if req.retries == 1 then 2 else 3
    {
      hide *;
      ghost var was, logged, saved := history, audit, checkpoint;
      r := RunAndRecord(req, world, moments);
      assert history == History(runs) by { RunsRecorded(); }
      RunsHonest(runs);
      ghost var t := Cut(Trace(logged, saved, req, world), moments);
      assert history == was + t && (was + t)[|was|..] == t;
      forall id ensures Issues(t, req.binding.execution, id) <=
                        if req.retries <= 0 then 1 else if req.retries == 1 then 2 else 3
      {
        IssuesBounded(logged, saved, req, world, moments, id);
      }
    }

    lemma RunsRecorded()
      requires Valid()
      ensures history == History(runs)
    {
    }
  }
}
