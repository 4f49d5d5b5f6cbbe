/** Resumable plan execution, and what every history keeps. */
module ExecutionEngine {
  import opened Text
  import opened DiffText

  datatype State = BLOCKED | RUNNING | VERIFIED | FAILED | RECOVERY_REQUIRED

  datatype Step = Step(id: string, tool: string)

  datatype Event = STARTED | RESUMED | STEP_SKIPPED | TOOL_RESULT | SAVED | COMPLETED | ADMISSION_BLOCKED | UNNAMED

  /** One line of the audit file. */
  datatype Record = Record(execution: string, state: State, event: Event, stepId: string, success: bool, verified: bool)

  /** The digests that tie a checkpoint to one task, plan and authorization. */
  datatype Binding = Binding(execution: string, task: string, plan: string, authorization: string)

  datatype Checkpoint = Checkpoint(binding: Binding, state: State, completed: seq<string>)

  // ------------------------------------------------------- reading the audit

  predicate IsEvidence(r: Record, execution: string) {
    r.execution == execution && r.event == TOOL_RESULT && r.success && r.verified
  }

  /** Step ids with a successful, verified result in the audit. */
  function EvidenceIds(audit: seq<Record>, execution: string): set<string> {
    set r | r in audit && IsEvidence(r, execution) :: r.stepId
  }

  /** What a resumed run reads back: the same ids, the empty one skipped. */
  function VerifiedIds(audit: seq<Record>, execution: string): set<string> {
    EvidenceIds(audit, execution) - {""}
  }

  method VerifiedStepsFromAudit(audit: seq<Record>, execution: string) returns (completed: set<string>)
    ensures completed == VerifiedIds(audit, execution)
  {
    completed := {};
    var i := 0;
    while i < |audit|
      invariant 0 <= i <= |audit|
      invariant completed == VerifiedIds(audit[..i], execution)
    {
      assert audit[..i + 1] == audit[..i] + [audit[i]];
      if IsEvidence(audit[i], execution) && audit[i].stepId != "" {
        completed := completed + {audit[i].stepId};
      }
      i := i + 1;
    }
    assert audit[..i] == audit;
  }

  /** State of the last record of this execution. */
  function LastState(audit: seq<Record>, execution: string): Option<State> {
    if audit == [] then None
    else if audit[|audit| - 1].execution == execution then Some(audit[|audit| - 1].state)
    else LastState(audit[..|audit| - 1], execution)
  }

  predicate Unfinished(audit: seq<Record>, execution: string) {
    var last := LastState(audit, execution);
    last.Some? && last.value !in {VERIFIED, FAILED, BLOCKED}
  }

  method HasUnfinishedExecution(audit: seq<Record>, execution: string) returns (r: bool)
    ensures r == Unfinished(audit, execution)
  {
    var last: Option<State> := None;
    var i := 0;
    while i < |audit|
      invariant 0 <= i <= |audit|
      invariant last == LastState(audit[..i], execution)
    {
      assert audit[..i + 1][..i] == audit[..i];
      if audit[i].execution == execution {
        last := Some(audit[i].state);
      }
      i := i + 1;
    }
    assert audit[..i] == audit;
    return last == Some(RUNNING) || (last.Some? && last.value !in {VERIFIED, FAILED, BLOCKED});
  }

  predicate HasVerifiedCompletion(audit: seq<Record>, execution: string, steps: seq<Step>) {
    && (forall s | s in steps :: s.id in VerifiedIds(audit, execution))
    && (exists r | r in audit :: r.execution == execution && r.event == COMPLETED && r.state == VERIFIED)
  }

  // ------------------------------------------------------------ one request

  datatype Admission = NOT_ASKED | REFUSED | ADMITTED

  datatype Gate = PASS | BLOCK_AUDITED | BLOCK_SILENT

  datatype Request = Request(binding: Binding, steps: seq<Step>, executable: bool, sandbox: bool, admission: Admission,
                             retries: int)

  datatype Answer = Answer(success: bool, verified: bool)

  /** Everything the engine asks of the outside: the policy gates, the budget for an
      attempt, and what the operation answers. */
  datatype World = World(gate: Step -> Gate, affords: (Step, nat) -> bool, answer: (Step, nat) -> Answer)

  datatype Decision =
    | Stop(state: State)
    | Refuse
    | Fresh
    | Resume(completed: set<string>)

  const MAX_RETRIES := 2

  /** `max(0, min(retries, MAX_RETRIES))` and the first attempt. */
  function Attempts(req: Request): (n: nat)
    ensures n == if req.retries <= 0 then 1 else if req.retries == 1 then 2 else 3
  {
    var retries := if req.retries < MAX_RETRIES then req.retries else MAX_RETRIES;
    (if retries < 0 then 0 else retries) + 1
  }

  /** What a run decides before it writes anything. */
  function Decide(audit: seq<Record>, checkpoint: Option<Checkpoint>, req: Request): Decision {
    var e := req.binding.execution;
    if Strip(e) == "" then Stop(BLOCKED)
    else if !req.executable then Stop(BLOCKED)
    else if !req.sandbox then Stop(BLOCKED)
    else if req.admission == REFUSED then Refuse
    else
      match checkpoint
      case None => if Unfinished(audit, e) then Stop(RECOVERY_REQUIRED) else Fresh
      case Some(cp) =>
        if cp.binding != req.binding then Stop(BLOCKED)
        else
          match cp.state
          case VERIFIED => Stop(if HasVerifiedCompletion(audit, e, req.steps) then VERIFIED else RECOVERY_REQUIRED)
          case FAILED => Stop(RECOVERY_REQUIRED)
          case RUNNING =>
            if exists id | id in cp.completed :: id !in VerifiedIds(audit, e) then Stop(RECOVERY_REQUIRED)
            else Resume(VerifiedIds(audit, e))
          case _ => Stop(BLOCKED)
  }

  /** How one step ends, attempt `k` being next. */
  datatype Fate = PASSED | EXHAUSTED

  function StepFate(world: World, step: Step, k: nat, n: nat): Fate
    decreases n - k
  {
    if k >= n || !world.affords(step, k) then EXHAUSTED
    else if world.answer(step, k).success && world.answer(step, k).verified then PASSED
    else StepFate(world, step, k + 1, n)
  }

  /** How a run that is not interrupted ends. */
  function PlanFate(world: World, req: Request, k: nat, completed: set<string>): State
    requires k <= |req.steps|
    decreases |req.steps| - k
  {
    if k == |req.steps| then
      if completed == {} || |completed| < |req.steps| then FAILED else VERIFIED
    else
      var s := req.steps[k];
      if s.id in completed then PlanFate(world, req, k + 1, completed)
      else if world.gate(s) != PASS then BLOCKED
      else if StepFate(world, s, 0, Attempts(req)) == PASSED then PlanFate(world, req, k + 1, completed + {s.id})
      else FAILED
  }

  /** The ids a checkpoint stores: those of the plan that are completed, in plan order, once each. */
  function Stored(steps: seq<Step>, completed: set<string>): seq<string> {
    if steps == [] then []
    else
      var front := Stored(steps[..|steps| - 1], completed);
      var id := steps[|steps| - 1].id;
      if id in completed && id !in front then front + [id] else front
  }

  lemma StoredMembers(steps: seq<Step>, completed: set<string>)
    ensures forall id :: id in Stored(steps, completed) <==> id in completed && exists s :: s in steps && s.id == id
  {
    if steps != [] {
      var front, last := steps[..|steps| - 1], steps[|steps| - 1];
      StoredMembers(front, completed);
      assert steps == front + [last];
    }
  }

  // ------------------------------------------------------ when a run verifies

  function Ids(steps: seq<Step>): set<string> {
    set s | s in steps :: s.id
  }

  /** The step's gate is open and one of its attempts, the first or a retry, is a verified
      success; all attempts up to there can be afforded. */
  ghost predicate Succeeds(world: World, req: Request, s: Step) {
    && world.gate(s) == PASS
    && exists a: nat :: (a == 0 || (a <= req.retries && a <= 2)) && VerifiedAt(world, s, a)
                        && forall b: nat | b <= a :: world.affords(s, b)
  }

  predicate VerifiedAt(world: World, s: Step, a: nat) {
    world.answer(s, a).success && world.answer(s, a).verified
  }

  lemma {:induction false} StepPasses(world: World, s: Step, k: nat, n: nat)
    ensures StepFate(world, s, k, n) == PASSED <==>
            exists a: nat :: k <= a < n && VerifiedAt(world, s, a) && forall b: nat | k <= b <= a :: world.affords(s, b)
    decreases n - k
  {
    if k < n && world.affords(s, k) {
      StepPasses(world, s, k + 1, n);
      if VerifiedAt(world, s, k) {
        assert k <= k < n && VerifiedAt(world, s, k) && forall b: nat | k <= b <= k :: world.affords(s, b);
      }
    }
  }

  lemma SucceedsIs(world: World, req: Request, s: Step)
    ensures Succeeds(world, req, s) <==> world.gate(s) == PASS && StepFate(world, s, 0, Attempts(req)) == PASSED
  {
    hide VerifiedAt;
    StepPasses(world, s, 0, Attempts(req));
  }

  /** The ids accounted for before step `i`, having started at step `k`. */
  function Covered(req: Request, completed: set<string>, k: nat, i: nat): set<string>
    requires k <= i <= |req.steps|
  {
    completed + Ids(req.steps[k..i])
  }

  lemma CoveredStep(req: Request, completed: set<string>, k: nat, i: nat)
    requires k < i <= |req.steps|
    ensures Covered(req, completed, k, i) == Covered(req, completed + {req.steps[k].id}, k + 1, i)
  {
    assert req.steps[k..i] == [req.steps[k]] + req.steps[k + 1..i];
  }

  lemma CoveredNone(req: Request, completed: set<string>, k: nat)
    requires k <= |req.steps|
    ensures Covered(req, completed, k, k) == completed
  {
    assert req.steps[k..k] == [];
  }

  /** Every step from `k` on whose id is not accounted for when its turn comes succeeds. */
  ghost predicate AllSucceed(world: World, req: Request, k: nat, completed: set<string>) {
    forall i | k <= i < |req.steps| && req.steps[i].id !in Covered(req, completed, k, i) ::
        Succeeds(world, req, req.steps[i])
  }

  lemma AllSucceedStep(world: World, req: Request, k: nat, completed: set<string>)
    requires k < |req.steps|
    ensures AllSucceed(world, req, k, completed) <==>
            && (req.steps[k].id !in completed ==> Succeeds(world, req, req.steps[k]))
            && AllSucceed(world, req, k + 1, completed + {req.steps[k].id})
  {
    hide Succeeds, Covered;
    CoveredNone(req, completed, k);
    forall i | k < i < |req.steps| {
      CoveredStep(req, completed, k, i);
    }
  }

  /** An uninterrupted run reports VERIFIED exactly when every step that is not done yet
      passes its gate and succeeds within its attempts, and there are as many distinct
      completed ids as steps. */
  lemma {:induction false} PlanVerified(world: World, req: Request, k: nat, completed: set<string>)
    requires k <= |req.steps|
    ensures var all := Covered(req, completed, k, |req.steps|);
            PlanFate(world, req, k, completed) == VERIFIED <==>
            AllSucceed(world, req, k, completed) && all != {} && |all| >= |req.steps|
    decreases |req.steps| - k
  {
    hide StepFate, Attempts, Covered, Succeeds;
    if k < |req.steps| {
      hide AllSucceed;
      var id := req.steps[k].id;
      PlanVerified(world, req, k + 1, completed + {id});
      AllSucceedStep(world, req, k, completed);
      SucceedsIs(world, req, req.steps[k]);
      CoveredStep(req, completed, k, |req.steps|);
      if id in completed {
        assert completed + {id} == completed;
      }
    } else {
      CoveredNone(req, completed, k);
    }
  }

  lemma {:induction false} IdsBound(steps: seq<Step>)
    ensures |Ids(steps)| <= |steps|
  {
    if steps != [] {
      var front, last := steps[..|steps| - 1], steps[|steps| - 1];
      IdsBound(front);
      assert steps == front + [last];
      assert Ids(steps) == Ids(front) + {last.id};
    }
  }

  lemma IdsRepeat(steps: seq<Step>, i: nat, j: nat)
    requires i < j < |steps| && steps[i].id == steps[j].id
    ensures |Ids(steps)| < |steps|
  {
    var rest := steps[..j] + steps[j + 1..];
    IdsBound(rest);
    assert Ids(steps) == Ids(rest) by {
      assert steps == steps[..j] + [steps[j]] + steps[j + 1..];
      assert rest[i] == steps[i];
      assert steps[i] in rest;
    }
  }

  /** A plan that repeats a step id never verifies: its ids are fewer than its steps. */
  lemma RepeatedIdNeverVerifies(world: World, req: Request, completed: set<string>, i: nat, j: nat)
    requires completed <= Ids(req.steps)
    requires i < j < |req.steps| && req.steps[i].id == req.steps[j].id
    ensures PlanFate(world, req, 0, completed) != VERIFIED
  {
    hide PlanFate, AllSucceed, Ids;
    PlanVerified(world, req, 0, completed);
    IdsRepeat(req.steps, i, j);
    assert req.steps[0..|req.steps|] == req.steps;
    assert Covered(req, completed, 0, |req.steps|) == Ids(req.steps);
  }

  // ---------------------------------------------------------------- histories

  /** What can be observed of the engine, in order. A crash leaves no moment; the
      next run starts with `Boot`. */
  datatype Moment =
    | Boot
    | Log(record: Record)
    | Save(checkpoint: Checkpoint)
    | Issue(execution: string, stepId: string)
    | Return(execution: string, state: State, steps: seq<Step>)

  /** The audit file after `h`. */
  function Logs(h: seq<Moment>): seq<Record> {
    if h == [] then []
    else
      var last := h[|h| - 1];
      if last.Log? then Logs(h[..|h| - 1]) + [last.record] else Logs(h[..|h| - 1])
  }

  /** The checkpoint file after `h`. */
  function LastSaved(h: seq<Moment>): Option<Checkpoint> {
    if h == [] then None
    else
      var last := h[|h| - 1];
      if last.Save? then Some(last.checkpoint) else LastSaved(h[..|h| - 1])
  }

  /** An operation has been issued and its result is not in the audit yet. */
  predicate Pending(h: seq<Moment>) {
    h != [] && h[|h| - 1].Issue?
  }

  /** The protocol: what may come next after `h`. */
  predicate Allowed(h: seq<Moment>, m: Moment) {
    match m
    case Boot => true
    case Log(r) =>
      if Pending(h) then r.event == TOOL_RESULT && h[|h| - 1] == Issue(r.execution, r.stepId)
      else r.event != TOOL_RESULT
    case Save(cp) =>
      && !Pending(h)
      && cp.state in {RUNNING, VERIFIED, FAILED}
      && (LastSaved(h).Some? ==>
            && LastSaved(h).value.state == RUNNING && LastSaved(h).value.binding == cp.binding
            && ("" in LastSaved(h).value.completed ==> "" in cp.completed))
      && forall id | id in cp.completed :: id in EvidenceIds(Logs(h), cp.binding.execution)
    case Issue(e, id) =>
      && !Pending(h)
      && LastSaved(h).Some? && LastSaved(h).value.state == RUNNING && LastSaved(h).value.binding.execution == e
      && id !in VerifiedIds(Logs(h), e) && id !in LastSaved(h).value.completed
    case Return(e, state, steps) =>
      && !Pending(h)
      && (state == VERIFIED ==>
            && LastSaved(h).Some? && LastSaved(h).value.state == VERIFIED
            && forall s | s in steps :: s.id in EvidenceIds(Logs(h), e))
      && (state == FAILED ==> LastSaved(h).Some? && LastSaved(h).value.state == FAILED)
  }

  ghost predicate Lawful(h: seq<Moment>) {
    forall i | 0 <= i < |h| :: Allowed(h[..i], h[i])
  }

  lemma LawfulNext(h: seq<Moment>, m: Moment)
    requires Lawful(h) && Allowed(h, m)
    ensures Lawful(h + [m])
    ensures Logs(h + [m]) == if m.Log? then Logs(h) + [m.record] else Logs(h)
    ensures LastSaved(h + [m]) == if m.Save? then Some(m.checkpoint) else LastSaved(h)
    ensures Pending(h + [m]) <==> m.Issue?
  {
    hide Allowed;
    var g := h + [m];
    assert g[..|h|] == h;
    forall i | 0 <= i < |g| ensures Allowed(g[..i], g[i]) {
      if i < |h| {
        assert g[..i] == h[..i] && g[i] == h[i];
      }
    }
  }

  lemma EvidenceGrows(audit: seq<Record>, r: Record, e: string)
    ensures EvidenceIds(audit + [r], e) == EvidenceIds(audit, e) + if IsEvidence(r, e) then {r.stepId} else {}
  {
  }

  // -------------------------------------------- what every lawful history keeps

  lemma {:induction false} LogsMember(h: seq<Moment>, r: Record)
    ensures r in Logs(h) <==> exists i :: 0 <= i < |h| && h[i] == Log(r)
  {
    if h != [] {
      var front, last := h[..|h| - 1], h[|h| - 1];
      LogsMember(front, r);
      if r in Logs(front) {
        var i :| 0 <= i < |front| && front[i] == Log(r);
        assert h[i] == Log(r);
      }
      if i :| 0 <= i < |h| && h[i] == Log(r) {
        assert i == |h| - 1 || front[i] == Log(r);
      }
    }
  }

  /** Once a verified result of a step is in the audit, its operation is never issued again. */
  lemma NeverReissued(h: seq<Moment>, i: nat, j: nat)
    requires Lawful(h) && i < j < |h|
    requires h[i].Log? && IsEvidence(h[i].record, h[i].record.execution) && h[i].record.stepId != ""
    ensures h[j] != Issue(h[i].record.execution, h[i].record.stepId)
  {
    hide Logs;
    var r := h[i].record;
    assert Allowed(h[..j], h[j]);
    assert h[..j][i] == Log(r);
    LogsMember(h[..j], r);
  }

  /** A step is issued twice only if the first time was cut off by a crash before its
      result was audited, or its result was not a verified success. */
  lemma RepeatWindow(h: seq<Moment>, i: nat, j: nat, e: string, id: string)
    requires Lawful(h) && i < j < |h| && id != ""
    requires h[i] == Issue(e, id) && h[j] == Issue(e, id)
    ensures h[i + 1] == Boot
            || (h[i + 1].Log? && h[i + 1].record.event == TOOL_RESULT && !IsEvidence(h[i + 1].record, e))
  {
    hide Logs;
    assert Allowed(h[..i + 1], h[i + 1]);
    assert h[..i + 1][i] == h[i];
    assert h[i + 1] == Boot || h[i + 1].Log?;
    if h[i + 1].Log? && IsEvidence(h[i + 1].record, e) {
      NeverReissued(h, i + 1, j);
    }
  }

  lemma {:induction false} SavedLast(h: seq<Moment>, k: nat)
    requires k <= |h|
    requires LastSaved(h).Some?
    requires forall i | k <= i < |h| :: !h[i].Save?
    ensures LastSaved(h[..k]) == LastSaved(h)
    decreases |h|
  {
    if k < |h| {
      var front := h[..|h| - 1];
      SavedLast(front, k);
      assert front[..k] == h[..k];
    } else {
      assert h[..k] == h;
    }
  }

  /** Every checkpoint ever saved lists audited steps only. */
  lemma CheckpointBacked(h: seq<Moment>, i: nat, id: string)
    requires Lawful(h) && i < |h| && h[i].Save? && id in h[i].checkpoint.completed
    ensures id in EvidenceIds(Logs(h[..i]), h[i].checkpoint.binding.execution)
  {
    hide Logs;
    assert Allowed(h[..i], h[i]);
  }

  lemma {:induction false} EvidenceKept(h: seq<Moment>, k: nat, e: string)
    requires k <= |h|
    ensures EvidenceIds(Logs(h[..k]), e) <= EvidenceIds(Logs(h), e)
  {
    if k == |h| {
      assert h[..k] == h;
    } else {
      var front := h[..|h| - 1];
      EvidenceKept(front, k, e);
      assert front[..k] == h[..k];
      if h[|h| - 1].Log? {
        EvidenceGrows(Logs(front), h[|h| - 1].record, e);
      }
    }
  }

  lemma {:induction false} SavedSomewhere(h: seq<Moment>) returns (i: nat)
    requires LastSaved(h).Some?
    ensures i < |h| && h[i] == Save(LastSaved(h).value)
  {
    var last := h[|h| - 1];
    if last.Save? {
      i := |h| - 1;
    } else {
      i := SavedSomewhere(h[..|h| - 1]);
    }
  }

  /** The refusal "checkpoint claims completed steps without audit evidence" can only
      be due to an empty step id. */
  lemma RefusalOnlyForEmptyId(h: seq<Moment>, req: Request)
    requires Lawful(h)
    requires LastSaved(h).Some? && LastSaved(h).value.binding == req.binding && LastSaved(h).value.state == RUNNING
    requires Strip(req.binding.execution) != "" && req.executable && req.sandbox && req.admission != REFUSED
    ensures Decide(Logs(h), LastSaved(h), req) ==
            if "" in LastSaved(h).value.completed then Stop(RECOVERY_REQUIRED)
            else Resume(VerifiedIds(Logs(h), req.binding.execution))
  {
    hide Logs, Strip, Allowed;
    var cp, e := LastSaved(h).value, req.binding.execution;
    var i := SavedSomewhere(h);
    forall id | id in cp.completed ensures id in EvidenceIds(Logs(h), e) {
      CheckpointBacked(h, i, id);
      EvidenceKept(h, i, e);
    }
  }

  lemma {:induction false} EndedStays(h: seq<Moment>, k: nat)
    requires Lawful(h) && k <= |h|
    requires LastSaved(h[..k]).Some? && LastSaved(h[..k]).value.state != RUNNING
    ensures LastSaved(h) == LastSaved(h[..k])
    decreases |h|
  {
    hide Logs, Lawful, EvidenceIds;
    if k == |h| {
      assert h[..k] == h;
    } else {
      var front := h[..|h| - 1];
      assert front[..k] == h[..k];
      LawfulPrefix(h, |h| - 1);
      EndedStays(front, k);
      LawfulAt(h, |h| - 1);
    }
  }

  /** After a verified or failed result no later run issues an operation or replaces
      the checkpoint. */
  lemma NothingAfterTheEnd(h: seq<Moment>, i: nat, j: nat)
    requires Lawful(h) && i < j < |h|
    requires h[i].Return? && h[i].state in {VERIFIED, FAILED}
    ensures !h[j].Issue? && !h[j].Save?
  {
    hide Logs;
    assert Allowed(h[..i], h[i]);
    LawfulPrefix(h, j);
    assert h[..j][..i] == h[..i];
    EndedStays(h[..j], i);
    assert Allowed(h[..j], h[j]);
  }

  /** A verified result rests on audited evidence for every step of its plan. */
  lemma VerifiedMeansEvidence(h: seq<Moment>, i: nat, s: Step)
    requires Lawful(h) && i < |h| && h[i].Return? && h[i].state == VERIFIED && s in h[i].steps
    ensures exists k :: 0 <= k < i && h[k].Log? && IsEvidence(h[k].record, h[i].execution) && h[k].record.stepId == s.id
  {
    hide Logs, LastSaved;
    assert Allowed(h[..i], h[i]);
    var r :| r in Logs(h[..i]) && IsEvidence(r, h[i].execution) && r.stepId == s.id;
    LogsMember(h[..i], r);
    var k :| 0 <= k < i && h[..i][k] == Log(r);
    assert h[k] == Log(r);
  }

  /** Evidence is honest: each audited result stands right behind the operation it reports. */
  lemma EvidenceFollowsIssue(h: seq<Moment>, i: nat)
    requires Lawful(h) && i < |h| && h[i].Log? && h[i].record.event == TOOL_RESULT
    ensures i > 0 && h[i - 1] == Issue(h[i].record.execution, h[i].record.stepId)
  {
    assert Allowed(h[..i], h[i]);
  }

  lemma {:induction false} EmptyIdStaysSaved(h: seq<Moment>, k: nat, j: nat)
    requires Lawful(h) && k < j <= |h| && h[k].Save? && "" in h[k].checkpoint.completed
    ensures LastSaved(h[..j]).Some? && "" in LastSaved(h[..j]).value.completed
    ensures LastSaved(h[..j]).value.binding == h[k].checkpoint.binding
  {
    hide Logs, Lawful, EvidenceIds, Pending;
    assert h[..j][..j - 1] == h[..j - 1];
    if k < j - 1 {
      EmptyIdStaysSaved(h, k, j - 1);
      LawfulAt(h, j - 1);
    }
  }

  /** A step with the empty id is never issued again either, once a checkpoint lists it. */
  lemma EmptyIdSealed(h: seq<Moment>, k: nat, j: nat)
    requires Lawful(h) && k < j < |h| && h[k].Save? && "" in h[k].checkpoint.completed
    ensures h[j] != Issue(h[k].checkpoint.binding.execution, "")
  {
    hide Logs, EvidenceIds, LastSaved;
    EmptyIdStaysSaved(h, k, j);
    LawfulAt(h, j);
  }

  lemma {:induction false} NoEvidenceBeforeCheckpoint(h: seq<Moment>, e: string)
    requires Lawful(h)
    ensures LastSaved(h).Some? || EvidenceIds(Logs(h), e) == {}
  {
    hide Lawful, EvidenceIds;
    if h == [] {
      NoEvidence(e);
    } else {
      var front := h[..|h| - 1];
      LawfulPrefix(h, |h| - 1);
      NoEvidenceBeforeCheckpoint(front, e);
      if h[|h| - 1].Log? {
        EvidenceGrows(Logs(front), h[|h| - 1].record, e);
        if h[|h| - 1].record.event == TOOL_RESULT { ResultHasCheckpoint(h, |h| - 1); }
      }
    }
  }

  lemma NoEvidence(e: string)
    ensures EvidenceIds([], e) == {}
  {
  }

  lemma ResultHasCheckpoint(h: seq<Moment>, i: nat)
    requires Lawful(h) && i < |h| && h[i].Log? && h[i].record.event == TOOL_RESULT
    ensures LastSaved(h[..i]).Some?
  {
    hide Logs;
    EvidenceFollowsIssue(h, i);
    assert Allowed(h[..i - 1], h[i - 1]);
    assert h[..i][..i - 1] == h[..i - 1];
  }

  lemma LawfulAt(h: seq<Moment>, i: nat)
    requires Lawful(h) && i < |h|
    ensures Allowed(h[..i], h[i])
  {
  }

  lemma LawfulPrefix(h: seq<Moment>, k: nat)
    requires Lawful(h) && k <= |h|
    ensures Lawful(h[..k])
  {
    forall i | 0 <= i < k ensures Allowed(h[..k][..i], h[..k][i]) {
      assert h[..k][..i] == h[..i];
    }
  }
}
