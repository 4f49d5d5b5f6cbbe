/** The approval-to-execution bridge for one coding run, cut off anywhere. */
module CodingBridge {
  import opened Text
  import opened ActionLifecycle

  datatype RunState = READY | RUN_APPROVED | EXECUTING | RUN_EXECUTED | RUN_FAILED | REJECTED | INVALIDATED

  function RunTargets(s: RunState): set<RunState> {
    match s
    case READY => {RUN_APPROVED, REJECTED, INVALIDATED}
    case RUN_APPROVED => {EXECUTING, REJECTED, INVALIDATED}
    case EXECUTING => {RUN_EXECUTED, RUN_FAILED}
    case _ => {}
  }

  /** A run is withdrawn only before it executes, and ends where it is executed, failed or withdrawn. */
  lemma RunsOneWay(s: RunState, t: RunState)
    ensures t in RunTargets(s) <==>
            || (s == READY && t == RUN_APPROVED)
            || (s == RUN_APPROVED && t == EXECUTING)
            || ((s == READY || s == RUN_APPROVED) && (t == REJECTED || t == INVALIDATED))
            || (s == EXECUTING && (t == RUN_EXECUTED || t == RUN_FAILED))
  {
  }

  predicate Started(s: RunState) {
    s == EXECUTING || s == RUN_EXECUTED || s == RUN_FAILED
  }

  /** The durable state of one run: its record, its execution marker, its action's
      trusted ledger state (PROPOSED when there is none) and the worker calls made. */
  datatype Status = Status(run: Option<RunState>, marker: bool, life: Life, calls: nat)

  const NEW := Status(None, false, PROPOSED, 0)

  /** One durable step. */
  datatype Step = Create | SetRun(run: RunState) | Mark | SetLife(life: Life) | Call

  function Apply(s: Status, w: Step): Status {
    match w
    case Create => s.(run := Some(READY))
    case SetRun(t) => s.(run := Some(t))
    case Mark => s.(marker := true)
    case SetLife(l) => s.(life := l)
    case Call => s.(calls := s.calls + 1)
  }

  function Play(s: Status, steps: seq<Step>): Status
    decreases |steps|
  {
    if steps == [] then s else Play(Apply(s, steps[0]), steps[1..])
  }

  // ------------------------------------------------------------- the operations

  /** An operation of the bridge, with what the outside answers: whether the queued action
      matches the stored run, whether the checks before the claim pass, and whether the
      worker opens the draft pull request. */
  datatype Operation =
    | PersistReady
    | MarkApproved(matches: bool)
    | MarkRejected
    | Execute(checks: bool, worker: bool)
    | RecoverStale

  /** `_block_lifecycle` */
  function BlockSteps(life: Life): seq<Step> {
    if life in {POLICY_CHECKED, APPROVED, CLAIMED} then [SetLife(BLOCKED)] else []
  }

  const GATES := [SetLife(VALIDATED), SetLife(TESTED), SetLife(SECURED), SetLife(POLICY_CHECKED)]

  const BEGIN := [Mark, SetRun(EXECUTING), SetLife(CLAIMED), Call]

  /** What is written of the worker's result. */
  function Outcome(worker: bool): seq<Step> {
    if worker then [SetRun(RUN_EXECUTED), SetLife(EXECUTED)] else [SetRun(RUN_FAILED), SetLife(BLOCKED)]
  }

  /** The durable steps of an operation that is not cut off. */
  function Steps(s: Status, op: Operation): seq<Step> {
    match op
    case PersistReady =>
      if s.run.Some? then []
      else if s.life == PROPOSED then [Create] + GATES
      else [Create]
    case MarkApproved(matches) =>
      if s.run.None? || s.life != POLICY_CHECKED || !matches || RUN_APPROVED !in RunTargets(s.run.value) then []
      else [SetRun(RUN_APPROVED), SetLife(APPROVED)]
    case MarkRejected =>
      if s.run.None? || REJECTED !in RunTargets(s.run.value) then []
      else if s.life in {POLICY_CHECKED, APPROVED} then [SetRun(REJECTED), SetLife(BLOCKED)]
      else [SetRun(REJECTED)]
    case Execute(checks, worker) =>
      if s.run != Some(RUN_APPROVED) then []
      else if !checks || s.life != APPROVED then [SetRun(INVALIDATED)] + BlockSteps(s.life)
      else if s.marker then []
      else BEGIN + Outcome(worker)
    case RecoverStale =>
      if s.life in {CLAIMED, EXECUTED} then [SetLife(BLOCKED)] else []
  }

  /** Whether an operation that is not cut off reports success. */
  function Succeeds(s: Status, op: Operation): bool {
    match op
    case PersistReady => s.run.None? && s.life in {PROPOSED, POLICY_CHECKED}
    case MarkApproved(_) => Steps(s, op) != []
    case MarkRejected => Steps(s, op) != [] && s.life in {POLICY_CHECKED, APPROVED, BLOCKED}
    case Execute(checks, worker) => worker && checks && s.run == Some(RUN_APPROVED) && s.life == APPROVED && !s.marker
    case RecoverStale => Steps(s, op) != []
  }

  function Cut<T>(s: seq<T>, n: nat): seq<T> {
    if n < |s| then s[..n] else s
  }

  /** The stores after an operation whose process dies after `moments` durable steps. */
  function After(s: Status, op: Operation, moments: nat): Status {
    Play(s, Cut(Steps(s, op), moments))
  }

  datatype Effect = Taken | Died
  {
    predicate IsFailure() { Died? }
    function PropagateFailure<T>(): Run<T> { Crashed }
  }

  datatype Run<T> = Done(value: T) | Crashed
  {
    predicate IsFailure() { Crashed? }
    function PropagateFailure<U>(): Run<U> { Crashed }
    function Extract(): T requires Done? { value }
  }

  lemma {:induction false} PlayAppend(s: Status, a: seq<Step>, w: Step)
    ensures Play(s, a + [w]) == Apply(Play(s, a), w)
    decreases |a|
  {
    if a == [] {
      assert [w][1..] == [];
      assert a + [w] == [w];
    } else {
      assert (a + [w])[1..] == a[1..] + [w];
      PlayAppend(Apply(s, a[0]), a[1..], w);
    }
  }

  class Bridge {
    var run: Option<RunState>
    var marker: bool
    var life: Life
    var calls: nat
    /** Durable steps left until the process dies; set anew for each operation. */
    var left: nat
    /** Where the operation started, the steps it has taken and those it still has to take. */
    ghost var start: Status
    ghost var taken: seq<Step>
    ghost var ahead: seq<Step>

    function Now(): Status
      reads this
    {
      Status(run, marker, life, calls)
    }

    constructor ()
      ensures Now() == NEW
    {
      run, marker, life, calls, left := None, false, PROPOSED, 0, 0;
    }

    ghost predicate Under(op: Operation, moments: nat, rest: seq<Step>)
      reads this
    {
      && Now() == Play(start, taken)
      && taken + ahead == Steps(start, op)
      && |taken| + left == moments
      && ahead == rest
    }

    method Begin(ghost op: Operation, moments: nat)
      modifies this
      ensures Now() == old(Now()) == start && left == moments && Under(op, moments, Steps(Now(), op))
    {
      left := moments;
      start, taken, ahead := Now(), [], Steps(Now(), op);
    }

    method Take(w: Step, ghost op: Operation, ghost moments: nat, ghost rest: seq<Step>) returns (e: Effect)
      requires Under(op, moments, [w] + rest)
      modifies this
      ensures start == old(start)
      ensures e.Taken? ==> Now() == Apply(old(Now()), w) && Under(op, moments, rest)
      ensures e.Died? ==> Stopped(op, moments)
    {
      hide Steps;
      if left == 0 {
        assert (taken + ahead)[..|taken|] == taken;
        return Died;
      }
      left := left - 1;
      match w {
        case Create => run := Some(READY);
        case SetRun(t) => run := Some(t);
        case Mark => marker := true;
        case SetLife(l) => life := l;
        case Call => calls := calls + 1;
      }
      PlayAppend(start, taken, w);
      assert (taken + [w]) + rest == taken + ([w] + rest);
      taken, ahead := taken + [w], rest;
      return Taken;
    }

    /** The process died behind the steps it was allowed. */
    ghost predicate Stopped(op: Operation, moments: nat)
      reads this
    {
      moments < |Steps(start, op)| && Now() == After(start, op, moments)
    }

    lemma Finished(op: Operation, moments: nat)
      requires Under(op, moments, [])
      ensures moments >= |Steps(start, op)| && Now() == After(start, op, moments)
    {
      hide Steps;
      assert taken == Steps(start, op);
    }

    /** `persist_ready_coding_run`: the record first, then the four gate transitions. */
    method PersistReadyRun(moments: nat) returns (r: Run<bool>)
      modifies this
      ensures Now() == After(old(Now()), PersistReady, moments)
      ensures r.Crashed? <==> moments < |Steps(old(Now()), PersistReady)|
      ensures r.Done? ==> (r.value <==> old(run).None? && old(life) in {PROPOSED, POLICY_CHECKED})
    {
      hide Play, Under, After;
      ghost var op := PersistReady;
      Begin(op, moments);
      if run.Some? {
        Finished(op, moments);
        return Done(false);
      }
      if life != PROPOSED {
        assert [Create] == [Create] + [];
        :- Take(Create, op, moments, []);
        Finished(op, moments);
        return Done(life == POLICY_CHECKED);
      }
      :- Take(Create, op, moments, GATES);
      assert GATES == [GATES[0]] + GATES[1..];
      :- Take(SetLife(VALIDATED), op, moments, GATES[1..]);
      assert GATES[1..] == [GATES[1]] + GATES[2..];
      :- Take(SetLife(TESTED), op, moments, GATES[2..]);
      assert GATES[2..] == [GATES[2]] + [GATES[3]];
      :- Take(SetLife(SECURED), op, moments, [GATES[3]]);
      assert [GATES[3]] == [GATES[3]] + [];
      :- Take(SetLife(POLICY_CHECKED), op, moments, []);
      Finished(op, moments);
      return Done(true);
    }

    method MarkRunApproved(matches: bool, moments: nat) returns (r: Run<bool>)
      modifies this
      ensures Now() == After(old(Now()), MarkApproved(matches), moments)
      ensures r.Crashed? <==> moments < |Steps(old(Now()), MarkApproved(matches))|
      ensures r.Done? ==> (r.value <==> old(run) == Some(READY) && old(life) == POLICY_CHECKED && matches)
    {
      hide Play, Under, After;
      ghost var op := MarkApproved(matches);
      Begin(op, moments);
      if run.None? || life != POLICY_CHECKED || !matches || RUN_APPROVED !in RunTargets(run.value) {
        Finished(op, moments);
        return Done(false);
      }
      assert Steps(start, op) == [SetRun(RUN_APPROVED)] + [SetLife(APPROVED)];
      :- Take(SetRun(RUN_APPROVED), op, moments, [SetLife(APPROVED)]);
      assert [SetLife(APPROVED)] == [SetLife(APPROVED)] + [];
      :- Take(SetLife(APPROVED), op, moments, []);
      Finished(op, moments);
      return Done(true);
    }

    method MarkRunRejected(moments: nat) returns (r: Run<bool>)
      modifies this
      ensures Now() == After(old(Now()), MarkRejected, moments)
      ensures r.Crashed? <==> moments < |Steps(old(Now()), MarkRejected)|
      ensures r.Done? ==>
              (r.value <==> && old(run) in {Some(READY), Some(RUN_APPROVED)}
                            && old(life) in {POLICY_CHECKED, APPROVED, BLOCKED})
    {
      hide Play, Under, After;
      ghost var op := MarkRejected;
      Begin(op, moments);
      if run.None? || REJECTED !in RunTargets(run.value) {
        Finished(op, moments);
        return Done(false);
      }
      ghost var rest := if life in {POLICY_CHECKED, APPROVED} then [SetLife(BLOCKED)] else [];
      assert Steps(start, op) == [SetRun(REJECTED)] + rest;
      :- Take(SetRun(REJECTED), op, moments, rest);
      if life in {POLICY_CHECKED, APPROVED} {
        assert [SetLife(BLOCKED)] == [SetLife(BLOCKED)] + [];
        :- Take(SetLife(BLOCKED), op, moments, []);
        Finished(op, moments);
        return Done(true);
      }
      Finished(op, moments);
      return Done(life == BLOCKED);
    }

    method BlockLifecycle(ghost op: Operation, ghost moments: nat) returns (e: Effect)
      requires Under(op, moments, BlockSteps(life))
      modifies this
      ensures start == old(start)
      ensures e.Taken? ==> Under(op, moments, [])
      ensures e.Died? ==> Stopped(op, moments)
    {
      hide Play, Under, Stopped;
      if life in {POLICY_CHECKED, APPROVED, CLAIMED} {
        assert [SetLife(BLOCKED)] == [SetLife(BLOCKED)] + [];
        e := Take(SetLife(BLOCKED), op, moments, []);
      } else {
        e := Taken;
      }
    }

    method ExecutePersistedApprovedRun(checks: bool, worker: bool, moments: nat) returns (r: Run<bool>)
      modifies this
      ensures Now() == After(old(Now()), Execute(checks, worker), moments)
      ensures r.Crashed? <==> moments < |Steps(old(Now()), Execute(checks, worker))|
      ensures r.Done? ==>
              (r.value <==> worker && checks && old(run) == Some(RUN_APPROVED) && old(life) == APPROVED && !old(marker))
      ensures old(run) == Some(RUN_APPROVED) && old(life) == APPROVED && !old(marker) && checks ==>
                && (moments == 5 ==> Now() == Status(Some(if worker then RUN_EXECUTED else RUN_FAILED), true, CLAIMED,
                                                     old(calls) + 1))
                && (moments >= 6 ==> && r == Done(worker)
                                     && run == Some(if worker then RUN_EXECUTED else RUN_FAILED)
                                     && life == (if worker then EXECUTED else BLOCKED)
                                     && marker && calls == old(calls) + 1)
    {
      ExecuteEffect(Now(), checks, worker, moments);
      hide Play, Under, After;
      ghost var op := Execute(checks, worker);
      Begin(op, moments);
      if run != Some(RUN_APPROVED) {
        Finished(op, moments);
        return Done(false);
      }
      if !checks || life != APPROVED {
        :- Take(SetRun(INVALIDATED), op, moments, BlockSteps(life));
        :- BlockLifecycle(op, moments);
        Finished(op, moments);
        return Done(false);
      }
      if marker {
        Finished(op, moments);
        return Done(false);
      }
      :- BeginExecution(op, moments, Outcome(worker));
      r := RecordOutcome(op, worker, moments);
    }

    /** The exclusive marker, the state change, the ledger claim and the worker call. */
    method BeginExecution(ghost op: Operation, ghost moments: nat, ghost rest: seq<Step>) returns (e: Effect)
      requires Under(op, moments, BEGIN + rest)
      modifies this
      ensures start == old(start)
      ensures e.Taken? ==> Under(op, moments, rest) && life == CLAIMED
      ensures e.Died? ==> Stopped(op, moments)
    {
      hide Play, Under, Stopped;
      assert BEGIN + rest == [Mark] + (BEGIN[1..] + rest);
      e := Take(Mark, op, moments, BEGIN[1..] + rest);
      if e.Taken? {
        assert BEGIN[1..] + rest == [SetRun(EXECUTING)] + (BEGIN[2..] + rest);
        e := Take(SetRun(EXECUTING), op, moments, BEGIN[2..] + rest);
      }
      if e.Taken? {
        assert BEGIN[2..] + rest == [SetLife(CLAIMED)] + ([Call] + rest);
        e := Take(SetLife(CLAIMED), op, moments, [Call] + rest);
      }
      if e.Taken? { e := Take(Call, op, moments, rest); }
    }

    /** What is recorded of the worker's result. */
    method RecordOutcome(ghost op: Operation, worker: bool, ghost moments: nat) returns (r: Run<bool>)
      requires Under(op, moments, Outcome(worker)) && life == CLAIMED
      modifies this
      ensures start == old(start)
      ensures r.Done? ==> r.value == worker && moments >= |Steps(start, op)| && Now() == After(start, op, moments)
      ensures r.Crashed? ==> Stopped(op, moments)
    {
      hide Play, Under, Stopped, After;
      if !worker {
        assert Outcome(worker) == [SetRun(RUN_FAILED)] + [SetLife(BLOCKED)];
        :- Take(SetRun(RUN_FAILED), op, moments, [SetLife(BLOCKED)]);
        :- BlockLifecycle(op, moments);
        Finished(op, moments);
        return Done(false);
      }
      assert Outcome(worker) == [SetRun(RUN_EXECUTED)] + [SetLife(EXECUTED)];
      :- Take(SetRun(RUN_EXECUTED), op, moments, [SetLife(EXECUTED)]);
      assert [SetLife(EXECUTED)] == [SetLife(EXECUTED)] + [];
      :- Take(SetLife(EXECUTED), op, moments, []);
      Finished(op, moments);
      return Done(true);
    }

    /** `recover_stale_execution` on the run's action. */
    method RecoverStaleRun(moments: nat) returns (r: Run<bool>)
      modifies this
      ensures Now() == After(old(Now()), RecoverStale, moments)
      ensures r.Crashed? <==> moments < |Steps(old(Now()), RecoverStale)|
      ensures r.Done? ==> (r.value <==> old(life) in {CLAIMED, EXECUTED})
    {
      hide Play, Under, After;
      ghost var op := RecoverStale;
      Begin(op, moments);
      if life in {CLAIMED, EXECUTED} {
        assert [SetLife(BLOCKED)] == [SetLife(BLOCKED)] + [];
        :- Take(SetLife(BLOCKED), op, moments, []);
        Finished(op, moments);
        return Done(true);
      }
      Finished(op, moments);
      return Done(false);
    }
  }

  // ----------------------------------------------------------- whole histories

  /** An operation and the durable steps its process lives for. */
  datatype Attempt = Attempt(op: Operation, moments: nat)

  /** The stores after operations one behind the other, each cut off where it says. */
  function History(s: Status, attempts: seq<Attempt>): Status
    decreases |attempts|
  {
    if attempts == [] then s
    else
      var last := attempts[|attempts| - 1];
      After(History(s, attempts[..|attempts| - 1]), last.op, last.moments)
  }

  /** What every history keeps. */
  predicate Consistent(s: Status) {
    && (s.run.Some? && Started(s.run.value) ==> s.marker)
    && (s.life == CLAIMED ==> s.run.Some? && Started(s.run.value))
    && (s.life == EXECUTED ==> s.run == Some(RUN_EXECUTED))
    && s.calls <= 1
    && (s.calls == 1 ==> s.run.Some? && Started(s.run.value))
  }

  /** The stores are consistent before and after each of these steps. */
  predicate Steady(s: Status, steps: seq<Step>)
    decreases |steps|
  {
    Consistent(s) && (steps != [] ==> Steady(Apply(s, steps[0]), steps[1..]))
  }

  lemma SteadyCons(s: Status, w: Step, rest: seq<Step>)
    requires Consistent(s) && Steady(Apply(s, w), rest)
    ensures Steady(s, [w] + rest)
  {
    assert ([w] + rest)[1..] == rest;
  }

  lemma SteadyOne(s: Status, w: Step)
    requires Consistent(s) && Consistent(Apply(s, w))
    ensures Steady(s, [w])
  {
    assert [w][1..] == [];
  }

  lemma SteadyTwo(s: Status, w: Step, x: Step)
    requires Consistent(s) && Consistent(Apply(s, w)) && Consistent(Apply(Apply(s, w), x))
    ensures Steady(s, [w, x])
  {
    SteadyOne(Apply(s, w), x);
    assert [w, x] == [w] + [x];
    SteadyCons(s, w, [x]);
  }

  lemma {:induction false} SteadyCut(s: Status, steps: seq<Step>, n: nat)
    requires Steady(s, steps)
    ensures Consistent(Play(s, Cut(steps, n)))
    decreases |steps|
  {
    hide Consistent, Apply;
    if steps != [] && n > 0 {
      assert Cut(steps, n)[1..] == Cut(steps[1..], n - 1);
      SteadyCut(Apply(s, steps[0]), steps[1..], n - 1);
    }
  }

  lemma GatesSteady(s: Status)
    requires Consistent(s) && s.life == PROPOSED
    ensures Steady(s, GATES)
  {
    hide Steady;
    var t := s.(life := TESTED);
    SteadyTwo(t, SetLife(SECURED), SetLife(POLICY_CHECKED));
    assert GATES == [SetLife(VALIDATED)] + ([SetLife(TESTED)] + [SetLife(SECURED), SetLife(POLICY_CHECKED)]);
    SteadyCons(s.(life := VALIDATED), SetLife(TESTED), [SetLife(SECURED), SetLife(POLICY_CHECKED)]);
    SteadyCons(s, SetLife(VALIDATED), [SetLife(TESTED)] + [SetLife(SECURED), SetLife(POLICY_CHECKED)]);
  }

  lemma PersistSteady(s: Status)
    requires Consistent(s)
    ensures Steady(s, Steps(s, PersistReady))
  {
    hide Steady;
    if s.run.Some? {
      NothingSteady(s);
    } else if s.life == PROPOSED {
      GatesSteady(s.(run := Some(READY)));
      SteadyCons(s, Create, GATES);
    } else {
      SteadyOne(s, Create);
    }
  }

  lemma NothingSteady(s: Status)
    requires Consistent(s)
    ensures Steady(s, [])
  {
  }

  lemma ApproveRejectSteady(s: Status, op: Operation)
    requires Consistent(s) && (op.MarkApproved? || op == MarkRejected || op == RecoverStale)
    ensures Steady(s, Steps(s, op))
  {
    hide Steady;
    var steps := Steps(s, op);
    if steps == [] {
      NothingSteady(s);
    } else if |steps| == 1 {
      assert steps == [steps[0]];
      SteadyOne(s, steps[0]);
    } else {
      assert steps == [steps[0], steps[1]];
      SteadyTwo(s, steps[0], steps[1]);
    }
  }

  /** The claim and the worker call: it is the marker that makes the call the first. */
  lemma BeginSteady(s: Status, worker: bool)
    requires Consistent(s) && s.run == Some(RUN_APPROVED) && s.life == APPROVED && !s.marker
    ensures Steady(s, BEGIN + Outcome(worker))
  {
    hide Steady;
    var out := Outcome(worker);
    var called := Status(Some(EXECUTING), true, CLAIMED, 1);
    SteadyTwo(called, out[0], out[1]);
    assert out == [out[0], out[1]];
    SteadyCons(called.(calls := 0), Call, out);
    SteadyCons(called.(calls := 0, life := APPROVED), SetLife(CLAIMED), [Call] + out);
    SteadyCons(s.(marker := true), SetRun(EXECUTING), [SetLife(CLAIMED)] + ([Call] + out));
    SteadyCons(s, Mark, [SetRun(EXECUTING)] + ([SetLife(CLAIMED)] + ([Call] + out)));
    assert BEGIN + out == [Mark] + ([SetRun(EXECUTING)] + ([SetLife(CLAIMED)] + ([Call] + out)));
  }

  lemma ExecuteSteady(s: Status, checks: bool, worker: bool)
    requires Consistent(s)
    ensures Steady(s, Steps(s, Execute(checks, worker)))
  {
    hide Steady, BEGIN, Outcome;
    if s.run != Some(RUN_APPROVED) || (checks && s.life == APPROVED && s.marker) {
      NothingSteady(s);
    } else if !checks || s.life != APPROVED {
      var t := s.(run := Some(INVALIDATED));
      if BlockSteps(s.life) == [] {
        NothingSteady(t);
      } else {
        SteadyOne(t, SetLife(BLOCKED));
      }
      SteadyCons(s, SetRun(INVALIDATED), BlockSteps(s.life));
    } else {
      BeginSteady(s, worker);
    }
  }

  lemma OperationKeeps(s: Status, op: Operation, moments: nat)
    requires Consistent(s)
    ensures Consistent(After(s, op, moments))
  {
    hide Consistent, Steps, Steady;
    match op {
      case PersistReady => PersistSteady(s);
      case Execute(checks, worker) => ExecuteSteady(s, checks, worker);
      case _ => ApproveRejectSteady(s, op);
    }
    SteadyCut(s, Steps(s, op), moments);
  }

  /** However the operations follow each other and wherever each is cut off, a CLAIMED
      action has its marker and a started run, an EXECUTED action an executed run, and the
      worker was called at most once. */
  lemma {:induction false} EveryHistory(attempts: seq<Attempt>)
    ensures var s := History(NEW, attempts);
            && Consistent(s)
            && (s.life == CLAIMED ==> s.marker)
    decreases |attempts|
  {
    if attempts != [] {
      hide After;
      var last := attempts[|attempts| - 1];
      EveryHistory(attempts[..|attempts| - 1]);
      OperationKeeps(History(NEW, attempts[..|attempts| - 1]), last.op, last.moments);
    }
  }

  // -------------------------------------------------- what the stores never refuse

  /** What the transition tables and the exclusive files ask of a step. */
  predicate Admitted(s: Status, w: Step) {
    match w
    case Create => s.run.None?
    case SetRun(t) => s.run.Some? && t in RunTargets(s.run.value)
    case Mark => !s.marker
    case SetLife(l) => CanTransition(s.life, l)
    case Call => true
  }

  predicate AllAdmitted(s: Status, steps: seq<Step>)
    decreases |steps|
  {
    steps != [] ==> Admitted(s, steps[0]) && AllAdmitted(Apply(s, steps[0]), steps[1..])
  }

  lemma AdmittedCons(s: Status, w: Step, rest: seq<Step>)
    requires Admitted(s, w) && AllAdmitted(Apply(s, w), rest)
    ensures AllAdmitted(s, [w] + rest)
  {
    assert ([w] + rest)[1..] == rest;
  }

  lemma AdmittedTwo(s: Status, w: Step, x: Step)
    requires Admitted(s, w) && Admitted(Apply(s, w), x)
    ensures AllAdmitted(s, [w, x])
  {
    assert [w, x][1..] == [x];
    assert [x][1..] == [];
  }

  lemma AdmittedOne(s: Status, w: Step)
    requires Admitted(s, w)
    ensures AllAdmitted(s, [w])
  {
    assert [w][1..] == [];
  }

  lemma GatesAdmitted(s: Status)
    requires s.life == PROPOSED
    ensures AllAdmitted(s, GATES)
  {
    hide AllAdmitted;
    AdmittedTwo(s.(life := TESTED), SetLife(SECURED), SetLife(POLICY_CHECKED));
    assert GATES == [SetLife(VALIDATED)] + ([SetLife(TESTED)] + [SetLife(SECURED), SetLife(POLICY_CHECKED)]);
    AdmittedCons(s.(life := VALIDATED), SetLife(TESTED), [SetLife(SECURED), SetLife(POLICY_CHECKED)]);
    AdmittedCons(s, SetLife(VALIDATED), [SetLife(TESTED)] + [SetLife(SECURED), SetLife(POLICY_CHECKED)]);
  }

  lemma BeginAdmitted(s: Status, worker: bool)
    requires s.run == Some(RUN_APPROVED) && s.life == APPROVED && !s.marker
    ensures AllAdmitted(s, BEGIN + Outcome(worker))
  {
    hide AllAdmitted;
    var out := Outcome(worker);
    var called := Status(Some(EXECUTING), true, CLAIMED, s.calls + 1);
    AdmittedTwo(called, out[0], out[1]);
    assert out == [out[0], out[1]];
    AdmittedCons(called.(calls := s.calls), Call, out);
    AdmittedCons(called.(calls := s.calls, life := APPROVED), SetLife(CLAIMED), [Call] + out);
    AdmittedCons(s.(marker := true), SetRun(EXECUTING), [SetLife(CLAIMED)] + ([Call] + out));
    AdmittedCons(s, Mark, [SetRun(EXECUTING)] + ([SetLife(CLAIMED)] + ([Call] + out)));
    assert BEGIN + out == [Mark] + ([SetRun(EXECUTING)] + ([SetLife(CLAIMED)] + ([Call] + out)));
  }

  /** From any state, no step that an operation's own checks let through is turned down by
      the transition tables, the record file or the marker file. */
  lemma NothingTurnedDown(s: Status, op: Operation)
    ensures AllAdmitted(s, Steps(s, op))
  {
    hide AllAdmitted;
    var steps := Steps(s, op);
    if steps == [] {
      NoneAdmitted(s);
    } else if |steps| == 1 {
      assert steps == [steps[0]];
      AdmittedOne(s, steps[0]);
    } else if |steps| == 2 {
      assert steps == [steps[0], steps[1]];
      AdmittedTwo(s, steps[0], steps[1]);
    } else if op == PersistReady {
      GatesAdmitted(s.(run := Some(READY)));
      AdmittedCons(s, Create, GATES);
    } else {
      BeginAdmitted(s, op.worker);
    }
  }

  lemma NoneAdmitted(s: Status)
    ensures AllAdmitted(s, [])
  {
  }

  // ------------------------------------------------------------- the worker call

  function Calls(steps: seq<Step>): nat {
    if steps == [] then 0 else (if steps[0] == Call then 1 else 0) + Calls(steps[1..])
  }

  lemma {:induction false} PlayCalls(s: Status, steps: seq<Step>)
    ensures Play(s, steps).calls == s.calls + Calls(steps)
    decreases |steps|
  {
    if steps != [] { PlayCalls(Apply(s, steps[0]), steps[1..]); }
  }

  lemma {:induction false} NoCalls(steps: seq<Step>)
    requires Call !in steps
    ensures Calls(steps) == 0
  {
    if steps != [] { NoCalls(steps[1..]); }
  }

  lemma OneCall(before: seq<Step>, after: seq<Step>)
    requires Call !in before && Call !in after
    ensures Calls(before + ([Call] + after)) == 1
    decreases |before|
  {
    if before == [] {
      assert [] + ([Call] + after) == [Call] + after;
      assert ([Call] + after)[1..] == after;
      NoCalls(after);
    } else {
      assert (before + ([Call] + after))[1..] == before[1..] + ([Call] + after);
      OneCall(before[1..], after);
    }
  }

  predicate Callable(s: Status, op: Operation) {
    op.Execute? && op.checks && s.run == Some(RUN_APPROVED) && s.life == APPROVED && !s.marker
  }

  /** An operation calls the worker exactly when it executes an approved run with passing
      checks, an approved action and no marker, and lives for four durable steps. */
  lemma WorkerCalledExactlyWhen(s: Status, op: Operation, moments: nat)
    ensures After(s, op, moments).calls == s.calls + if Callable(s, op) && moments >= 4 then 1 else 0
  {
    hide Play, Apply, Calls;
    var steps := Cut(Steps(s, op), moments);
    PlayCalls(s, steps);
    if Callable(s, op) && moments >= 4 {
      var after := Cut(Outcome(op.worker), moments - 4);
      assert steps == BEGIN[..3] + ([Call] + after);
      OneCall(BEGIN[..3], after);
    } else {
      assert Call !in steps;
      NoCalls(steps);
    }
  }

  /** Once the marker exists, no sequence of operations calls the worker again. */
  lemma {:induction false} MarkerEndsCalls(s: Status, attempts: seq<Attempt>)
    requires s.marker
    ensures var t := History(s, attempts); t.marker && t.calls == s.calls
    decreases |attempts|
  {
    if attempts != [] {
      hide After, Callable;
      var front, last := attempts[..|attempts| - 1], attempts[|attempts| - 1];
      MarkerEndsCalls(s, front);
      MarkerKept(History(s, front), last.op, last.moments);
    }
  }

  lemma MarkerKept(s: Status, op: Operation, moments: nat)
    requires s.marker
    ensures After(s, op, moments).marker && After(s, op, moments).calls == s.calls
  {
    hide Play, Steps;
    WorkerCalledExactlyWhen(s, op, moments);
    PlayMarker(s, Cut(Steps(s, op), moments));
  }

  lemma {:induction false} PlayMarker(s: Status, steps: seq<Step>)
    requires s.marker
    ensures Play(s, steps).marker
    decreases |steps|
  {
    if steps != [] { PlayMarker(Apply(s, steps[0]), steps[1..]); }
  }

  /** A run whose worker was called is never executed again, whatever follows. */
  lemma NeverCalledAgain(before: seq<Attempt>, more: seq<Attempt>)
    requires History(NEW, before).calls == 1
    ensures History(History(NEW, before), more).calls == 1
  {
    hide History;
    EveryHistory(before);
    MarkerEndsCalls(History(NEW, before), more);
  }

  // ------------------------------------------ what each operation leaves, in plain states

  lemma ApproveEffect(s: Status, matches: bool, moments: nat)
    ensures After(s, MarkApproved(matches), moments) ==
            if s.run != Some(READY) || s.life != POLICY_CHECKED || !matches || moments == 0 then s
            else if moments == 1 then s.(run := Some(RUN_APPROVED))
            else s.(run := Some(RUN_APPROVED), life := APPROVED)
  {
    hide After, Play;
    ShortEffect(s, MarkApproved(matches), moments);
  }

  lemma RejectEffect(s: Status, moments: nat)
    ensures After(s, MarkRejected, moments) ==
            if s.run.None? || s.run.value !in {READY, RUN_APPROVED} || moments == 0 then s
            else if moments == 1 || s.life !in {POLICY_CHECKED, APPROVED} then s.(run := Some(REJECTED))
            else s.(run := Some(REJECTED), life := BLOCKED)
  {
    hide After, Play;
    ShortEffect(s, MarkRejected, moments);
  }

  lemma RecoverEffect(s: Status, moments: nat)
    ensures After(s, RecoverStale, moments) ==
            if s.life !in {CLAIMED, EXECUTED} || moments == 0 then s else s.(life := BLOCKED)
  {
    hide After, Play;
    ShortEffect(s, RecoverStale, moments);
  }

  /** An approved run whose checks pass is marked, executing, claimed and called, step by step;
      then its record and its action say how the worker ended. One whose checks fail, or whose
      action is not approved, is invalidated; any other is left alone. */
  lemma ExecuteEffect(s: Status, checks: bool, worker: bool, moments: nat)
    ensures After(s, Execute(checks, worker), moments) ==
            if s.run != Some(RUN_APPROVED) || moments == 0 then s
            else if !checks || s.life != APPROVED then
              if moments == 1 || s.life !in {POLICY_CHECKED, APPROVED, CLAIMED} then s.(run := Some(INVALIDATED))
              else s.(run := Some(INVALIDATED), life := BLOCKED)
            else if s.marker then s
            else
              match moments
              case 1 => s.(marker := true)
              case 2 => s.(marker := true, run := Some(EXECUTING))
              case 3 => s.(marker := true, run := Some(EXECUTING), life := CLAIMED)
              case 4 => Status(Some(EXECUTING), true, CLAIMED, s.calls + 1)
              case 5 => Status(Some(if worker then RUN_EXECUTED else RUN_FAILED), true, CLAIMED, s.calls + 1)
              case _ => Status(Some(if worker then RUN_EXECUTED else RUN_FAILED), true,
                               if worker then EXECUTED else BLOCKED, s.calls + 1)
  {
    hide After, Play;
    var op := Execute(checks, worker);
    if s.run == Some(RUN_APPROVED) && checks && s.life == APPROVED && !s.marker {
      var out := Outcome(worker);
      AfterIs(s, op, moments);
      if moments <= 3 {
        assert Cut(Steps(s, op), moments) == Cut(BEGIN[..3], moments);
        BeginCut(s, moments);
      } else {
        assert Cut(Steps(s, op), moments) == BEGIN[..3] + ([Call] + Cut(out, moments - 4));
        BeginCut(s, 3);
        PlayConcat(s, BEGIN[..3], [Call] + Cut(out, moments - 4));
        var claimed := s.(marker := true, run := Some(EXECUTING), life := CLAIMED);
        PlayFirst(claimed, Call, Cut(out, moments - 4), moments);
        TwoSteps(claimed.(calls := s.calls + 1), out[0], out[1], moments - 4);
        assert out == [out[0], out[1]];
        assert Cut(BEGIN[..3], 3) == BEGIN[..3];
      }
    } else {
      ShortEffect(s, op, moments);
    }
  }

  lemma AfterIs(s: Status, op: Operation, moments: nat)
    ensures After(s, op, moments) == Play(s, Cut(Steps(s, op), moments))
  {
  }

  /** An operation of at most two steps. */
  lemma ShortEffect(s: Status, op: Operation, moments: nat)
    requires |Steps(s, op)| <= 2
    ensures After(s, op, moments) ==
            if Steps(s, op) == [] || moments == 0 then s
            else if |Steps(s, op)| == 1 || moments == 1 then Apply(s, Steps(s, op)[0])
            else Apply(Apply(s, Steps(s, op)[0]), Steps(s, op)[1])
  {
    hide Steps, Apply, After;
    PlayCut(s, op, moments);
    if Steps(s, op) != [] && moments >= 1 {
      PlayAtMostOne(Apply(s, Steps(s, op)[0]), Steps(s, op)[1..], moments - 1);
    }
  }

  lemma TwoSteps(s: Status, w: Step, x: Step, n: nat)
    ensures Play(s, Cut([w, x], n)) == if n == 0 then s else if n == 1 then Apply(s, w) else Apply(Apply(s, w), x)
  {
    hide Apply;
    if n == 1 {
      assert Cut([w, x], n) == [w];
      assert [w][1..] == [];
    } else if n >= 2 {
      PlayTwo(s, [w, x]);
    }
  }

  lemma {:induction false} PlayConcat(s: Status, a: seq<Step>, b: seq<Step>)
    ensures Play(s, a + b) == Play(Play(s, a), b)
    decreases |a|
  {
    hide Apply;
    if a == [] {
      assert a + b == b;
    } else {
      assert (a + b)[1..] == a[1..] + b;
      PlayConcat(Apply(s, a[0]), a[1..], b);
    }
  }

  // ---------------------------------------------------------- runs that are lost

  /** Some sequence of operations can still call the worker. */
  predicate Live(s: Status) {
    && !s.marker
    && match s.run
       case None => s.life in {PROPOSED, POLICY_CHECKED}
       case Some(READY) => s.life == POLICY_CHECKED
       case Some(RUN_APPROVED) => s.life == APPROVED
       case _ => false
  }

  /** What is not live stays so, and its worker is not called. */
  lemma DeadKept(s: Status, op: Operation, moments: nat)
    requires !Live(s)
    ensures !Live(After(s, op, moments)) && After(s, op, moments).calls == s.calls
  {
    hide After, Steps;
    WorkerCalledExactlyWhen(s, op, moments);
    match op {
      case PersistReady => PersistEffect(s, moments);
      case MarkApproved(matches) => ApproveEffect(s, matches, moments);
      case MarkRejected => RejectEffect(s, moments);
      case Execute(checks, worker) => ExecuteEffect(s, checks, worker, moments);
      case RecoverStale => RecoverEffect(s, moments);
    }
  }

  lemma {:induction false} DeadForever(s: Status, attempts: seq<Attempt>)
    requires !Live(s)
    ensures !Live(History(s, attempts)) && History(s, attempts).calls == s.calls
    decreases |attempts|
  {
    if attempts != [] {
      hide After, Live;
      var front, last := attempts[..|attempts| - 1], attempts[|attempts| - 1];
      DeadForever(s, front);
      DeadKept(History(s, front), last.op, last.moments);
    }
  }

  lemma HistoryMore(s: Status, attempts: seq<Attempt>, op: Operation, moments: nat)
    ensures History(s, attempts + [Attempt(op, moments)]) == After(History(s, attempts), op, moments)
  {
    hide After;
    var more := attempts + [Attempt(op, moments)];
    assert more[..|more| - 1] == attempts;
  }

  lemma NoHistory(s: Status)
    ensures History(s, []) == s
  {
  }

  lemma OneOperation(s: Status, op: Operation, moments: nat)
    ensures History(s, [Attempt(op, moments)]) == After(s, op, moments)
  {
    hide After;
    HistoryMore(s, [], op, moments);
    assert [] + [Attempt(op, moments)] == [Attempt(op, moments)];
  }

  /** The operations left on the way to the worker. */
  function Way(s: Status): seq<Attempt> {
    match s.run
    case Some(RUN_APPROVED) => [Attempt(Execute(true, true), 4)]
    case Some(READY) => [Attempt(MarkApproved(true), 2)] + [Attempt(Execute(true, true), 4)]
    case _ => [Attempt(PersistReady, 5)] + [Attempt(MarkApproved(true), 2)] + [Attempt(Execute(true, true), 4)]
  }

  lemma LiveIsCalled(s: Status)
    requires Live(s)
    ensures History(s, Way(s)).calls == s.calls + 1
  {
    hide After, History;
    var persist, approve := Attempt(PersistReady, 5), Attempt(MarkApproved(true), 2);
    WorkerCalledExactlyWhen(Status(Some(RUN_APPROVED), false, APPROVED, s.calls), Execute(true, true), 4);
    ApproveDone(s.calls);
    if s.run.None? {
      PersistDone(s);
      OneOperation(s, PersistReady, 5);
      HistoryMore(s, [persist], MarkApproved(true), 2);
      HistoryMore(s, [persist] + [approve], Execute(true, true), 4);
    } else if s.run == Some(READY) {
      OneOperation(s, MarkApproved(true), 2);
      HistoryMore(s, [approve], Execute(true, true), 4);
    } else {
      OneOperation(s, Execute(true, true), 4);
    }
  }

  /** From any state whatever, some sequence of operations calls the worker exactly when the
      state is live; from any other state, every sequence leaves the calls as they are. */
  lemma CalledExactlyWhenLive(s: Status)
    ensures (exists attempts :: History(s, attempts).calls == s.calls + 1) <==> Live(s)
    ensures !Live(s) ==> forall attempts :: History(s, attempts).calls == s.calls
  {
    hide Live, History, Way;
    if Live(s) {
      LiveIsCalled(s);
    } else {
      forall attempts ensures History(s, attempts).calls == s.calls { DeadForever(s, attempts); }
    }
  }

  /** The run is turned down on purpose: rejected, or invalidated by a failed check. */
  predicate TurnedDown(s: Status, op: Operation, moments: nat) {
    moments >= 1 && s.run.Some? && match op {
      case MarkRejected => true
      case Execute(checks, _) => s.run == Some(RUN_APPROVED) && !checks
      case _ => false
    }
  }

  /** The process dies where nobody can go on: between the record and the last gate, between
      an approval's record and its ledger entry, or between the marker and the worker. */
  predicate CutShort(s: Status, op: Operation, moments: nat) {
    match op
    case PersistReady => s.run.None? && s.life == PROPOSED && 1 <= moments <= 4
    case MarkApproved(matches) => s.run == Some(READY) && matches && moments == 1
    case Execute(checks, _) => s.run == Some(RUN_APPROVED) && checks && 1 <= moments <= 3
    case _ => false
  }

  /** An operation takes a live run away from its worker for good, without calling it, exactly
      when it turns the run down or is cut short at one of these points. */
  lemma LostExactlyWhen(s: Status, op: Operation, moments: nat)
    requires Live(s)
    ensures (forall attempts :: History(After(s, op, moments), attempts).calls == s.calls) <==>
            TurnedDown(s, op, moments) || CutShort(s, op, moments)
  {
    hide Play, Steps, History, After;
    var t := After(s, op, moments);
    CalledExactlyWhenLive(t);
    WorkerCalledExactlyWhen(s, op, moments);
    LiveAfter(s, op, moments);
    NoHistory(t);
  }

  lemma LiveAfter(s: Status, op: Operation, moments: nat)
    requires Live(s)
    ensures Live(After(s, op, moments)) <==>
            !TurnedDown(s, op, moments) && !CutShort(s, op, moments) && !(Callable(s, op) && moments >= 4)
  {
    hide After, Steps;
    match op {
      case PersistReady => PersistEffect(s, moments);
      case MarkApproved(matches) => ApproveEffect(s, matches, moments);
      case MarkRejected => RejectEffect(s, moments);
      case Execute(checks, worker) => ExecuteEffect(s, checks, worker, moments);
      case RecoverStale => RecoverEffect(s, moments);
    }
  }

  /** The gate reached behind so many steps of persisting. */
  function GateAt(moments: nat): Life
    requires moments >= 1
  {
    match moments
    case 1 => PROPOSED
    case 2 => VALIDATED
    case 3 => TESTED
    case 4 => SECURED
    case _ => POLICY_CHECKED
  }

  lemma PersistAt(s: Status, moments: nat)
    requires s.run.None? && s.life == PROPOSED
    ensures After(s, PersistReady, moments) ==
            if moments == 0 then s else s.(run := Some(READY), life := GateAt(moments))
  {
    hide Play;
    if moments == 0 {
      PlayNone(s, Cut([Create] + GATES, 0));
    } else {
      var gates := Cut(GATES, moments - 1);
      assert gates != [] ==> gates[|gates| - 1] == if moments <= 4 then GATES[moments - 2] else GATES[3];
      assert GATES[0].life == VALIDATED && GATES[1].life == TESTED && GATES[2].life == SECURED;
      PlayFirst(s, Create, GATES, moments);
      LastLife(s.(run := Some(READY)), gates);
    }
  }

  lemma PersistEffect(s: Status, moments: nat)
    ensures After(s, PersistReady, moments) ==
            if s.run.Some? || moments == 0 then s
            else if s.life != PROPOSED then s.(run := Some(READY))
            else s.(run := Some(READY), life := GateAt(moments))
  {
    hide After, Play;
    if s.run.None? && s.life == PROPOSED {
      PersistAt(s, moments);
    } else {
      ShortEffect(s, PersistReady, moments);
    }
  }

  lemma {:induction false} LastLife(s: Status, steps: seq<Step>)
    requires forall w | w in steps :: w.SetLife?
    ensures Play(s, steps) == s.(life := if steps == [] then s.life else steps[|steps| - 1].life)
    decreases |steps|
  {
    if steps != [] {
      assert steps[0] in steps;
      LastLife(s.(life := steps[0].life), steps[1..]);
      assert |steps| > 1 ==> steps[1..][|steps| - 2] == steps[|steps| - 1];
    }
  }

  lemma PersistDone(s: Status)
    requires s.run.None? && s.life in {PROPOSED, POLICY_CHECKED}
    ensures After(s, PersistReady, 5) == s.(run := Some(READY), life := POLICY_CHECKED)
  {
    hide Play, After;
    if s.life == PROPOSED {
      PersistAt(s, 5);
    } else {
      PlayCut(s, PersistReady, 5);
      PlayNone(s.(run := Some(READY)), Cut([Create][1..], 4));
    }
  }

  lemma ApproveDone(calls: nat)
    ensures After(Status(Some(READY), false, POLICY_CHECKED, calls), MarkApproved(true), 2) ==
            Status(Some(RUN_APPROVED), false, APPROVED, calls)
  {
    var s := Status(Some(READY), false, POLICY_CHECKED, calls);
    PlayTwo(s, [SetRun(RUN_APPROVED), SetLife(APPROVED)]);
  }

  /** Nobody can touch a run any more exactly when its record is at an end or executing and
      its action does not stand for a recovery. */
  lemma FinalExactlyWhen(s: Status)
    ensures (forall attempts :: History(s, attempts) == s) <==>
            s.run.Some? && s.run.value !in {READY, RUN_APPROVED} && s.life !in {CLAIMED, EXECUTED}
  {
    hide History, After;
    if s.run.Some? && s.run.value !in {READY, RUN_APPROVED} && s.life !in {CLAIMED, EXECUTED} {
      forall attempts ensures History(s, attempts) == s { NothingToDo(s, attempts); }
    } else {
      var op := if s.run.None? then PersistReady else if s.life in {CLAIMED, EXECUTED} then RecoverStale
                else MarkRejected;
      OneOperation(s, op, 1);
      FirstStep(s, op);
      assert History(s, [Attempt(op, 1)]) != s;
    }
  }

  lemma FirstStep(s: Status, op: Operation)
    requires Steps(s, op) != []
    ensures After(s, op, 1) == Apply(s, Steps(s, op)[0])
  {
    hide Steps, Apply, After;
    PlayCut(s, op, 1);
    PlayNone(Apply(s, Steps(s, op)[0]), Cut(Steps(s, op)[1..], 0));
  }

  lemma {:induction false} NothingToDo(s: Status, attempts: seq<Attempt>)
    requires s.run.Some? && s.run.value !in {READY, RUN_APPROVED} && s.life !in {CLAIMED, EXECUTED}
    ensures History(s, attempts) == s
    decreases |attempts|
  {
    if attempts != [] {
      hide After;
      var front, last := attempts[..|attempts| - 1], attempts[|attempts| - 1];
      NothingToDo(s, front);
      PlayCut(s, last.op, last.moments);
    }
  }

  // ---------------------------------------------------------------- what was executed

  /** The attempt at `i` found the run approved, its action approved and no marker, and called
      the worker, which ended like this. */
  predicate WorkedAt(attempts: seq<Attempt>, i: nat, worker: bool) {
    && i < |attempts| && attempts[i].op == Execute(true, worker) && attempts[i].moments >= 5
    && var s := History(NEW, attempts[..i]);
       s.run == Some(RUN_APPROVED) && s.life == APPROVED && !s.marker
  }

  /** In every history the record says executed, or the action does, only if an attempt called
      the worker and it opened the draft, and failed only if one called it and it did not. */
  lemma {:induction false} ResultOfWorker(attempts: seq<Attempt>)
    ensures var s := History(NEW, attempts);
            && (s.run == Some(RUN_EXECUTED) || s.life == EXECUTED ==> exists i :: WorkedAt(attempts, i, true))
            && (s.run == Some(RUN_FAILED) ==> exists i :: WorkedAt(attempts, i, false))
    decreases |attempts|
  {
    if attempts != [] {
      hide After, History, WorkedAt;
      var front, last := attempts[..|attempts| - 1], attempts[|attempts| - 1];
      ResultOfWorker(front);
      HistoryMore(NEW, front, last.op, last.moments);
      assert attempts == front + [Attempt(last.op, last.moments)];
      ResultChanges(History(NEW, front), last.op, last.moments);
      forall i: nat, worker | WorkedAt(front, i, worker) ensures WorkedAt(attempts, i, worker) {
        WorkedStill(front, last, i, worker);
      }
      forall worker | last.op == Execute(true, worker) && last.moments >= 5 && Callable(History(NEW, front), last.op)
        ensures WorkedAt(attempts, |front|, worker)
      {
        WorkedNow(front, last, worker);
      }
    }
  }

  lemma WorkedStill(front: seq<Attempt>, last: Attempt, i: nat, worker: bool)
    requires WorkedAt(front, i, worker)
    ensures WorkedAt(front + [last], i, worker)
  {
    hide History;
    assert (front + [last])[..i] == front[..i];
  }

  lemma WorkedNow(front: seq<Attempt>, last: Attempt, worker: bool)
    requires last.op == Execute(true, worker) && last.moments >= 5 && Callable(History(NEW, front), last.op)
    ensures WorkedAt(front + [last], |front|, worker)
  {
    hide History;
    assert (front + [last])[..|front|] == front;
  }

  lemma ResultChanges(s: Status, op: Operation, moments: nat)
    ensures var t := After(s, op, moments);
            && ((t.run == Some(RUN_EXECUTED) && s.run != t.run) || (t.life == EXECUTED && s.life != t.life) ==>
                  op == Execute(true, true) && Callable(s, op) && moments >= 5)
            && (t.run == Some(RUN_FAILED) && s.run != t.run ==>
                  op == Execute(true, false) && Callable(s, op) && moments >= 5)
  {
    hide After, Steps;
    match op {
      case PersistReady => PersistEffect(s, moments);
      case MarkApproved(matches) => ApproveEffect(s, matches, moments);
      case MarkRejected => RejectEffect(s, moments);
      case Execute(checks, worker) => ExecuteEffect(s, checks, worker, moments);
      case RecoverStale => RecoverEffect(s, moments);
    }
  }

  // ---------------------------------------------------------- the marked run

  /** The executor's marker exists, but its run was never started. */
  predicate Marked(s: Status) {
    && s.marker && s.calls == 0
    && s.run.Some? && s.run.value in {RUN_APPROVED, REJECTED, INVALIDATED}
    && s.life in {APPROVED, BLOCKED}
  }

  lemma PlayCut(s: Status, op: Operation, moments: nat)
    ensures |Steps(s, op)| == 0 ==> After(s, op, moments) == s
    ensures |Steps(s, op)| >= 1 && moments == 0 ==> After(s, op, moments) == s
    ensures |Steps(s, op)| >= 1 && moments >= 1 ==>
              After(s, op, moments) == Play(Apply(s, Steps(s, op)[0]), Cut(Steps(s, op)[1..], moments - 1))
  {
    hide Steps, Apply;
    if |Steps(s, op)| >= 1 && moments >= 1 {
      assert Cut(Steps(s, op), moments)[1..] == Cut(Steps(s, op)[1..], moments - 1);
    }
  }

  lemma MarkedKept(s: Status, op: Operation, moments: nat)
    requires Marked(s)
    ensures Marked(After(s, op, moments))
  {
    hide After, Steps;
    match op {
      case PersistReady => PersistEffect(s, moments);
      case MarkApproved(matches) => ApproveEffect(s, matches, moments);
      case MarkRejected => RejectEffect(s, moments);
      case Execute(checks, worker) => ExecuteEffect(s, checks, worker, moments);
      case RecoverStale => RecoverEffect(s, moments);
    }
  }

  lemma PlayAtMostOne(s: Status, steps: seq<Step>, n: nat)
    requires |steps| <= 1
    ensures Play(s, Cut(steps, n)) == if steps == [] || n == 0 then s else Apply(s, steps[0])
  {
    if |steps| == 1 && n > 0 { assert steps[1..] == []; }
  }

  /** Such a run is never executed: whatever follows, the worker is not called, and its
      record can only become REJECTED or INVALIDATED. */
  lemma {:induction false} MarkedRunIsStuck(s: Status, attempts: seq<Attempt>)
    requires Marked(s)
    ensures Marked(History(s, attempts))
    ensures forall checks, worker :: !Succeeds(History(s, attempts), Execute(checks, worker))
    decreases |attempts|
  {
    if attempts != [] {
      hide After, Marked;
      var front, last := attempts[..|attempts| - 1], attempts[|attempts| - 1];
      MarkedRunIsStuck(s, front);
      MarkedKept(History(s, front), last.op, last.moments);
      MarkedNotExecuted(History(s, attempts));
    }
  }

  lemma MarkedNotExecuted(s: Status)
    requires Marked(s)
    ensures forall checks, worker :: !Succeeds(s, Execute(checks, worker))
  {
  }

  /** What an executor leaves that dies before its worker call: a marked run, then a run that
      is EXECUTING for good though its action is only APPROVED, then one whose action can only
      be recovered to BLOCKED. */
  lemma DeadExecutorLeaves(s: Status, worker: bool, moments: nat)
    requires Callable(s, Execute(true, worker)) && s.calls == 0
    ensures Marked(After(s, Execute(true, worker), moments)) <==> moments == 1
    ensures After(s, Execute(true, worker), moments) == Status(Some(EXECUTING), true, APPROVED, 0) <==> moments == 2
    ensures After(s, Execute(true, worker), moments) == Status(Some(EXECUTING), true, CLAIMED, 0) <==> moments == 3
  {
    hide After;
    ExecuteEffect(s, true, worker, moments);
  }

  lemma BeginCut(s: Status, moments: nat)
    requires moments <= 3
    ensures Play(s, Cut(BEGIN[..3], moments)) ==
            match moments
            case 0 => s
            case 1 => s.(marker := true)
            case 2 => s.(marker := true, run := Some(EXECUTING))
            case _ => s.(marker := true, run := Some(EXECUTING), life := CLAIMED)
  {
    var marked := s.(marker := true);
    assert BEGIN[..3] == [Mark] + ([SetRun(EXECUTING)] + [SetLife(CLAIMED)]);
    if moments >= 1 { PlayFirst(s, Mark, [SetRun(EXECUTING)] + [SetLife(CLAIMED)], moments); }
    if moments >= 2 { PlayFirst(marked, SetRun(EXECUTING), [SetLife(CLAIMED)], moments - 1); }
    if moments >= 3 { LastLife(marked.(run := Some(EXECUTING)), [SetLife(CLAIMED)]); }
  }

  lemma PlayNone(s: Status, steps: seq<Step>)
    requires steps == []
    ensures Play(s, steps) == s
  {
  }

  lemma PlayFirst(s: Status, w: Step, rest: seq<Step>, n: nat)
    requires n >= 1
    ensures Play(s, Cut([w] + rest, n)) == Play(Apply(s, w), Cut(rest, n - 1))
  {
    assert Cut([w] + rest, n)[1..] == Cut(rest, n - 1);
  }

  /** Each of these states is reached: persist, approve, and an executor that dies there. */
  lemma MarkedRunIsReached(worker: bool)
    ensures exists attempts :: History(NEW, attempts) == Status(Some(RUN_APPROVED), true, APPROVED, 0)
    ensures exists attempts :: History(NEW, attempts) == Status(Some(EXECUTING), true, APPROVED, 0)
    ensures exists attempts :: History(NEW, attempts) == Status(Some(EXECUTING), true, CLAIMED, 0)
  {
    hide After, History;
    var persist, approve := Attempt(PersistReady, 5), Attempt(MarkApproved(true), 2);
    PersistDone(NEW);
    ApproveDone(0);
    OneOperation(NEW, PersistReady, 5);
    HistoryMore(NEW, [persist], MarkApproved(true), 2);
    var approved := Status(Some(RUN_APPROVED), false, APPROVED, 0);
    assert History(NEW, [persist] + [approve]) == approved;
    FirstStep(approved, Execute(true, worker));
    forall n: nat | 1 <= n <= 3
      ensures History(NEW, [persist] + [approve] + [Attempt(Execute(true, worker), n)]) ==
              After(approved, Execute(true, worker), n)
    {
      HistoryMore(NEW, [persist] + [approve], Execute(true, worker), n);
    }
    DeadExecutorLeaves(approved, worker, 2);
    DeadExecutorLeaves(approved, worker, 3);
  }

  lemma PlayTwo(s: Status, steps: seq<Step>)
    requires |steps| >= 2
    ensures Play(s, steps) == Play(Apply(Apply(s, steps[0]), steps[1]), steps[2..])
  {
    assert steps[1..][1..] == steps[2..];
  }
}
