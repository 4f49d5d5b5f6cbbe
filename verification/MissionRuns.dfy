/** Running a mission, and running it again from where it stopped. */
module MissionRuns {
  import opened Text
  import opened DiffText
  import opened Sorting
  import opened Mission
  import EE = ExecutionEngine

  type State = EE.State

  datatype StepResult = StepResult(node: string, state: State)

  datatype Reason = NotExecutable | DependenciesNotVerified | StepReported | AllVerified

  datatype MissionResult = MissionResult(state: State, reason: Reason, completed: set<string>,
                                         failedStep: Option<string>, results: seq<StepResult>)

  datatype Plan = Plan(executable: bool, nodes: seq<Node>)

  /** What one step's runner comes back with; a runner that raises has failed. */
  type Runner = string -> Option<State>

  function Reported(runner: Runner, id: string): State {
    match runner(id)
    case Some(s) => s
    case None => EE.FAILED
  }

  function Verified(results: seq<StepResult>): set<string> {
    set r | r in results && r.state == EE.VERIFIED :: r.node
  }

  /** The node a step id is run with: of several with one id, the first. */
  function NodeOf(nodes: seq<Node>, id: string): Node
    requires HasId(nodes, id)
  {
    if nodes[0].id == id then nodes[0] else NodeOf(nodes[1..], id)
  }

  lemma {:induction false} NodeOfIs(nodes: seq<Node>, id: string)
    requires HasId(nodes, id)
    ensures NodeOf(nodes, id) in nodes && NodeOf(nodes, id).id == id
  {
    if nodes[0].id != id {
      assert HasId(nodes[1..], id) by {
        var i :| 0 <= i < |nodes| && nodes[i].id == id;
        assert nodes[1..][i - 1].id == id;
      }
      NodeOfIs(nodes[1..], id);
    }
  }

  /** The step at `k` was called rightly: it was not completed, nor called before, and all its
      node depends on was completed by then. */
  predicate CalledRightly(nodes: seq<Node>, start: set<string>, results: seq<StepResult>, k: nat)
    requires k < |results|
  {
    var id := results[k].node;
    && HasId(nodes, id)
    && id !in start && (forall j | 0 <= j < k :: results[j].node != id)
    && forall d | d in NodeOf(nodes, id).dependsOn :: d in start || d in Verified(results[..k])
  }

  /** The first node of the order that is not completed waits for one that is not. */
  ghost predicate HeldUp(nodes: seq<Node>, order: seq<string>, completed: set<string>, id: string) {
    exists k, d ::
      && 0 <= k < |order| && order[k] == id && HasId(nodes, id)
      && (forall j | 0 <= j < k :: order[j] in completed)
      && d in NodeOf(nodes, id).dependsOn && d !in completed
  }

  predicate StepsRight(nodes: seq<Node>, start: set<string>, runner: Runner, results: seq<StepResult>) {
    forall k | 0 <= k < |results| ::
        CalledRightly(nodes, start, results, k) && results[k].state == Reported(runner, results[k].node)
  }

  predicate AllPassed(results: seq<StepResult>) {
    forall k | 0 <= k < |results| :: results[k].state == EE.VERIFIED
  }

  /** One run from `start` along `order`: every call right, every call but the last verified,
      and the result says how it ended. */
  ghost predicate RightRun(nodes: seq<Node>, order: seq<string>, start: set<string>, runner: Runner, r: MissionResult) {
    && StepsRight(nodes, start, runner, r.results)
    && r.completed == start + Verified(r.results)
    && match r.reason {
         case AllVerified =>
           && r.state == EE.VERIFIED && r.failedStep.None? && AllPassed(r.results)
           && forall id | id in order :: id in r.completed
         case StepReported =>
           && r.results != [] && AllPassed(r.results[..|r.results| - 1])
           && r.failedStep.Some? && r.results[|r.results| - 1] == StepResult(r.failedStep.value, r.state)
           && r.state != EE.VERIFIED
         case DependenciesNotVerified =>
           && r.state == EE.BLOCKED && r.failedStep.Some? && AllPassed(r.results)
           && HeldUp(nodes, order, r.completed, r.failedStep.value)
         case NotExecutable => false
       }
  }

  lemma VerifiedMore(results: seq<StepResult>, r: StepResult)
    ensures Verified(results + [r]) ==
            if r.state == EE.VERIFIED then Verified(results) + {r.node} else Verified(results)
  {
    assert forall x :: x in results + [r] <==> x in results || x == r;
  }

  lemma CallRight(nodes: seq<Node>, start: set<string>, runner: Runner, results: seq<StepResult>, id: string)
    requires HasId(nodes, id) && StepsRight(nodes, start, runner, results) && AllPassed(results)
    requires id !in start + Verified(results)
    requires forall d | d in NodeOf(nodes, id).dependsOn :: d in start + Verified(results)
    ensures StepsRight(nodes, start, runner, results + [StepResult(id, Reported(runner, id))])
  {
    hide Reported, HasId, NodeOf;
    var more := results + [StepResult(id, Reported(runner, id))];
    forall k | 0 <= k < |more|
      ensures CalledRightly(nodes, start, more, k) && more[k].state == Reported(runner, more[k].node)
    {
      if k < |results| {
        assert more[..k] == results[..k];
        assert CalledRightly(nodes, start, results, k);
      } else {
        assert more[..k] == results;
        forall j | 0 <= j < |results| ensures results[j].node != id { assert results[j] in results; }
      }
    }
  }

  /** The loop of `execute` over a given order. */
  method RunInOrder(nodes: seq<Node>, order: seq<string>, start: set<string>, runner: Runner) returns (r: MissionResult)
    requires forall id | id in order :: HasId(nodes, id)
    ensures RightRun(nodes, order, start, runner, r)
  {
    hide StepsRight, AllPassed, Verified, Reported, HasId, HeldUp, NodeOf;
    var completed, results := start, [];
    NothingCalled(nodes, start, runner);
    var i := 0;
    while i < |order|
      invariant 0 <= i <= |order|
      invariant StepsRight(nodes, start, runner, results) && AllPassed(results)
      invariant completed == start + Verified(results)
      invariant forall j | 0 <= j < i :: order[j] in completed
    {
      var id := order[i];
      var node := NodeOf(nodes, id);
      if id !in completed {
        if exists d | d in node.dependsOn :: d !in completed {
          HeldUpBy(nodes, order, completed, i);
          return MissionResult(EE.BLOCKED, DependenciesNotVerified, completed, Some(id), results);
        }
        CallRight(nodes, start, runner, results, id);
        var step := StepResult(id, Reported(runner, id));
        VerifiedMore(results, step);
        PassedMore(results, step);
        results := results + [step];
        if step.state != EE.VERIFIED {
          return MissionResult(step.state, StepReported, completed, Some(id), results);
        }
        completed := completed + {id};
      }
      i := i + 1;
    }
    return MissionResult(EE.VERIFIED, AllVerified, completed, None, results);
  }

  lemma NothingCalled(nodes: seq<Node>, start: set<string>, runner: Runner)
    ensures StepsRight(nodes, start, runner, []) && AllPassed([]) && Verified([]) == {}
  {
  }

  lemma HeldUpBy(nodes: seq<Node>, order: seq<string>, completed: set<string>, k: nat)
    requires k < |order| && HasId(nodes, order[k]) && forall j | 0 <= j < k :: order[j] in completed
    requires exists d :: d in NodeOf(nodes, order[k]).dependsOn && d !in completed
    ensures HeldUp(nodes, order, completed, order[k])
  {
  }

  lemma PassedMore(results: seq<StepResult>, r: StepResult)
    requires AllPassed(results)
    ensures AllPassed((results + [r])[..|results|])
    ensures r.state == EE.VERIFIED ==> AllPassed(results + [r])
  {
  }

  // --------------------------------------------------------------------- main results

  /** Each node of the order runs behind all it depends on. */
  ghost predicate Behind(nodes: seq<Node>, order: seq<string>) {
    forall k | 0 <= k < |order| && HasId(nodes, order[k]) ::
      forall d | d in NodeOf(nodes, order[k]).dependsOn :: d in order[..k]
  }

  /** No step is held up by its dependencies, whatever was completed before, exactly when the
      nodes that are run stand behind all they depend on. */
  lemma NeverHeldUp(nodes: seq<Node>, order: seq<string>)
    ensures (forall completed, id :: !HeldUp(nodes, order, completed, id)) <==> Behind(nodes, order)
  {
    hide HasId, NodeOf;
    if !Behind(nodes, order) {
      var k :| 0 <= k < |order| && HasId(nodes, order[k])
               && exists d :: d in NodeOf(nodes, order[k]).dependsOn && d !in order[..k];
      HeldUpBy(nodes, order, Elements(order[..k]), k);
    } else {
      forall completed, id ensures !HeldUp(nodes, order, completed, id) {
        BehindNotHeldUp(nodes, order, completed, id);
      }
    }
  }

  lemma BehindNotHeldUp(nodes: seq<Node>, order: seq<string>, completed: set<string>, id: string)
    requires Behind(nodes, order)
    ensures !HeldUp(nodes, order, completed, id)
  {
    hide HasId, NodeOf;
    forall k, d | 0 <= k < |order| && order[k] == id && HasId(nodes, id)
                  && (forall j | 0 <= j < k :: order[j] in completed) && d in NodeOf(nodes, id).dependsOn
      ensures d in completed
    {
      assert d in order[..k];
    }
  }

  /** Which they do in a topological order of nodes with distinct ids. */
  lemma DistinctBehind(nodes: seq<Node>, order: seq<string>)
    requires DistinctIds(nodes) && Topological(Table(nodes), order)
    ensures Behind(nodes, order)
  {
    hide HasId, NodeOf, Table, DistinctIds;
    TableOfDistinct(nodes);
    forall k | 0 <= k < |order| && HasId(nodes, order[k])
      ensures forall d | d in NodeOf(nodes, order[k]).dependsOn :: d in order[..k]
    {
      NodeOfIs(nodes, order[k]);
    }
  }

  /** But not where two nodes share an id: the order takes the last, the run the first. */
  lemma HeldUpByDuplicate()
    ensures var nodes := [Node("a", ["b"]), Node("b", []), Node("a", [])];
            Topological(Table(nodes), ["a", "b"]) && HeldUp(nodes, ["a", "b"], {}, "a")
  {
    var a, b, c := Node("a", ["b"]), Node("b", []), Node("a", []);
    var nodes, order := [a, b, c], ["a", "b"];
    assert "a"[0] != "b"[0];
    assert nodes[..2] == [a, b];
    TableOfDistinct([a, b]);
    assert Table(nodes) == [c, b];
    assert [c, b][0].id == "a" && [c, b][1].id == "b";
    assert nodes[0].id == order[0] && "b" in NodeOf(nodes, "a").dependsOn;
  }

  /** One run of a mission's graph. */
  ghost predicate MissionRun(nodes: seq<Node>, start: set<string>, runner: Runner, r: MissionResult) {
    exists order :: Topological(Table(nodes), order) && RightRun(nodes, order, start, runner, r)
  }

  method Execute(plan: Plan, start: set<string>, runner: Runner) returns (r: Option<MissionResult>)
    ensures !plan.executable ==> r == Some(MissionResult(EE.BLOCKED, NotExecutable, start, None, []))
    ensures plan.executable ==> (r.None? <==> exists waiting :: Stuck(Table(plan.nodes), waiting))
    ensures plan.executable && r.Some? ==> MissionRun(plan.nodes, start, runner, r.value)
    ensures plan.executable && r.Some? && DistinctIds(plan.nodes) ==> !r.value.reason.DependenciesNotVerified?
  {
    hide DistinctIds, Topological, Stuck, HasId, StepsRight, AllPassed, Verified, HeldUp, Table;
    if !plan.executable {
      return Some(MissionResult(EE.BLOCKED, NotExecutable, start, None, []));
    }
    var order := TopologicalOrder(plan.nodes);
    if order.None? {
      return None;
    }
    OrderIds(plan.nodes, order.value);
    var result := RunInOrder(plan.nodes, order.value, start, runner);
    if DistinctIds(plan.nodes) {
      DistinctBehind(plan.nodes, order.value);
      NeverHeldUp(plan.nodes, order.value);
    }
    r := Some(result);
  }

  lemma OrderIds(nodes: seq<Node>, order: seq<string>)
    requires Topological(Table(nodes), order)
    ensures forall id :: id in order <==> HasId(nodes, id)
  {
    TableIds(nodes);
  }

  /** A run verifies the mission exactly when it is not held up and every step not completed
      before verifies. */
  lemma VerifiedExactlyWhen(nodes: seq<Node>, start: set<string>, runner: Runner, r: MissionResult)
    requires MissionRun(nodes, start, runner, r)
    ensures r.state == EE.VERIFIED <==>
            && !r.reason.DependenciesNotVerified?
            && forall n | n in nodes && n.id !in start :: Reported(runner, n.id) == EE.VERIFIED
  {
    hide Topological, HeldUp, Reported, HasId, Table;
    var order :| Topological(Table(nodes), order) && RightRun(nodes, order, start, runner, r);
    OrderIds(nodes, order);
    match r.reason {
      case AllVerified =>
        forall n | n in nodes && n.id !in start ensures Reported(runner, n.id) == EE.VERIFIED {
          NodeHasId(nodes, n);
          var x :| x in r.results && x.state == EE.VERIFIED && x.node == n.id;
          var k :| 0 <= k < |r.results| && r.results[k] == x;
          assert r.results[k].state == Reported(runner, r.results[k].node);
        }
      case StepReported =>
        var k := |r.results| - 1;
        assert CalledRightly(nodes, start, r.results, k);
        NodeOfIs(nodes, r.results[k].node);
      case _ =>
    }
  }

  /** Runs one after another, each started from what the one before completed. */
  ghost predicate Resumed(nodes: seq<Node>, starts: seq<set<string>>, runners: seq<Runner>,
                          results: seq<MissionResult>)
  {
    && |starts| == |runners| == |results|
    && (forall i | 0 <= i < |results| :: MissionRun(nodes, starts[i], runners[i], results[i]))
    && (forall i | 0 < i < |results| :: starts[i] == results[i - 1].completed)
  }

  lemma RunCompletes(nodes: seq<Node>, start: set<string>, runner: Runner, r: MissionResult)
    requires MissionRun(nodes, start, runner, r)
    ensures r.completed == start + Verified(r.results)
    ensures forall k | 0 <= k < |r.results| :: CalledRightly(nodes, start, r.results, k)
  {
    hide Topological, HeldUp, Reported, CalledRightly;
  }

  lemma {:induction false} CompletedGrows(nodes: seq<Node>, starts: seq<set<string>>, runners: seq<Runner>,
                                          results: seq<MissionResult>, i: nat, j: nat)
    requires Resumed(nodes, starts, runners, results) && i < j < |results|
    ensures results[i].completed <= starts[j]
  {
    hide MissionRun;
    if i < j - 1 {
      CompletedGrows(nodes, starts, runners, results, i, j - 1);
      RunCompletes(nodes, starts[j - 1], runners[j - 1], results[j - 1]);
    }
  }

  /** Over any chain of resumed runs a step, once verified, is never called again. */
  lemma VerifiedOnce(nodes: seq<Node>, starts: seq<set<string>>, runners: seq<Runner>, results: seq<MissionResult>,
                     i: nat, j: nat, a: nat, b: nat)
    requires Resumed(nodes, starts, runners, results)
    requires i <= j < |results| && a < |results[i].results| && b < |results[j].results| && (i == j ==> a < b)
    requires results[i].results[a].state == EE.VERIFIED
    ensures results[j].results[b].node != results[i].results[a].node
  {
    hide MissionRun;
    RunCompletes(nodes, starts[i], runners[i], results[i]);
    RunCompletes(nodes, starts[j], runners[j], results[j]);
    assert CalledRightly(nodes, starts[j], results[j].results, b);
    if i < j {
      CompletedGrows(nodes, starts, runners, results, i, j);
      assert results[i].results[a] in results[i].results;
    }
  }

  // ------------------------------------------------------------- sequential missions

  function StepId(i: nat): string {
    "step-" + Decimal(i)
  }

  /** `sequential_specs` for `n` tasks: each step waits for the one before. */
  function SequentialSpecs(n: nat): seq<Node> {
    seq(n, i requires 0 <= i < n => Node(StepId(i + 1), if i == 0 then [] else [StepId(i)]))
  }

  function StepIds(n: nat): seq<string> {
    seq(n, i requires 0 <= i < n => StepId(i + 1))
  }

  lemma StepIdsDiffer(i: nat, j: nat)
    ensures StepId(i) == StepId(j) <==> i == j
  {
    hide Decimal, NumberOf;
    NumberOfDecimal(i);
    NumberOfDecimal(j);
    assert StepId(i)[5..] == Decimal(i) && StepId(j)[5..] == Decimal(j);
  }

  lemma SequentialIds(n: nat)
    ensures Distinct(StepIds(n))
    ensures forall id :: id in StepIds(n) <==> HasId(SequentialSpecs(n), id)
  {
    hide StepId;
    var nodes, order := SequentialSpecs(n), StepIds(n);
    forall i, j | 0 <= i < j < n ensures order[i] != order[j] { StepIdsDiffer(i + 1, j + 1); }
    forall id | HasId(nodes, id) ensures id in order {
      var i :| 0 <= i < n && nodes[i].id == id;
      assert order[i] == id;
    }
    forall id | id in order ensures HasId(nodes, id) {
      var i :| 0 <= i < n && order[i] == id;
      assert nodes[i].id == id;
    }
  }

  lemma SequentialSound(n: nat)
    ensures Sound(SequentialSpecs(n))
  {
    hide StepId, HasId, Distinct;
    SequentialIds(n);
    var nodes, order := SequentialSpecs(n), StepIds(n);
    forall i, j | 0 <= i < j < n ensures nodes[i].id != nodes[j].id { StepIdsDiffer(i + 1, j + 1); }
    forall m, d | m in nodes && d in m.dependsOn ensures HasId(nodes, d) {
      var i :| 0 <= i < n && nodes[i] == m;
      assert order[i - 1] == d;
    }
  }

  lemma StepsBefore(n: nat, m: Node, k: nat)
    requires m in SequentialSpecs(n) && k < n && StepIds(n)[k] == m.id
    ensures forall d | d in m.dependsOn :: d in StepIds(n)[..k]
  {
    hide StepId;
    var i :| 0 <= i < n && SequentialSpecs(n)[i] == m;
    StepIdsDiffer(i + 1, k + 1);
    if k > 0 { assert StepIds(n)[..k][k - 1] == StepId(k); }
  }

  /** A sequential mission passes the planner's checks and its steps' own order is topological. */
  lemma SequentialOrder(n: nat)
    ensures Sound(SequentialSpecs(n)) && Table(SequentialSpecs(n)) == SequentialSpecs(n)
    ensures Topological(Table(SequentialSpecs(n)), StepIds(n))
  {
    hide StepId, HasId, Distinct, DistinctIds, SequentialSpecs, Table;
    SequentialIds(n);
    SequentialSound(n);
    TableOfDistinct(SequentialSpecs(n));
    forall m, k | m in SequentialSpecs(n) && 0 <= k < n && StepIds(n)[k] == m.id
      ensures forall d | d in m.dependsOn :: d in StepIds(n)[..k]
    {
      StepsBefore(n, m, k);
    }
  }
}
