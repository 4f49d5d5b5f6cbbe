/** The adaptive executor: retries, then replacements. */
module AdaptiveExecution {
  import opened Text
  import opened DiffText
  import EE = ExecutionEngine

  type Step = EE.Step

  const MAX_RETRIES := 2
  const MAX_REPLANS := 2
  const MAX_REPLACEMENT := 12

  function Clamp(n: int, hi: nat): (r: nat)
    ensures r <= hi && (0 <= n <= hi ==> r == n) && (n < 0 ==> r == 0) && (n > hi ==> r == hi)
  {
    if n < 0 then 0 else if n > hi then hi else n
  }

  /** The result of one child run. */
  datatype Child = Child(state: EE.State, success: bool)

  /** What the executor asks of the outside: the child run of a step, keyed as its
      execution id is; the replanner, which may also come back with nothing; and the
      registry's view of a replacement step. */
  datatype World = World(
    child: (nat, Step, nat) -> Child,
    replans: bool,
    replan: (nat, Step, seq<Step>) -> Option<seq<Step>>,
    knows: Step -> bool,
    readOnly: Step -> bool,
    approved: bool)

  datatype Observation = Observation(replan: nat, step: Step, attempt: nat, child: Child)
  {
    /** Another attempt may follow. */
    predicate GoesOn() {
      !(child.state == EE.VERIFIED && child.success) && child.state != EE.BLOCKED && child.state != EE.RECOVERY_REQUIRED
    }
  }

  function Observed(world: World, replan: nat, step: Step, attempt: nat): Observation {
    Observation(replan, step, attempt, world.child(replan, step, attempt))
  }

  function Last(observations: seq<Observation>): Observation
    requires observations != []
  {
    observations[|observations| - 1]
  }

  datatype Try = COMPLETED | Stopped(state: EE.State) | EXHAUSTED

  /** How the attempts on one step end, from attempt `k` on. */
  function TryFate(world: World, replan: nat, step: Step, k: nat, n: nat): Try
    decreases n - k
  {
    if k >= n then EXHAUSTED
    else
      var c := world.child(replan, step, k);
      if c.state == EE.VERIFIED && c.success then COMPLETED
      else if c.state in {EE.BLOCKED, EE.RECOVERY_REQUIRED} then Stopped(c.state)
      else TryFate(world, replan, step, k + 1, n)
  }

  predicate DistinctIds(steps: seq<Step>) {
    forall i, j | 0 <= i < j < |steps| :: steps[i].id != steps[j].id
  }

  /** Some replacement step carries the id of another step of the list. */
  predicate Collides(steps: seq<Step>, index: nat, replacement: seq<Step>)
    requires index < |steps|
  {
    exists r, s | r in replacement && s in steps :: r.id == s.id && r.id != steps[index].id
  }

  /** The checks on a replacement, in their order; None when it is accepted. */
  function Refusal(world: World, steps: seq<Step>, index: nat, replacement: seq<Step>): Option<EE.State>
    requires index < |steps|
  {
    if replacement == [] then Some(EE.FAILED)
    else if exists r | r in replacement :: !world.knows(r) || (!world.readOnly(r) && !world.approved) then
      Some(EE.BLOCKED)
    else if |replacement| > MAX_REPLACEMENT then Some(EE.FAILED)
    else if !DistinctIds(replacement) then Some(EE.FAILED)
    else if Collides(steps, index, replacement) then Some(EE.FAILED)
    else None
  }

  function Spliced(steps: seq<Step>, index: nat, replacement: seq<Step>): seq<Step>
    requires index < |steps|
  {
    steps[..index] + replacement + steps[index + 1..]
  }

  /** How the whole execution ends: with a state, or with the exception of a replanner that
      came back with nothing. */
  datatype Ending = Ended(state: EE.State) | Raised

  function PlanFate(world: World, retries: nat, replans: nat, steps: seq<Step>, index: nat, replanCount: nat): Ending
    requires index <= |steps| && replanCount <= replans
    decreases replans - replanCount, |steps| - index
  {
    if index == |steps| then Ended(EE.VERIFIED)
    else
      var step := steps[index];
      match TryFate(world, replanCount, step, 0, retries + 1)
      case COMPLETED => PlanFate(world, retries, replans, steps, index + 1, replanCount)
      case Stopped(state) => Ended(state)
      case EXHAUSTED =>
        if !world.replans || replanCount >= replans then Ended(EE.FAILED)
        else
          match world.replan(replanCount, step, steps[index + 1..])
          case None => Raised
          case Some(replacement) =>
            var refusal := Refusal(world, steps, index, replacement);
            if refusal.Some? then Ended(refusal.value)
            else PlanFate(world, retries, replans, Spliced(steps, index, replacement), index, replanCount + 1)
  }

  /** The attempts made on one step, from attempt `k` on. */
  function Tries(world: World, replan: nat, step: Step, k: nat, n: nat): (r: nat)
    ensures k <= n ==> r <= n - k
    decreases n - k
  {
    if k >= n then 0
    else
      var c := world.child(replan, step, k);
      if (c.state == EE.VERIFIED && c.success) || c.state in {EE.BLOCKED, EE.RECOVERY_REQUIRED} then 1
      else 1 + Tries(world, replan, step, k + 1, n)
  }

  /** The child runs of the whole execution. */
  function ChildRuns(world: World, retries: nat, replans: nat, steps: seq<Step>, index: nat, replanCount: nat): nat
    requires index <= |steps| && replanCount <= replans
    decreases replans - replanCount, |steps| - index
  {
    if index == |steps| then 0
    else
      var step := steps[index];
      Tries(world, replanCount, step, 0, retries + 1) +
      match TryFate(world, replanCount, step, 0, retries + 1)
      case COMPLETED => ChildRuns(world, retries, replans, steps, index + 1, replanCount)
      case Stopped(state) => 0
      case EXHAUSTED =>
        if !world.replans || replanCount >= replans then 0
        else
          match world.replan(replanCount, step, steps[index + 1..])
          case None => 0
          case Some(replacement) =>
            if Refusal(world, steps, index, replacement).Some? then 0
            else ChildRuns(world, retries, replans, Spliced(steps, index, replacement), index, replanCount + 1)
  }

  /** No two observations share replan count, step id and attempt. */
  ghost predicate NoReuse(observations: seq<Observation>) {
    forall i, j | 0 <= i < j < |observations| :: Key(observations[i]) != Key(observations[j])
  }

  function Key(o: Observation): (nat, string, nat) {
    (o.replan, o.step.id, o.attempt)
  }

  /** Every observation of the current plan revision is of a step before `index`, or of
      the current step with an attempt below `attempt`. */
  ghost predicate Past(observations: seq<Observation>, steps: seq<Step>, index: nat, replanCount: nat, attempt: nat) {
    forall o | o in observations :: PastOne(o, steps, index, replanCount, attempt)
  }

  ghost predicate PastOne(o: Observation, steps: seq<Step>, index: nat, replanCount: nat, attempt: nat) {
    || o.replan < replanCount
    || (o.replan == replanCount && exists k | 0 <= k < index && k < |steps| :: o.step.id == steps[k].id)
    || (o.replan == replanCount && index < |steps| && o.step.id == steps[index].id && o.attempt < attempt)
  }

  ghost predicate Evidence(observations: seq<Observation>, s: Step) {
    exists o | o in observations :: o.step == s && o.child.state == EE.VERIFIED && o.child.success
  }

  lemma ObserveNext(observations: seq<Observation>, steps: seq<Step>, index: nat, replanCount: nat, attempt: nat,
                    o: Observation)
    requires index < |steps| && DistinctIds(steps)
    requires NoReuse(observations) && Past(observations, steps, index, replanCount, attempt)
    requires o.replan == replanCount && o.step == steps[index] && o.attempt == attempt
    ensures NoReuse(observations + [o])
    ensures Past(observations + [o], steps, index, replanCount, attempt + 1)
  {
    forall p | p in observations ensures Key(p) != Key(o) {
      assert PastOne(p, steps, index, replanCount, attempt);
    }
    forall p | p in observations + [o] ensures PastOne(p, steps, index, replanCount, attempt + 1) {
      assert p == o || PastOne(p, steps, index, replanCount, attempt);
    }
  }

  lemma PastAdvance(observations: seq<Observation>, steps: seq<Step>, index: nat, replanCount: nat, attempt: nat)
    requires index < |steps| && Past(observations, steps, index, replanCount, attempt)
    ensures Past(observations, steps, index + 1, replanCount, 0)
  {
    forall o | o in observations ensures PastOne(o, steps, index + 1, replanCount, 0) {
      assert PastOne(o, steps, index, replanCount, attempt);
      if o.replan == replanCount && o.step.id == steps[index].id {
        assert o.step.id == steps[index].id;
      }
    }
  }

  lemma PastReplan(observations: seq<Observation>, steps: seq<Step>, index: nat, replanCount: nat, attempt: nat,
                   spliced: seq<Step>)
    requires Past(observations, steps, index, replanCount, attempt)
    ensures Past(observations, spliced, index, replanCount + 1, 0)
  {
    forall o | o in observations ensures PastOne(o, spliced, index, replanCount + 1, 0) {
      assert PastOne(o, steps, index, replanCount, attempt);
    }
  }

  /** A replacement that passes the checks keeps the step ids distinct. */
  lemma SpliceDistinct(steps: seq<Step>, index: nat, replacement: seq<Step>)
    requires index < |steps| && DistinctIds(steps) && DistinctIds(replacement)
    requires !Collides(steps, index, replacement)
    ensures DistinctIds(Spliced(steps, index, replacement))
  {
    var out := Spliced(steps, index, replacement);
    forall r, k | r in replacement && 0 <= k < |steps| && k != index ensures r.id != steps[k].id {
      assert steps[k] in steps;
      assert steps[k].id != steps[index].id;
    }
    forall i, j | 0 <= i < j < |out| ensures out[i].id != out[j].id {
      SpliceAt(steps, index, replacement, i);
      SpliceAt(steps, index, replacement, j);
    }
  }

  lemma SpliceAt(steps: seq<Step>, index: nat, replacement: seq<Step>, i: nat)
    requires index < |steps| && i < |Spliced(steps, index, replacement)|
    ensures Spliced(steps, index, replacement)[i] ==
            if i < index then steps[i]
            else if i < index + |replacement| then replacement[i - index]
            else steps[i - |replacement| + 1]
    ensures index <= i < index + |replacement| ==> Spliced(steps, index, replacement)[i] in replacement
  {
  }

  /** The attempts on one step. */
  method AttemptStep(world: World, replanCount: nat, steps: seq<Step>, index: nat, retries: nat,
                     before: seq<Observation>)
    returns (outcome: Try, observations: seq<Observation>)
    requires index < |steps|
    ensures outcome == TryFate(world, replanCount, steps[index], 0, retries + 1)
    ensures before <= observations
            && |observations| == |before| + Tries(world, replanCount, steps[index], 0, retries + 1)
    ensures outcome == COMPLETED ==> Evidence(observations, steps[index])
    ensures DistinctIds(steps) && NoReuse(before) && Past(before, steps, index, replanCount, 0) ==>
              NoReuse(observations) && Past(observations, steps, index, replanCount, retries + 1)
    ensures forall k | |before| <= k < |observations| ::
              && observations[k] == Observed(world, replanCount, steps[index], k - |before|)
              && (k < |observations| - 1 ==> observations[k].GoesOn())
    ensures var last := Last(observations);
            && |before| < |observations| <= |before| + retries + 1
            && (outcome == COMPLETED <==> last.child.state == EE.VERIFIED && last.child.success)
            && (outcome.Stopped? <==> last.child.state in {EE.BLOCKED, EE.RECOVERY_REQUIRED})
            && (outcome.Stopped? ==> outcome.state == last.child.state)
            && (outcome == EXHAUSTED ==> |observations| == |before| + retries + 1)
  {
    hide NoReuse, Past;
    var step := steps[index];
    observations := before;
    ghost var good := DistinctIds(steps) && NoReuse(before) && Past(before, steps, index, replanCount, 0);
    var attempt := 0;
    while attempt < retries + 1
      invariant 0 <= attempt <= retries + 1
      invariant before <= observations && |observations| == |before| + attempt
      invariant forall k | |before| <= k < |observations| ::
                  observations[k] == Observed(world, replanCount, step, k - |before|) && observations[k].GoesOn()
      invariant TryFate(world, replanCount, step, attempt, retries + 1) ==
                TryFate(world, replanCount, step, 0, retries + 1)
      invariant attempt + Tries(world, replanCount, step, attempt, retries + 1) ==
                Tries(world, replanCount, step, 0, retries + 1)
      invariant good ==> NoReuse(observations) && Past(observations, steps, index, replanCount, attempt)
    {
      var child := world.child(replanCount, step, attempt);
      var o := Observation(replanCount, step, attempt, child);
      if good {
        ObserveNext(observations, steps, index, replanCount, attempt, o);
        PastLater(observations + [o], steps, index, replanCount, attempt + 1, retries + 1);
      }
      observations := observations + [o];
      assert o in observations;
      if child.state == EE.VERIFIED && child.success {
        return COMPLETED, observations;
      }
      if child.state in {EE.BLOCKED, EE.RECOVERY_REQUIRED} {
        return Stopped(child.state), observations;
      }
      attempt := attempt + 1;
    }
    return EXHAUSTED, observations;
  }

  lemma PastLater(observations: seq<Observation>, steps: seq<Step>, index: nat, replanCount: nat, attempt: nat,
                  later: nat)
    requires Past(observations, steps, index, replanCount, attempt) && attempt <= later
    ensures Past(observations, steps, index, replanCount, later)
  {
    forall o | o in observations ensures PastOne(o, steps, index, replanCount, later) {
      assert PastOne(o, steps, index, replanCount, attempt);
    }
  }

  /** Child runs still possible: each step ahead, and each step a replan can add, has its attempts. */
  function Budget(retries: nat, ahead: nat, replansLeft: nat): nat {
    (retries + 1) * (ahead + MAX_REPLACEMENT * replansLeft)
  }

  lemma BudgetStep(retries: nat, ahead: nat, replansLeft: nat)
    ensures Budget(retries, ahead + 1, replansLeft) == Budget(retries, ahead, replansLeft) + retries + 1
  {
  }

  lemma BudgetReplan(retries: nat, ahead: nat, added: nat, replansLeft: nat)
    requires added <= MAX_REPLACEMENT
    ensures Budget(retries, ahead + added, replansLeft) + retries + 1 <= Budget(retries, ahead + 1, replansLeft + 1)
  {
    assert Budget(retries, ahead + 1, replansLeft + 1) - Budget(retries, ahead + added, replansLeft) ==
           (retries + 1) * (MAX_REPLACEMENT + 1 - added);
  }

  /** The bound on child runs. */
  lemma {:induction false} RunsBounded(world: World, retries: nat, replans: nat, steps: seq<Step>, index: nat,
                                       replanCount: nat)
    requires index <= |steps| && replanCount <= replans
    ensures ChildRuns(world, retries, replans, steps, index, replanCount) <=
            (retries + 1) * (|steps| - index + MAX_REPLACEMENT * (replans - replanCount))
    decreases replans - replanCount, |steps| - index
  {
    hide TryFate, Tries, Refusal;
    var ahead, left := |steps| - index, replans - replanCount;
    assert Budget(retries, ahead, left) == (retries + 1) * (ahead + MAX_REPLACEMENT * left);
    if index < |steps| {
      var step := steps[index];
      BudgetStep(retries, ahead - 1, left);
      match TryFate(world, replanCount, step, 0, retries + 1) {
        case COMPLETED =>
          RunsBounded(world, retries, replans, steps, index + 1, replanCount);
        case Stopped(_) =>
        case EXHAUSTED =>
          if world.replans && replanCount < replans {
            var answer := world.replan(replanCount, step, steps[index + 1..]);
            if answer.Some? && Refusal(world, steps, index, answer.value).None? {
              var replacement := answer.value;
              AcceptedShort(world, steps, index, replacement);
              BudgetReplan(retries, ahead - 1, |replacement|, left - 1);
              RunsBounded(world, retries, replans, Spliced(steps, index, replacement), index, replanCount + 1);
            }
          }
      }
    }
  }

  lemma AcceptedShort(world: World, steps: seq<Step>, index: nat, replacement: seq<Step>)
    requires index < |steps| && Refusal(world, steps, index, replacement).None?
    ensures |replacement| <= MAX_REPLACEMENT
  {
  }

  lemma EvidenceKept(steps: seq<Step>, before: seq<Observation>, after: seq<Observation>, n: nat)
    requires n <= |steps| && before <= after
    requires forall k | 0 <= k < n :: Evidence(before, steps[k])
    ensures forall k | 0 <= k < n :: Evidence(after, steps[k])
  {
    assert forall o | o in before :: o in after;
  }

  /** The planner's own steps, and replacements that are known and read-only or approved. */
  ghost predicate AllCleared(world: World, plan: seq<Step>, steps: seq<Step>) {
    forall s | s in steps :: s in plan || (world.knows(s) && (world.readOnly(s) || world.approved))
  }

  /** Every observation is of a child run of this execution. */
  predicate Carried(world: World, retries: nat, replanCount: nat, observations: seq<Observation>) {
    forall o | o in observations ::
      o.child == world.child(o.replan, o.step, o.attempt) && o.replan <= replanCount && o.attempt <= retries
  }

  /** None of the first `n` observations ends the execution. */
  predicate Running(observations: seq<Observation>, n: int) {
    forall k | 0 <= k < n && k < |observations| ::
      observations[k].child.state !in {EE.BLOCKED, EE.RECOVERY_REQUIRED}
  }

  lemma AttemptsCarried(world: World, retries: nat, replanCount: nat, step: Step, before: seq<Observation>,
                        after: seq<Observation>)
    requires Carried(world, retries, replanCount, before) && Running(before, |before|) && before < after
    requires |after| <= |before| + retries + 1
    requires forall k | |before| <= k < |after| ::
               && after[k] == Observed(world, replanCount, step, k - |before|)
               && (k < |after| - 1 ==> after[k].GoesOn())
    ensures Carried(world, retries, replanCount, after) && Running(after, |after| - 1)
    ensures Running(after, |after|) <==> Last(after).child.state !in {EE.BLOCKED, EE.RECOVERY_REQUIRED}
  {
    forall o | o in after ensures o in before || exists k :: |before| <= k < |after| && after[k] == o {
      var k :| 0 <= k < |after| && after[k] == o;
      assert k < |before| ==> before[k] == o;
    }
    assert forall k | 0 <= k < |before| :: after[k] == before[k];
  }

  ghost predicate OnlyCleared(world: World, plan: seq<Step>, observations: seq<Observation>) {
    forall o | o in observations ::
      o.step in plan || (world.knows(o.step) && (world.readOnly(o.step) || world.approved))
  }

  /** What the loop keeps of steps and observations, whatever the plan's ids. */
  ghost predicate Sound(world: World, plan: seq<Step>, retries: nat, replanCount: nat, steps: seq<Step>,
                        observations: seq<Observation>)
  {
    && AllCleared(world, plan, steps) && OnlyCleared(world, plan, observations)
    && Carried(world, retries, replanCount, observations) && Running(observations, |observations| - 1)
  }

  lemma NothingNew(world: World, plan: seq<Step>, retries: nat)
    ensures Sound(world, plan, retries, 0, plan, []) && Running([], 0)
  {
  }

  lemma ObservedCleared(world: World, plan: seq<Step>, steps: seq<Step>, index: nat, before: seq<Observation>,
                        after: seq<Observation>)
    requires index < |steps| && AllCleared(world, plan, steps) && OnlyCleared(world, plan, before)
    requires before <= after && forall k | |before| <= k < |after| :: after[k].step == steps[index]
    ensures OnlyCleared(world, plan, after)
  {
    assert steps[index] in steps;
    forall o | o in after ensures o in before || o.step == steps[index] {
      var k :| 0 <= k < |after| && after[k] == o;
      assert k < |before| ==> before[k] == o;
    }
  }

  lemma SoundAttempts(world: World, plan: seq<Step>, retries: nat, replanCount: nat, steps: seq<Step>, index: nat,
                      before: seq<Observation>, after: seq<Observation>)
    requires index < |steps| && Sound(world, plan, retries, replanCount, steps, before)
    requires Running(before, |before|) && before < after && |after| <= |before| + retries + 1
    requires forall k | |before| <= k < |after| ::
               && after[k] == Observed(world, replanCount, steps[index], k - |before|)
               && (k < |after| - 1 ==> after[k].GoesOn())
    ensures Sound(world, plan, retries, replanCount, steps, after)
    ensures Running(after, |after|) <==> Last(after).child.state !in {EE.BLOCKED, EE.RECOVERY_REQUIRED}
  {
    hide AllCleared, OnlyCleared, Carried, Running, Observation.GoesOn;
    ObservedCleared(world, plan, steps, index, before, after);
    AttemptsCarried(world, retries, replanCount, steps[index], before, after);
  }

  lemma SoundReplaced(world: World, plan: seq<Step>, retries: nat, replanCount: nat, steps: seq<Step>, index: nat,
                      observations: seq<Observation>, replacement: seq<Step>)
    requires index < |steps| && Sound(world, plan, retries, replanCount, steps, observations)
    requires Refusal(world, steps, index, replacement).None?
    ensures Sound(world, plan, retries, replanCount + 1, Spliced(steps, index, replacement), observations)
  {
    hide DistinctIds, Collides;
    forall s | s in Spliced(steps, index, replacement) ensures s in replacement || s in steps {
    }
  }

  /** The attempts are used up exactly when every one of them leaves room for another. */
  lemma {:induction false} ExhaustedIs(world: World, replan: nat, step: Step, k: nat, n: nat)
    ensures TryFate(world, replan, step, k, n) == EXHAUSTED <==>
            forall i | k <= i < n :: Observed(world, replan, step, i).GoesOn()
    decreases n - k
  {
    if k < n {
      var o := Observed(world, replan, step, k);
      ExhaustedIs(world, replan, step, k + 1, n);
    }
  }

  /** What follows once a step has used up its attempts. Without a replanner, or with its replans used
      up, the execution ends FAILED; a replanner that comes back with nothing raises. An unknown or
      an unapproved writing step in a replacement ends it BLOCKED; an empty one, more than twelve
      steps, an id twice or another step's id end it FAILED. None of these observes anything more.
      Any other replacement takes the step's place. */
  lemma ExhaustedFate(world: World, retries: nat, replans: nat, steps: seq<Step>, index: nat, replanCount: nat)
    requires index < |steps| && replanCount <= replans
    requires forall k | 0 <= k < retries + 1 :: Observed(world, replanCount, steps[index], k).GoesOn()
    ensures var tries := Tries(world, replanCount, steps[index], 0, retries + 1);
            var fate := PlanFate(world, retries, replans, steps, index, replanCount);
            var children := ChildRuns(world, retries, replans, steps, index, replanCount);
            var answer, id := world.replan(replanCount, steps[index], steps[index + 1..]), steps[index].id;
            if !world.replans || replanCount == replans then
              fate == Ended(EE.FAILED) && children == tries
            else if answer.None? then
              fate == Raised && children == tries
            else if exists r | r in answer.value :: !(world.knows(r) && (world.readOnly(r) || world.approved)) then
              fate == Ended(EE.BLOCKED) && children == tries
            else if answer.value == [] || |answer.value| > 12
                    || (exists i, j :: 0 <= i < j < |answer.value| && answer.value[i].id == answer.value[j].id)
                    || (exists i, k :: 0 <= i < |answer.value| && 0 <= k < |steps| && k != index
                                       && answer.value[i].id == steps[k].id && answer.value[i].id != id) then
              fate == Ended(EE.FAILED) && children == tries
            else
              var next := steps[..index] + answer.value + steps[index + 1..];
              && fate == PlanFate(world, retries, replans, next, index, replanCount + 1)
              && children == tries + ChildRuns(world, retries, replans, next, index, replanCount + 1)
  {
    hide TryFate, Tries, Observation.GoesOn;
    ExhaustedIs(world, replanCount, steps[index], 0, retries + 1);
    var answer := world.replan(replanCount, steps[index], steps[index + 1..]);
    if answer.Some? { CollidesAt(steps, index, answer.value); }
  }

  lemma CollidesAt(steps: seq<Step>, index: nat, replacement: seq<Step>)
    requires index < |steps|
    ensures Collides(steps, index, replacement) <==>
            exists i, k :: 0 <= i < |replacement| && 0 <= k < |steps| && k != index
                           && replacement[i].id == steps[k].id && replacement[i].id != steps[index].id
  {
    if r, s :| r in replacement && s in steps && r.id == s.id && r.id != steps[index].id {
      var i :| 0 <= i < |replacement| && replacement[i] == r;
      var k :| 0 <= k < |steps| && steps[k] == s;
    }
    if i, k :| 0 <= i < |replacement| && 0 <= k < |steps| && k != index
               && replacement[i].id == steps[k].id && replacement[i].id != steps[index].id {
      assert replacement[i] in replacement && steps[k] in steps;
    }
  }

  /** What the loop keeps of ids: none twice among the steps, and no child run asked for twice. */
  ghost predicate Fresh(steps: seq<Step>, index: nat, replanCount: nat, observations: seq<Observation>) {
    DistinctIds(steps) && NoReuse(observations) && Past(observations, steps, index, replanCount, 0)
  }

  lemma FreshAdvance(steps: seq<Step>, index: nat, replanCount: nat, attempt: nat, observations: seq<Observation>)
    requires index < |steps| && DistinctIds(steps) && NoReuse(observations)
    requires Past(observations, steps, index, replanCount, attempt)
    ensures Fresh(steps, index + 1, replanCount, observations)
  {
    hide DistinctIds, NoReuse, Past;
    PastAdvance(observations, steps, index, replanCount, attempt);
  }

  lemma FreshReplaced(world: World, steps: seq<Step>, index: nat, replanCount: nat, attempt: nat,
                      observations: seq<Observation>, replacement: seq<Step>)
    requires index < |steps| && DistinctIds(steps) && NoReuse(observations)
    requires Past(observations, steps, index, replanCount, attempt)
    requires Refusal(world, steps, index, replacement).None?
    ensures Fresh(Spliced(steps, index, replacement), index, replanCount + 1, observations)
  {
    hide DistinctIds, NoReuse, Past, Collides, Spliced;
    SpliceDistinct(steps, index, replacement);
    PastReplan(observations, steps, index, replanCount, attempt, Spliced(steps, index, replacement));
  }

  /** The loop over the steps. */
  method Adapt(world: World, plan: seq<Step>, retries: nat, replans: nat)
    returns (ending: Ending, observations: seq<Observation>, replanCount: nat, steps: seq<Step>)
    ensures ending == PlanFate(world, retries, replans, plan, 0, 0) && replanCount <= replans
    ensures |observations| == ChildRuns(world, retries, replans, plan, 0, 0)
    ensures |steps| <= |plan| + (MAX_REPLACEMENT - 1) * replanCount
    ensures DistinctIds(plan) ==> DistinctIds(steps) && NoReuse(observations)
    ensures ending == Ended(EE.VERIFIED) ==> forall s | s in steps :: Evidence(observations, s)
    ensures Sound(world, plan, retries, replanCount, steps, observations)
    ensures Running(observations, |observations|) ||
            (observations != [] && ending == Ended(Last(observations).child.state))
  {
    hide NoReuse, Past, DistinctIds, Collides, Evidence, TryFate, Tries, Sound, Observation.GoesOn, Running,
         Spliced;
    steps, observations, replanCount := plan, [], 0;
    ghost var good := DistinctIds(plan);
    var index := 0;
    NothingNew(world, plan, retries);
    assert good ==> Fresh(plan, 0, 0, []) by { NothingObserved(plan); }
    while index < |steps|
      invariant 0 <= index <= |steps| && replanCount <= replans
      invariant |steps| <= |plan| + (MAX_REPLACEMENT - 1) * replanCount
      invariant PlanFate(world, retries, replans, steps, index, replanCount) ==
                PlanFate(world, retries, replans, plan, 0, 0)
      invariant |observations| + ChildRuns(world, retries, replans, steps, index, replanCount) ==
                ChildRuns(world, retries, replans, plan, 0, 0)
      invariant good ==> Fresh(steps, index, replanCount, observations)
      invariant forall k | 0 <= k < index :: Evidence(observations, steps[k])
      invariant Sound(world, plan, retries, replanCount, steps, observations)
      invariant Running(observations, |observations|)
      decreases replans - replanCount, |steps| - index
    {
      ghost var before := observations;
      var outcome: Try;
      outcome, observations := AttemptStep(world, replanCount, steps, index, retries, observations);
      EvidenceKept(steps, before, observations, index);
      SoundAttempts(world, plan, retries, replanCount, steps, index, before, observations);
      if outcome == COMPLETED {
        if good { FreshAdvance(steps, index, replanCount, retries + 1, observations); }
        index := index + 1;
        continue;
      }
      if outcome.Stopped? {
        StoppedNotVerified(world, replanCount, steps[index], 0, retries + 1);
        return Ended(outcome.state), observations, replanCount, steps;
      }
      if !world.replans || replanCount >= replans {
        return Ended(EE.FAILED), observations, replanCount, steps;
      }
      var answer := world.replan(replanCount, steps[index], steps[index + 1..]);
      if answer.None? {
        return Raised, observations, replanCount, steps;
      }
      var replacement := answer.value;
      var refusal := Refusal(world, steps, index, replacement);
      if refusal.Some? {
        return Ended(refusal.value), observations, replanCount, steps;
      }
      SoundReplaced(world, plan, retries, replanCount, steps, index, observations, replacement);
      if good { FreshReplaced(world, steps, index, replanCount, retries + 1, observations, replacement); }
      SplicedShape(steps, index, replacement);
      steps := Spliced(steps, index, replacement);
      replanCount := replanCount + 1;
    }
    return Ended(EE.VERIFIED), observations, replanCount, steps;
  }

  lemma SplicedShape(steps: seq<Step>, index: nat, replacement: seq<Step>)
    requires index < |steps|
    ensures |Spliced(steps, index, replacement)| == |steps| + |replacement| - 1
    ensures forall k | 0 <= k < index :: Spliced(steps, index, replacement)[k] == steps[k]
  {
  }

  /** `execute_adaptive_plan`. It ends, with at most so many child runs; no replan count, step
      id and attempt comes twice; VERIFIED means a verified observation for every step of the
      list it ended with; and no step runs but the plan's own and replacements that are known
      and read-only or approved. */
  method ExecuteAdaptivePlan(world: World, plan: seq<Step>, maxRetries: int, maxReplans: int)
    returns (ending: Ending, observations: seq<Observation>, replanCount: nat, steps: seq<Step>)
    ensures var retries, replans := Clamp(maxRetries, 2), Clamp(maxReplans, 2);
            && ending == PlanFate(world, retries, replans, plan, 0, 0)
            && replanCount <= replans
            && |observations| == ChildRuns(world, retries, replans, plan, 0, 0)
            && |observations| <= (retries + 1) * (|plan| + 12 * replans)
            && |steps| <= |plan| + 11 * replanCount
    ensures DistinctIds(plan) ==> DistinctIds(steps) && NoReuse(observations)
    ensures ending == Ended(EE.VERIFIED) ==> forall s | s in steps ::
              exists o | o in observations :: o.step == s && o.child.state == EE.VERIFIED && o.child.success
    ensures forall o | o in observations ::
              o.child == world.child(o.replan, o.step, o.attempt) && o.replan <= replanCount
              && o.attempt <= Clamp(maxRetries, 2)
    ensures forall k | 0 <= k < |observations| && observations[k].child.state in {EE.BLOCKED, EE.RECOVERY_REQUIRED} ::
              k == |observations| - 1 && ending == Ended(observations[k].child.state)
    ensures forall s | s in steps :: s in plan || (world.knows(s) && (world.readOnly(s) || world.approved))
    ensures forall o | o in observations ::
              o.step in plan || (world.knows(o.step) && (world.readOnly(o.step) || world.approved))
  {
    hide PlanFate, ChildRuns, DistinctIds, NoReuse;
    var retries, replans := Clamp(maxRetries, MAX_RETRIES), Clamp(maxReplans, MAX_REPLANS);
    RunsBounded(world, retries, replans, plan, 0, 0);
    ending, observations, replanCount, steps := Adapt(world, plan, retries, replans);
  }

  lemma NothingObserved(plan: seq<Step>)
    ensures DistinctIds(plan) ==> Fresh(plan, 0, 0, [])
  {
  }

  lemma {:induction false} StoppedNotVerified(world: World, replan: nat, step: Step, k: nat, n: nat)
    ensures TryFate(world, replan, step, k, n).Stopped? ==>
              TryFate(world, replan, step, k, n).state in {EE.BLOCKED, EE.RECOVERY_REQUIRED}
    decreases n - k
  {
    if k < n { StoppedNotVerified(world, replan, step, k + 1, n); }
  }

  // ------------------------------------------------------------ child execution ids

  /** Step id and tool as the child's execution id joins them. */
  function Joined(step: Step): string {
    step.id + ":" + step.tool
  }

  /** The execution id of the child run behind an observation. */
  function ChildId(execution: string, o: Observation): string {
    execution + (":replan-" + (Decimal(o.replan) + (":" + (Joined(o.step) + (":attempt-" + Decimal(o.attempt + 1))))))
  }

  lemma Separated(x: string, a: string, c: char, i: nat)
    requires i <= |x| + |a|
    ensures (x + ([c] + a))[i] == if i < |x| then x[i] else if i == |x| then c else a[i - |x| - 1]
  {
  }

  /** Texts parted at their first, or their last, separator. */
  lemma SeparatorAgrees(x: string, a: string, y: string, b: string, c: char)
    requires x + ([c] + a) == y + ([c] + b)
    requires (c !in x && c !in y) || (c !in a && c !in b)
    ensures x == y && a == b
  {
    var s := x + ([c] + a);
    assert |s| == |x| + 1 + |a| && |y + ([c] + b)| == |y| + 1 + |b|;
    Separated(x, a, c, |x|);
    Separated(y, b, c, |x|);
    Separated(x, a, c, |y|);
    Separated(y, b, c, |y|);
    assert s[..|x|] == x && (y + ([c] + b))[..|y|] == y;
    assert s[|x| + 1..] == a && (y + ([c] + b))[|y| + 1..] == b;
  }

  lemma DecimalsDiffer(m: nat, n: nat)
    ensures Decimal(m) == Decimal(n) <==> m == n
    ensures ':' !in Decimal(m) && '-' !in Decimal(m)
  {
    hide Decimal, NumberOf;
    NumberOfDecimal(m);
    NumberOfDecimal(n);
  }

  lemma SameBehind(front: string, a: string, b: string)
    requires front + a == front + b
    ensures a == b
  {
    assert (front + a)[|front|..] == a && (front + b)[|front|..] == b;
  }

  /** Two child runs have one execution id exactly when replan count, attempt and joined text agree. */
  lemma ChildIdsAgree(execution: string, a: Observation, b: Observation)
    ensures ChildId(execution, a) == ChildId(execution, b) <==>
            a.replan == b.replan && a.attempt == b.attempt && Joined(a.step) == Joined(b.step)
  {
    hide Decimal, Joined;
    var tailA, tailB := ":attempt-" + Decimal(a.attempt + 1), ":attempt-" + Decimal(b.attempt + 1);
    var restA, restB := Joined(a.step) + tailA, Joined(b.step) + tailB;
    DecimalsDiffer(a.replan, b.replan);
    DecimalsDiffer(b.replan, a.replan);
    if ChildId(execution, a) == ChildId(execution, b) {
      SameBehind(execution, ":replan-" + (Decimal(a.replan) + (":" + restA)),
                 ":replan-" + (Decimal(b.replan) + (":" + restB)));
      SameBehind(":replan-", Decimal(a.replan) + (":" + restA), Decimal(b.replan) + (":" + restB));
      SeparatorAgrees(Decimal(a.replan), restA, Decimal(b.replan), restB, ':');
      AttemptsAgree(Joined(a.step), a.attempt, Joined(b.step), b.attempt);
    }
  }

  lemma AttemptsAgree(x: string, m: nat, y: string, n: nat)
    requires x + (":attempt-" + Decimal(m + 1)) == y + (":attempt-" + Decimal(n + 1))
    ensures x == y && m == n
  {
    hide Decimal;
    DecimalsDiffer(m + 1, n + 1);
    DecimalsDiffer(n + 1, m + 1);
    assert x + (":attempt-" + Decimal(m + 1)) == (x + ":attempt") + ("-" + Decimal(m + 1));
    assert y + (":attempt-" + Decimal(n + 1)) == (y + ":attempt") + ("-" + Decimal(n + 1));
    SeparatorAgrees(x + ":attempt", Decimal(m + 1), y + ":attempt", Decimal(n + 1), '-');
    assert (x + ":attempt")[..|x|] == x && (y + ":attempt")[..|y|] == y;
  }

  /** Joined text tells steps apart whose ids have no colon, or whose tools have none. */
  lemma JoinedTellsApart(s: Step, t: Step)
    requires (':' !in s.id && ':' !in t.id) || (':' !in s.tool && ':' !in t.tool)
    ensures Joined(s) == Joined(t) <==> s == t
  {
    if Joined(s) == Joined(t) {
      assert Joined(s) == s.id + ([':'] + s.tool) && Joined(t) == t.id + ([':'] + t.tool);
      SeparatorAgrees(s.id, s.tool, t.id, t.tool, ':');
    }
  }

  /** No child execution id is used twice where no step id has a colon, or no tool has. */
  lemma ChildIdsOnce(execution: string, observations: seq<Observation>)
    requires NoReuse(observations)
    requires || (forall o | o in observations :: ':' !in o.step.id)
             || (forall o | o in observations :: ':' !in o.step.tool)
    ensures forall i, j | 0 <= i < j < |observations| ::
              ChildId(execution, observations[i]) != ChildId(execution, observations[j])
  {
    hide ChildId, Joined;
    forall i, j | 0 <= i < j < |observations|
      ensures ChildId(execution, observations[i]) != ChildId(execution, observations[j])
    {
      var a, b := observations[i], observations[j];
      assert a in observations && b in observations;
      ChildIdsAgree(execution, a, b);
      JoinedTellsApart(a.step, b.step);
      assert Key(a) != Key(b);
    }
  }

  /** With colons in both, two steps with different ids can share a child execution id. */
  lemma SharedChildId(execution: string, child: Child)
    ensures var s, t := EE.Step("a:b", "c"), EE.Step("a", "b:c");
            && s.id != t.id
            && ChildId(execution, Observation(0, s, 0, child)) == ChildId(execution, Observation(0, t, 0, child))
  {
    hide Decimal, ChildId;
    var s, t := EE.Step("a:b", "c"), EE.Step("a", "b:c");
    assert Joined(s) == "a:b:c" == Joined(t);
    assert |s.id| == 3 && |t.id| == 1;
    ChildIdsAgree(execution, Observation(0, s, 0, child), Observation(0, t, 0, child));
  }

  // ------------------------------------------------------------- the bound is reached

  /** Every attempt fails until the replans are used up; then the last attempt on each step
      verifies. */
  function Stubborn(retries: nat, replans: nat, spare: seq<seq<Step>>): World {
    World((r, step, k) => if r < replans || k < retries then Child(EE.FAILED, false) else Child(EE.VERIFIED, true),
          true, (r: nat, step: Step, rest: seq<Step>) => Some(if r < |spare| then spare[r] else []),
          step => true, step => true, false)
  }

  /** Full replacements whose ids are new each time. */
  predicate AllNew(plan: seq<Step>, spare: seq<seq<Step>>) {
    && (forall r | 0 <= r < |spare| :: |spare[r]| == MAX_REPLACEMENT && DistinctIds(spare[r]))
    && (forall r, s, t | 0 <= r < |spare| && s in spare[r] && t in plan :: s.id != t.id)
    && (forall q, r, s, t | 0 <= q < r < |spare| && s in spare[r] && t in spare[q] :: s.id != t.id)
  }

  lemma {:induction false} StubbornTries(retries: nat, replans: nat, spare: seq<seq<Step>>, r: nat, step: Step, k: nat)
    requires k <= retries
    ensures Tries(Stubborn(retries, replans, spare), r, step, k, retries + 1) == retries + 1 - k
    ensures TryFate(Stubborn(retries, replans, spare), r, step, k, retries + 1) ==
            if r < replans then EXHAUSTED else COMPLETED
    decreases retries - k
  {
    if k < retries { StubbornTries(retries, replans, spare, r, step, k + 1); }
  }

  lemma {:induction false} StubbornEnd(retries: nat, replans: nat, spare: seq<seq<Step>>, steps: seq<Step>, index: nat)
    requires index <= |steps|
    ensures ChildRuns(Stubborn(retries, replans, spare), retries, replans, steps, index, replans) ==
            (retries + 1) * (|steps| - index)
    decreases |steps| - index
  {
    hide Tries, TryFate, Stubborn;
    if index < |steps| {
      StubbornTries(retries, replans, spare, replans, steps[index], 0);
      StubbornEnd(retries, replans, spare, steps, index + 1);
    }
  }

  /** Where the ids of a list of steps come from after `r` replans. */
  predicate Origins(steps: seq<Step>, plan: seq<Step>, spare: seq<seq<Step>>, r: nat) {
    r <= |spare| && forall s | s in steps :: s in plan || exists q :: 0 <= q < r && s in spare[q]
  }

  lemma Accepted(retries: nat, replans: nat, plan: seq<Step>, spare: seq<seq<Step>>, steps: seq<Step>, r: nat)
    requires AllNew(plan, spare) && r < |spare| && steps != [] && Origins(steps, plan, spare, r)
    ensures Refusal(Stubborn(retries, replans, spare), steps, 0, spare[r]).None?
    ensures Origins(Spliced(steps, 0, spare[r]), plan, spare, r + 1)
    ensures |Spliced(steps, 0, spare[r])| == |steps| - 1 + MAX_REPLACEMENT
  {
    forall s, t | s in spare[r] && t in steps ensures s.id != t.id {
      if t !in plan {
        var q :| 0 <= q < r && t in spare[q];
      }
    }
    forall s | s in Spliced(steps, 0, spare[r]) ensures s in plan || exists q :: 0 <= q < r + 1 && s in spare[q] {
      assert s in spare[r] || s in steps;
    }
  }

  lemma {:induction false} StubbornRuns(retries: nat, plan: seq<Step>, spare: seq<seq<Step>>, steps: seq<Step>, r: nat)
    requires AllNew(plan, spare) && steps != [] && r <= |spare| && Origins(steps, plan, spare, r)
    ensures ChildRuns(Stubborn(retries, |spare|, spare), retries, |spare|, steps, 0, r) ==
            (retries + 1) * (|steps| + MAX_REPLACEMENT * (|spare| - r))
    decreases |spare| - r
  {
    hide Tries, TryFate, Refusal, AllNew, Origins, Spliced, Stubborn, ChildRuns;
    if r == |spare| {
      StubbornEnd(retries, |spare|, spare, steps, 0);
    } else {
      Accepted(retries, |spare|, plan, spare, steps, r);
      var next := Spliced(steps, 0, spare[r]);
      StubbornStep(retries, spare, steps, r);
      StubbornRuns(retries, plan, spare, next, r + 1);
      Distribute(retries + 1, |steps| - 1 + MAX_REPLACEMENT + MAX_REPLACEMENT * (|spare| - (r + 1)));
      assert |next| + MAX_REPLACEMENT * (|spare| - (r + 1)) + 1 == |steps| + MAX_REPLACEMENT * (|spare| - r);
    }
  }

  lemma Distribute(a: nat, b: nat)
    ensures a + a * b == a * (b + 1)
  {
  }

  lemma StubbornStep(retries: nat, spare: seq<seq<Step>>, steps: seq<Step>, r: nat)
    requires r < |spare| && steps != []
    requires Refusal(Stubborn(retries, |spare|, spare), steps, 0, spare[r]).None?
    ensures ChildRuns(Stubborn(retries, |spare|, spare), retries, |spare|, steps, 0, r) ==
            retries + 1 +
              ChildRuns(Stubborn(retries, |spare|, spare), retries, |spare|, Spliced(steps, 0, spare[r]), 0, r + 1)
  {
    hide Tries, TryFate, Refusal, Spliced;
    StubbornTries(retries, |spare|, spare, r, steps[0], 0);
  }

  /** The bound is tight: for every non-empty plan, every retry limit and any number of full
      replacements with new ids, some tools need exactly that many child runs. */
  lemma BoundReached(retries: nat, plan: seq<Step>, spare: seq<seq<Step>>)
    requires plan != [] && AllNew(plan, spare)
    ensures exists world ::
              ChildRuns(world, retries, |spare|, plan, 0, 0) == (retries + 1) * (|plan| + MAX_REPLACEMENT * |spare|)
  {
    hide ChildRuns, Stubborn, AllNew;
    StubbornRuns(retries, plan, spare, plan, 0);
  }
}
