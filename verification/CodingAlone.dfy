/** A process of the races that nobody disturbs. */
module CodingAlone {
  import opened Text
  import opened ActionLifecycle
  import opened CodingBridge
  import opened CodingRaces

  /** The shared state as the sequential bridge sees it. */
  function View(now: Shared): Status {
    Status(Some(now.run), now.marker, now.life, now.calls)
  }

  /** Where the operation's process starts. */
  function First(op: Operation): Place
    requires !op.PersistReady?
  {
    match op
    case MarkApproved(_) => A0
    case MarkRejected => R1
    case Execute(_, _) => E0
    case RecoverStale => C1
  }

  /** What the outside answers a process at this place. */
  predicate Answer(p: Place, op: Operation) {
    match op
    case MarkApproved(matches) => matches
    case Execute(checks, worker) => if p == E7 then worker else checks
    case _ => true
  }

  /** Shared state and place after `n` steps of the process, and of no other. */
  function Alone(now: Shared, p: Place, pid: nat, op: Operation, n: nat): (Shared, Place)
    decreases n
  {
    if n == 0 then (now, p)
    else
      var (next, q) := Advance(now, p, pid, Answer(p, op));
      Alone(next, q, pid, op, n - 1)
  }

  /** The durable steps the process still has to take. */
  function Rest(now: Shared, p: Place, op: Operation): seq<CodingBridge.Step> {
    match p
    case A3 => [SetLife(APPROVED)]
    case R3 => if now.life in {POLICY_CHECKED, APPROVED} then [SetLife(BLOCKED)] else []
    case R4(_) => [SetLife(BLOCKED)]
    case E5 => [SetRun(EXECUTING), SetLife(CLAIMED), Call] + Outcome(op.Execute? && op.worker)
    case E6 => [SetLife(CLAIMED), Call] + Outcome(op.Execute? && op.worker)
    case E7 => [Call] + Outcome(op.Execute? && op.worker)
    case W1 => Outcome(true)
    case W2(_) => Outcome(true)
    case W3 => [SetLife(EXECUTED)]
    case F1(_) => Outcome(false)
    case F2(_, _) => Outcome(false)
    case I1 => [SetRun(INVALIDATED)] + BlockSteps(now.life)
    case I2(_) => [SetRun(INVALIDATED)] + BlockSteps(now.life)
    case B1 => BlockSteps(now.life)
    case B2(_) => [SetLife(BLOCKED)]
    case C2(_) => [SetLife(BLOCKED)]
    case DONE => []
    case _ => CodingBridge.Steps(View(now), op)
  }

  /** What a process that nobody disturbs knows at its place. */
  predicate Undisturbed(now: Shared, p: Place, op: Operation) {
    match p
    case A0 => op.MarkApproved?
    case A1 => op.MarkApproved? && now.life == POLICY_CHECKED
    case A2(seen) => op.MarkApproved? && now.life == POLICY_CHECKED && seen == now.run
    case A3 => now.life == POLICY_CHECKED
    case R1 => op == MarkRejected
    case R2(seen) => op == MarkRejected && seen == now.run
    case R3 => true
    case R4(at) => at == now.life
    case E0 => op.Execute?
    case E1 => op.Execute? && now.run == RUN_APPROVED
    case E2 => op.Execute? && now.run == RUN_APPROVED && op.checks
    case E3 => op.Execute? && now.run == RUN_APPROVED && op.checks && now.life == APPROVED
    case E4 => op.Execute? && now.run == RUN_APPROVED && op.checks && now.life == APPROVED
    case E5 => op.Execute? && now.life == APPROVED
    case E6 => op.Execute? && now.life == APPROVED && now.run == EXECUTING
    case E7 => op.Execute? && now.life == CLAIMED && now.run == EXECUTING
    case W1 => now.life == CLAIMED && now.run == EXECUTING
    case W2(seen) => now.life == CLAIMED && now.run == EXECUTING == seen
    case W3 => now.life == CLAIMED
    case F1(block) => now.life == CLAIMED && now.run == EXECUTING && block
    case F2(seen, block) => now.life == CLAIMED && now.run == EXECUTING == seen && block
    case I1 => now.run == RUN_APPROVED
    case I2(seen) => now.run == RUN_APPROVED == seen
    case B1 => true
    case B2(at) => at == now.life
    case C1 => op == RecoverStale
    case C2(at) => at == now.life
    case DONE => true
  }

  /** Places of an executor that records what its worker opened, or that it did not. */
  predicate Succeeding(p: Place) { p == W1 || p.W2? || p == W3 }

  predicate Failing(p: Place) { p.F1? || p.F2? }

  /** A step of an undisturbed process is a read, which leaves what it has to do, or the next of its
      durable steps. */
  predicate NextOf(now: Shared, p: Place, op: Operation, next: Shared, q: Place) {
    && Undisturbed(next, q, op)
    && (|| (View(next) == View(now) && Rest(next, q, op) == Rest(now, p, op))
        || (&& Rest(now, p, op) != [] && View(next) == Apply(View(now), Rest(now, p, op)[0])
            && Rest(next, q, op) == Rest(now, p, op)[1..]))
  }

  lemma ApprovingAlone(now: Shared, p: Place, pid: nat, op: Operation)
    requires Undisturbed(now, p, op) && Approving(p)
    ensures var (next, q) := Advance(now, p, pid, Answer(p, op)); NextOf(now, p, op, next, q)
  {
  }

  lemma RejectingAlone(now: Shared, p: Place, pid: nat, op: Operation)
    requires Undisturbed(now, p, op) && Rejecting(p)
    ensures var (next, q) := Advance(now, p, pid, Answer(p, op)); NextOf(now, p, op, next, q)
  {
  }

  lemma CheckingAlone(now: Shared, p: Place, pid: nat, op: Operation)
    requires Undisturbed(now, p, op) && Checking(p)
    ensures var (next, q) := Advance(now, p, pid, Answer(p, op)); NextOf(now, p, op, next, q)
  {
  }

  lemma MarkingAlone(now: Shared, p: Place, pid: nat, op: Operation)
    requires Undisturbed(now, p, op) && p == E4
    ensures var (next, q) := Advance(now, p, pid, Answer(p, op)); NextOf(now, p, op, next, q)
  {
  }

  lemma AheadAlone(now: Shared, p: Place, pid: nat, op: Operation)
    requires Undisturbed(now, p, op) && Ahead(p)
    ensures var (next, q) := Advance(now, p, pid, Answer(p, op)); NextOf(now, p, op, next, q)
  {
  }

  lemma SucceedingAlone(now: Shared, p: Place, pid: nat, op: Operation)
    requires Undisturbed(now, p, op) && Succeeding(p)
    ensures var (next, q) := Advance(now, p, pid, Answer(p, op)); NextOf(now, p, op, next, q)
  {
  }

  lemma FailingAlone(now: Shared, p: Place, pid: nat, op: Operation)
    requires Undisturbed(now, p, op) && Failing(p)
    ensures var (next, q) := Advance(now, p, pid, Answer(p, op)); NextOf(now, p, op, next, q)
  {
  }

  lemma BlockingAlone(now: Shared, p: Place, pid: nat, op: Operation)
    requires Undisturbed(now, p, op) && Blocking(p)
    ensures var (next, q) := Advance(now, p, pid, Answer(p, op)); NextOf(now, p, op, next, q)
  {
  }

  lemma InvalidatingAlone(now: Shared, p: Place, pid: nat, op: Operation)
    requires Undisturbed(now, p, op) && (p == I1 || p.I2? || p == DONE)
    ensures var (next, q) := Advance(now, p, pid, Answer(p, op)); NextOf(now, p, op, next, q)
  {
  }

  lemma NextAlone(now: Shared, p: Place, pid: nat, op: Operation)
    requires Undisturbed(now, p, op)
    ensures var (next, q) := Advance(now, p, pid, Answer(p, op)); NextOf(now, p, op, next, q)
  {
    hide Undisturbed, Advance, Answer, NextOf;
    if Approving(p) {
      ApprovingAlone(now, p, pid, op);
    } else if Rejecting(p) {
      RejectingAlone(now, p, pid, op);
    } else if Checking(p) {
      CheckingAlone(now, p, pid, op);
    } else if p == E4 {
      MarkingAlone(now, p, pid, op);
    } else if Ahead(p) {
      AheadAlone(now, p, pid, op);
    } else if Succeeding(p) {
      SucceedingAlone(now, p, pid, op);
    } else if Failing(p) {
      FailingAlone(now, p, pid, op);
    } else if Blocking(p) {
      BlockingAlone(now, p, pid, op);
    } else {
      InvalidatingAlone(now, p, pid, op);
    }
  }

  /** Of what it had to do, an undisturbed process has done some first part, in order. */
  lemma {:induction false} AlonePlays(now: Shared, p: Place, pid: nat, op: Operation, n: nat) returns (d: nat)
    requires Undisturbed(now, p, op)
    ensures var (t, q) := Alone(now, p, pid, op, n);
            && d <= |Rest(now, p, op)| && Undisturbed(t, q, op)
            && View(t) == Play(View(now), Rest(now, p, op)[..d])
            && Rest(t, q, op) == Rest(now, p, op)[d..]
    decreases n
  {
    hide Undisturbed, Advance, Answer, Rest, Apply, Play, View;
    var todo := Rest(now, p, op);
    if n == 0 {
      NothingPlayed(View(now));
      return 0;
    }
    var (next, q) := Advance(now, p, pid, Answer(p, op));
    NextAlone(now, p, pid, op);
    d := AlonePlays(next, q, pid, op, n - 1);
    if Rest(next, q, op) != todo || View(next) != View(now) {
      PlayedNext(View(now), todo, d);
      d := d + 1;
    }
  }

  lemma NothingPlayed(s: Status)
    ensures Play(s, []) == s
  {
  }

  lemma PlayedNext(s: Status, todo: seq<CodingBridge.Step>, d: nat)
    requires d < |todo|
    ensures Play(Apply(s, todo[0]), todo[1..][..d]) == Play(s, todo[..d + 1])
    ensures todo[1..][d..] == todo[d + 1..]
  {
    assert todo[1..][..d] == todo[..d + 1][1..];
  }

  /** Steps an undisturbed process has left, at most. */
  function Left(p: Place): nat {
    match p
    case E0 => 12 case E1 => 11 case E2 => 10 case E3 => 9 case E4 => 8 case E5 => 7 case E6 => 6 case E7 => 5
    case A0 => 4 case R1 => 4 case F1(_) => 4 case I1 => 4
    case A1 => 3 case R2(_) => 3 case W1 => 3 case F2(_, _) => 3 case I2(_) => 3
    case A2(_) => 2 case R3 => 2 case W2(_) => 2 case B1 => 2 case C1 => 2
    case A3 => 1 case R4(_) => 1 case W3 => 1 case B2(_) => 1 case C2(_) => 1
    case DONE => 0
  }

  lemma LeftFalls(now: Shared, p: Place, pid: nat, yes: bool)
    ensures p != DONE ==> Left(Advance(now, p, pid, yes).1) < Left(p)
    ensures p == DONE ==> Advance(now, p, pid, yes) == (now, DONE)
  {
    hide RunTargets;
  }

  lemma {:induction false} AloneEnds(now: Shared, p: Place, pid: nat, op: Operation, n: nat)
    requires n >= Left(p)
    ensures Alone(now, p, pid, op, n).1 == DONE
    decreases n
  {
    hide Advance, Answer;
    if n > 0 {
      var (next, q) := Advance(now, p, pid, Answer(p, op));
      LeftFalls(now, p, pid, Answer(p, op));
      AloneEnds(next, q, pid, op, n - 1);
    } else {
      assert p == DONE;
    }
  }

  /** Each part of what it has to do is where some number of steps leads. */
  lemma {:induction false} AloneReaches(now: Shared, p: Place, pid: nat, op: Operation, d: nat) returns (n: nat)
    requires Undisturbed(now, p, op) && d <= |Rest(now, p, op)|
    ensures View(Alone(now, p, pid, op, n).0) == Play(View(now), Rest(now, p, op)[..d])
    decreases Left(p)
  {
    hide Undisturbed, Advance, Answer, Rest, Apply, Left, Play, View;
    NothingPlayed(View(now));
    if d == 0 {
      return 0;
    }
    var (next, q) := Advance(now, p, pid, Answer(p, op));
    LeftFalls(now, p, pid, Answer(p, op));
    NextAlone(now, p, pid, op);
    assert p != DONE by { NothingLeft(now, op); }
    if Rest(next, q, op) == Rest(now, p, op) && View(next) == View(now) {
      n := AloneReaches(next, q, pid, op, d);
    } else {
      n := AloneReaches(next, q, pid, op, d - 1);
      PlayedNext(View(now), Rest(now, p, op), d - 1);
    }
    n := n + 1;
  }

  lemma NothingLeft(now: Shared, op: Operation)
    ensures Rest(now, DONE, op) == []
  {
  }

  lemma StartsAlone(now: Shared, op: Operation)
    requires !op.PersistReady?
    ensures Undisturbed(now, First(op), op) && Left(First(op)) <= 12
    ensures Rest(now, First(op), op) == CodingBridge.Steps(View(now), op)
  {
  }

  /** After `n` steps the process has left what its operation leaves, cut off behind `moments`. */
  predicate Agree(now: Shared, op: Operation, pid: nat, n: nat, moments: nat)
    requires !op.PersistReady?
  {
    View(Alone(now, First(op), pid, op, n).0) == After(View(now), op, moments)
  }

  /** A process of the races that nobody disturbs is the bridge's operation: stopped anywhere it has
      left the stores as the operation cut off after some number of durable steps, every such
      number is met, and after twelve steps the operation is through. */
  lemma AloneIsSequential(now: Shared, op: Operation, pid: nat, n: nat, moments: nat)
    requires !op.PersistReady?
    ensures exists m: nat :: Agree(now, op, pid, n, m)
    ensures exists k: nat :: Agree(now, op, pid, k, moments)
    ensures n >= 12 && moments >= |CodingBridge.Steps(View(now), op)| ==>
              Alone(now, First(op), pid, op, n).1 == DONE && Agree(now, op, pid, n, moments)
  {
    hide Agree, Alone, CodingBridge.Steps;
    var m := AloneCut(now, op, pid, n);
    var k := CutAlone(now, op, pid, moments);
    if n >= 12 && moments >= |CodingBridge.Steps(View(now), op)| { AloneThrough(now, op, pid, n, moments); }
  }

  lemma AloneCut(now: Shared, op: Operation, pid: nat, n: nat) returns (d: nat)
    requires !op.PersistReady?
    ensures Agree(now, op, pid, n, d)
  {
    hide First, Undisturbed, Rest, Left, Alone, CodingBridge.Steps, Play;
    StartsAlone(now, op);
    d := AlonePlays(now, First(op), pid, op, n);
    assert Cut(CodingBridge.Steps(View(now), op), d) == CodingBridge.Steps(View(now), op)[..d];
  }

  lemma CutAlone(now: Shared, op: Operation, pid: nat, moments: nat) returns (n: nat)
    requires !op.PersistReady?
    ensures Agree(now, op, pid, n, moments)
  {
    hide First, Undisturbed, Rest, Left, Alone, CodingBridge.Steps, Play;
    var steps := CodingBridge.Steps(View(now), op);
    var d := if moments < |steps| then moments else |steps|;
    StartsAlone(now, op);
    n := AloneReaches(now, First(op), pid, op, d);
    assert Cut(steps, moments) == steps[..d];
  }

  lemma AloneThrough(now: Shared, op: Operation, pid: nat, n: nat, moments: nat)
    requires !op.PersistReady? && n >= 12 && moments >= |CodingBridge.Steps(View(now), op)|
    ensures Alone(now, First(op), pid, op, n).1 == DONE && Agree(now, op, pid, n, moments)
  {
    hide First, Undisturbed, Rest, Left, Alone, CodingBridge.Steps, Play;
    var steps := CodingBridge.Steps(View(now), op);
    StartsAlone(now, op);
    var d := AlonePlays(now, First(op), pid, op, n);
    AloneEnds(now, First(op), pid, op, n);
    NothingLeft(Alone(now, First(op), pid, op, n).0, op);
    assert steps[..d] == steps && Cut(steps, moments) == steps;
  }

  // ------------------------------------------------------- what the worker said

  /** The `i`th event is a call of the worker, which answers so. */
  predicate CalledAt(events: seq<Event>, i: nat, yes: bool) {
    && i < |events| && events[i].Go? && events[i].yes == yes
    && var s := CodingRaces.Run(STORED, events[..i]);
       events[i].pid in s.places && s.places[events[i].pid] == E7
  }

  /** The `i`th event finds an executor's action no longer APPROVED. */
  predicate ClaimRefusedAt(events: seq<Event>, i: nat) {
    && i < |events| && events[i].Go?
    && var s := CodingRaces.Run(STORED, events[..i]);
       events[i].pid in s.places && s.places[events[i].pid] == E6 && s.now.life != APPROVED
  }

  /** Something says that the draft was opened, or is about to. */
  predicate SaysExecuted(s: System) {
    s.now.run == RUN_EXECUTED || s.now.life == EXECUTED || exists q :: q in s.places && Succeeding(s.places[q])
  }

  predicate SaysFailed(s: System) {
    s.now.run == RUN_FAILED || exists q :: q in s.places && Failing(s.places[q])
  }

  lemma SucceedsNext(now: Shared, p: Place, pid: nat, yes: bool)
    ensures var (next, q) := Advance(now, p, pid, yes);
            && (next.run == RUN_EXECUTED && now.run != RUN_EXECUTED ==> Succeeding(p))
            && (next.life == EXECUTED && now.life != EXECUTED ==> Succeeding(p))
            && (Succeeding(q) ==> Succeeding(p) || (p == E7 && yes))
  {
    hide RunTargets;
  }

  lemma FailsNext(now: Shared, p: Place, pid: nat, yes: bool)
    ensures var (next, q) := Advance(now, p, pid, yes);
            && (next.run == RUN_FAILED && now.run != RUN_FAILED ==> Failing(p))
            && (Failing(q) ==> Failing(p) || (p == E7 && !yes) || (p == E6 && now.life != APPROVED))
  {
    hide RunTargets;
  }

  lemma NewlySaid(s: System, e: Event)
    ensures SaysExecuted(CodingRaces.Step(s, e)) && !SaysExecuted(s) ==>
              e.Go? && e.yes && e.pid in s.places && s.places[e.pid] == E7
    ensures SaysFailed(CodingRaces.Step(s, e)) && !SaysFailed(s) ==>
              && e.Go? && e.pid in s.places
              && ((s.places[e.pid] == E7 && !e.yes) || (s.places[e.pid] == E6 && s.now.life != APPROVED))
  {
    hide Advance;
    if e.Go? && e.pid in s.places {
      SucceedsNext(s.now, s.places[e.pid], e.pid, e.yes);
      FailsNext(s.now, s.places[e.pid], e.pid, e.yes);
    }
  }

  /** In every interleaving the record says executed, or the action does, only if the worker was
      called and opened the draft; and the record says failed only if it was called and did not, or
      an executor's claim was refused. */
  lemma {:induction false} ResultOfCall(events: seq<Event>)
    ensures SaysExecuted(CodingRaces.Run(STORED, events)) ==> exists i :: CalledAt(events, i, true)
    ensures SaysFailed(CodingRaces.Run(STORED, events)) ==>
              exists i :: CalledAt(events, i, false) || ClaimRefusedAt(events, i)
  {
    hide SaysExecuted, SaysFailed, CodingRaces.Step, CalledAt, ClaimRefusedAt;
    if events == [] {
      NothingSaid();
    } else {
      var front, last := events[..|events| - 1], events[|events| - 1];
      ResultOfCall(front);
      NewlySaid(CodingRaces.Run(STORED, front), last);
      Later(front, last);
      LastEvent(front, last);
      assert events == front + [last];
    }
  }

  lemma NothingSaid()
    ensures !SaysExecuted(STORED) && !SaysFailed(STORED)
  {
  }

  lemma Later(front: seq<Event>, last: Event)
    ensures forall i, yes | CalledAt(front, i, yes) :: CalledAt(front + [last], i, yes)
    ensures forall i | ClaimRefusedAt(front, i) :: ClaimRefusedAt(front + [last], i)
  {
    hide CodingRaces.Run;
    assert forall i | 0 <= i < |front| :: (front + [last])[..i] == front[..i];
  }

  lemma LastEvent(front: seq<Event>, last: Event)
    ensures var s := CodingRaces.Run(STORED, front);
            last.Go? && last.pid in s.places ==>
              && (s.places[last.pid] == E7 ==> CalledAt(front + [last], |front|, last.yes))
              && (s.places[last.pid] == E6 && s.now.life != APPROVED ==> ClaimRefusedAt(front + [last], |front|))
  {
    hide CodingRaces.Run;
    assert (front + [last])[..|front|] == front;
  }
}
