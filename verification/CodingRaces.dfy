/** The approved-coding bridge under concurrency: any number of processes, interleaved step by step,
    on a record without a lock. */
module CodingRaces {
  import opened Text
  import opened ActionLifecycle
  import opened CodingBridge

  /** Where a process stands. A loaded record travels with it until it is written back. */
  datatype Place =
    // approve: ledger check, load, write, ledger
    | A0 | A1 | A2(seen: RunState) | A3
    // reject: load, write, look at the ledger, ledger
    | R1 | R2(seen: RunState) | R3 | R4(at: Life)
    // execute: look, checks, ledger check, load, marker, write, claim, worker
    | E0 | E1 | E2 | E3 | E4 | E5 | E6 | E7
    // worker succeeded: load, write, ledger
    | W1 | W2(seen: RunState) | W3
    // failure: load, write, and block the ledger or not
    | F1(block: bool) | F2(seen: RunState, block: bool)
    // invalidation: load, write
    | I1 | I2(seen: RunState)
    // block the ledger: look, write
    | B1 | B2(at: Life)
    // recover an interrupted execution: look, write
    | C1 | C2(at: Life)
    | DONE

  /** What the processes share: the record, the marker file and who made it, the ledger's
      state of the action, and the worker calls made. */
  datatype Shared = Shared(run: RunState, marker: bool, life: Life, owner: Option<nat>, calls: nat)

  datatype System = System(now: Shared, places: map<nat, Place>)

  datatype Event = Start(pid: nat, first: Place) | Go(pid: nat, yes: bool) | Crash(pid: nat)

  predicate Entry(p: Place) {
    p == A0 || p == R1 || p == E0 || p == C1
  }

  /** One atomic step of the process `pid` standing at `p`; `yes` answers the check or the worker. */
  function Advance(now: Shared, p: Place, pid: nat, yes: bool): (Shared, Place) {
    match p
    case A0 => (now, if now.life == POLICY_CHECKED then A1 else DONE)
    case A1 => (now, A2(now.run))
    case A2(seen) => if yes && RUN_APPROVED in RunTargets(seen) then (now.(run := RUN_APPROVED), A3) else (now, DONE)
    case A3 => (now.(life := if now.life == POLICY_CHECKED then APPROVED else now.life), DONE)
    case R1 => (now, R2(now.run))
    case R2(seen) => if REJECTED in RunTargets(seen) then (now.(run := REJECTED), R3) else (now, DONE)
    case R3 => (now, if now.life in {POLICY_CHECKED, APPROVED} then R4(now.life) else DONE)
    case R4(at) => (now.(life := if now.life == at then BLOCKED else now.life), DONE)
    case E0 => (now, if now.run == RUN_APPROVED then E1 else DONE)
    case E1 => (now, if yes then E2 else I1)
    case E2 => (now, if now.life == APPROVED then E3 else I1)
    case E3 => (now, if now.run == RUN_APPROVED then E4 else DONE)
    case E4 => if now.marker then (now, DONE) else (now.(marker := true, owner := Some(pid)), E5)
    case E5 => (now.(run := EXECUTING), E6)
    case E6 => if now.life == APPROVED then (now.(life := CLAIMED), E7) else (now, F1(false))
    case E7 => (now.(calls := now.calls + 1), if yes then W1 else F1(true))
    case W1 => (now, W2(now.run))
    case W2(seen) => if RUN_EXECUTED in RunTargets(seen) then (now.(run := RUN_EXECUTED), W3) else (now, DONE)
    case W3 => (now.(life := if now.life == CLAIMED then EXECUTED else now.life), DONE)
    case F1(block) => (now, F2(now.run, block))
    case F2(seen, block) => (now.(run := if RUN_FAILED in RunTargets(seen) then RUN_FAILED else now.run),
                             if block then B1 else DONE)
    case I1 => (now, I2(now.run))
    case I2(seen) => if INVALIDATED in RunTargets(seen) then (now.(run := INVALIDATED), B1) else (now, DONE)
    case B1 => (now, if now.life in {POLICY_CHECKED, APPROVED, CLAIMED} then B2(now.life) else DONE)
    case B2(at) => (now.(life := if now.life == at then BLOCKED else now.life), DONE)
    case C1 => (now, if now.life in {CLAIMED, EXECUTED} then C2(now.life) else DONE)
    case C2(at) => (now.(life := if now.life == at then BLOCKED else now.life), DONE)
    case DONE => (now, DONE)
  }

  function Move(s: System, pid: nat, yes: bool): System
    requires pid in s.places
  {
    var (next, p) := Advance(s.now, s.places[pid], pid, yes);
    System(next, s.places[pid := p])
  }

  function Step(s: System, e: Event): System {
    match e
    case Start(pid, first) => if pid in s.places || !Entry(first) then s else s.(places := s.places[pid := first])
    case Go(pid, yes) => if pid in s.places then Move(s, pid, yes) else s
    case Crash(pid) => if pid in s.places then s.(places := s.places[pid := DONE]) else s
  }

  function Run(s: System, events: seq<Event>): System {
    if events == [] then s else Step(Run(s, events[..|events| - 1]), events[|events| - 1])
  }

  /** A stored run waiting for approval. */
  const STORED := System(Shared(READY, false, POLICY_CHECKED, None, 0), map[])

  /** Places only the process that made the marker can be in, before the worker call. */
  predicate Ahead(p: Place) {
    p == E5 || p == E6 || p == E7
  }

  /** The same, after the worker call. */
  predicate Behind(p: Place) {
    p == W1 || p.W2? || p == W3 || (p.F1? && p.block) || (p.F2? && p.block)
  }

  /** What the shared state says about a process standing at `p`. */
  predicate Fits(p: Place, pid: nat, now: Shared) {
    && (Ahead(p) ==> now.owner == Some(pid) && now.calls == 0)
    && (Behind(p) ==> now.owner == Some(pid) && now.calls == 1)
    && (p == E7 ==> now.life in {CLAIMED, BLOCKED})
    && (now.life in {APPROVED, POLICY_CHECKED} ==> p != E7 && !Behind(p))
    && (p.R4? ==> p.at in {POLICY_CHECKED, APPROVED})
    && (p.B2? ==> p.at in {POLICY_CHECKED, APPROVED, CLAIMED})
  }

  predicate SharedOk(now: Shared) {
    && (now.marker <==> now.owner.Some?)
    && (now.calls > 0 ==> now.marker)
    && now.calls <= 1
    && now.life in {POLICY_CHECKED, APPROVED, CLAIMED, EXECUTED, BLOCKED}
    && (now.life == CLAIMED ==> now.marker)
    && (now.life == EXECUTED ==> now.calls == 1)
    && (now.life in {APPROVED, POLICY_CHECKED} ==> now.calls == 0)
  }

  ghost predicate Inv(s: System) {
    SharedOk(s.now) && forall pid | pid in s.places :: Fits(s.places[pid], pid, s.now)
  }

  /** What a step of `pid` may do to the shared state without disturbing the others. */
  predicate Gentle(s: Shared, t: Shared, pid: nat) {
    && (t.owner == s.owner || s.owner == None)
    && (t.calls == s.calls || s.owner == Some(pid))
    && (t.life == s.life || t.life == BLOCKED
        || (s.life == POLICY_CHECKED && t.life == APPROVED)
        || (s.life == APPROVED && t.life == CLAIMED)
        || (s.life == CLAIMED && t.life == EXECUTED && s.owner == Some(pid)))
  }

  lemma OtherFits(s: Shared, t: Shared, pid: nat, p: Place, q: nat)
    requires q != pid && Gentle(s, t, pid) && SharedOk(s) && Fits(p, q, s)
    ensures Fits(p, q, t)
  {
  }

  predicate Approving(p: Place) {
    p == A0 || p == A1 || p.A2? || p == A3
  }

  predicate Rejecting(p: Place) {
    p == R1 || p.R2? || p == R3 || p.R4?
  }

  /** Places of an executor before its marker. */
  predicate Checking(p: Place) {
    p == E0 || p == E1 || p == E2 || p == E3
  }

  /** Places of an executor that records a result. */
  predicate Recording(p: Place) {
    p == W1 || p.W2? || p == W3 || p.F1? || p.F2?
  }

  predicate Blocking(p: Place) {
    p == B1 || p.B2? || p == C1 || p.C2?
  }

  lemma ApprovingFits(now: Shared, p: Place, pid: nat, yes: bool)
    requires SharedOk(now) && Fits(p, pid, now)
    requires Approving(p)
    ensures var (next, q) := Advance(now, p, pid, yes); SharedOk(next) && Fits(q, pid, next) && Gentle(now, next, pid)
  {
    hide RunTargets;
  }

  lemma RejectingFits(now: Shared, p: Place, pid: nat, yes: bool)
    requires SharedOk(now) && Fits(p, pid, now)
    requires Rejecting(p)
    ensures var (next, q) := Advance(now, p, pid, yes); SharedOk(next) && Fits(q, pid, next) && Gentle(now, next, pid)
  {
    hide RunTargets;
  }

  lemma CheckingFits(now: Shared, p: Place, pid: nat, yes: bool)
    requires SharedOk(now) && Fits(p, pid, now)
    requires Checking(p)
    ensures var (next, q) := Advance(now, p, pid, yes); SharedOk(next) && Fits(q, pid, next) && Gentle(now, next, pid)
  {
    hide RunTargets;
  }

  lemma MarkingFits(now: Shared, p: Place, pid: nat, yes: bool)
    requires SharedOk(now) && Fits(p, pid, now)
    requires p == E4
    ensures var (next, q) := Advance(now, p, pid, yes); SharedOk(next) && Fits(q, pid, next) && Gentle(now, next, pid)
  {
    hide RunTargets;
  }

  lemma AheadFits(now: Shared, p: Place, pid: nat, yes: bool)
    requires SharedOk(now) && Fits(p, pid, now)
    requires Ahead(p)
    ensures var (next, q) := Advance(now, p, pid, yes); SharedOk(next) && Fits(q, pid, next) && Gentle(now, next, pid)
  {
    hide RunTargets;
  }

  lemma RecordingFits(now: Shared, p: Place, pid: nat, yes: bool)
    requires SharedOk(now) && Fits(p, pid, now)
    requires Recording(p)
    ensures var (next, q) := Advance(now, p, pid, yes); SharedOk(next) && Fits(q, pid, next) && Gentle(now, next, pid)
  {
    hide RunTargets;
  }

  lemma InvalidatingFits(now: Shared, p: Place, pid: nat, yes: bool)
    requires SharedOk(now) && Fits(p, pid, now)
    requires p == I1 || p.I2? || p == DONE
    ensures var (next, q) := Advance(now, p, pid, yes); SharedOk(next) && Fits(q, pid, next) && Gentle(now, next, pid)
  {
    hide RunTargets;
  }

  lemma BlockingFits(now: Shared, p: Place, pid: nat, yes: bool)
    requires SharedOk(now) && Fits(p, pid, now)
    requires Blocking(p)
    ensures var (next, q) := Advance(now, p, pid, yes); SharedOk(next) && Fits(q, pid, next) && Gentle(now, next, pid)
  {
    hide RunTargets;
  }

  lemma AdvanceFits(now: Shared, p: Place, pid: nat, yes: bool)
    requires SharedOk(now) && Fits(p, pid, now)
    ensures var (next, q) := Advance(now, p, pid, yes); SharedOk(next) && Fits(q, pid, next) && Gentle(now, next, pid)
  {
    hide Advance, SharedOk, Fits, Gentle;
    if Approving(p) {
      ApprovingFits(now, p, pid, yes);
    } else if Rejecting(p) {
      RejectingFits(now, p, pid, yes);
    } else if Checking(p) {
      CheckingFits(now, p, pid, yes);
    } else if p == E4 {
      MarkingFits(now, p, pid, yes);
    } else if Ahead(p) {
      AheadFits(now, p, pid, yes);
    } else if Recording(p) {
      RecordingFits(now, p, pid, yes);
    } else if Blocking(p) {
      BlockingFits(now, p, pid, yes);
    } else {
      InvalidatingFits(now, p, pid, yes);
    }
  }

  lemma MoveKeeps(s: System, pid: nat, yes: bool)
    requires Inv(s) && pid in s.places
    ensures Inv(Move(s, pid, yes))
  {
    hide Advance, SharedOk, Fits, Gentle;
    AdvanceFits(s.now, s.places[pid], pid, yes);
    var t := Move(s, pid, yes);
    forall q | q in t.places ensures Fits(t.places[q], q, t.now) {
      if q != pid { OtherFits(s.now, t.now, pid, s.places[q], q); }
    }
  }

  lemma EntryFits(p: Place, pid: nat, now: Shared)
    requires SharedOk(now) && (Entry(p) || p == DONE)
    ensures Fits(p, pid, now)
  {
  }

  lemma StepKeeps(s: System, e: Event)
    requires Inv(s)
    ensures Inv(Step(s, e))
  {
    hide Move, SharedOk, Fits, Entry;
    match e {
      case Go(pid, yes) => if pid in s.places { MoveKeeps(s, pid, yes); }
      case Start(pid, first) => if Entry(first) { EntryFits(first, pid, s.now); }
      case Crash(pid) => EntryFits(DONE, pid, s.now);
    }
  }

  lemma {:induction false} RunKeeps(events: seq<Event>)
    ensures Inv(Run(STORED, events))
  {
    if events != [] {
      hide Inv, Step;
      RunKeeps(events[..|events| - 1]);
      StepKeeps(Run(STORED, events[..|events| - 1]), events[|events| - 1]);
    }
  }

  /** Whatever runs side by side and crashes, the worker is called once at most; a
      CLAIMED action has its marker, and an EXECUTED one had its worker called. */
  lemma WorkerCalledOnce(events: seq<Event>)
    ensures var s := Run(STORED, events);
            && s.now.calls <= 1
            && (s.now.calls == 1 ==> s.now.marker)
            && (s.now.life == CLAIMED ==> s.now.marker)
            && (s.now.life == EXECUTED ==> s.now.calls == 1)
  {
    hide Run;
    RunKeeps(events);
  }

  // ------------------------------------- when a claimed action has a started run

  /** A process about to overwrite the record with a state that has not started: it read the
      record before that. */
  predicate Stale(p: Place) {
    || (p.A2? && RUN_APPROVED in RunTargets(p.seen))
    || (p.R2? && REJECTED in RunTargets(p.seen))
    || (p.I2? && INVALIDATED in RunTargets(p.seen))
  }

  predicate SomeoneStale(s: System, pid: nat) {
    exists q :: q in s.places && q != pid && Stale(s.places[q])
  }

  /** The run has started and nobody is about to take that back. */
  predicate Settled(s: System) {
    Started(s.now.run) && forall q | q in s.places :: !Stale(s.places[q])
  }

  /** What the executor's own place says: behind the write of EXECUTING the record is settled,
      and before it nothing has been claimed. */
  predicate Orderly(p: Place, life: Life, settled: bool) {
    && ((p == E6 || p == E7 || Recording(p)) ==> settled)
    && (p == E5 ==> life !in {CLAIMED, EXECUTED})
  }

  /** What every run keeps in which nobody is stale when the executor writes EXECUTING. */
  ghost predicate Calm(s: System) {
    && (s.now.life == CLAIMED ==> Settled(s))
    && forall pid | pid in s.places :: Orderly(s.places[pid], s.now.life, Settled(s))
  }

  /** The event does not let an executor write EXECUTING while another process is stale. */
  predicate Careful(s: System, e: Event) {
    e.Go? && e.pid in s.places && s.places[e.pid] == E5 ==> !SomeoneStale(s, e.pid)
  }

  ghost predicate AllCareful(s: System, events: seq<Event>)
    decreases |events|
  {
    events != [] ==>
      AllCareful(s, events[..|events| - 1]) && Careful(Run(s, events[..|events| - 1]), events[|events| - 1])
  }

  /** A step in a settled system leaves it settled: what is read is started, and only results
      are written. */
  lemma SettledStep(now: Shared, p: Place, pid: nat, yes: bool)
    requires Started(now.run) && !Stale(p)
    ensures var (next, q) := Advance(now, p, pid, yes); Started(next.run) && !Stale(q)
  {
  }

  lemma SettledMove(s: System, pid: nat, yes: bool)
    requires pid in s.places && Settled(s)
    ensures Settled(Move(s, pid, yes))
  {
    hide Advance, Started, Stale;
    SettledStep(s.now, s.places[pid], pid, yes);
  }

  lemma OrderlyOther(now: Shared, p: Place, pid: nat, yes: bool, settled: bool)
    requires Orderly(p, now.life, settled) && (now.life == CLAIMED ==> settled)
    requires Blocking(p) || Approving(p) || Rejecting(p)
    ensures var (next, q) := Advance(now, p, pid, yes);
            Orderly(q, next.life, settled) && (next.life == CLAIMED ==> settled)
            && (next.life in {CLAIMED, EXECUTED} ==> now.life in {CLAIMED, EXECUTED})
  {
    hide RunTargets;
  }

  lemma OrderlyExecutor(now: Shared, p: Place, pid: nat, yes: bool, settled: bool)
    requires SharedOk(now) && Fits(p, pid, now) && Orderly(p, now.life, settled) && (now.life == CLAIMED ==> settled)
    requires p != E5 && !Blocking(p) && !Approving(p) && !Rejecting(p)
    ensures var (next, q) := Advance(now, p, pid, yes);
            Orderly(q, next.life, settled) && (next.life == CLAIMED ==> settled)
            && (next.life in {CLAIMED, EXECUTED} && now.life !in {CLAIMED, EXECUTED} ==>
                p == E6 && now.owner == Some(pid))
  {
    hide RunTargets;
  }

  /** Where a claim or an entry behind EXECUTING comes from. */
  lemma OrderlyStep(now: Shared, p: Place, pid: nat, yes: bool, settled: bool)
    requires SharedOk(now) && Fits(p, pid, now) && Orderly(p, now.life, settled) && (now.life == CLAIMED ==> settled)
    requires p != E5
    ensures var (next, q) := Advance(now, p, pid, yes);
            Orderly(q, next.life, settled) && (next.life == CLAIMED ==> settled)
            && (next.life in {CLAIMED, EXECUTED} && now.life !in {CLAIMED, EXECUTED} ==>
                p == E6 && now.owner == Some(pid))
  {
    hide Advance, SharedOk, Fits, Orderly;
    if Blocking(p) || Approving(p) || Rejecting(p) {
      OrderlyOther(now, p, pid, yes, settled);
    } else {
      OrderlyExecutor(now, p, pid, yes, settled);
    }
  }

  lemma OrderlyMore(p: Place, life: Life, next: Life, settled: bool, after: bool)
    requires Orderly(p, life, settled) && (settled ==> after)
    requires next in {CLAIMED, EXECUTED} && life !in {CLAIMED, EXECUTED} ==> p != E5
    ensures Orderly(p, next, after)
  {
  }

  lemma WriteSettles(s: System, pid: nat, yes: bool)
    requires pid in s.places && s.places[pid] == E5 && !SomeoneStale(s, pid)
    ensures Settled(Move(s, pid, yes))
  {
    hide RunTargets;
    var t := Move(s, pid, yes);
    forall q | q in t.places ensures !Stale(t.places[q]) {
      if q != pid { assert t.places[q] == s.places[q]; }
    }
  }

  lemma MoveCalm(s: System, pid: nat, yes: bool)
    requires Inv(s) && Calm(s) && pid in s.places && Careful(s, Go(pid, yes))
    ensures Calm(Move(s, pid, yes))
  {
    hide Advance, Settled, SomeoneStale, SharedOk, Orderly;
    var t, p := Move(s, pid, yes), s.places[pid];
    var before, after := Settled(s), Settled(t);
    if p == E5 {
      WriteSettles(s, pid, yes);
      WriteOrderly(s.now, pid, yes);
    } else {
      if before { SettledMove(s, pid, yes); }
      OrderlyStep(s.now, p, pid, yes, before);
      OrderlyMore(t.places[pid], t.now.life, t.now.life, before, after);
    }
    forall q | q in t.places && q != pid ensures Orderly(t.places[q], t.now.life, after) {
      assert t.places[q] == s.places[q];
      OrderlyMore(s.places[q], s.now.life, t.now.life, before, after);
    }
  }

  lemma WriteOrderly(now: Shared, pid: nat, yes: bool)
    ensures var (next, q) := Advance(now, E5, pid, yes); next.life == now.life && Orderly(q, next.life, true)
  {
  }

  lemma StepCalm(s: System, e: Event)
    requires Inv(s) && Calm(s) && Careful(s, e)
    ensures Calm(Step(s, e))
  {
    hide Move, Inv, Settled, Orderly, Entry, Careful;
    match e {
      case Go(pid, yes) => if pid in s.places { MoveCalm(s, pid, yes); }
      case Start(pid, first) => if pid !in s.places && Entry(first) { EntryCalm(s, pid, first); }
      case Crash(pid) => if pid in s.places { EntryCalm(s, pid, DONE); }
    }
  }

  lemma EntryCalm(s: System, pid: nat, p: Place)
    requires Calm(s) && (Entry(p) || p == DONE)
    ensures Calm(s.(places := s.places[pid := p]))
  {
    hide Started, RunTargets, Settled;
    var t := s.(places := s.places[pid := p]);
    EntrySettled(s, pid, p);
    forall q | q in t.places ensures Orderly(t.places[q], t.now.life, Settled(t)) {
      if q != pid { OrderlyMore(s.places[q], s.now.life, s.now.life, Settled(s), Settled(t)); }
    }
  }

  lemma EntrySettled(s: System, pid: nat, p: Place)
    requires Entry(p) || p == DONE
    ensures Settled(s) ==> Settled(s.(places := s.places[pid := p]))
  {
    hide Started, RunTargets;
  }

  lemma {:induction false} RunCalm(events: seq<Event>)
    requires AllCareful(STORED, events)
    ensures Calm(Run(STORED, events))
    decreases |events|
  {
    if events != [] {
      hide Calm, Step, Careful;
      var front, last := events[..|events| - 1], events[|events| - 1];
      RunCalm(front);
      RunKeeps(front);
      StepCalm(Run(STORED, front), last);
    }
  }

  /** As in sequential histories, a CLAIMED action has a run that is executing, executed or
      failed, along every run in which no other process is about to overwrite the record when
      an executor writes EXECUTING. */
  lemma ClaimedMeansStarted(events: seq<Event>)
    requires AllCareful(STORED, events)
    ensures var s := Run(STORED, events); s.now.life == CLAIMED ==> Started(s.now.run)
  {
    hide Run, AllCareful;
    RunCalm(events);
  }

  lemma {:induction false} SettledForGood(s: System, events: seq<Event>)
    requires Settled(s)
    ensures Settled(Run(s, events))
    decreases |events|
  {
    if events != [] {
      hide Settled, Move, Entry;
      var front, last := events[..|events| - 1], events[|events| - 1];
      SettledForGood(s, front);
      var t := Run(s, front);
      match last {
        case Go(pid, yes) => if pid in t.places { SettledMove(t, pid, yes); }
        case Start(pid, first) => if pid !in t.places && Entry(first) { EntrySettled(t, pid, first); }
        case Crash(pid) => if pid in t.places { EntrySettled(t, pid, DONE); }
      }
    }
  }

  lemma RunTwo(s: System, e: Event, f: Event)
    ensures Run(s, [e, f]) == Step(Step(s, e), f)
  {
    hide Step;
    var none: seq<Event> := [];
    assert Run(s, none) == s;
    assert [e][..|[e]| - 1] == none;
    assert Run(s, [e]) == Step(s, e);
    assert [e, f][..|[e, f]| - 1] == [e];
  }

  /** The executor claims, then the stale process writes. */
  lemma Overwritten(s: System, pid: nat, q: nat)
    requires pid in s.places && s.places[pid] == E6 && s.now.life == APPROVED
    requires q in s.places && q != pid && Stale(s.places[q])
    ensures var t := Run(s, [Go(pid, true), Go(q, true)]); t.now.life == CLAIMED && !Started(t.now.run)
  {
    hide Run, Stale, Started;
    RunTwo(s, Go(pid, true), Go(q, true));
    var t := Step(s, Go(pid, true));
    assert t.now.life == CLAIMED && t.places[q] == s.places[q];
    StaleWrites(t.now, t.places[q], q);
    assert Step(t, Go(q, true)) == Move(t, q, true);
    assert Run(s, [Go(pid, true), Go(q, true)]) == Move(t, q, true);
  }

  lemma StaleWrites(now: Shared, p: Place, pid: nat)
    requires Stale(p)
    ensures var next := Advance(now, p, pid, true).0; !Started(next.run) && next.life == now.life
  {
  }

  /** When an executor of an approved action is about to write EXECUTING, the sequential promise
      can still be broken exactly if another process is about to overwrite the record. */
  lemma LostUpdateExactlyWhen(s: System, pid: nat, yes: bool)
    requires pid in s.places && s.places[pid] == E5 && s.now.life == APPROVED
    ensures (exists more :: var t := Run(Move(s, pid, yes), more); t.now.life == CLAIMED && !Started(t.now.run))
            <==> SomeoneStale(s, pid)
  {
    hide Run, Stale, Started, RunTargets;
    var next := Move(s, pid, yes);
    if SomeoneStale(s, pid) {
      var q :| q in s.places && q != pid && Stale(s.places[q]);
      Overwritten(next, pid, q);
    } else {
      WriteSettles(s, pid, yes);
      forall more ensures Started(Run(next, more).now.run) { SettledForGood(next, more); }
    }
  }

  /** What sequential histories promise is lost here: a rejection that read the record
      before the executor wrote it ends with the action CLAIMED, its worker called, and
      the run REJECTED. */
  lemma RejectedRunIsExecuted()
    ensures exists events: seq<Event> ::
              var s := Run(STORED, events);
              s.now.run == REJECTED && s.now.life == CLAIMED && s.now.calls == 1
  {
    hide Run;
    var events, s := Approved();
    events, s := ClaimingMarker(events, s);
    events, s := Overwriting(events, s);
    events, s := Next(events, s, Go(1, true));
    events, s := Next(events, s, Go(1, true));
    assert Run(STORED, events).now.run == REJECTED;
  }

  /** Process 2 reads the record, process 1 writes EXECUTING, process 2 writes REJECTED over it. */
  lemma Overwriting(before: seq<Event>, r: System) returns (events: seq<Event>, s: System)
    requires Run(STORED, before) == r
    requires r.now.run == RUN_APPROVED && r.now.life == APPROVED && r.now.calls == 0
    requires 1 in r.places && r.places[1] == E5 && 2 !in r.places
    ensures Run(STORED, events) == s
    ensures s.now.run == REJECTED && s.now.life == APPROVED && s.now.calls == 0 && 1 in s.places && s.places[1] == E6
  {
    hide Run;
    events, s := Next(before, r, Start(2, R1));
    events, s := Next(events, s, Go(2, true));
    events, s := Next(events, s, Go(1, true));
    events, s := Next(events, s, Go(2, true));
  }

  lemma Next(events: seq<Event>, s: System, e: Event) returns (more: seq<Event>, t: System)
    requires Run(STORED, events) == s
    ensures Run(STORED, more) == t == Step(s, e)
  {
    more, t := events + [e], Step(s, e);
    assert more[..|events|] == events;
  }

  /** Process 0 approves the run. */
  lemma Approved() returns (events: seq<Event>, s: System)
    ensures Run(STORED, events) == s
    ensures s.now.run == RUN_APPROVED && s.now.life == APPROVED && !s.now.marker && s.now.calls == 0
    ensures 1 !in s.places && 2 !in s.places
  {
    events, s := [], STORED;
    assert Run(STORED, []) == STORED;
    hide Run;
    events, s := Next(events, s, Start(0, A0));
    events, s := Next(events, s, Go(0, true));
    events, s := Next(events, s, Go(0, true));
    events, s := Next(events, s, Go(0, true));
    events, s := Next(events, s, Go(0, true));
  }

  /** Process 1 executes it, as far as the marker. */
  lemma ClaimingMarker(before: seq<Event>, r: System) returns (events: seq<Event>, s: System)
    requires Run(STORED, before) == r
    requires r.now.run == RUN_APPROVED && r.now.life == APPROVED && !r.now.marker && r.now.calls == 0
    requires 1 !in r.places && 2 !in r.places
    ensures Run(STORED, events) == s
    ensures s.now.run == RUN_APPROVED && s.now.life == APPROVED && s.now.calls == 0
    ensures 1 in s.places && s.places[1] == E5 && 2 !in s.places
  {
    hide Run;
    events, s := PassingChecks(before, r);
    events, s := Next(events, s, Go(1, true));
    events, s := Next(events, s, Go(1, true));
    events, s := Next(events, s, Go(1, true));
  }

  lemma PassingChecks(before: seq<Event>, r: System) returns (events: seq<Event>, s: System)
    requires Run(STORED, before) == r && r.now.run == RUN_APPROVED && 1 !in r.places
    ensures Run(STORED, events) == s == r.(places := r.places[1 := E2])
  {
    hide Run;
    events, s := Next(before, r, Start(1, E0));
    events, s := Next(events, s, Go(1, true));
    events, s := Next(events, s, Go(1, true));
    assert s.places == r.places[1 := E2];
  }
}
