/** Any number of writing processes on one ledger. */
module WriteProcesses {
  import opened DiffText
  import opened SideEffects
  import opened Sorting
  import RC = RestConnector

  /** Where a process stands in its write request. */
  datatype Process =
    | Ready(key: string, operation: string, digest: string)
    | Claimed(key: string)
    | Answered(key: string, answer: RC.Answer)
    | Unmarked(key: string, answer: RC.Answer)
    | Finished(key: string, answer: RC.Answer, marked: bool)
    | TurnedAway
    | Dead

  /** The ledger, the processes, and for the proofs every grant and transport call so
      far, each by its ledger key. */
  datatype System = System(ledger: Ledger, processes: map<nat, Process>, grants: seq<string>, calls: seq<string>)

  datatype Event =
    | Start(pid: nat, key: string, operation: string, digest: string)
    | Go(pid: nat, answer: RC.Answer)
    | Crash(pid: nat)

  const EMPTY := System(map[], map[], [], [])

  /** Advances process `pid` by its next atomic step; `answer` is what the transport
      says if that step is the call. */
  function Move(s: System, pid: nat, answer: RC.Answer): System
    requires pid in s.processes
  {
    match s.processes[pid]
    case Ready(key, operation, digest) =>
      var (after, d) := AfterClaim(s.ledger, key, operation, digest);
      if d.Granted? then
        System(after, s.processes[pid := Claimed(key)], s.grants + [Strip(key)], s.calls)
      else s.(processes := s.processes[pid := TurnedAway])
    case Claimed(key) =>
      s.(processes := s.processes[pid := Answered(key, answer)], calls := s.calls + [Strip(key)])
    case Answered(key, a) =>
      var reason := if a.Response? then RC.MarkReason(a) else RC.UNRESOLVED;
      var (after, ok) := AfterUpdate(s.ledger, key, RC.WriteState(a), RC.MarkDigest(a), reason);
      var next := if ok then Finished(key, a, true)
                  else if a.Response? then Unmarked(key, a)
                  else Finished(key, a, false);
      s.(ledger := after, processes := s.processes[pid := next])
    case Unmarked(key, a) =>
      var (after, ok) := AfterUpdate(s.ledger, key, UNKNOWN, "", RC.UNRESOLVED);
      s.(ledger := after, processes := s.processes[pid := Finished(key, a, false)])
    case _ => s
  }

  function Step(s: System, e: Event): System {
    match e
    case Start(pid, key, operation, digest) =>
      if pid in s.processes then s else s.(processes := s.processes[pid := Ready(key, operation, digest)])
    case Go(pid, answer) => if pid in s.processes then Move(s, pid, answer) else s
    case Crash(pid) => if pid in s.processes then s.(processes := s.processes[pid := Dead]) else s
  }

  function Run(s: System, events: seq<Event>): System {
    if events == [] then s else Step(Run(s, events[..|events| - 1]), events[|events| - 1])
  }

  /** A process that has been granted its key. */
  predicate Holds(p: Process) {
    p.Claimed? || p.Answered? || p.Unmarked? || p.Finished?
  }

  /** What the ledger says about the key of a granted process. */
  ghost predicate Recorded(ledger: Ledger, calls: seq<string>, p: Process) {
    Holds(p) ==>
      && Strip(p.key) in ledger
      && (p.Claimed? ==> Strip(p.key) !in calls)
      && (p.Unmarked? ==> Strip(p.key) != p.key || !Loadable(ledger))
      && (p.Finished? && !p.marked ==> Strip(p.key) != p.key || !Loadable(ledger))
      && (p.Finished? && p.marked ==> Strip(p.key) == p.key)
      && ledger[Strip(p.key)].state == (if p.Finished? && p.marked then RC.WriteState(p.answer) else RESERVED)
      && ledger[Strip(p.key)].resultDigest ==
         if p.Finished? && p.marked then Cut(RC.MarkDigest(p.answer), 64) else ""
  }

  ghost predicate AllRecorded(ledger: Ledger, calls: seq<string>, processes: map<nat, Process>) {
    forall pid | pid in processes :: Recorded(ledger, calls, processes[pid])
  }

  /** The grants are the keys of the ledger, each once. */
  ghost predicate GrantsAre(grants: seq<string>, ledger: Ledger) {
    Distinct(grants) && forall k :: k in grants <==> k in ledger
  }

  /** Every call was granted, and no key was called twice. */
  ghost predicate CallsWithin(calls: seq<string>, grants: seq<string>) {
    Distinct(calls) && forall k | k in calls :: k in grants
  }

  ghost predicate Inv(s: System) {
    && Sound(s.ledger)
    && GrantsAre(s.grants, s.ledger)
    && CallsWithin(s.calls, s.grants)
    && AllRecorded(s.ledger, s.calls, s.processes)
    && Apart(s.processes)
  }

  /** No two processes hold the same ledger key. */
  ghost predicate Apart(processes: map<nat, Process>) {
    forall p, q | p in processes && q in processes && p != q && Holds(processes[p]) && Holds(processes[q]) ::
      Strip(processes[p].key) != Strip(processes[q].key)
  }

  // --------------------------------------------------- every step keeps `Inv`

  /** The ledger changed at key `at` alone, and did not shrink. */
  ghost predicate ChangedAt(a: Ledger, b: Ledger, at: string) {
    |a| <= |b| && forall k | k in a && k != at :: k in b && b[k] == a[k]
  }

  lemma OtherKeeps(a: Ledger, b: Ledger, calls: seq<string>, after: seq<string>, at: string, p: Process)
    requires Recorded(a, calls, p) && ChangedAt(a, b, at)
    requires after == calls || after == calls + [at]
    requires Holds(p) ==> Strip(p.key) != at
    ensures Recorded(b, after, p)
  {
    hide Strip;
  }

  lemma OthersKeep(s: System, pid: nat, b: Ledger, after: seq<string>, at: string, next: Process)
    requires Inv(s) && pid in s.processes && ChangedAt(s.ledger, b, at)
    requires after == s.calls || after == s.calls + [at]
    requires at !in s.ledger || (Holds(s.processes[pid]) && Strip(s.processes[pid].key) == at)
    requires Recorded(b, after, next)
    requires Holds(next) ==> Strip(next.key) == at
    ensures AllRecorded(b, after, s.processes[pid := next])
    ensures Apart(s.processes[pid := next])
  {
    hide Strip;
    forall q | q in s.processes && q != pid
      ensures Recorded(b, after, s.processes[q])
      ensures Holds(s.processes[q]) ==> Strip(s.processes[q].key) != at
    {
      var p := s.processes[q];
      assert Recorded(s.ledger, s.calls, p);
      OtherKeeps(s.ledger, b, s.calls, after, at, p);
    }
  }

  lemma SameLedger(ledger: Ledger, at: string)
    ensures ChangedAt(ledger, ledger, at)
  {
  }

  lemma ClaimStep(s: System, pid: nat, answer: RC.Answer)
    requires Inv(s) && pid in s.processes && s.processes[pid].Ready?
    ensures Inv(Move(s, pid, answer))
  {
    hide Strip, AfterClaim, Sound, Loadable, Distinct, Apart, AllRecorded, GrantsAre, CallsWithin;
    var p := s.processes[pid];
    var (after, d) := AfterClaim(s.ledger, p.key, p.operation, p.digest);
    var at := Strip(p.key);
    ClaimKeeps(s.ledger, p.key, p.operation, p.digest);
    if d.Granted? {
      GrantedChange(s.ledger, p.key, p.operation, p.digest);
      NewGrant(s.grants, s.calls, s.ledger, after, at);
      OthersKeep(s, pid, after, s.calls, at, Claimed(p.key));
    } else {
      Unheld(s, pid, TurnedAway);
    }
  }

  lemma NewGrant(grants: seq<string>, calls: seq<string>, ledger: Ledger, after: Ledger, at: string)
    requires GrantsAre(grants, ledger) && CallsWithin(calls, grants)
    requires at !in ledger && after.Keys == ledger.Keys + {at}
    ensures GrantsAre(grants + [at], after) && CallsWithin(calls, grants + [at])
    ensures at !in calls
  {
  }

  lemma NewCall(grants: seq<string>, calls: seq<string>, at: string)
    requires CallsWithin(calls, grants) && at in grants && at !in calls
    ensures CallsWithin(calls + [at], grants)
  {
  }

  lemma GrantedChange(ledger: Ledger, key: string, operation: string, digest: string)
    requires Sound(ledger) && AfterClaim(ledger, key, operation, digest).1.Granted?
    ensures ChangedAt(ledger, AfterClaim(ledger, key, operation, digest).0, Strip(key))
  {
    hide Strip, WellFormed, Sound, Loadable;
    CandidateKey(key, operation, digest);
    var c := Candidate(key, operation, digest);
    hide Candidate;
    assert |ledger[c.key := c]| == |ledger| + 1 by {
      assert ledger[c.key := c].Keys == ledger.Keys + {c.key};
    }
  }

  /** A process that holds nothing may take a process's place. */
  lemma Unheld(s: System, pid: nat, next: Process)
    requires Inv(s) && !Holds(next)
    ensures Inv(s.(processes := s.processes[pid := next]))
  {
    hide Strip, Sound, Recorded;
    assert Recorded(s.ledger, s.calls, next) by { NothingRecorded(s.ledger, s.calls, next); }
  }

  lemma NothingRecorded(ledger: Ledger, calls: seq<string>, p: Process)
    requires !Holds(p)
    ensures Recorded(ledger, calls, p)
  {
  }

  lemma CallStep(s: System, pid: nat, answer: RC.Answer)
    requires Inv(s) && pid in s.processes && s.processes[pid].Claimed?
    ensures Inv(Move(s, pid, answer))
  {
    hide Strip, Sound, Loadable;
    var p := s.processes[pid];
    assert Recorded(s.ledger, s.calls, p);
    var at := Strip(p.key);
    SameLedger(s.ledger, at);
    NewCall(s.grants, s.calls, at);
    OthersKeep(s, pid, s.ledger, s.calls + [at], at, Answered(p.key, answer));
  }

  /** Marking the key of one process: the record moves exactly when the key was given
      stripped and the ledger can be read. */
  lemma MarkExact(ledger: Ledger, key: string, state: State, resultDigest: string, reason: string)
    requires Sound(ledger) && Strip(key) in ledger && ledger[Strip(key)].state == RESERVED
    ensures var (after, ok) := AfterUpdate(ledger, key, state, resultDigest, reason);
            && (ok <==> Strip(key) == key && Loadable(ledger))
            && ChangedAt(ledger, after, Strip(key)) && Sound(after) && after.Keys == ledger.Keys
            && after[Strip(key)].state == (if ok then state else RESERVED)
            && after[Strip(key)].resultDigest == (if ok then Cut(resultDigest, 64) else ledger[Strip(key)].resultDigest)
            && (!ok ==> after == ledger)
  {
    hide Strip, WellFormed;
    UpdateKeeps(ledger, key, state, resultDigest, reason);
    var (after, ok) := AfterUpdate(ledger, key, state, resultDigest, reason);
    assert |after.Keys| == |after| && |ledger.Keys| == |ledger|;
  }

  lemma MarkStep(s: System, pid: nat, answer: RC.Answer)
    requires Inv(s) && pid in s.processes && (s.processes[pid].Answered? || s.processes[pid].Unmarked?)
    ensures Inv(Move(s, pid, answer))
  {
    hide Strip, Sound, Loadable, AfterUpdate, RC.WriteState, RC.MarkDigest, RC.MarkReason, Distinct, Apart;
    var p := s.processes[pid];
    assert Recorded(s.ledger, s.calls, p);
    var at := Strip(p.key);
    var t := Move(s, pid, answer);
    if p.Answered? {
      MarkExact(s.ledger, p.key, RC.WriteState(p.answer), RC.MarkDigest(p.answer),
                if p.answer.Response? then RC.MarkReason(p.answer) else RC.UNRESOLVED);
    } else {
      MarkExact(s.ledger, p.key, UNKNOWN, "", RC.UNRESOLVED);
    }
    OthersKeep(s, pid, t.ledger, s.calls, at, t.processes[pid]);
  }

  lemma StepKeeps(s: System, e: Event)
    requires Inv(s)
    ensures Inv(Step(s, e))
  {
    hide Inv, Strip;
    match e
    case Start(pid, key, operation, digest) =>
      if pid !in s.processes { Unheld(s, pid, Ready(key, operation, digest)); }
    case Go(pid, answer) =>
      if pid in s.processes {
        match s.processes[pid]
        case Ready(_, _, _) => ClaimStep(s, pid, answer);
        case Claimed(_) => CallStep(s, pid, answer);
        case Answered(_, _) => MarkStep(s, pid, answer);
        case Unmarked(_, _) => MarkStep(s, pid, answer);
        case _ =>
      }
    case Crash(pid) =>
      if pid in s.processes { Unheld(s, pid, Dead); }
  }

  lemma {:induction false} RunKeeps(events: seq<Event>)
    ensures Inv(Run(EMPTY, events))
  {
    if events == [] {
      EmptyInv();
    } else {
      hide Inv, Step;
      RunKeeps(events[..|events| - 1]);
      StepKeeps(Run(EMPTY, events[..|events| - 1]), events[|events| - 1]);
    }
  }

  lemma EmptyInv()
    ensures Inv(EMPTY)
  {
  }

  // ------------------------------------------------------------- the promises

  /** Whatever the interleaving and the crashes: a key is granted once, and at most one
      transport call is made for it, by a process that was granted it. */
  lemma AtMostOneGrantAndCall(events: seq<Event>)
    ensures var s := Run(EMPTY, events);
            Distinct(s.grants) && Distinct(s.calls) && forall k | k in s.calls :: k in s.grants
  {
    hide Run, Sound, Recorded, Apart;
    RunKeeps(events);
  }

  lemma StepAdvances(s: System, e: Event)
    requires Inv(s)
    ensures Advances(s.ledger, Step(s, e).ledger)
  {
    hide Strip, AfterUpdate, AfterClaim, Advances, Recorded, Apart, Distinct;
    AdvancesRefl(s.ledger);
    if e.Go? && e.pid in s.processes {
      var p := s.processes[e.pid];
      if p.Ready? { ClaimKeeps(s.ledger, p.key, p.operation, p.digest); }
      if p.Answered? {
        UpdateKeeps(s.ledger, p.key, RC.WriteState(p.answer), RC.MarkDigest(p.answer),
                    if p.answer.Response? then RC.MarkReason(p.answer) else RC.UNRESOLVED);
      }
      if p.Unmarked? { UpdateKeeps(s.ledger, p.key, UNKNOWN, "", RC.UNRESOLVED); }
    }
  }

  lemma AdvancesRefl(ledger: Ledger)
    ensures Advances(ledger, ledger)
  {
  }

  lemma AdvancesTransitive(a: Ledger, b: Ledger, c: Ledger)
    requires Advances(a, b) && Advances(b, c)
    ensures Advances(a, c)
  {
  }

  /** A record once made stays, keeps its operation and request digest, and changes state
      at most once, away from RESERVED. */
  lemma {:induction false} RecordsAdvance(before: seq<Event>, more: seq<Event>)
    ensures Advances(Run(EMPTY, before).ledger, Run(EMPTY, before + more).ledger)
  {
    if more == [] {
      assert before + more == before;
      AdvancesRefl(Run(EMPTY, before).ledger);
    } else {
      hide Advances, Step, Inv;
      var less, last := more[..|more| - 1], more[|more| - 1];
      assert (before + more)[..|before + more| - 1] == before + less;
      RecordsAdvance(before, less);
      RunKeeps(before + less);
      var mid := Run(EMPTY, before + less);
      StepAdvances(mid, last);
      AdvancesTransitive(Run(EMPTY, before).ledger, mid.ledger, Step(mid, last).ledger);
    }
  }

  /** While the ledger can be read, a process that has run to its end and used its key without
      surrounding blanks has left it EXECUTED with the body's digest for a response from 200 to
      399, FAILED for any other response and UNKNOWN for no response; one that used blanks has
      left it RESERVED. */
  lemma FinalState(events: seq<Event>, pid: nat)
    requires var s := Run(EMPTY, events);
             pid in s.processes && s.processes[pid].Finished? && Loadable(s.ledger)
    ensures var s := Run(EMPTY, events);
            var p := s.processes[pid];
            && Strip(p.key) in s.ledger
            && var w, a := s.ledger[Strip(p.key)], p.answer;
               if Strip(p.key) == p.key then
                 && (w.state == EXECUTED <==> a.Response? && 200 <= a.status < 400)
                 && (w.state == FAILED <==> a.Response? && !(200 <= a.status < 400))
                 && (w.state == UNKNOWN <==> !a.Response?)
                 && w.resultDigest == if w.state == EXECUTED then Cut(a.bodyDigest, 64) else ""
               else w.state == RESERVED && w.resultDigest == ""
  {
    hide Run, Strip, Sound, Apart, Distinct, Cut;
    RunKeeps(events);
    NoDigest();
    var s := Run(EMPTY, events);
    assert Recorded(s.ledger, s.calls, s.processes[pid]);
  }

  lemma NoDigest()
    ensures Cut("", 64) == ""
  {
  }

  lemma Next(events: seq<Event>, s: System, e: Event) returns (more: seq<Event>, t: System)
    requires Run(EMPTY, events) == s
    ensures Run(EMPTY, more) == t == Step(s, e)
  {
    more, t := events + [e], Step(s, e);
    assert more[..|events|] == events;
  }

  /** Every key with blanks around it that is granted at all can be left like that: the
      response came, both marks failed. */
  lemma UnmarkedForGood(key: string, operation: string, digest: string, answer: RC.Answer)
    requires WellFormed(Candidate(key, operation, digest)) && Strip(key) != key && answer.Response?
    ensures exists events ::
              var s := Run(EMPTY, events);
              && s.processes == map[0 := Finished(key, answer, false)]
              && Strip(key) in s.ledger && s.ledger[Strip(key)].state == RESERVED
  {
    hide Run, Strip, WellFormed;
    var c := Candidate(key, operation, digest);
    CandidateKey(key, operation, digest);
    hide Candidate;
    var events, s := [], EMPTY;
    assert Run(EMPTY, []) == EMPTY by { NothingRun(); }
    events, s := Next(events, s, Start(0, key, operation, digest));
    events, s := Next(events, s, Go(0, answer));
    var ledger: Ledger := map[Strip(key) := c];
    assert s.ledger == ledger && s.processes == map[0 := Claimed(key)];
    events, s := Next(events, s, Go(0, answer));
    assert s.ledger == ledger && s.processes == map[0 := Answered(key, answer)];
    events, s := Next(events, s, Go(0, answer));
    assert s.ledger == ledger && s.processes == map[0 := Unmarked(key, answer)];
    events, s := Next(events, s, Go(0, answer));
    assert s.ledger == ledger && s.processes == map[0 := Finished(key, answer, false)];
    assert Run(EMPTY, events) == s;
  }

  lemma NothingRun()
    ensures Run(EMPTY, []) == EMPTY
  {
  }

  /** Such a key: a blank before a letter. */
  lemma BlankKey(digest: string)
    requires Strip(digest) == digest && |digest| == 64
    ensures WellFormed(Candidate(" k", "w", digest)) && Strip(" k") != " k"
  {
    assert " k"[1..] == "k";
    assert StripLeft(" k") == "k" && StripRight("k") == "k" && Strip("w") == "w";
  }
}
