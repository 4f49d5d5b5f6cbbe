/** The shared, hash-chained ledger of lifecycle transitions. */
module LifecycleLedger {
  import opened Text
  import opened DiffText
  import opened ActionLifecycle

  /** The digest of an event, a free term over everything that is hashed; EMPTY is the
      empty string that stands before the first event. */
  datatype Hash =
    | EMPTY
    | Sha(action: string, sequence: int, from: Life, to: Life, timestamp: string, previous: Hash)

  datatype Entry = Entry(action: string, sequence: int, from: Life, to: Life, timestamp: string, previous: Hash,
                         hash: Hash)

  function HashOf(e: Entry): Hash {
    Sha(e.action, e.sequence, e.from, e.to, e.timestamp, e.previous)
  }

  /** The events of one action, in order. */
  function Of(ledger: seq<Entry>, action: string): seq<Entry> {
    if ledger == [] then []
    else
      var last := ledger[|ledger| - 1];
      var front := Of(ledger[..|ledger| - 1], action);
      if last.action == action then front + [last] else front
  }

  function LastHash(path: seq<Entry>): Hash {
    if path == [] then EMPTY else path[|path| - 1].hash
  }

  function LastState(path: seq<Entry>): Life {
    if path == [] then PROPOSED else path[|path| - 1].to
  }

  /** `e` continues the events `path` of its action. */
  predicate Continues(path: seq<Entry>, e: Entry) {
    && Strip(e.action) != ""
    && e.sequence == |path| + 1
    && e.previous == LastHash(path)
    && e.from == LastState(path)
    && CanTransition(e.from, e.to)
    && e.hash == HashOf(e)
  }

  ghost predicate Verified(ledger: seq<Entry>) {
    forall i | 0 <= i < |ledger| :: Continues(Of(ledger[..i], ledger[i].action), ledger[i])
  }

  lemma VerifiedNext(ledger: seq<Entry>, e: Entry)
    ensures Verified(ledger + [e]) <==> Verified(ledger) && Continues(Of(ledger, e.action), e)
    ensures Of(ledger + [e], e.action) == Of(ledger, e.action) + [e]
    ensures forall a | a != e.action :: Of(ledger + [e], a) == Of(ledger, a)
  {
    hide Continues;
    var all := ledger + [e];
    assert all[..|ledger|] == ledger;
    OfNext(ledger, e);
    hide Of;
    assert forall i | 0 <= i < |ledger| :: all[..i] == ledger[..i] && all[i] == ledger[i];
    assert all[|ledger|] == e;
  }

  lemma OfNext(ledger: seq<Entry>, e: Entry)
    ensures Of(ledger + [e], e.action) == Of(ledger, e.action) + [e]
    ensures forall a | a != e.action :: Of(ledger + [e], a) == Of(ledger, a)
  {
    assert (ledger + [e])[..|ledger|] == ledger;
  }

  lemma VerifiedPrefix(ledger: seq<Entry>, n: nat)
    requires Verified(ledger) && n <= |ledger|
    ensures Verified(ledger[..n])
  {
    hide Continues;
    assert forall i | 0 <= i < n :: ledger[..n][..i] == ledger[..i];
  }

  /** What the verification loop remembers of each action. */
  ghost predicate Remembered(ledger: seq<Entry>, previous: map<string, Hash>, sequence: map<string, int>,
                             state: map<string, Life>)
  {
    && previous.Keys == sequence.Keys == state.Keys
    && forall a :: RememberedOf(Of(ledger, a), a, previous, sequence, state)
  }

  ghost predicate RememberedOf(path: seq<Entry>, a: string, previous: map<string, Hash>, sequence: map<string, int>,
                               state: map<string, Life>)
  {
    if a in previous && a in sequence && a in state then
      path != [] && previous[a] == LastHash(path) && sequence[a] == |path| && state[a] == LastState(path)
    else path == []
  }

  method VerifyLedger(ledger: seq<Entry>) returns (ok: bool)
    ensures ok <==> Verified(ledger)
  {
    hide Of, Verified, Strip, CanTransition, Remembered;
    var previous: map<string, Hash> := map[];
    var sequence: map<string, int> := map[];
    var state: map<string, Life> := map[];
    NothingYet();
    var i := 0;
    while i < |ledger|
      invariant 0 <= i <= |ledger|
      invariant Verified(ledger[..i])
      invariant Remembered(ledger[..i], previous, sequence, state)
    {
      var e := ledger[i];
      var a := e.action;
      assert ledger[..i + 1] == ledger[..i] + [e];
      VerifiedNext(ledger[..i], e);
      RememberedFor(ledger[..i], a, previous, sequence, state);
      var expectedSequence := (if a in sequence then sequence[a] else 0) + 1;
      var expectedPrevious := if a in previous then previous[a] else EMPTY;
      if Strip(a) == "" || e.sequence != expectedSequence || e.previous != expectedPrevious {
        if Verified(ledger) { VerifiedPrefix(ledger, i + 1); }
        return false;
      }
      if (a !in state && e.from != PROPOSED) || (a in state && e.from != state[a]) {
        if Verified(ledger) { VerifiedPrefix(ledger, i + 1); }
        return false;
      }
      if !CanTransition(e.from, e.to) || e.hash != HashOf(e) {
        if Verified(ledger) { VerifiedPrefix(ledger, i + 1); }
        return false;
      }
      RememberNext(ledger[..i], e, previous, sequence, state);
      previous, sequence, state := previous[a := e.hash], sequence[a := e.sequence], state[a := e.to];
      i := i + 1;
    }
    assert ledger[..i] == ledger;
    return true;
  }

  lemma NothingYet()
    ensures Verified([]) && Remembered([], map[], map[], map[])
  {
  }

  lemma RememberedFor(ledger: seq<Entry>, a: string, previous: map<string, Hash>, sequence: map<string, int>,
                      state: map<string, Life>)
    requires Remembered(ledger, previous, sequence, state)
    ensures RememberedOf(Of(ledger, a), a, previous, sequence, state)
    ensures previous.Keys == sequence.Keys == state.Keys
  {
  }

  lemma RememberNext(ledger: seq<Entry>, e: Entry, previous: map<string, Hash>, sequence: map<string, int>,
                     state: map<string, Life>)
    requires Remembered(ledger, previous, sequence, state)
    requires Continues(Of(ledger, e.action), e)
    ensures Remembered(ledger + [e], previous[e.action := e.hash], sequence[e.action := e.sequence],
                       state[e.action := e.to])
  {
    hide Of, Strip, Verified;
    var p, s, t := previous[e.action := e.hash], sequence[e.action := e.sequence], state[e.action := e.to];
    VerifiedNext(ledger, e);
    forall a ensures RememberedOf(Of(ledger + [e], a), a, p, s, t) {
      assert RememberedOf(Of(ledger, a), a, previous, sequence, state);
    }
  }

  // ------------------------------------------------------------------ appending

  /** The event `append_transition` writes, if it writes one. */
  function NextEntry(ledger: seq<Entry>, action: string, current: Life, target: Life, now: string): Option<Entry> {
    var a := Strip(action);
    var path := Of(ledger, a);
    if a == "" || !CanTransition(current, target) || LastState(path) != current then None
    else
      var e := Entry(a, |path| + 1, current, target, now, LastHash(path), EMPTY);
      Some(e.(hash := HashOf(e)))
  }

  lemma NextEntryIs(ledger: seq<Entry>, action: string, current: Life, target: Life, now: string)
    ensures var a, path := Strip(action), Of(ledger, Strip(action));
            var expected := if path != [] then path[|path| - 1].to else PROPOSED;
            var previous := if path != [] then path[|path| - 1].hash else EMPTY;
            NextEntry(ledger, action, current, target, now) ==
            if a == "" || !CanTransition(current, target) || expected != current then None
            else Some(Entry(a, |path| + 1, current, target, now, previous,
                            Sha(a, |path| + 1, current, target, now, previous)))
  {
    hide Strip, Of, CanTransition;
  }

  lemma LastOfNext(path: seq<Entry>, e: Entry)
    ensures LastState(path + [e]) == e.to
  {
  }

  lemma NextContinues(ledger: seq<Entry>, action: string, current: Life, target: Life, now: string)
    requires NextEntry(ledger, action, current, target, now).Some?
    ensures var e := NextEntry(ledger, action, current, target, now).value;
            e.action == Strip(action) && e.to == target && Continues(Of(ledger, e.action), e)
  {
    hide Strip, Of, CanTransition;
    StripIdempotent(action);
  }

  class Ledger {
    var entries: seq<Entry>

    constructor ()
      ensures entries == []
    {
      entries := [];
    }

    method ActionEvents(action: string) returns (path: seq<Entry>)
      ensures path == Of(entries, action)
    {
      path := [];
      var i := 0;
      while i < |entries|
        invariant 0 <= i <= |entries|
        invariant path == Of(entries[..i], action)
      {
        assert entries[..i + 1][..i] == entries[..i];
        if entries[i].action == action {
          path := path + [entries[i]];
        }
        i := i + 1;
      }
      assert entries[..i] == entries;
    }

    /** One locked append. A ledger that verified still does, the action moves from
        `current` to `target`, and no other action's events change. */
    method AppendTransition(action: string, current: Life, target: Life, now: string) returns (r: Option<Entry>)
      modifies this
      ensures r == NextEntry(old(entries), action, current, target, now)
      ensures entries == if r.Some? then old(entries) + [r.value] else old(entries)
      ensures Verified(old(entries)) ==> Verified(entries)
      ensures r.Some? ==> LastState(Of(entries, Strip(action))) == target
      ensures forall a | a != Strip(action) :: Of(entries, a) == Of(old(entries), a)
    {
      hide *;
      var a := Strip(action);
      NextEntryIs(entries, action, current, target, now);
      if a == "" || !CanTransition(current, target) {
        return None;
      }
      var path := ActionEvents(a);
      var expected := if path != [] then path[|path| - 1].to else PROPOSED;
      if expected != current {
        return None;
      }
      var previous := if path != [] then path[|path| - 1].hash else EMPTY;
      var e := Entry(a, |path| + 1, current, target, now, previous, Sha(a, |path| + 1, current, target, now, previous));
      NextContinues(entries, action, current, target, now);
      VerifiedNext(entries, e);
      LastOfNext(path, e);
      entries := entries + [e];
      return Some(e);
    }

    /** `record_transition`: refuses on a ledger that does not verify. */
    method RecordTransition(action: string, current: Life, target: Life, now: string) returns (persisted: bool)
      modifies this
      ensures Verified(old(entries)) ==> Verified(entries)
      ensures persisted <==> Verified(old(entries)) && NextEntry(old(entries), action, current, target, now).Some?
      ensures persisted ==> entries == old(entries) + [NextEntry(old(entries), action, current, target, now).value]
      ensures !persisted ==> entries == old(entries)
    {
      hide Verified, NextEntry;
      var ok := VerifyLedger(entries);
      if !ok {
        return false;
      }
      var e := AppendTransition(action, current, target, now);
      return e.Some?;
    }
  }

  // --------------------------------------------------------------- its theorems

  /** Each event of an action continues the ones before it. */
  lemma {:induction false} PathContinues(ledger: seq<Entry>, a: string, i: nat)
    requires Verified(ledger) && i < |Of(ledger, a)|
    ensures Of(ledger, a)[i].action == a
    ensures Continues(Of(ledger, a)[..i], Of(ledger, a)[i])
  {
    hide Continues;
    var front, last := ledger[..|ledger| - 1], ledger[|ledger| - 1];
    VerifiedPrefix(ledger, |ledger| - 1);
    var path := Of(front, a);
    if i < |path| {
      PathContinues(front, a, i);
      assert (path + [last])[..i] == path[..i];
    } else {
      assert Of(ledger, a)[..i] == path;
      assert Continues(Of(ledger[..|ledger| - 1], last.action), last);
    }
  }

  /** In a verified ledger an action's events are numbered from 1 along the road from
      PROPOSED: event `i` enters the state of rank `i + 1`, or it is the last and
      enters BLOCKED. */
  lemma {:induction false} PathRanks(ledger: seq<Entry>, a: string, i: nat)
    requires Verified(ledger) && i < |Of(ledger, a)|
    ensures var path := Of(ledger, a);
            && path[i].sequence == i + 1
            && Rank(path[i].from) == i
            && (Rank(path[i].to) == i + 1 || (path[i].to == BLOCKED && i == |path| - 1))
  {
    hide Of, Verified, Strip, HashOf;
    var path := Of(ledger, a);
    PathContinues(ledger, a, i);
    OneForward(path[i].from, path[i].to);
    if i > 0 {
      PathRanks(ledger, a, i - 1);
      assert path[..i][i - 1] == path[i - 1];
    }
    if i + 1 < |path| {
      PathContinues(ledger, a, i + 1);
      assert path[..i + 1][i] == path[i];
      OneForward(path[i + 1].from, path[i + 1].to);
    }
  }

  /** No action has more than nine events, and at most one of them enters CLAIMED. */
  lemma PathBounds(ledger: seq<Entry>, a: string)
    requires Verified(ledger)
    ensures |Of(ledger, a)| <= 9
    ensures forall i, j | 0 <= i < |Of(ledger, a)| && 0 <= j < |Of(ledger, a)| ::
              Of(ledger, a)[i].to == CLAIMED && Of(ledger, a)[j].to == CLAIMED ==> i == j
  {
    hide Of, Verified;
    var path := Of(ledger, a);
    if |path| > 9 {
      PathRanks(ledger, a, 9);
      PathContinues(ledger, a, 9);
      OneForward(path[9].from, path[9].to);
    }
    forall i | 0 <= i < |path| ensures path[i].to == CLAIMED ==> i == 5 {
      PathRanks(ledger, a, i);
    }
  }

  /** The last hash of an action commits to its whole history. */
  lemma LastHashCommits(one: seq<Entry>, two: seq<Entry>, a: string)
    requires Verified(one) && Verified(two)
    requires LastHash(Of(one, a)) == LastHash(Of(two, a))
    ensures Of(one, a) == Of(two, a)
  {
    hide Of, Verified, Continues;
    var p, q := Of(one, a), Of(two, a);
    forall i | 0 <= i < |p| ensures p[i].action == a && Continues(p[..i], p[i]) { PathContinues(one, a, i); }
    forall i | 0 <= i < |q| ensures q[i].action == a && Continues(q[..i], q[i]) { PathContinues(two, a, i); }
    ChainsAgree(p, q);
  }

  ghost predicate Chained(p: seq<Entry>) {
    forall i | 0 <= i < |p| :: Continues(p[..i], p[i])
  }

  lemma ChainNotEmpty(p: seq<Entry>)
    requires Chained(p)
    ensures LastHash(p) == EMPTY <==> p == []
  {
    hide Strip, CanTransition;
    if p != [] { assert Continues(p[..|p| - 1], p[|p| - 1]); }
  }

  lemma SameEntry(p: seq<Entry>, q: seq<Entry>)
    requires Chained(p) && Chained(q) && p != [] && q != [] && LastHash(p) == LastHash(q)
    ensures p[|p| - 1] == q[|q| - 1]
    ensures LastHash(p[..|p| - 1]) == LastHash(q[..|q| - 1])
  {
    hide Strip, CanTransition, LastState;
    assert Continues(p[..|p| - 1], p[|p| - 1]) && Continues(q[..|q| - 1], q[|q| - 1]);
  }

  lemma {:induction false} ChainsAgree(p: seq<Entry>, q: seq<Entry>)
    requires Chained(p) && Chained(q) && LastHash(p) == LastHash(q)
    ensures p == q
  {
    hide Continues, Strip;
    if p == [] || q == [] {
      ChainNotEmpty(p);
      ChainNotEmpty(q);
    } else {
      var n, m := |p| - 1, |q| - 1;
      SameEntry(p, q);
      assert forall i | 0 <= i < n :: p[..n][..i] == p[..i];
      assert forall i | 0 <= i < m :: q[..m][..i] == q[..i];
      ChainsAgree(p[..n], q[..m]);
      assert p == p[..n] + [p[n]] && q == q[..m] + [q[m]];
    }
  }

  // ---------------------------------------------------------------- recovery

  /** `action_state`: nothing is trusted on a ledger that does not verify. */
  ghost function ActionState(ledger: seq<Entry>, a: string): Option<Life> {
    if !Verified(ledger) || Of(ledger, a) == [] then None else Some(LastState(Of(ledger, a)))
  }

  /** Recovery of an interrupted execution ends it: CLAIMED and EXECUTED become
      BLOCKED, anything else is left as it is. The state is read under the id as given,
      the transition is written under the stripped one. */
  method RecoverStaleExecution(ledger: Ledger, action: string, now: string) returns (blocked: bool)
    modifies ledger
    ensures Verified(old(ledger.entries)) ==> Verified(ledger.entries)
    ensures blocked ==> ActionState(old(ledger.entries), action) in {Some(CLAIMED), Some(EXECUTED)}
    ensures Strip(action) == action && ActionState(old(ledger.entries), action) in {Some(CLAIMED), Some(EXECUTED)} ==>
            blocked
    ensures blocked ==> ActionState(ledger.entries, Strip(action)) == Some(BLOCKED)
    ensures !blocked ==> ledger.entries == old(ledger.entries)
    ensures forall a | a != Strip(action) :: Of(ledger.entries, a) == Of(old(ledger.entries), a)
  {
    hide Of, Verified, Strip;
    var ok := VerifyLedger(ledger.entries);
    if !ok {
      return false;
    }
    var path := ledger.ActionEvents(action);
    if path == [] || path[|path| - 1].to !in {CLAIMED, EXECUTED} {
      return false;
    }
    PathContinues(ledger.entries, action, |path| - 1);
    var e := ledger.AppendTransition(action, path[|path| - 1].to, BLOCKED, now);
    if e.None? {
      return false;
    }
    VerifiedNext(old(ledger.entries), e.value);
    return true;
  }
}
