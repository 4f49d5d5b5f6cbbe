/** The project memory: a chain of digests over the events of all projects, retention by a global cap
    and one for each project, and what is kept of the whole history. */
module ProjectMemory {
  import opened Text

  /** A SHA-256 digest as a free term: equal exactly when everything digested is equal. */
  datatype Digest =
    | NoDigest
    | OfFingerprint(project: string, kind: string, fingerprint: string)
    | OfEvent(event: Event, previous: Digest)

  datatype Event = Event(project: string, kind: string, fingerprint: Digest, outcome: string, data: map<string, string>)

  datatype Entry = Entry(event: Event, previous: Digest, hash: Digest)

  // ------------------------------------------------------------ sealing and loading

  /** The chain `_save` writes for these events. */
  function Sealed(events: seq<Event>, previous: Digest): seq<Entry> {
    if events == [] then []
    else
      var hash := OfEvent(events[0], previous);
      [Entry(events[0], previous, hash)] + Sealed(events[1..], hash)
  }

  function Events(entries: seq<Entry>): seq<Event> {
    seq(|entries|, i requires 0 <= i < |entries| => entries[i].event)
  }

  /** The digest an entry must name as its predecessor. */
  function Before(entries: seq<Entry>, i: nat): Digest
    requires i <= |entries|
  {
    if i == 0 then NoDigest else entries[i - 1].hash
  }

  predicate Linked(entries: seq<Entry>, i: nat)
    requires i < |entries|
  {
    entries[i].previous == Before(entries, i) && entries[i].hash == OfEvent(entries[i].event, entries[i].previous)
  }

  predicate Chained(entries: seq<Entry>) {
    forall i | 0 <= i < |entries| :: Linked(entries, i)
  }

  method Load(file: seq<Entry>) returns (valid: bool)
    ensures valid <==> Chained(file)
  {
    var previous := NoDigest;
    var i := 0;
    while i < |file|
      invariant 0 <= i <= |file|
      invariant previous == Before(file, i)
      invariant forall k | 0 <= k < i :: Linked(file, k)
    {
      assert Linked(file, i) <==>
             file[i].previous == previous && file[i].hash == OfEvent(file[i].event, file[i].previous);
      hide Linked;
      if file[i].previous != previous || file[i].hash != OfEvent(file[i].event, file[i].previous) {
        return false;
      }
      previous := file[i].hash;
      i := i + 1;
    }
    return true;
  }

  lemma {:induction false} SealedIs(events: seq<Event>, previous: Digest)
    ensures var s := Sealed(events, previous);
            && |s| == |events|
            && (forall i | 0 <= i < |s| :: s[i].event == events[i] && s[i].hash == OfEvent(s[i].event, s[i].previous))
            && (s != [] ==> s[0].previous == previous)
            && (forall i | 0 < i < |s| :: s[i].previous == s[i - 1].hash)
  {
    if events != [] { SealedIs(events[1..], OfEvent(events[0], previous)); }
  }

  /** What `_save` writes, `_load` accepts, with the same events. */
  lemma SealedLoads(events: seq<Event>)
    ensures Chained(Sealed(events, NoDigest)) && Events(Sealed(events, NoDigest)) == events
  {
    hide Sealed;
    SealedIs(events, NoDigest);
  }

  /** A chain the loader accepts is the one `_save` would write for its events: no entry can be
      changed, dropped or moved without breaking it, unless the end is cut off. */
  lemma ChainIsSealed(entries: seq<Entry>)
    requires Chained(entries)
    ensures entries == Sealed(Events(entries), NoDigest)
  {
    hide Sealed;
    SealedIs(Events(entries), NoDigest);
    SameChain(entries, Sealed(Events(entries), NoDigest), |entries|);
  }

  lemma {:induction false} SameChain(a: seq<Entry>, b: seq<Entry>, n: nat)
    requires n <= |a| == |b| && Chained(a)
    requires forall i | 0 <= i < |b| :: b[i].event == a[i].event && b[i].hash == OfEvent(b[i].event, b[i].previous)
    requires b != [] ==> b[0].previous == NoDigest
    requires forall i | 0 < i < |b| :: b[i].previous == b[i - 1].hash
    ensures a[..n] == b[..n]
  {
    if n > 0 {
      SameChain(a, b, n - 1);
      assert Linked(a, n - 1);
      if n > 1 { assert a[..n - 1][n - 2] == b[..n - 1][n - 2]; }
      assert a[n - 1] == b[n - 1];
      assert a[..n] == a[..n - 1] + [a[n - 1]] && b[..n] == b[..n - 1] + [b[n - 1]];
    }
  }

  // ----------------------------------------------------------------------- retention

  function LastN<T>(s: seq<T>, n: nat): seq<T> {
    if |s| <= n then s else s[|s| - n..]
  }

  function CountOf(s: seq<Event>, project: string): nat {
    if s == [] then 0 else (if s[0].project == project then 1 else 0) + CountOf(s[1..], project)
  }

  /** The events with fewer than `cap` later ones of the same project. */
  function Capped(s: seq<Event>, cap: nat): seq<Event> {
    if s == [] then []
    else if CountOf(s[1..], s[0].project) < cap then [s[0]] + Capped(s[1..], cap)
    else Capped(s[1..], cap)
  }

  /** The cap holds, and nothing is dropped that it does not force out. */
  lemma {:induction false} CappedCount(s: seq<Event>, cap: nat, project: string)
    ensures CountOf(Capped(s, cap), project) == if CountOf(s, project) < cap then CountOf(s, project) else cap
  {
    if s != [] {
      CappedCount(s[1..], cap, project);
      assert ([s[0]] + Capped(s[1..], cap))[1..] == Capped(s[1..], cap);
    }
  }

  function Retained(events: seq<Event>, maxEntries: nat, perProject: nat): seq<Event> {
    Capped(LastN(events, maxEntries), perProject)
  }

  function Get(counts: map<string, nat>, project: string): nat {
    if project in counts then counts[project] else 0
  }

  lemma CountCons(e: Event, s: seq<Event>, project: string)
    ensures CountOf([e] + s, project) == (if e.project == project then 1 else 0) + CountOf(s, project)
  {
    assert ([e] + s)[1..] == s;
  }

  lemma CappedCons(e: Event, s: seq<Event>, cap: nat)
    ensures Capped([e] + s, cap) == if CountOf(s, e.project) < cap then [e] + Capped(s, cap) else Capped(s, cap)
  {
    assert ([e] + s)[1..] == s;
  }

  /** The loop from the newest event back, counting what it keeps. */
  method KeepNewest(events: seq<Event>, cap: nat) returns (kept: seq<Event>)
    ensures kept == Capped(events, cap)
  {
    hide Capped, CountOf;
    var counts: map<string, nat> := map[];
    kept := [];
    var i := |events|;
    assert events[i..] == [];
    NoneCapped(cap);
    while i > 0
      invariant 0 <= i <= |events|
      invariant kept == Capped(events[i..], cap)
      invariant forall p :: Get(counts, p) == CountOf(kept, p)
    {
      i := i - 1;
      var item := events[i];
      assert events[i..] == [item] + events[i + 1..];
      CappedCons(item, events[i + 1..], cap);
      CappedCount(events[i + 1..], cap, item.project);
      var count := Get(counts, item.project);
      if count < cap {
        counts := counts[item.project := count + 1];
        forall p ensures CountOf([item] + kept, p) == Get(counts, p) { CountCons(item, kept, p); }
        kept := [item] + kept;
      }
    }
    assert events[0..] == events;
  }

  lemma NoneCapped(cap: nat)
    ensures Capped([], cap) == [] && forall p :: CountOf([], p) == 0
  {
  }

  method Seal(events: seq<Event>) returns (sealed: seq<Entry>)
    ensures sealed == Sealed(events, NoDigest)
  {
    hide Sealed;
    sealed := [];
    var previous := NoDigest;
    var i := 0;
    assert events[0..] == events;
    while i < |events|
      invariant 0 <= i <= |events|
      invariant sealed + Sealed(events[i..], previous) == Sealed(events, NoDigest)
    {
      var hash := OfEvent(events[i], previous);
      SealedFirst(events, i, previous);
      assert (sealed + [Entry(events[i], previous, hash)]) + Sealed(events[i + 1..], hash) ==
             sealed + Sealed(events[i..], previous);
      sealed := sealed + [Entry(events[i], previous, hash)];
      previous := hash;
      i := i + 1;
    }
    NothingSealed(events[i..], previous);
  }

  lemma SealedFirst(events: seq<Event>, i: nat, previous: Digest)
    requires i < |events|
    ensures var hash := OfEvent(events[i], previous);
            Sealed(events[i..], previous) == [Entry(events[i], previous, hash)] + Sealed(events[i + 1..], hash)
  {
    assert events[i..][1..] == events[i + 1..];
  }

  lemma NothingSealed(events: seq<Event>, previous: Digest)
    requires events == []
    ensures Sealed(events, previous) == []
  {
  }

  // -------------------------------------------------------- what is kept of a history

  /** Positions in a history, oldest first. */
  predicate Positions(at: seq<nat>, n: nat) {
    && (forall i | 0 <= i < |at| :: at[i] < n)
    && (forall i, j | 0 <= i < j < |at| :: at[i] < at[j])
  }

  function EventsAt(history: seq<Event>, at: seq<nat>): seq<Event>
    requires Positions(at, |history|)
  {
    seq(|at|, i requires 0 <= i < |at| => history[at[i]])
  }

  /** With every position, every later one of the same project is there too. */
  predicate SuffixClosed(history: seq<Event>, at: seq<nat>)
    requires Positions(at, |history|)
  {
    forall i, j | 0 <= i < |at| && at[i] < j < |history| && history[j].project == history[at[i]].project :: j in at
  }

  /** The stored events are, in order, a suffix of every project's events, the newest of all
      among them. */
  predicate Kept(history: seq<Event>, at: seq<nat>, stored: seq<Event>) {
    && Positions(at, |history|)
    && stored == EventsAt(history, at)
    && SuffixClosed(history, at)
    && (history != [] ==> at != [] && at[|at| - 1] == |history| - 1)
  }

  predicate CapsHold(stored: seq<Event>, maxEntries: nat, perProject: nat) {
    |stored| <= maxEntries && forall e | e in stored :: CountOf(stored, e.project) <= perProject
  }

  /** The positions `Capped` keeps. */
  function CappedAt(history: seq<Event>, at: seq<nat>, cap: nat): seq<nat>
    requires Positions(at, |history|)
  {
    if at == [] then []
    else if CountOf(EventsAt(history, at[1..]), history[at[0]].project) < cap then
      [at[0]] + CappedAt(history, at[1..], cap)
    else CappedAt(history, at[1..], cap)
  }

  lemma RestPositions(at: seq<nat>, n: nat)
    requires at != [] && Positions(at, n)
    ensures Positions(at[1..], n) && forall x | x in at[1..] :: at[0] < x
  {
  }

  lemma FirstPosition(x: nat, at: seq<nat>, n: nat)
    requires Positions(at, n) && x < n && forall y | y in at :: x < y
    ensures Positions([x] + at, n)
  {
    var all := [x] + at;
    forall i, j | 0 <= i < j < |all| ensures all[i] < all[j] {
      assert all[j] == at[j - 1];
      if i > 0 { assert all[i] == at[i - 1]; } else { assert at[j - 1] in at; }
    }
  }

  lemma {:induction false} CappedAtPositions(history: seq<Event>, at: seq<nat>, cap: nat)
    requires Positions(at, |history|)
    ensures Positions(CappedAt(history, at, cap), |history|)
    ensures forall x | x in CappedAt(history, at, cap) :: x in at
  {
    hide Positions, CountOf;
    if at != [] {
      RestPositions(at, |history|);
      CappedAtPositions(history, at[1..], cap);
      BoundedPosition(at, |history|);
      FirstPosition(at[0], CappedAt(history, at[1..], cap), |history|);
    } else {
      NoPositions(|history|);
    }
  }

  lemma BoundedPosition(at: seq<nat>, n: nat)
    requires at != [] && Positions(at, n)
    ensures at[0] < n
  {
  }

  lemma NoPositions(n: nat)
    ensures Positions([], n)
  {
  }

  lemma EventsAtCons(history: seq<Event>, x: nat, at: seq<nat>)
    requires x < |history| && Positions(at, |history|) && Positions([x] + at, |history|)
    ensures EventsAt(history, [x] + at) == [history[x]] + EventsAt(history, at)
  {
  }

  lemma {:induction false} CappedEvents(history: seq<Event>, at: seq<nat>, cap: nat)
    requires Positions(at, |history|)
    ensures Positions(CappedAt(history, at, cap), |history|)
    ensures Capped(EventsAt(history, at), cap) == EventsAt(history, CappedAt(history, at, cap))
  {
    hide Positions, CountOf, EventsAt, Capped;
    CappedAtPositions(history, at, cap);
    if at != [] {
      RestPositions(at, |history|);
      BoundedPosition(at, |history|);
      assert at == [at[0]] + at[1..];
      EventsAtCons(history, at[0], at[1..]);
      CappedCons(history[at[0]], EventsAt(history, at[1..]), cap);
      CappedEvents(history, at[1..], cap);
      if CountOf(EventsAt(history, at[1..]), history[at[0]].project) < cap {
        EventsAtCons(history, at[0], CappedAt(history, at[1..], cap));
      }
    } else {
      NoEvents(history, cap);
    }
  }

  lemma NoEvents(history: seq<Event>, cap: nat)
    ensures Positions([], |history|) && EventsAt(history, []) == [] && Capped([], cap) == []
  {
  }

  lemma {:induction false} CountAt(history: seq<Event>, at: seq<nat>, x: nat)
    requires Positions(at, |history|) && x in at
    ensures CountOf(EventsAt(history, at), history[x].project) >= 1
  {
    hide Positions, EventsAt;
    RestPositions(at, |history|);
    BoundedPosition(at, |history|);
    assert at == [at[0]] + at[1..];
    EventsAtCons(history, at[0], at[1..]);
    CountCons(history[at[0]], EventsAt(history, at[1..]), history[x].project);
    if x != at[0] { CountAt(history, at[1..], x); }
  }

  /** A project within its cap loses nothing. */
  lemma {:induction false} CappedKeepsAll(history: seq<Event>, at: seq<nat>, cap: nat, x: nat)
    requires Positions(at, |history|) && x in at
    requires CountOf(EventsAt(history, at), history[x].project) <= cap
    ensures x in CappedAt(history, at, cap)
  {
    hide Positions, EventsAt, CountOf;
    RestPositions(at, |history|);
    BoundedPosition(at, |history|);
    assert at == [at[0]] + at[1..];
    EventsAtCons(history, at[0], at[1..]);
    CountCons(history[at[0]], EventsAt(history, at[1..]), history[x].project);
    if x != at[0] { CappedKeepsAll(history, at[1..], cap, x); }
  }

  lemma RestClosed(history: seq<Event>, at: seq<nat>)
    requires at != [] && Positions(at, |history|) && SuffixClosed(history, at)
    ensures Positions(at[1..], |history|) && SuffixClosed(history, at[1..])
  {
    RestPositions(at, |history|);
    forall i, j | 0 <= i < |at[1..]| && at[1..][i] < j < |history| && history[j].project == history[at[1..][i]].project
      ensures j in at[1..]
    {
      assert at[1..][i] == at[i + 1];
      assert j in at && j != at[0];
    }
  }

  lemma {:induction false} CappedAtClosed(history: seq<Event>, at: seq<nat>, cap: nat)
    requires Positions(at, |history|) && SuffixClosed(history, at)
    ensures Positions(CappedAt(history, at, cap), |history|) && SuffixClosed(history, CappedAt(history, at, cap))
  {
    hide Positions, EventsAt, CountOf, SuffixClosed;
    CappedAtPositions(history, at, cap);
    if at != [] {
      RestClosed(history, at);
      BoundedPosition(at, |history|);
      CappedAtClosed(history, at[1..], cap);
      if CountOf(EventsAt(history, at[1..]), history[at[0]].project) < cap {
        FirstClosed(history, at, cap);
      }
    } else {
      NoneClosed(history);
    }
  }

  lemma NoneClosed(history: seq<Event>)
    ensures Positions([], |history|) && SuffixClosed(history, [])
  {
  }

  lemma FirstClosed(history: seq<Event>, at: seq<nat>, cap: nat)
    requires at != [] && Positions(at, |history|) && SuffixClosed(history, at)
    requires Positions(at[1..], |history|) && Positions(CappedAt(history, at[1..], cap), |history|)
             && Positions([at[0]] + CappedAt(history, at[1..], cap), |history|)
    requires SuffixClosed(history, CappedAt(history, at[1..], cap))
    requires CountOf(EventsAt(history, at[1..]), history[at[0]].project) < cap
    ensures SuffixClosed(history, [at[0]] + CappedAt(history, at[1..], cap))
  {
    hide CountOf, CappedAt, EventsAt;
    var rest := CappedAt(history, at[1..], cap);
    var all := [at[0]] + rest;
    forall i, j | 0 <= i < |all| && all[i] < j < |history| && history[j].project == history[all[i]].project
      ensures j in all
    {
      if i == 0 {
        assert j in at && j != at[0];
        assert j in at[1..];
        CappedKeepsAll(history, at[1..], cap, j);
      } else {
        assert all[i] == rest[i - 1];
      }
    }
  }

  lemma {:induction false} CappedLast(history: seq<Event>, at: seq<nat>, cap: nat)
    requires Positions(at, |history|) && at != [] && cap >= 1
    ensures var kept := CappedAt(history, at, cap); kept != [] && kept[|kept| - 1] == at[|at| - 1]
  {
    hide Positions, CountOf;
    RestPositions(at, |history|);
    BoundedPosition(at, |history|);
    NoEvents(history, cap);
    NoneCapped(cap);
    if |at| > 1 { CappedLast(history, at[1..], cap); }
  }

  lemma DropPositions(history: seq<Event>, at: seq<nat>, k: nat)
    requires Positions(at, |history|) && k <= |at|
    ensures Positions(at[k..], |history|)
    ensures EventsAt(history, at[k..]) == EventsAt(history, at)[k..]
  {
  }

  lemma DropClosed(history: seq<Event>, at: seq<nat>, k: nat)
    requires k <= |at| && Positions(at, |history|) && Positions(at[k..], |history|) && SuffixClosed(history, at)
    ensures SuffixClosed(history, at[k..])
  {
    var rest := at[k..];
    forall i, j | 0 <= i < |rest| && rest[i] < j < |history| && history[j].project == history[rest[i]].project
      ensures j in rest
    {
      assert rest[i] == at[i + k];
      assert j in at;
      var m :| 0 <= m < |at| && at[m] == j;
      assert m > i + k;
      assert rest[m - k] == j;
    }
  }

  lemma LastNKept(history: seq<Event>, at: seq<nat>, n: nat)
    requires Positions(at, |history|) && SuffixClosed(history, at) && n >= 1
    ensures Positions(LastN(at, n), |history|) && SuffixClosed(history, LastN(at, n))
    ensures EventsAt(history, LastN(at, n)) == LastN(EventsAt(history, at), n)
    ensures |LastN(at, n)| <= n
    ensures at != [] ==> LastN(at, n) != [] && LastN(at, n)[|LastN(at, n)| - 1] == at[|at| - 1]
  {
    hide Positions, SuffixClosed;
    if |at| > n {
      DropPositions(history, at, |at| - n);
      DropClosed(history, at, |at| - n);
    }
  }

  lemma RecordedPositions(history: seq<Event>, at: seq<nat>, e: Event)
    requires Positions(at, |history|) && SuffixClosed(history, at)
    ensures var longer: seq<nat> := at + [|history|];
            && Positions(longer, |history + [e]|) && SuffixClosed(history + [e], longer)
            && EventsAt(history + [e], longer) == EventsAt(history, at) + [e]
  {
    var all := history + [e];
    var longer: seq<nat> := at + [|history|];
    assert Positions(longer, |all|);
    forall i, j | 0 <= i < |longer| && longer[i] < j < |all| && all[j].project == all[longer[i]].project
      ensures j in longer
    {
      if j < |history| {
        assert longer[i] == at[i];
        assert j in at;
      } else {
        assert longer[|at|] == j;
      }
    }
  }

  lemma {:induction false} CappedShorter(s: seq<Event>, cap: nat)
    ensures |Capped(s, cap)| <= |s|
  {
    if s != [] { CappedShorter(s[1..], cap); }
  }

  lemma RetainedCaps(events: seq<Event>, maxEntries: nat, perProject: nat)
    ensures CapsHold(Retained(events, maxEntries, perProject), maxEntries, perProject)
  {
    hide Capped, CountOf;
    var s := LastN(events, maxEntries);
    CappedShorter(s, perProject);
    forall e | e in Capped(s, perProject) ensures CountOf(Capped(s, perProject), e.project) <= perProject {
      CappedCount(s, perProject, e.project);
    }
  }

  /** The positions kept once `e` has been recorded. */
  lemma RecordKeeps(history: seq<Event>, at: seq<nat>, stored: seq<Event>, e: Event, maxEntries: nat, perProject: nat)
    returns (next: seq<nat>)
    requires Kept(history, at, stored) && maxEntries >= 1 && perProject >= 1
    ensures Kept(history + [e], next, Retained(stored + [e], maxEntries, perProject))
  {
    hide Positions, SuffixClosed, EventsAt, CappedAt, LastN, Capped;
    var all := history + [e];
    var longer: seq<nat> := at + [|history|];
    RecordedPositions(history, at, e);
    LastNKept(all, longer, maxEntries);
    var last := LastN(longer, maxEntries);
    next := CappedAt(all, last, perProject);
    CappedAtClosed(all, last, perProject);
    CappedEvents(all, last, perProject);
    CappedLast(all, last, perProject);
  }

  // ---------------------------------------------------------------- change detection

  const CHANGE := "change"
  const SUBJECT := "subject"

  predicate IsChange(e: Event, project: string, subject: string) {
    e.project == project && e.kind == CHANGE && SUBJECT in e.data && e.data[SUBJECT] == subject
  }

  function ChangeOf(project: string, subject: string, fingerprint: string): Event {
    Event(project, CHANGE, OfFingerprint(project, CHANGE, fingerprint), "detected", map[SUBJECT := subject])
  }

  function LatestChange(events: seq<Event>, project: string, subject: string): Option<Event> {
    if events == [] then None
    else
      var last := events[|events| - 1];
      if IsChange(last, project, subject) then Some(last) else LatestChange(events[..|events| - 1], project, subject)
  }

  lemma {:induction false} LatestIs(events: seq<Event>, project: string, subject: string, i: nat)
    requires i < |events| && IsChange(events[i], project, subject)
    requires forall j | i < j < |events| :: !IsChange(events[j], project, subject)
    ensures LatestChange(events, project, subject) == Some(events[i])
  {
    hide IsChange;
    if i < |events| - 1 { LatestIs(events[..|events| - 1], project, subject, i); }
  }

  lemma {:induction false} LatestAt(events: seq<Event>, project: string, subject: string) returns (i: nat)
    requires LatestChange(events, project, subject).Some?
    ensures i < |events| && IsChange(events[i], project, subject)
            && LatestChange(events, project, subject) == Some(events[i])
    ensures forall j | i < j < |events| :: !IsChange(events[j], project, subject)
  {
    hide IsChange;
    if IsChange(events[|events| - 1], project, subject) {
      i := |events| - 1;
    } else {
      i := LatestAt(events[..|events| - 1], project, subject);
    }
  }

  lemma StoredAfter(history: seq<Event>, at: seq<nat>, stored: seq<Event>, i: nat, j: nat)
    requires Kept(history, at, stored) && i < |at| && at[i] < j < |history|
             && history[j].project == history[at[i]].project
    ensures exists k :: i < k < |at| && at[k] == j
  {
    assert j in at;
    var k :| 0 <= k < |at| && at[k] == j;
    assert k > i;
  }

  /** Retention never makes the memory answer with an outdated change: a change found among the
      stored events is the latest ever recorded for its subject. */
  lemma StoredChangeIsLatest(history: seq<Event>, at: seq<nat>, stored: seq<Event>, project: string, subject: string)
    requires Kept(history, at, stored) && LatestChange(stored, project, subject).Some?
    ensures LatestChange(history, project, subject) == LatestChange(stored, project, subject)
  {
    hide LatestChange;
    var i := LatestAt(stored, project, subject);
    assert stored[i] == history[at[i]];
    forall j | at[i] < j < |history| ensures !IsChange(history[j], project, subject) {
      if history[j].project == project {
        StoredAfter(history, at, stored, i, j);
        var k :| i < k < |at| && at[k] == j;
        assert stored[k] == history[j];
      }
    }
    LatestIs(history, project, subject, at[i]);
  }

  lemma NewestStored(history: seq<Event>, at: seq<nat>, stored: seq<Event>)
    requires Kept(history, at, stored) && history != []
    ensures stored != [] && stored[|stored| - 1] == history[|history| - 1]
  {
  }

  // ------------------------------------------------------------------------ the store

  class CrossProjectMemory {
    const maxEntries: nat
    const perProject: nat
    var file: seq<Entry>
    ghost var history: seq<Event>
    ghost var at: seq<nat>

    /** A file whose chain is broken says nothing about the history; nothing is recorded then. */
    ghost predicate Valid() reads this {
      && maxEntries >= 1 && perProject >= 1
      && (Chained(file) ==> Kept(history, at, Events(file)) && CapsHold(Events(file), maxEntries, perProject))
    }

    constructor (maxEntries: int, perProject: int)
      ensures Valid() && history == [] && file == []
      ensures this.maxEntries == (if maxEntries < 1 then 1 else if maxEntries < 1000 then maxEntries else 1000)
      ensures this.perProject == (if perProject < 1 then 1 else if perProject < 200 then perProject else 200)
    {
      this.maxEntries := if maxEntries < 1 then 1 else if maxEntries < 1000 then maxEntries else 1000;
      this.perProject := if perProject < 1 then 1 else if perProject < 200 then perProject else 200;
      file, history, at := [], [], [];
    }

    /** `_record_unlocked`; `written` tells whether the file could be replaced. */
    method Record(e: Event, written: bool) returns (ok: bool)
      requires Valid()
      modifies this
      ensures Valid() && ok == (written && Chained(old(file)))
      ensures ok ==> Chained(file) && history == old(history) + [e]
      ensures ok ==> Events(file) == Retained(old(Events(file)) + [e], maxEntries, perProject)
      ensures !ok ==> history == old(history) && file == old(file)
    {
      hide Kept, Chained, CapsHold, Retained, Events, Sealed;
      var valid := Load(file);
      if !valid || !written {
        return false;
      }
      var entries := Events(file) + [e];
      var bounded := LastN(entries, maxEntries);
      var kept := KeepNewest(bounded, perProject);
      var sealed := Seal(kept);
      SealedLoads(kept);
      RetainedIs(entries, maxEntries, perProject);
      RetainedCaps(entries, maxEntries, perProject);
      ghost var next := RecordKeeps(history, at, Events(file), e, maxEntries, perProject);
      file := sealed;
      history, at := history + [e], next;
      ok := true;
    }

    method RecordChange(project: string, subject: string, fingerprint: string, written: bool) returns (ok: bool)
      requires Valid()
      modifies this
      ensures Valid() && ok == (written && Chained(old(file)))
      ensures ok ==> LatestChange(Events(file), project, subject) == Some(ChangeOf(project, subject, fingerprint))
      ensures !ok ==> history == old(history) && file == old(file)
    {
      hide Kept, Chained, CapsHold, Retained, Events, IsChange, ChangeOf;
      var e := ChangeOf(project, subject, fingerprint);
      ok := Record(e, written);
      if ok {
        NewestStored(history, at, Events(file));
        ChangeIsChange(project, subject, fingerprint);
      }
    }

    /** Answers with the fingerprint last recorded for the subject, over the whole history. */
    method ChangeDetected(project: string, subject: string, fingerprint: string) returns (changed: bool)
      requires Valid()
      ensures changed <==> (!Chained(file) || LatestChange(Events(file), project, subject).None?
                            || LatestChange(Events(file), project, subject).value.fingerprint !=
                               OfFingerprint(project, CHANGE, fingerprint))
      ensures !changed ==> LatestChange(history, project, subject).Some?
                           && LatestChange(history, project, subject).value.fingerprint ==
                              OfFingerprint(project, CHANGE, fingerprint)
    {
      hide Kept, Chained, CapsHold, Retained, Events, IsChange, LatestChange;
      var valid := Load(file);
      if !valid {
        return true;
      }
      var latest := LatestChange(Events(file), project, subject);
      if latest.Some? { StoredChangeIsLatest(history, at, Events(file), project, subject); }
      return latest.None? || latest.value.fingerprint != OfFingerprint(project, CHANGE, fingerprint);
    }
  }

  lemma ChangeIsChange(project: string, subject: string, fingerprint: string)
    ensures IsChange(ChangeOf(project, subject, fingerprint), project, subject)
  {
  }

  lemma RetainedIs(events: seq<Event>, maxEntries: nat, perProject: nat)
    ensures Retained(events, maxEntries, perProject) == Capped(LastN(events, maxEntries), perProject)
  {
  }
}
