/** The ledger of external side effects. */
module SideEffects {
  import opened DiffText

  const MAX_RECORDS := 10_000
  const MAX_TEXT := 4_000

  datatype State = RESERVED | EXECUTED | FAILED | UNKNOWN

  datatype Record = Record(key: string, operation: string, digest: string, state: State, resultDigest: string,
                           reason: string)

  predicate WellFormed(r: Record) {
    && 0 < |r.key| <= 512
    && 0 < |r.operation| <= 256
    && |r.digest| == 64
    && |r.resultDigest| <= 64 && |r.reason| <= MAX_TEXT
  }

  type Ledger = map<string, Record>

  /** `_load_unlocked` gives up on a ledger above its record limit. */
  predicate Loadable(ledger: Ledger) {
    |ledger| <= MAX_RECORDS
  }

  datatype Decision = Granted(record: Record) | Blocked(record: Record) | Refused

  function Candidate(key: string, operation: string, digest: string): Record {
    Record(Strip(key), Strip(operation), Strip(digest), RESERVED, "", "")
  }

  /** A new key on a ledger that can be read, with texts within their limits. */
  predicate Grantable(ledger: Ledger, key: string, operation: string, digest: string) {
    && Strip(key) !in ledger && |ledger| <= 10_000
    && 0 < |Strip(key)| <= 512 && 0 < |Strip(operation)| <= 256 && |Strip(digest)| == 64
  }

  function AfterClaim(ledger: Ledger, key: string, operation: string, digest: string): (Ledger, Decision) {
    var c := Candidate(key, operation, digest);
    if !WellFormed(c) || !Loadable(ledger) then (ledger, Refused)
    else if c.key !in ledger then (ledger[c.key := c], Granted(c))
    else
      var r := ledger[c.key];
      if r.operation != c.operation || r.digest != c.digest then (ledger, Refused) else (ledger, Blocked(r))
  }

  function Cut(s: string, n: nat): string {
    if |s| <= n then s else s[..n]
  }

  /** `_update`: the key is used as given, and only a reserved record moves. */
  function AfterUpdate(ledger: Ledger, key: string, state: State, resultDigest: string, reason: string)
    : (Ledger, bool)
  {
    if !Loadable(ledger) || key !in ledger || ledger[key].state != RESERVED then (ledger, false)
    else
      (ledger[key := ledger[key].(state := state, resultDigest := Cut(resultDigest, 64),
                                  reason := Cut(reason, MAX_TEXT))], true)
  }

  ghost predicate Sound(ledger: Ledger) {
    forall k | k in ledger :: ledger[k].key == k && WellFormed(ledger[k]) && Strip(k) == k
  }

  class ExternalSideEffectStore {
    var records: Ledger

    ghost predicate Valid()
      reads this
    {
      Sound(records)
    }

    constructor ()
      ensures Valid() && records == map[]
    {
      records := map[];
    }

    method Claim(key: string, operation: string, digest: string) returns (d: Decision)
      requires Valid()
      modifies this
      ensures Valid()
      ensures (records, d) == AfterClaim(old(records), key, operation, digest)
      ensures d.Granted? <==> Grantable(old(records), key, operation, digest)
      ensures d.Blocked? <==>
              && Strip(key) in old(records) && |old(records)| <= 10_000
              && old(records)[Strip(key)].operation == Strip(operation)
              && old(records)[Strip(key)].digest == Strip(digest)
      ensures d.Blocked? ==> d.record == old(records)[Strip(key)]
      ensures d.Granted? ==>
                && records.Keys == old(records).Keys + {Strip(key)}
                && records[Strip(key)] == Record(Strip(key), Strip(operation), Strip(digest), RESERVED, "", "")
      ensures forall k | k in old(records) :: k in records && records[k] == old(records)[k]
      ensures !d.Granted? ==> records == old(records)
    {
      hide Strip;
      StripIdempotent(key);
      var c := Candidate(key, operation, digest);
      if !WellFormed(c) || |records| > MAX_RECORDS {
        return Refused;
      }
      if c.key !in records {
        records := records[c.key := c];
        return Granted(c);
      }
      var existing := records[c.key];
      if existing.operation != c.operation || existing.digest != c.digest {
        return Refused;
      }
      return Blocked(existing);
    }

    method Update(key: string, state: State, resultDigest: string, reason: string) returns (ok: bool)
      requires Valid()
      modifies this
      ensures Valid()
      ensures (records, ok) == AfterUpdate(old(records), key, state, resultDigest, reason)
      ensures ok <==> |old(records)| <= 10_000 && key in old(records) && old(records)[key].state == RESERVED
      ensures records.Keys == old(records).Keys
      ensures forall k | k in old(records) && k != key :: records[k] == old(records)[k]
      ensures ok ==>
                && records[key].state == state
                && records[key].operation == old(records)[key].operation
                && records[key].digest == old(records)[key].digest
                && records[key].resultDigest == (if |resultDigest| <= 64 then resultDigest else resultDigest[..64])
                && records[key].reason == (if |reason| <= 4_000 then reason else reason[..4_000])
      ensures !ok ==> records == old(records)
    {
      hide Strip;
      if |records| > MAX_RECORDS || key !in records || records[key].state != RESERVED {
        return false;
      }
      var r := records[key];
      records := records[key := r.(state := state, resultDigest := Cut(resultDigest, 64),
                                   reason := Cut(reason, MAX_TEXT))];
      return true;
    }
  }

  // -------------------------------------------------------- what one step keeps

  /** What no step of any process undoes: records stay, keep operation and digest, and
      leave RESERVED at most once. */
  ghost predicate Advances(a: Ledger, b: Ledger) {
    forall k | k in a ::
      && k in b
      && b[k].operation == a[k].operation && b[k].digest == a[k].digest
      && (a[k].state != RESERVED ==> b[k] == a[k])
  }

  lemma InsertKeeps(ledger: Ledger, c: Record)
    requires Sound(ledger) && WellFormed(c) && Strip(c.key) == c.key && c.key !in ledger
    ensures Sound(ledger[c.key := c]) && Advances(ledger, ledger[c.key := c])
  {
  }

  lemma ClaimKeeps(ledger: Ledger, key: string, operation: string, digest: string)
    requires Sound(ledger)
    ensures var (after, d) := AfterClaim(ledger, key, operation, digest);
            && Sound(after) && Advances(ledger, after)
            && (d.Granted? <==> after != ledger)
            && (d.Granted? ==> Strip(key) !in ledger && Strip(key) in after && after[Strip(key)].state == RESERVED
                               && after[Strip(key)].resultDigest == ""
                               && after.Keys == ledger.Keys + {Strip(key)})
  {
    hide Strip, WellFormed, Sound;
    StripIdempotent(key);
    CandidateKey(key, operation, digest);
    var c := Candidate(key, operation, digest);
    hide Candidate;
    if WellFormed(c) && c.key !in ledger {
      InsertKeeps(ledger, c);
      assert c.key in ledger[c.key := c];
    }
  }

  lemma CandidateKey(key: string, operation: string, digest: string)
    ensures Candidate(key, operation, digest).key == Strip(key) && Candidate(key, operation, digest).state == RESERVED
    ensures Candidate(key, operation, digest).resultDigest == ""
  {
  }

  lemma UpdateKeeps(ledger: Ledger, key: string, state: State, resultDigest: string, reason: string)
    requires Sound(ledger)
    ensures var (after, ok) := AfterUpdate(ledger, key, state, resultDigest, reason);
            && Sound(after) && Advances(ledger, after) && after.Keys == ledger.Keys
            && (ok ==> after == ledger[key := after[key]] && after[key].state == state)
            && (!ok ==> after == ledger)
  {
    hide Strip;
  }

  /** A call of the store. */
  datatype StoreCall =
    | ClaimCall(key: string, operation: string, digest: string)
    | UpdateCall(key: string, state: State, resultDigest: string, reason: string)

  /** The ledger after a call, and whether the call was of use. */
  function AfterCall(ledger: Ledger, c: StoreCall): (Ledger, bool) {
    match c
    case ClaimCall(key, operation, digest) =>
      var (after, d) := AfterClaim(ledger, key, operation, digest);
      (after, !d.Refused?)
    case UpdateCall(key, state, resultDigest, reason) => AfterUpdate(ledger, key, state, resultDigest, reason)
  }

  function AfterCalls(ledger: Ledger, calls: seq<StoreCall>): Ledger
    decreases |calls|
  {
    if calls == [] then ledger else AfterCalls(AfterCall(ledger, calls[0]).0, calls[1..])
  }

  /** A ledger that cannot be read stays as it is: every later claim and every later mark fails. */
  lemma {:induction false} OverfullForever(ledger: Ledger, calls: seq<StoreCall>, next: StoreCall)
    requires !Loadable(ledger)
    ensures AfterCalls(ledger, calls) == ledger
    ensures AfterCall(AfterCalls(ledger, calls), next) == (ledger, false)
    decreases |calls|
  {
    hide Strip, WellFormed, Candidate, Cut;
    if calls != [] { OverfullForever(ledger, calls[1..], next); }
  }

  /** A claim of a new key, well formed, on a ledger that is just full. */
  predicate Closing(ledger: Ledger, c: StoreCall) {
    && c.ClaimCall? && |ledger| == MAX_RECORDS
    && WellFormed(Candidate(c.key, c.operation, c.digest)) && Strip(c.key) !in ledger
  }

  predicate Grants(ledger: Ledger, c: StoreCall) {
    c.ClaimCall? && AfterClaim(ledger, c.key, c.operation, c.digest).1.Granted?
  }

  /** The claim that takes the ledger one over its limit is still granted, and it is the only
      call, claim or mark, that makes a readable ledger unreadable. */
  lemma LastGrantCloses(ledger: Ledger, c: StoreCall)
    requires Loadable(ledger)
    ensures !Loadable(AfterCall(ledger, c).0) <==> Closing(ledger, c)
    ensures Closing(ledger, c) ==> Grants(ledger, c)
  {
    hide Strip, WellFormed, Cut;
    CallSize(ledger, c);
  }

  /** A granted claim is one record more; no other call changes their number. */
  lemma CallSize(ledger: Ledger, c: StoreCall)
    ensures |AfterCall(ledger, c).0| == |ledger| + if Grants(ledger, c) then 1 else 0
  {
    hide Strip, WellFormed, Cut;
    if c.UpdateCall? {
      assert AfterCall(ledger, c).0.Keys == ledger.Keys;
      SameSize(AfterCall(ledger, c).0, ledger);
    }
  }

  lemma SameSize(a: Ledger, b: Ledger)
    requires a.Keys == b.Keys
    ensures |a| == |b|
  {
    assert |a| == |a.Keys| && |b| == |b.Keys|;
  }

  function GrantCount(ledger: Ledger, calls: seq<StoreCall>): nat
    decreases |calls|
  {
    if calls == [] then 0
    else (if Grants(ledger, calls[0]) then 1 else 0) + GrantCount(AfterCall(ledger, calls[0]).0, calls[1..])
  }

  /** Over any sequence of calls the ledger grows by its grants. */
  lemma {:induction false} LedgerGrows(ledger: Ledger, calls: seq<StoreCall>)
    ensures |AfterCalls(ledger, calls)| == |ledger| + GrantCount(ledger, calls)
    decreases |calls|
  {
    hide AfterCall, Grants;
    if calls != [] {
      CallSize(ledger, calls[0]);
      LedgerGrows(AfterCall(ledger, calls[0]).0, calls[1..]);
    }
  }

  lemma FirstCalls(ledger: Ledger, calls: seq<StoreCall>, i: nat)
    requires 1 <= i <= |calls|
    ensures AfterCalls(ledger, calls[..i]) == AfterCalls(AfterCall(ledger, calls[0]).0, calls[1..][..i - 1])
  {
    hide AfterCall;
    assert calls[..i][1..] == calls[1..][..i - 1];
  }

  /** A readable ledger becomes unreadable over a sequence of calls exactly when one of them is
      such a claim. */
  lemma {:induction false} ClosedExactlyWhen(ledger: Ledger, calls: seq<StoreCall>)
    requires Loadable(ledger)
    ensures !Loadable(AfterCalls(ledger, calls)) <==>
            exists i :: 0 <= i < |calls| && Closing(AfterCalls(ledger, calls[..i]), calls[i])
    decreases |calls|
  {
    hide AfterCall, Closing, Loadable;
    if calls != [] {
      var next, rest := AfterCall(ledger, calls[0]).0, calls[1..];
      LastGrantCloses(ledger, calls[0]);
      assert calls[..0] == [];
      if !Loadable(next) {
        OverfullForever(next, rest, calls[0]);
        assert Closing(AfterCalls(ledger, calls[..0]), calls[0]);
      } else {
        ClosedExactlyWhen(next, rest);
        forall i | 1 <= i < |calls| ensures AfterCalls(ledger, calls[..i]) == AfterCalls(next, rest[..i - 1]) {
          FirstCalls(ledger, calls, i);
        }
        if i :| 0 <= i < |rest| && Closing(AfterCalls(next, rest[..i]), rest[i]) {
          assert Closing(AfterCalls(ledger, calls[..i + 1]), calls[i + 1]);
        }
      }
    }
  }
}
