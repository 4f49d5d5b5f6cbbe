/** The REST connector: retries, redirects and marks. */
module RestConnector {
  import opened DiffText
  import opened SideEffects

  const MAX_RETRIES := 2
  const MAX_REDIRECTS := 3

  /** What the transport does. A redirect has a location header; following it may find
      the target address refused. */
  datatype Answer =
    | Raised
    | Invalid
    | Oversized
    | Redirect(targetAllowed: bool)
    | Response(status: nat, bodyDigest: string)

  predicate Retryable(status: nat) {
    status in {429, 500, 502, 503, 504}
  }

  /** State that the ledger must end in once a write has its answer. */
  function WriteState(a: Answer): State {
    if a.Response? then (if 200 <= a.status < 400 then EXECUTED else FAILED) else UNKNOWN
  }

  datatype Result = Returned(status: nat) | Raises

  /** The loop of `request` from attempt `k` on, answers numbered from there. */
  function Outcome(safe: bool, answers: nat -> Answer, k: nat, redirects: nat): (Result, nat)
    decreases 1 + (if safe then MAX_RETRIES else 0) - k
  {
    var attempts := 1 + if safe then MAX_RETRIES else 0;
    if k >= attempts then (Raises, k)
    else
      match answers(k)
      case Raised => (Raises, k + 1)
      case Invalid => (Raises, k + 1)
      case Oversized => (Raises, k + 1)
      case Redirect(ok) =>
        if redirects + 1 > MAX_REDIRECTS || !ok then (Raises, k + 1)
        else Outcome(safe, answers, k + 1, redirects + 1)
      case Response(status, _) =>
        if Retryable(status) && safe && k + 1 < attempts then Outcome(safe, answers, k + 1, redirects)
        else (Returned(status), k + 1)
  }

  lemma {:induction false} CallsBounded(safe: bool, answers: nat -> Answer, k: nat, redirects: nat)
    requires k <= 1 + if safe then MAX_RETRIES else 0
    ensures k <= Outcome(safe, answers, k, redirects).1 <= 1 + if safe then MAX_RETRIES else 0
    decreases 1 + (if safe then MAX_RETRIES else 0) - k
  {
    var attempts := 1 + if safe then MAX_RETRIES else 0;
    if k < attempts {
      CallsBounded(safe, answers, k + 1, redirects + 1);
      CallsBounded(safe, answers, k + 1, redirects);
    }
  }

  /** The same loop without the redirect limit. */
  function Unlimited(safe: bool, answers: nat -> Answer, k: nat): (Result, nat)
    decreases 1 + (if safe then MAX_RETRIES else 0) - k
  {
    var attempts := 1 + if safe then MAX_RETRIES else 0;
    if k >= attempts then (Raises, k)
    else
      match answers(k)
      case Redirect(true) => Unlimited(safe, answers, k + 1)
      case Response(status, _) =>
        if Retryable(status) && safe && k + 1 < attempts then Unlimited(safe, answers, k + 1)
        else (Returned(status), k + 1)
      case _ => (Raises, k + 1)
  }

  lemma {:induction false} UnlimitedFrom(safe: bool, answers: nat -> Answer, k: nat, redirects: nat)
    requires redirects <= k
    ensures Outcome(safe, answers, k, redirects) == Unlimited(safe, answers, k)
    decreases 1 + (if safe then MAX_RETRIES else 0) - k
  {
    if k < (1 + if safe then MAX_RETRIES else 0) {
      UnlimitedFrom(safe, answers, k + 1, redirects);
      UnlimitedFrom(safe, answers, k + 1, redirects + 1);
    }
  }

  /** Redirects use up attempts, so that the separate redirect limit never matters. */
  lemma RedirectLimitUnreachable(safe: bool, answers: nat -> Answer)
    ensures Outcome(safe, answers, 0, 0) == Unlimited(safe, answers, 0)
  {
    UnlimitedFrom(safe, answers, 0, 0);
  }

  /** A write makes exactly one call and returns exactly the plain responses. */
  lemma WriteOutcome(answers: nat -> Answer)
    ensures Outcome(false, answers, 0, 0).1 == 1
    ensures Outcome(false, answers, 0, 0).0 == if answers(0).Response? then Returned(answers(0).status) else Raises
  {
    assert Outcome(false, answers, 1, 1) == (Raises, 1);
  }

  /** What the ledger holds after a granted write has tried to record its answer. */
  function Recorded(ledger: Ledger, key: string, a: Answer): Ledger {
    if a.Response? then
      var (after, ok) := AfterUpdate(ledger, key, WriteState(a), MarkDigest(a), MarkReason(a));
      if ok then after else AfterUpdate(after, key, UNKNOWN, "", UNRESOLVED).0
    else AfterUpdate(ledger, key, UNKNOWN, "", UNRESOLVED).0
  }

  const FAILURE := "provider returned an HTTP error"
  const UNRESOLVED := "external REST outcome is unresolved"

  function MarkDigest(a: Answer): string {
    if WriteState(a) == EXECUTED && a.Response? then a.bodyDigest else ""
  }

  function MarkReason(a: Answer): string {
    if WriteState(a) == FAILED then FAILURE else ""
  }

  /** What a mark leaves of a reserved record of a readable ledger, and of any other key. */
  lemma MarkLeaves(ledger: Ledger, key: string, a: Answer)
    requires key in ledger ==> ledger[key].state == RESERVED
    ensures var after, good := Recorded(ledger, key, a), a.Response? && 200 <= a.status < 400;
            && after.Keys == ledger.Keys
            && (forall k | k in ledger && k != key :: after[k] == ledger[k])
            && (key in ledger && |ledger| > 10_000 ==> after == ledger)
            && (key in ledger && |ledger| <= 10_000 ==>
                  var w := after[key];
                  && w.operation == ledger[key].operation && w.digest == ledger[key].digest
                  && w.state == (if good then EXECUTED else if a.Response? then FAILED else UNKNOWN)
                  && w.resultDigest == (if good then Cut(a.bodyDigest, 64) else "")
                  && (w.reason == "" <==> good))
  {
    hide Cut;
    ReasonTexts();
  }

  /** What becomes of a granted write. Its record ends EXECUTED with the body's digest for a
      response from 200 to 399, FAILED for any other response and UNKNOWN for no response, if
      its key has no blanks around it and its grant has not filled the ledger; if not, it stays
      RESERVED. */
  lemma WriteRecorded(ledger: Ledger, key: string, operation: string, digest: string, a: Answer)
    requires Sound(ledger) && Grantable(ledger, key, operation, digest)
    ensures var after := Recorded(AfterClaim(ledger, key, operation, digest).0, key, a);
            && after.Keys == ledger.Keys + {Strip(key)}
            && (forall k | k in ledger :: after[k] == ledger[k])
            && var w, good := after[Strip(key)], a.Response? && 200 <= a.status < 400;
               && w.operation == Strip(operation) && w.digest == Strip(digest)
               && if Strip(key) == key && |ledger| < 10_000 then
                    && w.state == (if good then EXECUTED else if a.Response? then FAILED else UNKNOWN)
                    && w.resultDigest == (if good then Cut(a.bodyDigest, 64) else "")
                    && (w.reason == "" <==> good)
                  else w == Record(Strip(key), Strip(operation), Strip(digest), RESERVED, "", "")
  {
    hide Strip, Cut, WellFormed, AfterClaim, Recorded;
    GrantedLedger(ledger, key, operation, digest);
    MarkLeaves(AfterClaim(ledger, key, operation, digest).0, key, a);
  }

  lemma GrantedLedger(ledger: Ledger, key: string, operation: string, digest: string)
    requires Grantable(ledger, key, operation, digest)
    ensures AfterClaim(ledger, key, operation, digest).0 ==
            ledger[Strip(key) := Record(Strip(key), Strip(operation), Strip(digest), RESERVED, "", "")]
    ensures AfterClaim(ledger, key, operation, digest).1.Granted?
    ensures |AfterClaim(ledger, key, operation, digest).0| == |ledger| + 1
  {
    hide Strip;
  }

  lemma ReasonTexts()
    ensures Cut(UNRESOLVED, MAX_TEXT) != "" && Cut(FAILURE, MAX_TEXT) != ""
    ensures Cut("", MAX_TEXT) == "" && Cut("", 64) == ""
  {
  }

  lemma WriteReturns(ledger: Ledger, key: string, operation: string, digest: string, a: Answer)
    requires Sound(ledger) && Grantable(ledger, key, operation, digest)
    ensures a.Response? ==>
              (AfterUpdate(AfterClaim(ledger, key, operation, digest).0, key, WriteState(a), "", "").1 <==>
               Strip(key) == key && |ledger| < 10_000)
  {
    hide Strip, Cut;
    GrantedLedger(ledger, key, operation, digest);
    hide WellFormed, AfterClaim;
  }

  /** The answer is followed by another attempt of a safe request. */
  predicate TriedAgain(a: Answer) {
    || (a.Redirect? && a.targetAllowed)
    || (a.Response? && (a.status == 429 || a.status == 500 || 502 <= a.status <= 504))
  }

  /** A safe request makes one to three calls: it goes on behind an answer that calls for
      another attempt, stops behind any other, and returns the last answer if it is a response. */
  predicate SafeOutcome(answers: nat -> Answer, r: Result, calls: nat) {
    && 1 <= calls <= 3
    && (forall k | 0 <= k < calls - 1 :: TriedAgain(answers(k)))
    && (calls == 3 || !TriedAgain(answers(calls - 1)))
    && r == if answers(calls - 1).Response? then Returned(answers(calls - 1).status) else Raises
  }

  lemma SafeOutcomeIs(answers: nat -> Answer)
    ensures var (r, calls) := Outcome(true, answers, 0, 0); SafeOutcome(answers, r, calls)
  {
    assert Outcome(true, answers, 0, 0) == Unlimited(true, answers, 0) by { RedirectLimitUnreachable(true, answers); }
    hide Outcome;
    assert Unlimited(true, answers, 3) == (Raises, 3);
    assert Unlimited(true, answers, 2) ==
           (if answers(2).Response? then Returned(answers(2).status) else Raises, 3);
  }

  /** The attempts of a request whose claim, if it needs one, was granted, and the marks behind them. */
  method Send(store: ExternalSideEffectStore?, safe: bool, key: string, answers: nat -> Answer)
    returns (r: Result, calls: nat)
    requires store != null ==> store.Valid()
    modifies if store == null then {} else {store}
    ensures store != null ==> store.Valid()
    ensures calls == Outcome(safe, answers, 0, 0).1
    ensures safe || store == null ==> r == Outcome(safe, answers, 0, 0).0
    ensures safe && store != null ==> store.records == old(store.records)
    ensures !safe && store != null ==>
              && store.records == Recorded(old(store.records), key, answers(0))
              && r == if answers(0).Response? && AfterUpdate(old(store.records), key, WriteState(answers(0)), "", "").1
                      then Returned(answers(0).status) else Raises
  {
    hide Strip, WellFormed, Sound, Loadable, Cut;
    calls := 0;
    ghost var claimed := if store == null then map[] else store.records;
    var attempts := 1 + if safe then MAX_RETRIES else 0;
    var redirectCount := 0;
    CallsBounded(safe, answers, 0, 0);
    WriteOutcome(answers);
    while calls < attempts
      invariant redirectCount <= calls <= attempts
      invariant store != null ==> store.Valid() && store.records == claimed
      invariant Outcome(safe, answers, calls, redirectCount) == Outcome(safe, answers, 0, 0)
    {
      var response := answers(calls);
      if response.Raised? || response.Invalid? || response.Oversized? {
        calls := calls + 1;
        break;
      }
      if response.Redirect? {
        redirectCount := redirectCount + 1;
        if redirectCount > MAX_REDIRECTS || !response.targetAllowed {
          calls := calls + 1;
          break;
        }
        calls := calls + 1;
        continue;
      }
      if Retryable(response.status) && safe && calls + 1 < attempts {
        calls := calls + 1;
        continue;
      }
      calls := calls + 1;
      if safe || store == null {
        return Returned(response.status), calls;
      }
      var marked := store.Update(key, WriteState(response), MarkDigest(response), MarkReason(response));
      if marked {
        return Returned(response.status), calls;
      }
      break;
    }
    if !safe && store != null {
      var _ := store.Update(key, UNKNOWN, "", UNRESOLVED);
    }
    return Raises, calls;
  }

  /** `request`, its checks before the claim passed or not, with a side-effect store or
      without one. The calls made are counted. */
  method Request(store: ExternalSideEffectStore?, safe: bool, checked: bool, key: string, operation: string,
                 digest: string, answers: nat -> Answer)
    returns (r: Result, calls: nat)
    requires store != null ==> store.Valid()
    modifies if store == null then {} else {store}
    ensures store != null ==> store.Valid()
    ensures calls <= if safe then 3 else 1
    ensures !checked ==> r == Raises && calls == 0 && (store != null ==> store.records == old(store.records))
    ensures checked && safe ==>
              && SafeOutcome(answers, r, calls)
              && (r, calls) == Outcome(true, answers, 0, 0) && (store != null ==> store.records == old(store.records))
    ensures checked && !safe && store == null ==>
              calls == 1 && r == if answers(0).Response? then Returned(answers(0).status) else Raises
    ensures checked && !safe && store != null ==>
              if !Grantable(old(store.records), key, operation, digest) then
                r == Raises && calls == 0 && store.records == old(store.records)
              else
                && calls == 1
                && store.records.Keys == old(store.records).Keys + {Strip(key)}
                && (forall k | k in old(store.records) :: store.records[k] == old(store.records)[k])
                && var w, a := store.records[Strip(key)], answers(0);
                   if Strip(key) == key && |old(store.records)| < 10_000 then
                     && (w.state == EXECUTED <==> a.Response? && 200 <= a.status < 400)
                     && (w.state == FAILED <==> a.Response? && !(200 <= a.status < 400))
                     && (w.state == UNKNOWN <==> !a.Response?)
                     && w.resultDigest == (if w.state == EXECUTED then Cut(a.bodyDigest, 64) else "")
                     && (w.reason == "" <==> w.state == EXECUTED)
                     && r == (if a.Response? then Returned(a.status) else Raises)
                   else w.state == RESERVED && w.resultDigest == "" && r == Raises
  {
    hide Strip, WellFormed, Sound, Loadable, Cut, Grantable, SafeOutcome, Recorded, Outcome, AfterClaim, AfterUpdate;
    WriteOutcome(answers);
    SafeOutcomeIs(answers);
    CallsBounded(safe, answers, 0, 0);
    if !checked {
      return Raises, 0;
    }
    if !safe && store != null {
      var d := store.Claim(key, operation, digest);
      if !d.Granted? {
        return Raises, 0;
      }
      WriteRecorded(old(store.records), key, operation, digest, answers(0));
      WriteReturns(old(store.records), key, operation, digest, answers(0));
    }
    r, calls := Send(store, safe, key, answers);
  }
}
