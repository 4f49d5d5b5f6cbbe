/** The lifecycle of one action. */
module ActionLifecycle {

  datatype Life =
    | PROPOSED | VALIDATED | TESTED | SECURED | POLICY_CHECKED | APPROVED
    | CLAIMED | EXECUTED | VERIFIED | COMPLETED | BLOCKED

  predicate Terminal(s: Life) {
    s == BLOCKED || s == COMPLETED
  }

  function Targets(s: Life): set<Life> {
    match s
    case PROPOSED => {VALIDATED, BLOCKED}
    case VALIDATED => {TESTED, BLOCKED}
    case TESTED => {SECURED, BLOCKED}
    case SECURED => {POLICY_CHECKED, BLOCKED}
    case POLICY_CHECKED => {APPROVED, BLOCKED}
    case APPROVED => {CLAIMED, BLOCKED}
    case CLAIMED => {EXECUTED, BLOCKED}
    case EXECUTED => {VERIFIED, BLOCKED}
    case VERIFIED => {COMPLETED, BLOCKED}
    case BLOCKED => {}
    case COMPLETED => {}
  }

  predicate CanTransition(s: Life, t: Life) {
    !Terminal(s) && t in Targets(s)
  }

  /** Position on the only road from PROPOSED to COMPLETED. */
  function Rank(s: Life): nat {
    match s
    case PROPOSED => 0
    case VALIDATED => 1
    case TESTED => 2
    case SECURED => 3
    case POLICY_CHECKED => 4
    case APPROVED => 5
    case CLAIMED => 6
    case EXECUTED => 7
    case VERIFIED => 8
    case COMPLETED => 9
    case BLOCKED => 10
  }

  /** A transition goes one place forward or to BLOCKED. */
  lemma OneForward(s: Life, t: Life)
    ensures CanTransition(s, t) <==> !Terminal(s) && (t == BLOCKED || Rank(t) == Rank(s) + 1)
  {
  }
}
