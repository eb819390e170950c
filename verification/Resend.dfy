/** The agents' client of the owner: one request, sent again while that is harmless, against an owner
    that may or may not have taken each attempt. */
module Resend {
  import opened Wrappers

  // ---- which bodies carry an identity --------------------------------------------------------

  datatype Value = Text(text: string) | Other

  const ENSURE_PROJECT := "/sessions/v1/canvas-projects/ensure"
  const AGENT_REPORT := "/sessions/v1/agent-report"
  const COMMUNICATION := "/session-communication/"
  const EXTERNAL := "/external/"

  /** `resendIsSafe`: no body is a read; a body is safe where the owner knows it by an identity. */
  function ResendIsSafe(path: string, body: Option<map<string, Value>>): bool {
    if body == None then true
    else if path == ENSURE_PROJECT && "clientActionId" in body.value then true
    else if path == AGENT_REPORT && "actionId" in body.value && body.value["actionId"].Text? then true
    else COMMUNICATION <= path || EXTERNAL <= path
  }

  /** Outside the two families of routes that always carry one, a body without an identity of its own
      is never resent after a possible delivery. */
  lemma UnidentifiedIsUnsafe(path: string, body: map<string, Value>)
    requires !(COMMUNICATION <= path) && !(EXTERNAL <= path)
    ensures ResendIsSafe(path, Some(body)) ==> "clientActionId" in body || "actionId" in body
    ensures path != ENSURE_PROJECT && path != AGENT_REPORT ==> !ResendIsSafe(path, Some(body))
  {}

  // ---- one request ---------------------------------------------------------------------------

  /** What became of an attempt: it never reached the owner; its answer was lost, whether or not the
      owner took it; or it was answered. */
  datatype Fate = NeverReached | Lost(reached: bool) | Answered

  /** The clock after an attempt, measured from the start, and the delay chosen for the next one. */
  datatype Try = Try(fate: Fate, elapsed: nat, delay: nat)

  datatype Policy = Policy(maxAttempts: nat, maxAge: nat)

  /** How a request ended: answered, or given up with one of the two reports. */
  datatype Report = Answer | NothingWasSent | OutcomeUnknown

  /** The request stops after its n-th attempt: answered, a permanent failure, or out of budget. */
  predicate Stops(safe: bool, policy: Policy, n: nat, t: Try) {
    || t.fate == Answered
    || (t.fate.Lost? && !safe)
    || n >= policy.maxAttempts
    || t.elapsed >= policy.maxAge
    || t.elapsed + t.delay >= policy.maxAge
  }

  /** The number of the last attempt, counting on from the n-th. */
  function LastAttempt(safe: bool, policy: Policy, tries: nat -> Try, n: nat): (k: nat)
    ensures n <= k && (k <= policy.maxAttempts || k == n)
    decreases if n < policy.maxAttempts then policy.maxAttempts - n else 0
  {
    if Stops(safe, policy, n, tries(n)) then n else LastAttempt(safe, policy, tries, n + 1)
  }

  predicate Reached(f: Fate) {
    f == Answered || (f.Lost? && f.reached)
  }

  /** How often the owner applied the request in attempts 1..k. An owner that knows the request by its
      identity applies it once. */
  function Applied(known: bool, tries: nat -> Try, k: nat): nat {
    if k == 0 then 0
    else
      var before := Applied(known, tries, k - 1);
      if Reached(tries(k).fate) && !(known && before > 0) then before + 1 else before
  }

  /** Before its last attempt a request that is not safe to resend never reached the owner, and a
      request of any kind was never answered. */
  lemma {:induction false} EarlierAttempts(safe: bool, policy: Policy, tries: nat -> Try, n: nat, i: nat)
    requires n <= i < LastAttempt(safe, policy, tries, n)
    ensures tries(i).fate != Answered && (!safe ==> tries(i).fate == NeverReached)
    decreases i - n
  {
    if i > n { EarlierAttempts(safe, policy, tries, n + 1, i); }
  }

  /** The attempts are used up: as many as allowed were made, or the next would come too late. */
  predicate OutOfBudget(policy: Policy, n: nat, t: Try) {
    n >= policy.maxAttempts || t.elapsed + t.delay >= policy.maxAge
  }

  /** A request is tried until it is answered or its attempts are used up, and no shorter: only one that
      is not safe to resend ends earlier, at the first attempt the owner may have taken. */
  lemma {:induction false} TriedUntil(safe: bool, policy: Policy, tries: nat -> Try, n: nat)
    ensures var k := LastAttempt(safe, policy, tries, n);
      && (tries(k).fate == Answered || OutOfBudget(policy, k, tries(k)) || (!safe && tries(k).fate.Lost?))
      && (forall i :: n <= i < k ==> tries(i).fate != Answered && !OutOfBudget(policy, i, tries(i)) && (!safe ==> !tries(i).fate.Lost?))
    decreases if n < policy.maxAttempts then policy.maxAttempts - n else 0
  {
    if !Stops(safe, policy, n, tries(n)) { TriedUntil(safe, policy, tries, n + 1); }
  }

  /** A first attempt whose answer was lost is followed by another, while there is time for one, exactly
      for a read, for the routes that always carry an identity, and for the two that may, with it. */
  lemma ResentAfterLossExactly(path: string, body: Option<map<string, Value>>, policy: Policy, tries: nat -> Try)
    requires tries(1).fate.Lost? && !OutOfBudget(policy, 1, tries(1))
    ensures LastAttempt(ResendIsSafe(path, body), policy, tries, 1) > 1 <==>
      || body == None || COMMUNICATION <= path || EXTERNAL <= path
      || (path == ENSURE_PROJECT && "clientActionId" in body.value)
      || (path == AGENT_REPORT && "actionId" in body.value && body.value["actionId"].Text?)
  {
    TriedUntil(ResendIsSafe(path, body), policy, tries, 1);
  }

  lemma {:induction false} AppliedOnceKnown(tries: nat -> Try, k: nat)
    ensures Applied(true, tries, k) <= 1
  {
    if k > 0 { AppliedOnceKnown(tries, k - 1); }
  }

  lemma {:induction false} AppliedNever(known: bool, tries: nat -> Try, k: nat)
    requires forall i :: 1 <= i <= k ==> !Reached(tries(i).fate)
    ensures Applied(known, tries, k) == 0
  {
    if k > 0 { AppliedNever(known, tries, k - 1); }
  }

  /** A request that is not safe to resend is applied at most once, and is attempted again only after
      attempts that never reached the owner. */
  lemma UnsafeAppliedOnce(policy: Policy, known: bool, tries: nat -> Try)
    ensures var k := LastAttempt(false, policy, tries, 1);
      && Applied(known, tries, k) <= 1
      && (forall i :: 1 <= i < k ==> tries(i).fate == NeverReached)
      && (tries(k).fate == NeverReached ==> Applied(known, tries, k) == 0)
  {
    var k := LastAttempt(false, policy, tries, 1);
    forall i | 1 <= i < k ensures tries(i).fate == NeverReached { EarlierAttempts(false, policy, tries, 1, i); }
    AppliedNever(known, tries, k - 1);
  }

  /** For a caller: a body without an identity of its own, on any route but the two families that always
      carry one, is applied at most once even by an owner that cannot recognise it, and is sent again
      only after attempts that never reached the owner. */
  lemma UnidentifiedAppliedOnce(path: string, body: map<string, Value>, policy: Policy, tries: nat -> Try)
    requires !(COMMUNICATION <= path) && !(EXTERNAL <= path) && "clientActionId" !in body && "actionId" !in body
    ensures var k := LastAttempt(ResendIsSafe(path, Some(body)), policy, tries, 1);
      Applied(false, tries, k) <= 1 && forall i :: 1 <= i < k ==> tries(i).fate == NeverReached
  {
    UnidentifiedIsUnsafe(path, body);
    UnsafeAppliedOnce(policy, false, tries);
  }

  /** And on every route: while the owner recognises whatever the client takes to be safe, nothing the
      network does makes it apply a request twice. */
  lemma RecognisedAppliedOnce(path: string, body: Option<map<string, Value>>, policy: Policy, known: bool, tries: nat -> Try)
    requires ResendIsSafe(path, body) ==> known
    ensures Applied(known, tries, LastAttempt(ResendIsSafe(path, body), policy, tries, 1)) <= 1
  {
    hide ResendIsSafe;
    if known { AppliedOnceKnown(tries, LastAttempt(ResendIsSafe(path, body), policy, tries, 1)); }
    else { UnsafeAppliedOnce(policy, known, tries); }
  }

  /** Exactly when no failures at all can make the owner apply a request twice: it is not safe to
      resend, the owner knows it by its identity, or there is no second attempt. */
  lemma AppliedOnceExactly(safe: bool, policy: Policy, known: bool)
    ensures (forall tries :: Applied(known, tries, LastAttempt(safe, policy, tries, 1)) <= 1)
      <==> !safe || known || policy.maxAttempts <= 1 || policy.maxAge == 0
  {
    if !safe {
      forall tries ensures Applied(known, tries, LastAttempt(safe, policy, tries, 1)) <= 1 {
        UnsafeAppliedOnce(policy, known, tries);
      }
    } else if known {
      forall tries ensures Applied(known, tries, LastAttempt(safe, policy, tries, 1)) <= 1 {
        AppliedOnceKnown(tries, LastAttempt(safe, policy, tries, 1));
      }
    } else if policy.maxAttempts <= 1 || policy.maxAge == 0 {
      forall tries ensures Applied(known, tries, LastAttempt(safe, policy, tries, 1)) <= 1 {
        assert LastAttempt(safe, policy, tries, 1) == 1;
        assert Applied(known, tries, 0) == 0;
      }
    } else {
      var tries := (n: nat) => if n == 1 then Try(Lost(true), 0, 0) else Try(Answered, 0, 0);
      assert LastAttempt(safe, policy, tries, 2) == 2 && LastAttempt(safe, policy, tries, 1) == 2;
      assert Applied(known, tries, 0) == 0 && Applied(known, tries, 1) == 1 && Applied(known, tries, 2) == 2;
    }
  }

  /** What the client says of its last attempt. */
  function ReportOf(f: Fate): Report {
    match f
    case Answered => Answer
    case NeverReached => NothingWasSent
    case Lost(_) => OutcomeUnknown
  }

  /** Whether every report `nothing was sent` is true. */
  ghost predicate NothingSentIsTrue(safe: bool, policy: Policy) {
    forall tries: nat -> Try ::
      var k := LastAttempt(safe, policy, tries, 1);
      ReportOf(tries(k).fate) == NothingWasSent ==> forall i :: 1 <= i <= k ==> !Reached(tries(i).fate)
  }

  /** The report `nothing was sent` describes the last attempt only. For a request that is not safe to
      resend it is always true; for a safe one it can be false as soon as there is a second attempt:
      the first attempt may have been taken, its answer lost, and the owner gone when it was resent. */
  lemma NothingSentExactly(safe: bool, policy: Policy)
    ensures NothingSentIsTrue(safe, policy) <==> !safe || policy.maxAttempts <= 1 || policy.maxAge == 0
  {
    if !safe || policy.maxAttempts <= 1 || policy.maxAge == 0 {
      forall tries: nat -> Try, i | ReportOf(tries(LastAttempt(safe, policy, tries, 1)).fate) == NothingWasSent
          && 1 <= i <= LastAttempt(safe, policy, tries, 1)
        ensures !Reached(tries(i).fate)
      {
        if i < LastAttempt(safe, policy, tries, 1) { EarlierAttempts(safe, policy, tries, 1, i); }
      }
    } else {
      var tries := (n: nat) => if n == 1 then Try(Lost(true), 0, 0) else Try(NeverReached, policy.maxAge, 0);
      assert LastAttempt(safe, policy, tries, 2) == 2 && LastAttempt(safe, policy, tries, 1) == 2;
      assert Reached(tries(1).fate) && ReportOf(tries(2).fate) == NothingWasSent;
    }
  }

  /** `nextRetry`, for a failure of this class after this many attempts: the time of the next attempt,
      measured from the start, or none. */
  function NextRetry(policy: Policy, attempt: nat, elapsed: nat, delay: nat, permanent: bool): Option<nat> {
    if permanent then None
    else if attempt >= policy.maxAttempts then None
    else if elapsed >= policy.maxAge then None
    else if elapsed + delay >= policy.maxAge then None
    else Some(elapsed + delay)
  }

  /** An owner: it applies what reaches it, once only if it knows the request. */
  class Owner {
    const known: bool
    var applied: nat

    constructor (known: bool)
      ensures this.known == known && applied == 0
    {
      this.known, applied := known, 0;
    }

    method Receive()
      modifies this
      ensures applied == if known && old(applied) > 0 then old(applied) else old(applied) + 1
    {
      if known && applied > 0 { return; }
      applied := applied + 1;
    }
  }

  /** `requestApiResponse`: inside the private code entrance nothing is sent at all; otherwise attempt,
      classify the failure, and wait for the next attempt or give up. */
  method Request(owner: Owner, hidden: bool, safe: bool, policy: Policy, tries: nat -> Try) returns (report: Report, attempts: nat)
    requires owner.applied == 0
    modifies owner
    ensures hidden ==> report == NothingWasSent && attempts == 0 && owner.applied == 0
    ensures !hidden ==> attempts == LastAttempt(safe, policy, tries, 1) && report == ReportOf(tries(attempts).fate)
    ensures !hidden ==> owner.applied == Applied(owner.known, tries, attempts)
    ensures !safe || owner.known ==> owner.applied <= 1
    ensures !safe && report == NothingWasSent ==> owner.applied == 0
  {
    if hidden { return NothingWasSent, 0; }
    UnsafeAppliedOnce(policy, owner.known, tries);
    attempts := 1;
    while true
      invariant attempts >= 1 && LastAttempt(safe, policy, tries, 1) == LastAttempt(safe, policy, tries, attempts)
      invariant owner.applied == Applied(owner.known, tries, attempts - 1)
      decreases if attempts < policy.maxAttempts then policy.maxAttempts - attempts else 0
    {
      var t := tries(attempts);
      if Reached(t.fate) { owner.Receive(); }
      if t.fate == Answered {
        report := Answer;
        break;
      }
      var next := NextRetry(policy, attempts, t.elapsed, t.delay, t.fate.Lost? && !safe);
      if next == None {
        report := if t.fate == NeverReached then NothingWasSent else OutcomeUnknown;
        break;
      }
      attempts := attempts + 1;
    }
    if owner.known { AppliedOnceKnown(tries, attempts); }
  }
}
