/**
 * The lockout policy both platforms keep in `SecurityPolicyService`: a
 * counter of failed logins that, from the fifth failure on, arms a
 * fifteen-minute lockout, cleared only by a reset. The Windows (C#) and
 * macOS (Swift) classes are the same state machine line for line; the
 * Windows one adds 15 minutes to `DateTime.Now`, the macOS one 900 seconds
 * to `Date()`. Time is whole seconds on a clock whose every reading is a
 * `nat`.
 */
module SecurityPolicy {

  type Time = nat

  /** `MaxAttempts` / `maxAttempts`. */
  const MaxAttempts: nat := 5

  /** `AddMinutes(15)` on Windows, `addingTimeInterval(900)` on macOS. */
  const LockoutSeconds: nat := 15 * 60

  /** `DateTime.MinValue` / `Date.distantPast`: earlier than every clock reading. */
  const NeverLocked: int := -1

  /** The two private fields of the service. */
  datatype PolicyState = PolicyState(failedAttempts: nat, lockoutExpiry: int)

  /** A freshly constructed service. */
  const Initial: PolicyState := PolicyState(0, NeverLocked)

  /** `IsLockedOut` / `isLockedOut`. */
  predicate Locked(s: PolicyState, now: Time): (locked: bool)
    ensures s.lockoutExpiry == NeverLocked ==> !locked
    ensures locked ==> s.lockoutExpiry - now >= 1
  {
    now < s.lockoutExpiry
  }

  /** `RecordFailedAttempt` / `recordFailedAttempt` at time `now`. */
  function Recorded(s: PolicyState, now: Time): (r: PolicyState)
    ensures r.failedAttempts == s.failedAttempts + 1
    ensures r.failedAttempts >= MaxAttempts ==> Locked(r, now) && !Locked(r, now + LockoutSeconds)
    ensures r.failedAttempts < MaxAttempts ==> r.lockoutExpiry == s.lockoutExpiry
  {
    var count := s.failedAttempts + 1;
    PolicyState(count, if count >= MaxAttempts then now + LockoutSeconds else s.lockoutExpiry)
  }

  /** `ResetAttempts` / `resetAttempts`. */
  function Cleared(s: PolicyState): (r: PolicyState)
    ensures r.failedAttempts == 0 && r.lockoutExpiry == NeverLocked
    ensures forall t: Time :: !Locked(r, t)
  {
    Initial
  }

  /**
   * ASSUMED: the view models read `AttemptsRemaining` / `attemptsRemaining`
   * from the policy, which neither policy file declares. The model takes
   * the remaining attempts before lockout, never negative.
   */
  function Remaining(s: PolicyState): nat {
    if s.failedAttempts >= MaxAttempts then 0 else MaxAttempts - s.failedAttempts
  }

  /**
   * The invariant every reachable state keeps: the sentinel expiry goes
   * with a count below the threshold, and only with one.
   */
  predicate Consistent(s: PolicyState) {
    (s.failedAttempts < MaxAttempts) == (s.lockoutExpiry == NeverLocked)
  }

  /** The failures recorded at `times`, in order. */
  function RecordAll(s: PolicyState, times: seq<Time>): PolicyState
    decreases |times|
  {
    if times == [] then s else Recorded(RecordAll(s, times[..|times| - 1]), times[|times| - 1])
  }

  lemma InitialState(now: Time)
    ensures Consistent(Initial) && Initial.failedAttempts == 0
    ensures !Locked(Initial, now)
    ensures Remaining(Initial) == MaxAttempts
  {
  }

  /** Each failure adds exactly one to the count and, below the threshold, leaves the expiry alone. */
  lemma RecordCounts(s: PolicyState, now: Time)
    ensures Recorded(s, now).failedAttempts == s.failedAttempts + 1
    ensures s.failedAttempts + 1 < MaxAttempts ==> Recorded(s, now).lockoutExpiry == s.lockoutExpiry
    ensures s.failedAttempts + 1 >= MaxAttempts ==> Recorded(s, now).lockoutExpiry == now + LockoutSeconds
  {
  }

  /**
   * A failure that reaches the threshold at time `t` locks the service on
   * [t, t + 15 min) and not from then on, whatever the state before: in
   * particular a failure after an expired lockout locks again at once,
   * because nothing but a reset lowers the count.
   */
  lemma LockoutWindow(s: PolicyState, t: Time, now: Time)
    requires s.failedAttempts + 1 >= MaxAttempts
    requires t <= now
    ensures Locked(Recorded(s, t), now) <==> now < t + LockoutSeconds
  {
  }

  /** A reset unlocks at every time and restores the initial state, whatever came before. */
  lemma ResetUnlocks(s: PolicyState, now: Time)
    ensures Cleared(s) == Initial
    ensures !Locked(Cleared(s), now)
    ensures Remaining(Cleared(s)) == MaxAttempts
  {
  }

  /** Both operations keep the invariant. */
  lemma OperationsKeepConsistent(s: PolicyState, now: Time)
    requires Consistent(s)
    ensures Consistent(Recorded(s, now))
    ensures Consistent(Cleared(s))
  {
  }

  /**
   * In a consistent state the service is locked only when the count has
   * reached the threshold, so a failure that does not lock leaves at
   * least one attempt.
   */
  lemma LockedNeedsThreshold(s: PolicyState, now: Time)
    requires Consistent(s)
    ensures Locked(s, now) ==> s.failedAttempts >= MaxAttempts
    ensures !Locked(Recorded(s, now), now) ==> Remaining(Recorded(s, now)) >= 1
  {
  }

  /**
   * From a fresh service, `k` failures leave the count at `k`; the expiry
   * stays at the sentinel while `k < 5` and is otherwise fifteen minutes
   * after the last failure.
   */
  lemma {:induction false} FailuresFromFresh(times: seq<Time>)
    ensures RecordAll(Initial, times).failedAttempts == |times|
    ensures RecordAll(Initial, times).lockoutExpiry
         == if |times| < MaxAttempts then NeverLocked else times[|times| - 1] + LockoutSeconds
    decreases |times|
  {
    if times != [] {
      FailuresFromFresh(times[..|times| - 1]);
    }
  }

  /**
   * From a fresh service, the service is locked at the moment of the
   * latest failure exactly when five or more failures were recorded; it
   * is never locked at any time before the fifth.
   */
  lemma {:induction false} LockedExactlyFromFifth(times: seq<Time>, now: Time)
    requires times != []
    requires times[|times| - 1] <= now
    ensures Locked(RecordAll(Initial, times), now)
        <==> |times| >= MaxAttempts && now < times[|times| - 1] + LockoutSeconds
    ensures Remaining(RecordAll(Initial, times)) == if |times| >= MaxAttempts then 0 else MaxAttempts - |times|
  {
    FailuresFromFresh(times);
  }

  /** `SecurityPolicyService`, with the clock passed in as `now`. */
  class SecurityPolicyService {
    var failedAttempts: nat
    /** Exposed as `LockoutExpiry` / `lockoutExpiry`, which the view models read. */
    var lockoutExpiry: int

    function State(): PolicyState
      reads this
    {
      PolicyState(failedAttempts, lockoutExpiry)
    }

    ghost predicate Valid()
      reads this
    {
      Consistent(State())
    }

    constructor ()
      ensures State() == Initial && Valid()
    {
      failedAttempts := 0;
      lockoutExpiry := NeverLocked;
    }

    /** A read: no field changes. */
    function IsLockedOut(now: Time): (locked: bool)
      reads this
      ensures locked <==> Locked(State(), now)
    {
      Locked(State(), now)
    }

    /** ASSUMED member, see `Remaining`. */
    function AttemptsRemaining(): (n: nat)
      reads this
      ensures n == Remaining(State())
    {
      Remaining(State())
    }

    method RecordFailedAttempt(now: Time)
      requires Valid()
      modifies this
      ensures Valid()
      ensures State() == Recorded(old(State()), now)
    {
      failedAttempts := failedAttempts + 1;
      if failedAttempts >= MaxAttempts {
        lockoutExpiry := now + LockoutSeconds;
      }
    }

    method ResetAttempts()
      modifies this
      ensures Valid()
      ensures State() == Cleared(old(State()))
    {
      failedAttempts := 0;
      lockoutExpiry := NeverLocked;
    }
  }
}
