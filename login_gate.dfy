/**
 * The decision both login view models take on a login attempt
 * (`ExecuteLogin` on Windows, `login()` on macOS), and the messages each
 * platform builds from it:
 *   1. locked out: fail at once, without consulting the password store;
 *   2. otherwise the password is checked: a match resets the policy, a
 *      mismatch records one failure and the policy is asked again whether
 *      it is now locked.
 * The two platforms word their messages differently and count the
 * minutes of a running lockout differently.
 */
module LoginGate {
  import opened Text
  import opened SecurityPolicy

  /** What an attempt comes to. */
  datatype Outcome =
    | AlreadyLockedOut(secondsLeft: nat)   // rejected unchecked; the lockout ends in `secondsLeft` seconds
    | Succeeded
    | LockedByFailure                      // this failure armed the lockout
    | Rejected(attemptsRemaining: nat)     // wrong password, not locked

  /** The outcome of an attempt at `now` whose password `passwordMatches` the store or not. */
  function Decide(s: PolicyState, now: Time, passwordMatches: bool): (o: Outcome)
    ensures o.AlreadyLockedOut? <==> Locked(s, now)
    ensures o.AlreadyLockedOut? ==> o.secondsLeft >= 1 && now + o.secondsLeft == s.lockoutExpiry
    ensures o == Succeeded <==> !Locked(s, now) && passwordMatches
    ensures o == LockedByFailure <==> !Locked(s, now) && Locked(After(s, now, passwordMatches), now)
    ensures o.Rejected? ==>
      !Locked(After(s, now, passwordMatches), now) && o.attemptsRemaining == Remaining(After(s, now, passwordMatches))
  {
    if Locked(s, now) then AlreadyLockedOut(s.lockoutExpiry - now)
    else if passwordMatches then Succeeded
    else
      var failed := Recorded(s, now);
      if Locked(failed, now) then LockedByFailure else Rejected(Remaining(failed))
  }

  /** The policy state after that attempt. */
  function After(s: PolicyState, now: Time, passwordMatches: bool): (r: PolicyState)
    ensures Locked(s, now) ==> r == s
    ensures !Locked(s, now) && passwordMatches ==> r == Initial && forall t: Time :: !Locked(r, t)
    ensures !Locked(s, now) && !passwordMatches ==> r.failedAttempts == s.failedAttempts + 1
    ensures Consistent(s) ==> Consistent(r)
  {
    if Locked(s, now) then s
    else if passwordMatches then Cleared(s)
    else Recorded(s, now)
  }

  /**
   * While locked out the answer, and the policy, are the same whatever the
   * password: it is not looked at, so even the right one is turned away.
   */
  lemma LockedIgnoresPassword(s: PolicyState, now: Time, matches: bool)
    requires Locked(s, now)
    ensures Decide(s, now, matches) == Decide(s, now, !matches) == AlreadyLockedOut(s.lockoutExpiry - now)
    ensures After(s, now, matches) == s
  {
  }

  /**
   * Not locked out: the attempt succeeds exactly when the password
   * matches; a success resets the policy, a failure records exactly one
   * failed attempt.
   */
  lemma UnlockedAttempt(s: PolicyState, now: Time, matches: bool)
    requires !Locked(s, now)
    ensures Decide(s, now, matches) == Succeeded <==> matches
    ensures matches ==> After(s, now, matches) == Initial
    ensures !matches ==> After(s, now, matches) == Recorded(s, now)
    ensures !matches ==> After(s, now, matches).failedAttempts == s.failedAttempts + 1
  {
  }

  /**
   * From a consistent unlocked state a failure locks exactly when it is
   * the fifth (or later) one, and a failure that does not lock leaves at
   * least one attempt; so "Incorrect password." without a count is never
   * shown.
   */
  lemma FailureOutcome(s: PolicyState, now: Time)
    requires Consistent(s) && !Locked(s, now)
    ensures Decide(s, now, false) == LockedByFailure <==> s.failedAttempts + 1 >= MaxAttempts
    ensures Decide(s, now, false).Rejected? ==>
      Decide(s, now, false).attemptsRemaining == MaxAttempts - (s.failedAttempts + 1) >= 1
  {
  }

  /** Successive wrong attempts at `times`: the final state and each attempt's outcome. */
  function WrongAttempts(s: PolicyState, times: seq<Time>): (r: (PolicyState, seq<Outcome>))
    ensures |r.1| == |times|
    decreases |times|
  {
    if times == [] then (s, [])
    else
      var prev := WrongAttempts(s, times[..|times| - 1]);
      var t := times[|times| - 1];
      (After(prev.0, t, false), prev.1 + [Decide(prev.0, t, false)])
  }

  /**
   * A fresh policy and five wrong passwords, at any times: the first four
   * are rejected with 4, 3, 2 and 1 attempts left, and the fifth locks.
   */
  lemma {:induction false} FreshCountdown(times: seq<Time>)
    requires |times| <= MaxAttempts
    ensures WrongAttempts(Initial, times).0 == RecordAll(Initial, times)
    ensures forall k :: 0 <= k < |times| ==>
      WrongAttempts(Initial, times).1[k]
        == if k + 1 < MaxAttempts then Rejected(MaxAttempts - 1 - k) else LockedByFailure
    decreases |times|
  {
    if times != [] {
      var earlier := times[..|times| - 1];
      FreshCountdown(earlier);
      FailuresFromFresh(earlier);
    }
  }

  /** The lockout a failure arms at `t`, seen from a later attempt at `now`. */
  lemma LockoutSeenLater(s: PolicyState, t: Time, now: Time, matches: bool)
    requires s.failedAttempts + 1 >= MaxAttempts
    requires t <= now < t + LockoutSeconds
    ensures Decide(Recorded(s, t), now, matches) == AlreadyLockedOut(t + LockoutSeconds - now)
    ensures 1 <= CeilMinutes(t + LockoutSeconds - now) <= 15
    ensures now == t ==> CeilMinutes(t + LockoutSeconds - now) == 15 && MacMinutes(t + LockoutSeconds - now) == 16
  {
  }

  /** Windows: `(int)Math.Ceiling(span.TotalMinutes)`, the least whole number of minutes covering `seconds`. */
  function CeilMinutes(seconds: nat): (m: nat)
    ensures m * 60 >= seconds
    ensures m == 0 || (m - 1) * 60 < seconds
  {
    (seconds + 59) / 60
  }

  /** macOS: `Int(interval / 60) + 1`, truncated minutes plus one. */
  function MacMinutes(seconds: nat): (m: nat)
    ensures (m - 1) * 60 <= seconds < m * 60
  {
    seconds / 60 + 1
  }

  /**
   * The macOS count is one more than the Windows count exactly when the
   * time left is a whole number of minutes (900 s: 16 against 15), and
   * the same otherwise.
   */
  lemma {:induction false} MinutesDiffer(seconds: nat)
    requires seconds > 0
    ensures MacMinutes(seconds) == CeilMinutes(seconds) + (if seconds % 60 == 0 then 1 else 0)
  {
    var q, r := seconds / 60, seconds % 60;
    assert seconds == q * 60 + r;
    if r == 0 {
      assert (seconds + 59) / 60 == q by {
        assert seconds + 59 == q * 60 + 59;
      }
    } else {
      assert (seconds + 59) / 60 == q + 1 by {
        assert seconds + 59 == (q + 1) * 60 + (r - 1);
      }
    }
  }

  /** "`n` word" or "`n` words": the count phrase of every message. */
  function CountPhrase(n: nat, word: string): string {
    NatToString(n) + " " + word + Plural(n)
  }

  /**
   * The phrase starts with the count, which can be read back, and ends
   * in the plural "s" exactly when the count is not one.
   */
  lemma CountPhraseReads(n: nat, word: string)
    requires word != [] && word[|word| - 1] != 's'
    ensures DigitsValue(CountPhrase(n, word)[..|NatToString(n)|]) == n
    ensures CountPhrase(n, word)[|CountPhrase(n, word)| - 1] == 's' <==> n != 1
  {
    assert CountPhrase(n, word)[..|NatToString(n)|] == NatToString(n);
    NatToStringRoundTrip(n);
  }

  /** `ErrorMessage` after a Windows attempt that does not succeed. */
  function WindowsMessage(o: Outcome): string
    requires !o.Succeeded?
  {
    match o
    case AlreadyLockedOut(seconds) => "Account locked. Try again in " + CountPhrase(CeilMinutes(seconds), "minute") + "."
    case LockedByFailure => "Too many attempts. Account locked for 15 minutes."
    case Rejected(n) => if n > 0 then "Incorrect password. " + CountPhrase(n, "attempt") + " remaining." else "Incorrect password."
  }

  /** `errorMessage` after a macOS attempt that does not succeed. */
  function MacMessage(o: Outcome): string
    requires !o.Succeeded?
  {
    match o
    case AlreadyLockedOut(seconds) => "Locked out. Try again in " + NatToString(MacMinutes(seconds)) + " min."
    case LockedByFailure => "Too many attempts. Locked for 15 minutes."
    case Rejected(n) => if n > 0 then "Incorrect password. " + CountPhrase(n, "attempt") + " remaining." else "Incorrect password."
  }

  /** The two platforms say the same thing about a wrong password, and differ on a lockout. */
  lemma MessagesCompared(n: nat, seconds: nat)
    ensures WindowsMessage(Rejected(n)) == MacMessage(Rejected(n))
    ensures WindowsMessage(LockedByFailure) != MacMessage(LockedByFailure)
    ensures WindowsMessage(AlreadyLockedOut(seconds)) != MacMessage(AlreadyLockedOut(seconds))
  {
    assert WindowsMessage(AlreadyLockedOut(seconds))[0] == 'A';
    assert MacMessage(AlreadyLockedOut(seconds))[0] == 'L';
  }
}
