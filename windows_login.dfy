/**
 * The Windows `LoginViewModel`: the password box, the error line, and the
 * remaining-attempts counter behind the warning banner. A login attempt
 * consults the shared lockout policy and the credential locker as
 * `LoginGate.Decide` describes; the `LoginSuccess` event is the method's
 * result.
 */
module WindowsLogin {
  import opened Text
  import opened SecurityPolicy
  import opened WindowsCredentials
  import opened LoginGate

  /** `ShowAttemptsWarning`: the banner shows for one or two attempts left. */
  predicate WarningShown(remaining: int) {
    remaining < 3 && remaining > 0
  }

  /** `AttemptsWarningText`. */
  function WarningText(remaining: nat): string {
    CountPhrase(remaining, "attempt") + " remaining before lockout"
  }

  /**
   * From a fresh policy, after `k` wrong passwords and before the lockout,
   * the banner shows exactly after the third and fourth failure, and never
   * once the lockout has set the counter to zero.
   */
  lemma {:induction false} WarningAfterFailures(times: seq<Time>)
    ensures WarningShown(Remaining(RecordAll(Initial, times))) <==> |times| == 3 || |times| == 4
  {
    FailuresFromFresh(times);
  }

  /** The banner's count can be read back from its text, and "attempt" is singular exactly for one. */
  lemma WarningTextReads(remaining: nat)
    ensures DigitsValue(WarningText(remaining)[..|NatToString(remaining)|]) == remaining
    ensures WarningText(remaining)[|CountPhrase(remaining, "attempt")| - 1] == 's' <==> remaining != 1
  {
    var phrase := CountPhrase(remaining, "attempt");
    CountPhraseReads(remaining, "attempt");
    assert WarningText(remaining)[..|phrase|] == phrase;
    assert WarningText(remaining)[..|NatToString(remaining)|] == phrase[..|NatToString(remaining)|];
  }

  class LoginViewModel {
    const authService: WindowsSecurityService
    const securityPolicy: SecurityPolicyService
    var password: string
    var errorMessage: string
    var isErrorVisible: bool
    var attemptsRemaining: nat

    /** The counter starts at what the policy reports. */
    constructor (authService: WindowsSecurityService, securityPolicy: SecurityPolicyService)
      ensures this.authService == authService && this.securityPolicy == securityPolicy
      ensures password == "" && errorMessage == "" && !isErrorVisible
      ensures attemptsRemaining == Remaining(securityPolicy.State())
    {
      this.authService := authService;
      this.securityPolicy := securityPolicy;
      password := "";
      errorMessage := "";
      isErrorVisible := false;
      attemptsRemaining := securityPolicy.AttemptsRemaining();
    }

    function ShowAttemptsWarning(): (show: bool)
      reads this
      ensures show <==> WarningShown(attemptsRemaining)
      ensures show <==> attemptsRemaining == 1 || attemptsRemaining == 2
    {
      WarningShown(attemptsRemaining)
    }

    function AttemptsWarningText(): (text: string)
      reads this
      ensures text == WarningText(attemptsRemaining)
    {
      WarningText(attemptsRemaining)
    }

    /**
     * `ExecuteLogin` at time `now`. A success clears the password box and
     * resets the policy; every other outcome shows its message and leaves
     * the password box as typed. The counter is refreshed only after a
     * checked, wrong password.
     */
    method ExecuteLogin(now: Time) returns (loginSuccess: bool)
      requires securityPolicy.Valid()
      modifies this, securityPolicy
      ensures securityPolicy.Valid()
      ensures var o := Decide(old(securityPolicy.State()), now, Authenticates(authService.vault, old(password)));
        && (loginSuccess <==> o == Succeeded)
        && securityPolicy.State() == After(old(securityPolicy.State()), now, Authenticates(authService.vault, old(password)))
        && (o == Succeeded ==> password == "" && !isErrorVisible && errorMessage == old(errorMessage))
        && (o != Succeeded ==> password == old(password) && isErrorVisible && errorMessage == WindowsMessage(o))
        && (o.LockedByFailure? || o.Rejected? ==> attemptsRemaining == Remaining(securityPolicy.State()))
        && (o.Succeeded? || o.AlreadyLockedOut? ==> attemptsRemaining == old(attemptsRemaining))
        && (o.Rejected? ==> o.attemptsRemaining == attemptsRemaining)
    {
      ghost var s0 := securityPolicy.State();
      ghost var matches := Authenticates(authService.vault, password);
      isErrorVisible := false;
      if securityPolicy.IsLockedOut(now) {
        assert Decide(s0, now, matches) == AlreadyLockedOut(s0.lockoutExpiry - now);
        RejectLockedOut(now);
        return false;
      }

      if authService.Authenticate(password) {
        assert Decide(s0, now, matches) == Succeeded;
        securityPolicy.ResetAttempts();
        password := "";
        return true;
      }

      assert Decide(s0, now, matches) == Decide(s0, now, false);
      RecordWrongPassword(now);
      return false;
    }

    /** The start of `ExecuteLogin` during a lockout: the password is not looked at and the minutes left are shown. */
    method RejectLockedOut(now: Time)
      requires securityPolicy.Valid() && Locked(securityPolicy.State(), now)
      modifies this
      ensures password == old(password) && attemptsRemaining == old(attemptsRemaining)
      ensures isErrorVisible && errorMessage == WindowsMessage(AlreadyLockedOut(securityPolicy.lockoutExpiry - now))
    {
      var mins := CeilMinutes(securityPolicy.lockoutExpiry - now);
      errorMessage := "Account locked. Try again in " + CountPhrase(mins, "minute") + ".";
      isErrorVisible := true;
    }

    /**
     * The end of `ExecuteLogin` after a wrong password outside a lockout:
     * the failure is recorded, the counter refreshed and the message chosen
     * by whether this failure armed the lockout.
     */
    method RecordWrongPassword(now: Time)
      requires securityPolicy.Valid() && !Locked(securityPolicy.State(), now)
      modifies this, securityPolicy
      ensures securityPolicy.Valid()
      ensures securityPolicy.State() == Recorded(old(securityPolicy.State()), now)
      ensures var o := Decide(old(securityPolicy.State()), now, false);
        && password == old(password) && isErrorVisible && errorMessage == WindowsMessage(o)
        && attemptsRemaining == Remaining(securityPolicy.State())
        && (o.Rejected? ==> o.attemptsRemaining == attemptsRemaining)
    {
      securityPolicy.RecordFailedAttempt(now);
      attemptsRemaining := securityPolicy.AttemptsRemaining();
      if securityPolicy.IsLockedOut(now) {
        errorMessage := "Too many attempts. Account locked for 15 minutes.";
      } else {
        errorMessage := if attemptsRemaining > 0
          then "Incorrect password. " + CountPhrase(attemptsRemaining, "attempt") + " remaining."
          else "Incorrect password.";
      }
      isErrorVisible := true;
    }
  }
}
