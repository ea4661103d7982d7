/**
 * The macOS `LoginViewModel`. Its control flow is the Windows one; what
 * differs is the wording, the minute count shown during a lockout, and
 * that a check of the password can write the keychain (the legacy
 * migration of `MacOSSecurityService`). The `onLoginSuccess` callback is
 * the method's result.
 */
module MacLogin {
  import opened Text
  import opened SecurityPolicy
  import opened MacCredentials
  import opened LoginGate

  class LoginViewModel {
    const authService: MacOSSecurityService
    const securityPolicy: SecurityPolicyService
    var password: string
    var errorMessage: string
    var isErrorVisible: bool
    var attemptsRemaining: nat

    constructor (authService: MacOSSecurityService, securityPolicy: SecurityPolicyService)
      ensures this.authService == authService && this.securityPolicy == securityPolicy
      ensures password == "" && errorMessage == "" && !isErrorVisible
      ensures attemptsRemaining == Remaining(securityPolicy.State())
    {
      this.authService := authService;
      this.securityPolicy := securityPolicy;
      password := "";
      errorMessage := "";
      isErrorVisible := false;
      attemptsRemaining := securityPolicy.AttemptsRemaining();
    }

    /**
     * `login()` at time `now`. While locked out the keychain is not read
     * or written; otherwise it is checked (and possibly migrated) exactly
     * as `MacOSSecurityService.Authenticate` does.
     */
    method Login(now: Time) returns (loginSuccess: bool)
      requires securityPolicy.Valid()
      modifies this, securityPolicy, authService
      ensures securityPolicy.Valid()
      ensures var matches := Matches(old(authService.keychain), old(password));
        var o := Decide(old(securityPolicy.State()), now, matches);
        && (loginSuccess <==> o == Succeeded)
        && securityPolicy.State() == After(old(securityPolicy.State()), now, matches)
        && authService.keychain
           == (if o.AlreadyLockedOut? then old(authService.keychain) else AfterAuthenticate(old(authService.keychain), old(password)))
        && (o == Succeeded ==> password == "" && !isErrorVisible && errorMessage == old(errorMessage))
        && (o != Succeeded ==> password == old(password) && isErrorVisible && errorMessage == MacMessage(o))
        && (o.LockedByFailure? || o.Rejected? ==> attemptsRemaining == Remaining(securityPolicy.State()))
        && (o.Succeeded? || o.AlreadyLockedOut? ==> attemptsRemaining == old(attemptsRemaining))
    {
      ghost var s0 := securityPolicy.State();
      ghost var matches := Matches(authService.keychain, password);
      isErrorVisible := false;
      if securityPolicy.IsLockedOut(now) {
        assert Decide(s0, now, matches) == AlreadyLockedOut(s0.lockoutExpiry - now);
        RejectLockedOut(now);
        return false;
      }

      var ok := authService.Authenticate(password);
      if ok {
        assert Decide(s0, now, matches) == Succeeded;
        securityPolicy.ResetAttempts();
        password := "";
        return true;
      }

      assert Decide(s0, now, matches) == Decide(s0, now, false);
      RecordWrongPassword(now);
      return false;
    }

    /** The start of `login()` during a lockout: the keychain is not touched and the minutes left are shown. */
    method RejectLockedOut(now: Time)
      requires securityPolicy.Valid() && Locked(securityPolicy.State(), now)
      modifies this
      ensures password == old(password) && attemptsRemaining == old(attemptsRemaining)
      ensures isErrorVisible && errorMessage == MacMessage(AlreadyLockedOut(securityPolicy.lockoutExpiry - now))
    {
      var remaining := MacMinutes(securityPolicy.lockoutExpiry - now);
      errorMessage := "Locked out. Try again in " + NatToString(remaining) + " min.";
      isErrorVisible := true;
    }

    /**
     * The end of `login()` after a wrong password outside a lockout: the
     * failure is recorded, the counter refreshed and the message chosen by
     * whether this failure armed the lockout.
     */
    method RecordWrongPassword(now: Time)
      requires securityPolicy.Valid() && !Locked(securityPolicy.State(), now)
      modifies this, securityPolicy
      ensures securityPolicy.Valid()
      ensures securityPolicy.State() == Recorded(old(securityPolicy.State()), now)
      ensures var o := Decide(old(securityPolicy.State()), now, false);
        && password == old(password) && isErrorVisible && errorMessage == MacMessage(o)
        && attemptsRemaining == Remaining(securityPolicy.State())
    {
      securityPolicy.RecordFailedAttempt(now);
      attemptsRemaining := securityPolicy.AttemptsRemaining();
      if securityPolicy.IsLockedOut(now) {
        errorMessage := "Too many attempts. Locked for 15 minutes.";
      } else {
        var tries := securityPolicy.AttemptsRemaining();
        errorMessage := if tries > 0
          then "Incorrect password. " + CountPhrase(tries, "attempt") + " remaining."
          else "Incorrect password.";
      }
      isErrorVisible := true;
    }
  }
}
