/**
 * First-run setup: the password and its confirmation are checked, in
 * that order, and only then stored. Windows rejects a password that is
 * empty or only white space (`string.IsNullOrWhiteSpace`); macOS rejects
 * only the empty password (`isEmpty`).
 */
module SetupRules {
  import opened Text

  const EmptyMessage: string := "Password cannot be empty"
  const MismatchMessage: string := "Passwords do not match"

  /** The error `ExecuteSetup` shows, or `None` when it stores the password. */
  function WindowsSetupError(password: string, confirmPassword: string): (r: Option<string>)
    ensures r.None? <==> !IsBlank(password) && password == confirmPassword
    ensures r.Some? ==> (r.value == EmptyMessage <==> IsBlank(password))
  {
    if IsBlank(password) then Some(EmptyMessage)
    else if password != confirmPassword then Some(MismatchMessage)
    else None
  }

  /** The error `setup()` shows, or `None` when it stores the password. */
  function MacSetupError(password: string, confirmPassword: string): (r: Option<string>)
    ensures r.None? <==> password != "" && password == confirmPassword
    ensures r.Some? ==> (r.value == EmptyMessage <==> password == "")
  {
    if password == "" then Some(EmptyMessage)
    else if password != confirmPassword then Some(MismatchMessage)
    else None
  }

  /**
   * Windows accepts no more than macOS, and refuses what macOS accepts
   * exactly for a white-space-only password confirmed correctly. The two
   * messages differ exactly for a white-space-only password: Windows says
   * it is empty, macOS checks the confirmation.
   */
  lemma WindowsIsStricter(password: string, confirmPassword: string)
    ensures WindowsSetupError(password, confirmPassword).None? ==> MacSetupError(password, confirmPassword).None?
    ensures WindowsSetupError(password, confirmPassword).Some? && MacSetupError(password, confirmPassword).None?
        <==> password != "" && IsBlank(password) && password == confirmPassword
    ensures WindowsSetupError(password, confirmPassword) != MacSetupError(password, confirmPassword)
        <==> password != "" && IsBlank(password)
  {
    if password == "" {
      assert IsBlank(password);
    }
  }

  /** Emptiness is checked first: an empty password is reported as empty whatever the confirmation. */
  lemma EmptinessFirst(confirmPassword: string)
    ensures WindowsSetupError("", confirmPassword) == Some(EmptyMessage)
    ensures WindowsSetupError(" \t", confirmPassword) == Some(EmptyMessage)
    ensures MacSetupError("", confirmPassword) == Some(EmptyMessage)
    ensures MacSetupError(" \t", " \t") == None
  {
  }
}

/** The Windows `SetupViewModel`; `SetupSuccess` is the method's result. */
module WindowsSetup {
  import opened Text
  import opened SecurityPolicy
  import opened WindowsCredentials
  import opened SetupRules

  class SetupViewModel {
    const authService: WindowsSecurityService
    /** Held but never consulted by setup. */
    const securityPolicy: SecurityPolicyService
    var password: string
    var confirmPassword: string
    var errorMessage: string
    var isErrorVisible: bool

    constructor (authService: WindowsSecurityService, securityPolicy: SecurityPolicyService)
      ensures this.authService == authService && this.securityPolicy == securityPolicy
      ensures password == "" && confirmPassword == "" && errorMessage == "" && !isErrorVisible
    {
      this.authService := authService;
      this.securityPolicy := securityPolicy;
      password := "";
      confirmPassword := "";
      errorMessage := "";
      isErrorVisible := false;
    }

    /**
     * `ExecuteSetup`: on success the locker holds the new password, which
     * is then the only one that authenticates; on an error the locker is
     * untouched and the error is shown. The typed fields are kept either way.
     */
    method ExecuteSetup() returns (setupSuccess: bool)
      modifies this, authService
      ensures password == old(password) && confirmPassword == old(confirmPassword)
      ensures setupSuccess <==> WindowsSetupError(password, confirmPassword).None?
      ensures setupSuccess ==>
        && authService.vault == AfterSetPassword(old(authService.vault), password)
        && (forall p :: authService.Authenticate(p) <==> p == password)
        && errorMessage == old(errorMessage) && isErrorVisible == old(isErrorVisible)
      ensures !setupSuccess ==>
        && authService.vault == old(authService.vault)
        && isErrorVisible && Some(errorMessage) == WindowsSetupError(password, confirmPassword)
    {
      if IsBlank(password) {
        errorMessage := "Password cannot be empty";
        isErrorVisible := true;
        return false;
      }
      if password != confirmPassword {
        errorMessage := "Passwords do not match";
        isErrorVisible := true;
        return false;
      }
      authService.SetPassword(password);
      return true;
    }
  }
}

/** The macOS `SetupViewModel`; the `onSetupSuccess` callback is the method's result. */
module MacSetup {
  import opened Text
  import opened SecurityPolicy
  import opened MacCredentials
  import opened SetupRules

  class SetupViewModel {
    const authService: MacOSSecurityService
    /** Held but never consulted by setup. */
    const securityPolicy: SecurityPolicyService
    var password: string
    var confirmPassword: string
    var errorMessage: string
    var isErrorVisible: bool

    constructor (authService: MacOSSecurityService, securityPolicy: SecurityPolicyService)
      ensures this.authService == authService && this.securityPolicy == securityPolicy
      ensures password == "" && confirmPassword == "" && errorMessage == "" && !isErrorVisible
    {
      this.authService := authService;
      this.securityPolicy := securityPolicy;
      password := "";
      confirmPassword := "";
      errorMessage := "";
      isErrorVisible := false;
    }

    /**
     * `setup()`: on success the current keychain item holds the new
     * password (a legacy item, if any, stays and keeps matching); on an
     * error the keychain is untouched and the error is shown.
     */
    method Setup() returns (setupSuccess: bool)
      modifies this, authService
      ensures password == old(password) && confirmPassword == old(confirmPassword)
      ensures setupSuccess <==> MacSetupError(password, confirmPassword).None?
      ensures setupSuccess ==>
        && authService.keychain == AfterSetPassword(old(authService.keychain), password)
        && Matches(authService.keychain, password) && authService.IsPasswordSet()
        && errorMessage == old(errorMessage) && isErrorVisible == old(isErrorVisible)
      ensures !setupSuccess ==>
        && authService.keychain == old(authService.keychain)
        && isErrorVisible && Some(errorMessage) == MacSetupError(password, confirmPassword)
    {
      if password == "" {
        errorMessage := "Password cannot be empty";
        isErrorVisible := true;
        return false;
      }
      if password != confirmPassword {
        errorMessage := "Passwords do not match";
        isErrorVisible := true;
        return false;
      }
      authService.SetPassword(password);
      return true;
    }
  }
}
