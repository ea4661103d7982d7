/**
 * `MacOSSecurityService`: the password kept as a generic-password item of
 * service "com.startupdashboard.auth" in the macOS keychain. The keychain
 * is the map from account name to stored password of that service's
 * items. The current account is "PrimaryAccount"; an older build stored
 * the password under "Noah", and a successful login through that legacy
 * item copies the password to the current account.
 */
module MacCredentials {
  import opened Text

  const ServiceName: string := "com.startupdashboard.auth"
  const AccountKey: string := "PrimaryAccount"
  const LegacyAccountName: string := "Noah"

  type Keychain = map<string, string>

  /** `getStoredPassword(for:)`: `None` for any status other than success. */
  function StoredPassword(keychain: Keychain, account: string): Option<string> {
    if account in keychain then Some(keychain[account]) else None
  }

  /** What `authenticate(password:)` answers: the current item, else the legacy item, matches exactly. */
  predicate Matches(keychain: Keychain, password: string) {
    StoredPassword(keychain, AccountKey) == Some(password) || StoredPassword(keychain, LegacyAccountName) == Some(password)
  }

  /** `setPassword(newPassword:)`: delete the current item (a missing one is no error), then add it anew. */
  function AfterSetPassword(keychain: Keychain, newPassword: string): Keychain {
    (keychain - {AccountKey})[AccountKey := newPassword]
  }

  /** The keychain after `authenticate(password:)`: written only by a legacy match. */
  function AfterAuthenticate(keychain: Keychain, password: string): Keychain {
    if StoredPassword(keychain, AccountKey) == Some(password) then keychain
    else if StoredPassword(keychain, LegacyAccountName) == Some(password) then AfterSetPassword(keychain, password)
    else keychain
  }

  /** `isPasswordSet()`: only the current account counts. */
  predicate PasswordIsSet(keychain: Keychain) {
    AccountKey in keychain
  }

  /** After `setPassword(p)` the current item holds exactly `p` and every other account is as it was. */
  lemma SetPasswordOverwrites(keychain: Keychain, p: string, account: string)
    ensures StoredPassword(AfterSetPassword(keychain, p), AccountKey) == Some(p)
    ensures PasswordIsSet(AfterSetPassword(keychain, p))
    ensures account != AccountKey ==> StoredPassword(AfterSetPassword(keychain, p), account) == StoredPassword(keychain, account)
  {
  }

  /**
   * A password accepted once is afterwards accepted through the current
   * item; the migration leaves the legacy item in place.
   */
  lemma MigrationSticks(keychain: Keychain, p: string)
    requires Matches(keychain, p)
    ensures StoredPassword(AfterAuthenticate(keychain, p), AccountKey) == Some(p)
    ensures StoredPassword(AfterAuthenticate(keychain, p), LegacyAccountName) == StoredPassword(keychain, LegacyAccountName)
    ensures Matches(AfterAuthenticate(keychain, p), p)
  {
  }

  /** A rejected password leaves the keychain untouched. */
  lemma RejectionWritesNothing(keychain: Keychain, p: string)
    requires !Matches(keychain, p)
    ensures AfterAuthenticate(keychain, p) == keychain
  {
  }

  /**
   * Setting a password leaves the legacy item in place, so its password
   * still matches afterwards: setup does not retire it.
   */
  lemma LegacySurvivesSet(keychain: Keychain, p: string)
    requires LegacyAccountName in keychain
    ensures Matches(AfterSetPassword(keychain, p), keychain[LegacyAccountName])
    ensures Matches(AfterSetPassword(keychain, p), p)
  {
  }

  /** A keychain holding only the legacy item reports no password set, yet accepts the legacy password. */
  lemma LegacyOnlyKeychain(secret: string)
    ensures !PasswordIsSet(map[LegacyAccountName := secret])
    ensures Matches(map[LegacyAccountName := secret], secret)
  {
  }

  /** With neither item present nothing is accepted. */
  lemma EmptyKeychainRejects(p: string)
    ensures !Matches(map[], p)
  {
  }

  /** The service over a keychain it reads, deletes from and adds to. */
  class MacOSSecurityService {
    var keychain: Keychain

    constructor (stored: Keychain)
      ensures keychain == stored
    {
      keychain := stored;
    }

    function GetStoredPassword(account: string): (stored: Option<string>)
      reads this
      ensures stored.Some? <==> account in keychain
      ensures stored.Some? ==> stored.value == keychain[account]
    {
      StoredPassword(keychain, account)
    }

    method Authenticate(password: string) returns (ok: bool)
      modifies this
      ensures ok <==> Matches(old(keychain), password)
      ensures keychain == AfterAuthenticate(old(keychain), password)
    {
      var current := GetStoredPassword(AccountKey);
      if current.Some? && current.value == password {
        return true;
      }
      var legacy := GetStoredPassword(LegacyAccountName);
      if legacy.Some? && legacy.value == password {
        SetPassword(password);
        return true;
      }
      return false;
    }

    method SetPassword(newPassword: string)
      modifies this
      ensures keychain == AfterSetPassword(old(keychain), newPassword)
    {
      keychain := keychain - {AccountKey};
      keychain := keychain[AccountKey := newPassword];
    }

    function IsPasswordSet(): (isSet: bool)
      reads this
      ensures isSet <==> GetStoredPassword(AccountKey).Some?
    {
      PasswordIsSet(keychain)
    }
  }
}
