/**
 * `WindowsSecurityService`: the password kept in the Windows credential
 * locker (`PasswordVault`) under resource "StartupDashboard" and user
 * "Noah". The vault is a sequence of credentials in the order the locker
 * returns them. A lookup that finds nothing is the exception the service
 * catches and turns into `false`.
 */
module WindowsCredentials {
  import opened Text

  const ResourceName: string := "StartupDashboard"
  const UserName: string := "Noah"

  datatype PasswordCredential = PasswordCredential(resource: string, userName: string, password: string)

  type Vault = seq<PasswordCredential>

  /** The locker keeps at most one credential per (resource, user). */
  predicate UniqueKeys(vault: Vault) {
    forall i, j :: 0 <= i < j < |vault| ==>
      vault[i].resource != vault[j].resource || vault[i].userName != vault[j].userName
  }

  /** `PasswordVault.Retrieve(resource, user)`; `None` where the locker throws. */
  function Retrieve(vault: Vault, resource: string, user: string): (r: Option<PasswordCredential>)
    ensures r.Some? ==> r.value in vault && r.value.resource == resource && r.value.userName == user
    ensures r.None? ==> forall c :: c in vault ==> c.resource != resource || c.userName != user
    ensures r.Some? && UniqueKeys(vault) ==>
      forall c :: c in vault && c.resource == resource && c.userName == user ==> c == r.value
    decreases |vault|
  {
    if vault == [] then None
    else if vault[0].resource == resource && vault[0].userName == user then Some(vault[0])
    else Retrieve(vault[1..], resource, user)
  }

  /** `PasswordVault.FindAllByResource`; empty where the locker throws. */
  function FindAllByResource(vault: Vault, resource: string): (r: Vault)
    ensures forall c :: c in r <==> c in vault && c.resource == resource
    ensures |r| <= |vault|
    decreases |vault|
  {
    if vault == [] then []
    else if vault[0].resource == resource then [vault[0]] + FindAllByResource(vault[1..], resource)
    else FindAllByResource(vault[1..], resource)
  }

  /** `PasswordVault.Remove(c)`: drops the stored credential with c's resource and user. */
  function Remove(vault: Vault, c: PasswordCredential): (r: Vault)
    ensures forall d :: d in r <==> d in vault && (d.resource != c.resource || d.userName != c.userName)
    ensures UniqueKeys(vault) ==> UniqueKeys(r)
    decreases |vault|
  {
    if vault == [] then []
    else if vault[0].resource == c.resource && vault[0].userName == c.userName then Remove(vault[1..], c)
    else [vault[0]] + Remove(vault[1..], c)
  }

  /** `PasswordVault.Add(c)`: a credential with the same resource and user is replaced. */
  function Add(vault: Vault, c: PasswordCredential): (r: Vault)
    ensures forall d :: d in r <==> d == c || (d in vault && (d.resource != c.resource || d.userName != c.userName))
    ensures UniqueKeys(vault) ==> UniqueKeys(r)
  {
    var rest := Remove(vault, c);
    assert forall i :: 0 <= i < |rest| ==> rest[i] in rest;
    rest + [c]
  }

  /**
   * `Authenticate(password)`: true iff the "Noah" credential exists and its
   * password is exactly `password`.
   */
  function Authenticates(vault: Vault, password: string): (ok: bool)
    ensures ok ==> PasswordCredential(ResourceName, UserName, password) in vault
    ensures UniqueKeys(vault) && PasswordCredential(ResourceName, UserName, password) in vault ==> ok
  {
    match Retrieve(vault, ResourceName, UserName)
    case None => false
    case Some(credential) => credential.password == password
  }

  /** `IsPasswordSet()`: any credential under the resource, whatever its user. */
  function PasswordIsSet(vault: Vault): (isSet: bool)
    ensures isSet <==> exists c :: c in vault && c.resource == ResourceName
  {
    var found := FindAllByResource(vault, ResourceName);
    assert found != [] ==> found[0] in found;
    |found| > 0
  }

  /**
   * `SetPassword(newPassword)`: remove the first credential stored under
   * the resource, if any, then add the new "Noah" credential.
   */
  function AfterSetPassword(vault: Vault, newPassword: string): Vault {
    var existing := FindAllByResource(vault, ResourceName);
    var cleared := if existing == [] then vault else Remove(vault, existing[0]);
    Add(cleared, PasswordCredential(ResourceName, UserName, newPassword))
  }

  /** An empty locker has no password and accepts nothing. */
  lemma FreshVault(password: string)
    ensures !PasswordIsSet([])
    ensures !Authenticates([], password)
  {
  }

  /**
   * After `SetPassword(p)` exactly `p` authenticates and a password is set;
   * so setting the same value twice changes nothing observable, and after
   * setting `q != p` the password `p` fails.
   */
  lemma {:induction false} SetThenAuthenticate(vault: Vault, p: string, q: string)
    ensures PasswordIsSet(AfterSetPassword(vault, p))
    ensures Authenticates(AfterSetPassword(vault, p), q) <==> q == p
  {
    var after := AfterSetPassword(vault, p);
    var c := PasswordCredential(ResourceName, UserName, p);
    assert after[|after| - 1] == c;
    assert c in after;
    RetrieveIsLast(after, c);
  }

  /** The credential appended by `Add` is the only one for its key, so `Retrieve` finds it. */
  lemma RetrieveIsLast(vault: Vault, c: PasswordCredential)
    requires vault != [] && vault[|vault| - 1] == c
    requires forall d :: d in vault[..|vault| - 1] ==> d.resource != c.resource || d.userName != c.userName
    ensures Retrieve(vault, c.resource, c.userName) == Some(c)
  {
  }

  /** If at most one credential existed under the resource, exactly one remains. */
  lemma {:induction false} SetKeepsOneCredential(vault: Vault, p: string)
    requires |FindAllByResource(vault, ResourceName)| <= 1
    ensures FindAllByResource(AfterSetPassword(vault, p), ResourceName)
         == [PasswordCredential(ResourceName, UserName, p)]
  {
    var existing := FindAllByResource(vault, ResourceName);
    var cleared := if existing == [] then vault else Remove(vault, existing[0]);
    var c := PasswordCredential(ResourceName, UserName, p);
    NoOtherUnderResource(vault, existing, cleared);
    var rest := Remove(cleared, c);
    FindAllNone(rest, ResourceName);
    assert Add(cleared, c) == rest + [c];
    FindAllAppend(rest, c, ResourceName);
    assert FindAllByResource([c], ResourceName) == [c];
  }

  /** After the removal step no credential is left under the resource. */
  lemma NoOtherUnderResource(vault: Vault, existing: Vault, cleared: Vault)
    requires existing == FindAllByResource(vault, ResourceName) && |existing| <= 1
    requires cleared == if existing == [] then vault else Remove(vault, existing[0])
    ensures forall d :: d in cleared ==> d.resource != ResourceName
  {
    if existing != [] {
      var x := existing[0];
      assert existing == [x];
      forall d | d in cleared
        ensures d.resource != ResourceName
      {
        assert d in vault && (d.resource != x.resource || d.userName != x.userName);
        assert d.resource == ResourceName ==> d in existing;
      }
    }
  }

  /** Nothing is found under a resource no credential has. */
  lemma FindAllNone(vault: Vault, resource: string)
    requires forall d :: d in vault ==> d.resource != resource
    ensures FindAllByResource(vault, resource) == []
  {
  }

  /** `FindAllByResource` distributes over appending one credential. */
  lemma {:induction false} FindAllAppend(vault: Vault, c: PasswordCredential, resource: string)
    ensures FindAllByResource(vault + [c], resource)
         == FindAllByResource(vault, resource) + FindAllByResource([c], resource)
    decreases |vault|
  {
    if vault != [] {
      assert (vault + [c])[1..] == vault[1..] + [c];
      FindAllAppend(vault[1..], c, resource);
    }
  }

  /** Credentials of other resources are never touched by `SetPassword`. */
  lemma SetKeepsOtherResources(vault: Vault, p: string, c: PasswordCredential)
    requires c.resource != ResourceName
    ensures c in AfterSetPassword(vault, p) <==> c in vault
  {
  }

  /**
   * `IsPasswordSet` looks at every user under the resource while
   * `Authenticate` looks only at "Noah": a credential for another user
   * reports a password set that no input can match.
   */
  lemma SetButUnmatchable(other: string, secret: string, p: string)
    requires other != UserName
    ensures PasswordIsSet([PasswordCredential(ResourceName, other, secret)])
    ensures !Authenticates([PasswordCredential(ResourceName, other, secret)], p)
  {
    assert PasswordCredential(ResourceName, other, secret) in [PasswordCredential(ResourceName, other, secret)];
  }

  /** The service over a locker whose contents it reads and replaces. */
  class WindowsSecurityService {
    var vault: Vault

    constructor (stored: Vault)
      ensures vault == stored
    {
      vault := stored;
    }

    function Authenticate(password: string): (ok: bool)
      reads this
      ensures ok == Authenticates(vault, password)
      ensures ok ==> IsPasswordSet()
    {
      Authenticates(vault, password)
    }

    function IsPasswordSet(): (isSet: bool)
      reads this
      ensures isSet == PasswordIsSet(vault)
      ensures isSet <==> exists c :: c in vault && c.resource == ResourceName
    {
      PasswordIsSet(vault)
    }

    method SetPassword(newPassword: string)
      modifies this
      ensures vault == AfterSetPassword(old(vault), newPassword)
      ensures IsPasswordSet()
      ensures forall p :: Authenticate(p) <==> p == newPassword
    {
      var existing := FindAllByResource(vault, ResourceName);
      if existing != [] {
        vault := Remove(vault, existing[0]);
      }
      vault := Add(vault, PasswordCredential(ResourceName, UserName, newPassword));
      forall p ensures Authenticate(p) <==> p == newPassword {
        SetThenAuthenticate(old(vault), newPassword, p);
      }
    }
  }
}
