/**
 * `WindowsSettingsService`: settings kept as values of the registry key
 * HKEY_CURRENT_USER\Software\StartupDashboard\Settings. The key is `None`
 * until a setter first creates it. Strings are stored as REG_SZ, booleans
 * as a REG_DWORD of 1 or 0; a getter falls back to its default when the
 * key or the value is missing or the value has another type.
 */
module WindowsSettings {
  import opened Text

  const RootKey: string := @"Software\StartupDashboard\Settings"

  /** A registry value as `GetValue` boxes it. */
  datatype RegistryValue = RegSz(s: string) | RegDword(n: int) | RegOther

  type SettingsKey = Option<map<string, RegistryValue>>

  /** `GetString`: `GetValue(key) as string ?? defaultValue`. */
  function ReadString(root: SettingsKey, key: string, defaultValue: string): (r: string)
    ensures root.Some? && key in root.value && root.value[key].RegSz? ==> r == root.value[key].s
    ensures !(root.Some? && key in root.value && root.value[key].RegSz?) ==> r == defaultValue
  {
    if root.Some? && key in root.value && root.value[key].RegSz? then root.value[key].s else defaultValue
  }

  /** `GetBool`: a DWORD reads as true exactly when it is 1; anything else gives the default. */
  function ReadBool(root: SettingsKey, key: string, defaultValue: bool): (r: bool)
    ensures root.Some? && key in root.value && root.value[key].RegDword? ==> (r <==> root.value[key].n == 1)
    ensures !(root.Some? && key in root.value && root.value[key].RegDword?) ==> r == defaultValue
  {
    if root.Some? && key in root.value && root.value[key].RegDword? then root.value[key].n == 1 else defaultValue
  }

  /** `CreateSubKey` then `SetValue`: the key is created if missing and the value replaced. */
  function Written(root: SettingsKey, key: string, value: RegistryValue): SettingsKey {
    Some(root.GetOr(map[])[key := value])
  }

  /** A string written is read back whatever the default, and every other value reads as before. */
  lemma StringRoundTrip(root: SettingsKey, key: string, value: string, other: string, stringDefault: string, boolDefault: bool)
    ensures ReadString(Written(root, key, RegSz(value)), key, stringDefault) == value
    ensures other != key ==> ReadString(Written(root, key, RegSz(value)), other, stringDefault) == ReadString(root, other, stringDefault)
    ensures other != key ==> ReadBool(Written(root, key, RegSz(value)), other, boolDefault) == ReadBool(root, other, boolDefault)
  {
  }

  /** A boolean written as 1 or 0 is read back whatever the default, and every other value reads as before. */
  lemma BoolRoundTrip(root: SettingsKey, key: string, value: bool, other: string, stringDefault: string, boolDefault: bool)
    ensures ReadBool(Written(root, key, RegDword(if value then 1 else 0)), key, boolDefault) == value
    ensures other != key ==>
      ReadString(Written(root, key, RegDword(if value then 1 else 0)), other, stringDefault) == ReadString(root, other, stringDefault)
    ensures other != key ==>
      ReadBool(Written(root, key, RegDword(if value then 1 else 0)), other, boolDefault) == ReadBool(root, other, boolDefault)
  {
  }

  /** The two kinds do not mix: a boolean reads as the string default, a string as the boolean default. */
  lemma KindsDoNotMix(root: SettingsKey, key: string, s: string, b: bool, stringDefault: string, boolDefault: bool)
    ensures ReadString(Written(root, key, RegDword(if b then 1 else 0)), key, stringDefault) == stringDefault
    ensures ReadBool(Written(root, key, RegSz(s)), key, boolDefault) == boolDefault
  {
  }

  /** Before any write every read gives its default; a DWORD other than 0 and 1 reads as false. */
  lemma Defaults(key: string, stringDefault: string, boolDefault: bool)
    ensures ReadString(None, key, stringDefault) == stringDefault
    ensures ReadBool(None, key, boolDefault) == boolDefault
    ensures !ReadBool(Some(map[key := RegDword(2)]), key, true)
  {
  }

  class WindowsSettingsService {
    /** The settings key, `None` while it does not exist. */
    var root: SettingsKey

    constructor (existing: SettingsKey)
      ensures root == existing
    {
      root := existing;
    }

    method SetString(key: string, value: string)
      modifies this
      ensures root == Written(old(root), key, RegSz(value))
    {
      var values := if root.Some? then root.value else map[];
      root := Some(values[key := RegSz(value)]);
    }

    function GetString(key: string, defaultValue: string): (r: string)
      reads this
      ensures r == ReadString(root, key, defaultValue)
    {
      ReadString(root, key, defaultValue)
    }

    method SetBool(key: string, value: bool)
      modifies this
      ensures root == Written(old(root), key, RegDword(if value then 1 else 0))
    {
      var values := if root.Some? then root.value else map[];
      root := Some(values[key := RegDword(if value then 1 else 0)]);
    }

    function GetBool(key: string, defaultValue: bool): (r: bool)
      reads this
      ensures r == ReadBool(root, key, defaultValue)
    {
      ReadBool(root, key, defaultValue)
    }
  }
}
