/**
 * `WindowsAppService`: the installed applications read from the
 * "Uninstall" keys of the registry, first under HKEY_LOCAL_MACHINE and
 * then under HKEY_CURRENT_USER, each in its native and its 32-bit
 * (WOW6432Node) view. An application is listed once, under the first
 * entry met with its display name.
 *
 * A hive is the map from key path to the key's subkeys in enumeration
 * order; a path with no entry is a key that does not open, a `None`
 * subkey one that does not open. A registry value that is missing or not
 * a string reads as `None`, as `as string` makes it null.
 */
module WindowsApps {
  import opened Text

  datatype UninstallEntry = UninstallEntry(displayName: Option<string>, installLocation: Option<string>, displayIcon: Option<string>)

  type Subkey = Option<UninstallEntry>

  type Hive = map<string, seq<Subkey>>

  /**
   * `AppEntry`. The icon is kept as the path its bytes would be read
   * from; reading and converting the icon is not part of this model.
   */
  datatype AppEntry = AppEntry(name: string, executablePath: Option<string>, iconPath: Option<string>)

  const RegistryPaths: seq<string> := [
    @"SOFTWARE\Microsoft\Windows\CurrentVersion\Uninstall",
    @"SOFTWARE\WOW6432Node\Microsoft\Windows\CurrentVersion\Uninstall"
  ]

  /**
   * `ParseIconPath`: `DisplayIcon` is "path" or "path,index", possibly
   * with the path quoted; the part before the first comma, with every
   * enclosing '"' trimmed.
   */
  function ParseIconPath(displayIcon: Option<string>): (r: Option<string>)
    ensures r.None? <==> displayIcon.None? || displayIcon.value == ""
    ensures r.Some? ==> ',' !in r.value
    ensures r.Some? && r.value != [] ==> r.value[0] != '"' && r.value[|r.value| - 1] != '"'
  {
    if displayIcon.None? || displayIcon.value == "" then None
    else
      var parts := Split(displayIcon.value, ',');
      Some(Trim(parts[0], '"'))
  }

  /** With an index after the first comma, the icon path is the part before it, trimmed. */
  lemma ParseBeforeComma(head: string, index: string)
    requires ',' !in head
    ensures ParseIconPath(Some(head + [','] + index)) == Some(Trim(head, '"'))
  {
    assert (head + [','] + index)[|head|] == ',';
    SplitFirst(head, ',', index);
  }

  /** Without a comma the whole value, trimmed, is the icon path. */
  lemma ParseWithoutComma(value: string)
    requires value != [] && ',' !in value
    ensures ParseIconPath(Some(value)) == Some(Trim(value, '"'))
  {
    SplitOfJoin([value], ',');
  }

  /** Quoting a path adds no comma. */
  lemma QuotedHasNoComma(path: string)
    requires ',' !in path
    ensures ',' !in ['"'] + path + ['"']
  {
    var quoted := ['"'] + path + ['"'];
    assert forall i :: 0 <= i < |quoted| ==> quoted[i] == '"' || quoted[i] == path[i - 1];
  }

  /** A path without commas or enclosing quotes is recovered from each of the forms `DisplayIcon` takes. */
  lemma ParseIconPathForms(path: string, index: string)
    requires path != [] && ',' !in path && path[0] != '"' && path[|path| - 1] != '"'
    ensures ParseIconPath(Some(path)) == Some(path)
    ensures ParseIconPath(Some(path + [','] + index)) == Some(path)
    ensures ParseIconPath(Some(['"'] + path + ['"'] + [','] + index)) == Some(path)
  {
    TrimEnclosed(path, '"');
    ParseWithoutComma(path);
    ParseBeforeComma(path, index);
    QuotedHasNoComma(path);
    ParseBeforeComma(['"'] + path + ['"'], index);
  }

  /** An entry is listed when its display name is present and not empty. */
  predicate Listed(k: Subkey) {
    k.Some? && k.value.displayName.Some? && k.value.displayName.value != ""
  }

  function ToApp(e: UninstallEntry): AppEntry
    requires e.displayName.Some?
  {
    AppEntry(e.displayName.value, e.installLocation, ParseIconPath(e.displayIcon))
  }

  function Names(apps: seq<AppEntry>): set<string> {
    set a | a in apps :: a.name
  }

  /** The applications collected on top of `acc` from the subkeys `ks`, in order, the first entry per name winning. */
  function Collect(acc: seq<AppEntry>, ks: seq<Subkey>): seq<AppEntry>
    decreases |ks|
  {
    if ks == [] then acc
    else
      var prev := Collect(acc, ks[..|ks| - 1]);
      var k := ks[|ks| - 1];
      if Listed(k) && k.value.displayName.value !in Names(prev) then prev + [ToApp(k.value)] else prev
  }

  /** The subkeys of one opened key, none for a key that does not open. */
  function KeySubkeys(hive: Hive, path: string): seq<Subkey> {
    if path in hive then hive[path] else []
  }

  /** The subkeys of a hive's keys at `paths`, in order. */
  function HiveSubkeys(hive: Hive, paths: seq<string>): seq<Subkey>
    decreases |paths|
  {
    if paths == [] then [] else HiveSubkeys(hive, paths[..|paths| - 1]) + KeySubkeys(hive, paths[|paths| - 1])
  }

  /** Every subkey the scan visits, hive by hive. */
  function Scanned(hives: seq<Hive>): seq<Subkey>
    decreases |hives|
  {
    if hives == [] then [] else Scanned(hives[..|hives| - 1]) + HiveSubkeys(hives[|hives| - 1], RegistryPaths)
  }

  /** Collecting over a concatenation is collecting over its parts in turn. */
  lemma {:induction false} CollectAppend(acc: seq<AppEntry>, a: seq<Subkey>, b: seq<Subkey>)
    ensures Collect(acc, a + b) == Collect(Collect(acc, a), b)
    decreases |b|
  {
    if b != [] {
      assert (a + b)[..|a + b| - 1] == a + b[..|b| - 1];
      assert (a + b)[|a + b| - 1] == b[|b| - 1];
      CollectAppend(acc, a, b[..|b| - 1]);
    } else {
      assert a + b == a;
    }
  }

  lemma NamesAppend(apps: seq<AppEntry>, a: AppEntry)
    ensures Names(apps + [a]) == Names(apps) + {a.name}
  {
    assert a in apps + [a];
    assert forall b :: b in apps + [a] <==> b in apps || b == a;
  }

  /** No two collected applications share a name. */
  predicate DistinctNames(apps: seq<AppEntry>) {
    forall i, j :: 0 <= i < j < |apps| ==> apps[i].name != apps[j].name
  }

  /** `i` is the first listed subkey carrying its display name. */
  predicate FirstListed(ks: seq<Subkey>, i: int) {
    && 0 <= i < |ks| && Listed(ks[i])
    && forall j :: 0 <= j < i && Listed(ks[j]) ==> ks[j].value.displayName.value != ks[i].value.displayName.value
  }

  /** The display names of the listed subkeys. */
  function ListedNames(ks: seq<Subkey>): set<string> {
    set i | 0 <= i < |ks| && Listed(ks[i]) :: ks[i].value.displayName.value
  }

  /** Every listed display name, and no other, is collected. */
  lemma {:induction false} CollectNames(ks: seq<Subkey>)
    ensures Names(Collect([], ks)) == ListedNames(ks)
    decreases |ks|
  {
    if ks != [] {
      var init, k := ks[..|ks| - 1], ks[|ks| - 1];
      var prev := Collect([], init);
      CollectNames(init);
      assert forall i :: 0 <= i < |init| ==> ks[i] == init[i];
      if Listed(k) && k.value.displayName.value !in Names(prev) {
        NamesAppend(prev, ToApp(k.value));
      }
      assert ListedNames(ks) == ListedNames(init) + (if Listed(k) then {k.value.displayName.value} else {});
    }
  }

  /** No name is collected twice. */
  lemma {:induction false} CollectDistinct(ks: seq<Subkey>)
    ensures DistinctNames(Collect([], ks))
    decreases |ks|
  {
    if ks != [] {
      var init, k := ks[..|ks| - 1], ks[|ks| - 1];
      var prev := Collect([], init);
      CollectDistinct(init);
      if Listed(k) && k.value.displayName.value !in Names(prev) {
        assert forall i :: 0 <= i < |prev| ==> prev[i] in prev;
      }
    }
  }

  /** Dropping the last subkey keeps which of the others come first with their names. */
  lemma FirstListedPrefix(ks: seq<Subkey>)
    requires ks != []
    ensures forall i :: 0 <= i < |ks| - 1 ==> (FirstListed(ks[..|ks| - 1], i) <==> FirstListed(ks, i))
  {
    var init := ks[..|ks| - 1];
    assert forall i :: 0 <= i < |init| ==> ks[i] == init[i];
  }

  /** The last subkey comes first with its name exactly when `Collect` takes it. */
  lemma LastFirstListed(ks: seq<Subkey>)
    requires ks != []
    ensures var k := ks[|ks| - 1];
      FirstListed(ks, |ks| - 1) <==> Listed(k) && k.value.displayName.value !in Names(Collect([], ks[..|ks| - 1]))
  {
    var init, k := ks[..|ks| - 1], ks[|ks| - 1];
    CollectNames(init);
    if Listed(k) && k.value.displayName.value !in Names(Collect([], init)) {
      forall j | 0 <= j < |ks| - 1 && Listed(ks[j])
        ensures ks[j].value.displayName.value != k.value.displayName.value
      {
        assert ks[j].value.displayName.value in ListedNames(init) by {
          assert init[j] == ks[j];
        }
      }
    } else if Listed(k) {
      assert k.value.displayName.value in ListedNames(init);
      var j :| 0 <= j < |init| && Listed(init[j]) && init[j].value.displayName.value == k.value.displayName.value;
      assert ks[j] == init[j];
    }
  }

  /** A subkey that comes first with its name is collected. */
  lemma {:induction false} FirstListedCollected(ks: seq<Subkey>, i: int)
    requires FirstListed(ks, i)
    ensures ToApp(ks[i].value) in Collect([], ks)
    decreases |ks|
  {
    var n := |ks| - 1;
    var init := ks[..n];
    if i == n {
      LastFirstListed(ks);
    } else {
      FirstListedPrefix(ks);
      FirstListedCollected(init, i);
      assert init[i] == ks[i];
    }
  }

  /** Whatever is collected comes from a subkey that comes first with its name. */
  lemma {:induction false} CollectedFirstListed(ks: seq<Subkey>, a: AppEntry)
    requires a in Collect([], ks)
    ensures exists i :: FirstListed(ks, i) && a == ToApp(ks[i].value)
    decreases |ks|
  {
    assert ks != [];
    var n := |ks| - 1;
    var init := ks[..n];
    if a in Collect([], init) {
      CollectedFirstListed(init, a);
      var i :| FirstListed(init, i) && a == ToApp(init[i].value);
      FirstListedPrefix(ks);
      assert ks[i] == init[i] && FirstListed(ks, i);
    } else {
      LastFirstListed(ks);
      assert FirstListed(ks, n) && a == ToApp(ks[n].value);
    }
  }

  /**
   * The first entry per display name wins: an application is collected
   * exactly when it is built from the first listed subkey with its name.
   */
  lemma CollectFirstWins(ks: seq<Subkey>)
    ensures forall a :: a in Collect([], ks) <==> exists i :: FirstListed(ks, i) && a == ToApp(ks[i].value)
  {
    forall a
      ensures a in Collect([], ks) <==> exists i :: FirstListed(ks, i) && a == ToApp(ks[i].value)
    {
      if a in Collect([], ks) {
        CollectedFirstListed(ks, a);
      }
      if exists i :: FirstListed(ks, i) && a == ToApp(ks[i].value) {
        var i :| FirstListed(ks, i) && a == ToApp(ks[i].value);
        FirstListedCollected(ks, i);
      }
    }
  }

  /**
   * `GetInstalledApps` over the two hives. The applications come back in
   * the order they were first met, which is the enumeration order of the
   * dictionary `apps` they are gathered in.
   */
  method GetInstalledApps(localMachine: Hive, currentUser: Hive) returns (apps: seq<AppEntry>)
    ensures apps == Collect([], Scanned([localMachine, currentUser]))
  {
    var byName: map<string, AppEntry> := map[];
    var values: seq<AppEntry> := [];
    var hives := [localMachine, currentUser];
    for r := 0 to |hives|
      invariant values == Collect([], Scanned(hives[..r]))
      invariant byName.Keys == Names(values)
    {
      assert hives[..r + 1][..r] == hives[..r];
      CollectAppend([], Scanned(hives[..r]), HiveSubkeys(hives[r], RegistryPaths));
      byName, values := ScanHive(byName, values, hives[r]);
    }
    assert hives[..|hives|] == hives;
    return values;
  }

  /** The loop over the two uninstall keys of one hive; a key that does not open is skipped. */
  method ScanHive(byName: map<string, AppEntry>, values: seq<AppEntry>, hive: Hive)
    returns (byName': map<string, AppEntry>, values': seq<AppEntry>)
    requires byName.Keys == Names(values)
    ensures values' == Collect(values, HiveSubkeys(hive, RegistryPaths))
    ensures byName'.Keys == Names(values')
  {
    byName', values' := byName, values;
    for p := 0 to |RegistryPaths|
      invariant values' == Collect(values, HiveSubkeys(hive, RegistryPaths[..p]))
      invariant byName'.Keys == Names(values')
    {
      assert RegistryPaths[..p + 1][..p] == RegistryPaths[..p];
      var path := RegistryPaths[p];
      CollectAppend(values, HiveSubkeys(hive, RegistryPaths[..p]), KeySubkeys(hive, path));
      if path in hive {
        byName', values' := ScanKey(byName', values', hive[path]);
      }
    }
    assert RegistryPaths[..|RegistryPaths|] == RegistryPaths;
  }

  /** The loop over one opened key's subkeys, adding to `apps` every new display name. */
  method ScanKey(byName: map<string, AppEntry>, values: seq<AppEntry>, subkeys: seq<Subkey>)
    returns (byName': map<string, AppEntry>, values': seq<AppEntry>)
    requires byName.Keys == Names(values)
    ensures values' == Collect(values, subkeys)
    ensures byName'.Keys == Names(values')
  {
    byName', values' := byName, values;
    for i := 0 to |subkeys|
      invariant values' == Collect(values, subkeys[..i])
      invariant byName'.Keys == Names(values')
    {
      assert subkeys[..i + 1][..i] == subkeys[..i];
      if Listed(subkeys[i]) && subkeys[i].value.displayName.value !in byName' {
        var e := subkeys[i].value;
        var app := ToApp(e);
        NamesAppend(values', app);
        byName' := byName'[e.displayName.value := app];
        values' := values' + [app];
      }
    }
    assert subkeys[..|subkeys|] == subkeys;
  }

  /**
   * `LaunchApp`: the path handed to the shell, or `None` when nothing is
   * started: no application, or one without an install location.
   */
  function LaunchTarget(app: Option<AppEntry>): (target: Option<string>)
    ensures target.Some? <==> app.Some? && app.value.executablePath.Some? && app.value.executablePath.value != ""
    ensures target.Some? ==> target == app.value.executablePath
  {
    if app.Some? && app.value.executablePath.Some? && app.value.executablePath.value != "" then app.value.executablePath
    else None
  }

  /** A collected application can be launched exactly when its entry had a non-empty install location. */
  lemma LaunchCollected(e: UninstallEntry)
    requires Listed(Some(e))
    ensures LaunchTarget(Some(ToApp(e))).Some? <==> e.installLocation.Some? && e.installLocation.value != ""
  {
  }
}
