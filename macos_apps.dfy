/**
 * `AppServiceLauncher`: the applications are the ".app" bundles directly
 * inside /Applications and /System/Applications. The two directories are
 * scanned concurrently and their results appended in the order the scans
 * finish, then sorted by name. A directory listing is given as the
 * directory's item names, or `None` where listing it throws.
 */
module MacApps {
  import opened Text

  datatype AppEntry = AppEntry(name: string, bundleIdentifier: string, icon: Option<seq<bv8>>)

  const ApplicationsDir: string := "/Applications"
  const SystemApplicationsDir: string := "/System/Applications"
  const BundleSuffix: string := ".app"

  /** The entry `scanDirectory` makes for a bundle: the name without ".app", the full path, no icon. */
  function BundleEntry(path: string, item: string): (a: AppEntry)
    requires HasSuffix(item, BundleSuffix)
    ensures a.name + BundleSuffix == item
    ensures a.bundleIdentifier == path + "/" + a.name + BundleSuffix
    ensures a.icon == None
  {
    assert item == item[..|item| - 4] + item[|item| - 4..];
    AppEntry(item[..|item| - 4], path + "/" + item, None)
  }

  /** The entries for the bundles among `items`, in listing order. */
  function Bundles(path: string, items: seq<string>): (r: seq<AppEntry>)
    ensures |r| <= |items|
    decreases |items|
  {
    if items == [] then []
    else
      var prev := Bundles(path, items[..|items| - 1]);
      var item := items[|items| - 1];
      if HasSuffix(item, BundleSuffix) then prev + [BundleEntry(path, item)] else prev
  }

  /** An entry is scanned exactly when it is made from a listed bundle. */
  lemma {:induction false} BundlesMembers(path: string, items: seq<string>, a: AppEntry)
    ensures a in Bundles(path, items) <==> exists item :: item in items && HasSuffix(item, BundleSuffix) && a == BundleEntry(path, item)
    decreases |items|
  {
    if items != [] {
      var init, item := items[..|items| - 1], items[|items| - 1];
      BundlesMembers(path, init, a);
      assert items == init + [item];
      assert forall x :: x in items <==> x in init || x == item;
    }
  }

  /** The positions of the ".app" items of a listing. */
  function BundleIndices(items: seq<string>): set<int> {
    set i | 0 <= i < |items| && HasSuffix(items[i], BundleSuffix)
  }

  /** The ".app" positions of a listing are those of its prefix plus, for a bundle, the last one. */
  lemma BundleIndicesSnoc(items: seq<string>)
    requires items != []
    ensures var n := |items| - 1;
      BundleIndices(items) == BundleIndices(items[..n]) + (if HasSuffix(items[n], BundleSuffix) then {n} else {})
  {
    var n := |items| - 1;
    assert forall i :: 0 <= i < n ==> items[..n][i] == items[i];
  }

  /** A scan yields one entry per ".app" item of the listing, no more and no fewer. */
  lemma {:induction false} BundlesCount(path: string, items: seq<string>)
    ensures |Bundles(path, items)| == |BundleIndices(items)|
    decreases |items|
  {
    if items != [] {
      var n := |items| - 1;
      BundlesCount(path, items[..n]);
      BundleIndicesSnoc(items);
      assert n !in BundleIndices(items[..n]);
    }
  }

  /**
   * `scanDirectory`: the bundle entries of the listing, none when the
   * directory cannot be listed (the error is printed, then ignored).
   */
  method ScanDirectory(path: string, listing: Option<seq<string>>) returns (results: seq<AppEntry>)
    ensures results == if listing.None? then [] else Bundles(path, listing.value)
  {
    results := [];
    if listing.None? {
      return;
    }
    var content := listing.value;
    for i := 0 to |content|
      invariant results == Bundles(path, content[..i])
    {
      assert content[..i + 1][..i] == content[..i];
      var item := content[i];
      if |BundleSuffix| <= |item| && item[|item| - |BundleSuffix|..] == BundleSuffix {
        var fullPath := path + "/" + item;
        var name := item[..|item| - |BundleSuffix|];
        results := results + [AppEntry(name, fullPath, None)];
      }
    }
    assert content[..|content|] == content;
  }

  /** Ordered by name, equal names in any order. */
  predicate SortedByName(s: seq<AppEntry>) {
    forall i, j :: 0 <= i < j < |s| ==> !StringLess(s[j].name, s[i].name)
  }

  /** A sequence sorted by name stays sorted with an entry named no later than its entries in front. */
  lemma PrependSorted(x: AppEntry, s: seq<AppEntry>)
    requires SortedByName(s)
    requires forall k :: 0 <= k < |s| ==> !StringLess(s[k].name, x.name)
    ensures SortedByName([x] + s)
  {
    var r := [x] + s;
    forall i, j | 0 <= i < j < |r|
      ensures !StringLess(r[j].name, r[i].name)
    {
      assert r[j] == s[j - 1];
      if i > 0 {
        assert r[i] == s[i - 1];
      }
    }
  }

  /** `x` placed before the first entry not ordered before it. */
  function Insert(x: AppEntry, s: seq<AppEntry>): (r: seq<AppEntry>)
    ensures multiset(r) == multiset(s) + multiset{x}
    decreases |s|
  {
    if s == [] || !StringLess(s[0].name, x.name) then [x] + s
    else
      assert s == [s[0]] + s[1..];
      [s[0]] + Insert(x, s[1..])
  }

  /** Inserting into a name-sorted sequence keeps it sorted. */
  lemma {:induction false} InsertSorted(x: AppEntry, s: seq<AppEntry>)
    requires SortedByName(s)
    ensures SortedByName(Insert(x, s))
    decreases |s|
  {
    if s == [] || !StringLess(s[0].name, x.name) {
      forall j | 0 <= j < |s|
        ensures !StringLess(s[j].name, x.name)
      {
        if j > 0 {
          NotLessTransitive(x.name, s[0].name, s[j].name);
        }
      }
      PrependSorted(x, s);
    } else {
      var tail := s[1..];
      var rest := Insert(x, tail);
      InsertSorted(x, tail);
      StringLessAsymmetric(s[0].name, x.name);
      forall k | 0 <= k < |rest|
        ensures !StringLess(rest[k].name, s[0].name)
      {
        assert rest[k] in multiset(rest);
        if rest[k] != x {
          assert rest[k] in multiset(tail);
          var m :| 0 <= m < |tail| && tail[m] == rest[k];
          assert s[m + 1] == rest[k];
        }
      }
      PrependSorted(s[0], rest);
    }
  }

  /** Swift's `sorted(by: { $0.name < $1.name })` on the model: an insertion sort, a permutation of its input. */
  function SortByName(s: seq<AppEntry>): (r: seq<AppEntry>)
    ensures multiset(r) == multiset(s)
    decreases |s|
  {
    if s == [] then []
    else
      assert s == [s[0]] + s[1..];
      Insert(s[0], SortByName(s[1..]))
  }

  /** The sorted sequence is ordered by name. */
  lemma {:induction false} SortByNameSorted(s: seq<AppEntry>)
    ensures SortedByName(SortByName(s))
    decreases |s|
  {
    if s != [] {
      SortByNameSorted(s[1..]);
      InsertSorted(s[0], SortByName(s[1..]));
    }
  }

  /** No two entries share a name (and none occurs twice), so sorting by name leaves no choice. */
  predicate UniqueNames(m: multiset<AppEntry>) {
    forall x, y :: x in m && y in m && x.name == y.name ==> x == y && m[x] == 1
  }

  /** Removing entries keeps names unique. */
  lemma UniqueNamesShrink(big: multiset<AppEntry>, small: multiset<AppEntry>)
    requires UniqueNames(big) && small <= big
    ensures UniqueNames(small)
  {
    forall x, y | x in small && y in small && x.name == y.name
      ensures x == y && small[x] == 1
    {
      assert x in big && y in big;
    }
  }

  /** The first entry of a name-sorted sequence is named no later than any of its entries. */
  lemma SortedHeadLeast(s: seq<AppEntry>, y: AppEntry)
    requires SortedByName(s) && s != [] && y in s
    ensures !StringLess(y.name, s[0].name)
  {
    var j :| 0 <= j < |s| && s[j] == y;
    if j == 0 {
      StringLessIrreflexive(y.name);
    }
  }

  lemma SortedTail(s: seq<AppEntry>)
    requires SortedByName(s) && s != []
    ensures SortedByName(s[1..])
  {
    forall i, j | 0 <= i < j < |s| - 1
      ensures !StringLess(s[1..][j].name, s[1..][i].name)
    {
      assert s[1..][j] == s[j + 1] && s[1..][i] == s[i + 1];
    }
  }

  /** Dropping equal heads of equal multisets leaves equal multisets. */
  lemma TailMultiset(a: seq<AppEntry>, b: seq<AppEntry>)
    requires a != [] && b != [] && a[0] == b[0] && multiset(a) == multiset(b)
    ensures multiset(a[1..]) == multiset(b[1..])
    ensures multiset(a[1..]) <= multiset(a)
  {
    assert a == [a[0]] + a[1..];
    assert b == [b[0]] + b[1..];
    assert multiset(a) == multiset{a[0]} + multiset(a[1..]);
    assert multiset(b) == multiset{b[0]} + multiset(b[1..]);
    assert forall z :: multiset(a[1..])[z] == multiset(a)[z] - multiset{a[0]}[z] == multiset(b[1..])[z];
  }

  /** Two name-sorted permutations with unique names start alike. */
  lemma SameHead(a: seq<AppEntry>, b: seq<AppEntry>)
    requires SortedByName(a) && SortedByName(b) && a != []
    requires multiset(a) == multiset(b) && UniqueNames(multiset(a))
    ensures b != [] && a[0] == b[0]
  {
    assert a[0] in multiset(a);
    assert b != [];
    assert b[0] in multiset(b);
    SortedHeadLeast(a, b[0]);
    SortedHeadLeast(b, a[0]);
    if a[0].name != b[0].name {
      StringLessTotal(a[0].name, b[0].name);
    }
  }

  /**
   * Two name-sorted permutations with unique names are the same sequence:
   * the order the scans finish in does not show.
   */
  lemma {:induction false} SortedPermutationUnique(a: seq<AppEntry>, b: seq<AppEntry>)
    requires SortedByName(a) && SortedByName(b)
    requires multiset(a) == multiset(b) && UniqueNames(multiset(a))
    ensures a == b
    decreases |a|
  {
    if a == [] {
      assert |b| == |multiset(b)| == 0;
    } else {
      SameHead(a, b);
      TailMultiset(a, b);
      UniqueNamesShrink(multiset(a), multiset(a[1..]));
      SortedTail(a);
      SortedTail(b);
      SortedPermutationUnique(a[1..], b[1..]);
      assert a == [a[0]] + a[1..] && b == [b[0]] + b[1..];
    }
  }

  /**
   * `getInstalledApps`: both directories scanned, the partial results
   * appended in completion order (`systemFirst` says which scan finished
   * first), then sorted; the result goes to the completion handler.
   */
  method GetInstalledApps(applications: Option<seq<string>>, systemApplications: Option<seq<string>>, systemFirst: bool)
    returns (sortedApps: seq<AppEntry>)
    ensures var a := if applications.None? then [] else Bundles(ApplicationsDir, applications.value);
      var s := if systemApplications.None? then [] else Bundles(SystemApplicationsDir, systemApplications.value);
      sortedApps == SortByName(if systemFirst then s + a else a + s)
  {
    var fromApplications := ScanDirectory(ApplicationsDir, applications);
    var fromSystem := ScanDirectory(SystemApplicationsDir, systemApplications);
    var partials := if systemFirst then [fromSystem, fromApplications] else [fromApplications, fromSystem];
    var results: seq<AppEntry> := [];
    for k := 0 to |partials|
      invariant results == if k == 0 then [] else if k == 1 then partials[0] else partials[0] + partials[1]
    {
      results := results + partials[k];
    }
    sortedApps := SortByName(results);
  }

  /** With unique names the completion order does not show in the sorted list. */
  lemma SortedUnionOrderFree(a: seq<AppEntry>, s: seq<AppEntry>)
    requires UniqueNames(multiset(a) + multiset(s))
    ensures SortByName(s + a) == SortByName(a + s)
  {
    var m := multiset(a) + multiset(s);
    var x, y := SortByName(a + s), SortByName(s + a);
    assert SortedByName(x) && SortedByName(y) by {
      SortByNameSorted(a + s);
      SortByNameSorted(s + a);
    }
    assert multiset(x) == multiset(y) == m by {
      assert multiset(a + s) == m;
      assert multiset(s + a) == m;
    }
    SortedPermutationUnique(x, y);
  }

  /** The merged list is sorted by name and holds exactly the entries of both scans, whichever finished first. */
  lemma InstalledAppsSortedUnion(a: seq<AppEntry>, s: seq<AppEntry>)
    ensures SortedByName(SortByName(a + s)) && multiset(SortByName(a + s)) == multiset(a) + multiset(s)
    ensures multiset(SortByName(s + a)) == multiset(SortByName(a + s))
    ensures UniqueNames(multiset(a) + multiset(s)) ==> SortByName(s + a) == SortByName(a + s)
  {
    SortByNameSorted(a + s);
    assert multiset(a + s) == multiset(a) + multiset(s);
    assert multiset(s + a) == multiset(a) + multiset(s);
    if UniqueNames(multiset(a) + multiset(s)) {
      SortedUnionOrderFree(a, s);
    }
  }

  /** The merged list has as many entries as both listings have ".app" items together. */
  lemma InstalledAppsCount(applications: seq<string>, systemApplications: seq<string>, systemFirst: bool)
    ensures var a := Bundles(ApplicationsDir, applications);
      var s := Bundles(SystemApplicationsDir, systemApplications);
      |SortByName(if systemFirst then s + a else a + s)| == |BundleIndices(applications)| + |BundleIndices(systemApplications)|
  {
    var a := Bundles(ApplicationsDir, applications);
    var s := Bundles(SystemApplicationsDir, systemApplications);
    BundlesCount(ApplicationsDir, applications);
    BundlesCount(SystemApplicationsDir, systemApplications);
    var merged := if systemFirst then s + a else a + s;
    assert |SortByName(merged)| == |multiset(SortByName(merged))| == |multiset(merged)| == |merged|;
  }
}
