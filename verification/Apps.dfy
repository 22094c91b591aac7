/** The multi-app registry: longest-prefix routing, and storage partitioned by app. */
module Apps {
  import opened Text
  import opened Sorting

  datatype AppEntry = AppEntry(id: string, basePath: string)

  datatype ConfigError = BadBasePath(id: string, basePath: string) | DuplicateBasePath(basePath: string, id: string) | DuplicateAppId(id: string)

  datatype Registry = Registry(apps: seq<AppEntry>, resolveOrder: seq<nat>)

  datatype Built = Ok(registry: Registry) | Err(error: ConfigError)

  // ---- construction ----

  predicate BasePathOk(base: string) { base != "" ==> base[0] == '/' && base[|base| - 1] != '/' }

  predicate AppsOk(apps: seq<AppEntry>) {
    && (forall i | 0 <= i < |apps| :: BasePathOk(apps[i].basePath))
    && (forall i, j | 0 <= i < j < |apps| :: apps[i].basePath != apps[j].basePath && apps[i].id != apps[j].id)
  }

  /** `e` is what is wrong with app `i`, judged after the apps before it. */
  predicate Defect(apps: seq<AppEntry>, i: nat, e: ConfigError)
    requires i < |apps|
  {
    var a := apps[i];
    if !BasePathOk(a.basePath) then e == BadBasePath(a.id, a.basePath)
    else if exists j | 0 <= j < i :: apps[j].basePath == a.basePath then e == DuplicateBasePath(a.basePath, a.id)
    else (exists j | 0 <= j < i :: apps[j].id == a.id) && e == DuplicateAppId(a.id)
  }

  function Utf8LenAt(apps: seq<AppEntry>, i: nat): nat { if i < |apps| then Utf8Len(apps[i].basePath) else 0 }

  /** Longest base path first. */
  function LongestFirst(apps: seq<AppEntry>): (nat, nat) -> bool {
    (a: nat, b: nat) => Utf8LenAt(apps, b) <= Utf8LenAt(apps, a)
  }

  function Indices(n: nat): (r: seq<nat>)
    ensures |r| == n && forall i | 0 <= i < n :: r[i] == i
  {
    seq(n, i requires 0 <= i < n => i)
  }

  /** The resolve order lists every app, longest base path first. */
  ghost predicate IsBuilt(r: Registry) {
    && AppsOk(r.apps)
    && (forall k | 0 <= k < |r.resolveOrder| :: r.resolveOrder[k] < |r.apps|)
    && (forall i: nat | i < |r.apps| :: i in r.resolveOrder)
    && (forall k, l | 0 <= k < l < |r.resolveOrder| ::
          Utf8LenAt(r.apps, r.resolveOrder[l]) <= Utf8LenAt(r.apps, r.resolveOrder[k]))
  }

  lemma PermutedIndices(order: seq<nat>, n: nat)
    requires multiset(order) == multiset(Indices(n))
    ensures forall i: nat | i < n :: i in order
    ensures forall k | 0 <= k < |order| :: order[k] < n
  {
    var ix := Indices(n);
    forall i: nat | i < n ensures i in order {
      assert ix[i] == i && i in multiset(order);
    }
    forall k | 0 <= k < |order| ensures order[k] < n {
      assert order[k] in multiset(ix);
    }
  }

  lemma LongestFirstSorts(apps: seq<AppEntry>, order: seq<nat>, k: nat, l: nat)
    requires Sorted(LongestFirst(apps), order) && k < l < |order|
    ensures Utf8LenAt(apps, order[l]) <= Utf8LenAt(apps, order[k])
  {
    assert LongestFirst(apps)(order[k], order[l]);
  }

  lemma SortedIndices(apps: seq<AppEntry>)
    requires AppsOk(apps)
    ensures IsBuilt(Registry(apps, Sort(LongestFirst(apps), Indices(|apps|))))
  {
    var leq := LongestFirst(apps);
    var order := Sort(leq, Indices(|apps|));
    assert Sorted(leq, order) by { SortIsStable(leq, Indices(|apps|)); }
    PermutedIndices(order, |apps|);
    forall k, l | 0 <= k < l < |order| ensures Utf8LenAt(apps, order[l]) <= Utf8LenAt(apps, order[k]) {
      LongestFirstSorts(apps, order, k, l);
    }
  }

  /** Builds exactly from acceptable apps, and otherwise names the first offender. */
  method NewRegistry(apps: seq<AppEntry>) returns (r: Built)
    ensures r.Ok? <==> AppsOk(apps)
    ensures r.Ok? ==> r.registry.apps == apps && IsBuilt(r.registry)
    ensures r.Err? ==> exists i: nat | i < |apps| :: AppsOk(apps[..i]) && Defect(apps, i, r.error)
  {
    var seenIds: seq<string>, seenBasePaths: seq<string> := [], [];
    for i := 0 to |apps|
      invariant |seenIds| == |seenBasePaths| == i
      invariant forall j | 0 <= j < i :: seenIds[j] == apps[j].id && seenBasePaths[j] == apps[j].basePath
      invariant AppsOk(apps[..i])
    {
      var app := apps[i];
      if app.basePath != "" && (app.basePath[0] != '/' || app.basePath[|app.basePath| - 1] == '/') {
        r := Err(BadBasePath(app.id, app.basePath));
        assert Defect(apps, i, r.error);
        return;
      }
      if app.basePath in seenBasePaths {
        r := Err(DuplicateBasePath(app.basePath, app.id));
        assert Defect(apps, i, r.error);
        return;
      }
      if app.id in seenIds {
        r := Err(DuplicateAppId(app.id));
        assert Defect(apps, i, r.error);
        return;
      }
      seenIds, seenBasePaths := seenIds + [app.id], seenBasePaths + [app.basePath];
    }
    assert apps[..|apps|] == apps;
    SortedIndices(apps);
    r := Ok(Registry(apps, Sort(LongestFirst(apps), Indices(|apps|))));
  }

  // ---- routing ----

  datatype AppResolution = AppResolution(appId: string, relativePath: string)

  /** `base` is a prefix of `path` that ends at a segment boundary. */
  predicate Matches(base: string, path: string) { base == "" || path == base || base + "/" <= path }

  predicate Strips(base: string, path: string, relative: string) {
    if base == "" then relative == path
    else if path == base then relative == "/"
    else base + relative == path && relative != "" && relative[0] == '/'
  }

  /** `a` has the longest matching base path; said without any order among the apps. */
  ghost predicate RoutedTo(apps: multiset<AppEntry>, path: string, a: AppEntry) {
    a in apps && Matches(a.basePath, path) && forall b | b in apps && Matches(b.basePath, path) :: |b.basePath| <= |a.basePath|
  }

  ghost predicate Resolves(apps: multiset<AppEntry>, path: string, r: Option<AppResolution>) {
    match r
    case None => forall a | a in apps :: !Matches(a.basePath, path)
    case Some(res) => exists a :: RoutedTo(apps, path, a) && res.appId == a.id && Strips(a.basePath, path, res.relativePath)
  }

  lemma MatchIsPrefix(base: string, path: string)
    requires Matches(base, path)
    ensures base <= path
  {
    if base != "" && path != base {
      assert base + "/" <= path;
      assert (base + "/")[..|base|] == base;
    }
  }

  /** Of two prefixes of one path, the longer in bytes is the longer in characters. */
  lemma PrefixesByLength(a: string, b: string, path: string)
    requires a <= path && b <= path && Utf8Len(b) <= Utf8Len(a)
    ensures |b| <= |a|
  {
    if |a| < |b| {
      assert b == a + b[|a|..];
      Utf8LenConcat(a, b[|a|..]);
    }
  }

  method ResolveByPath(reg: Registry, path: string) returns (r: Option<AppResolution>)
    requires IsBuilt(reg)
    ensures Resolves(multiset(reg.apps), path, r)
  {
    for k := 0 to |reg.resolveOrder|
      invariant forall l | 0 <= l < k :: !Matches(reg.apps[reg.resolveOrder[l]].basePath, path)
    {
      var app := reg.apps[reg.resolveOrder[k]];
      if app.basePath == "" {
        r := Some(AppResolution(app.id, path));
        LongestMatch(reg, path, k);
        return;
      }
      if path == app.basePath {
        r := Some(AppResolution(app.id, "/"));
        LongestMatch(reg, path, k);
        return;
      }
      if app.basePath <= path && app.basePath + "/" <= path {
        r := Some(AppResolution(app.id, path[|app.basePath|..]));
        LongestMatch(reg, path, k);
        assert (app.basePath + "/")[|app.basePath|] == '/';
        return;
      }
    }
    r := None;
    forall a | a in multiset(reg.apps) ensures !Matches(a.basePath, path) {
      var i :| 0 <= i < |reg.apps| && reg.apps[i] == a;
      assert i in reg.resolveOrder;
    }
  }

  /** The first match in resolve order is the longest. */
  lemma LongestMatch(reg: Registry, path: string, k: nat)
    requires IsBuilt(reg) && k < |reg.resolveOrder|
    requires forall l | 0 <= l < k :: !Matches(reg.apps[reg.resolveOrder[l]].basePath, path)
    requires Matches(reg.apps[reg.resolveOrder[k]].basePath, path)
    ensures RoutedTo(multiset(reg.apps), path, reg.apps[reg.resolveOrder[k]])
  {
    var a := reg.apps[reg.resolveOrder[k]];
    forall b | b in multiset(reg.apps) && Matches(b.basePath, path) ensures |b.basePath| <= |a.basePath| {
      var i :| 0 <= i < |reg.apps| && reg.apps[i] == b;
      assert i in reg.resolveOrder;
      var l :| 0 <= l < |reg.resolveOrder| && reg.resolveOrder[l] == i;
      MatchIsPrefix(a.basePath, path);
      MatchIsPrefix(b.basePath, path);
      assert Utf8Len(b.basePath) <= Utf8Len(a.basePath);
      PrefixesByLength(a.basePath, b.basePath, path);
    }
  }

  lemma StripsUnique(base: string, path: string, r: string, q: string)
    requires Strips(base, path, r) && Strips(base, path, q)
    ensures r == q
  {
    if base != "" && path != base {
      assert r == path[|base|..] && q == path[|base|..];
    }
  }

  lemma SameLongest(apps: seq<AppEntry>, path: string, a: AppEntry, b: AppEntry)
    requires AppsOk(apps) && a in apps && b in apps
    requires Matches(a.basePath, path) && Matches(b.basePath, path) && |a.basePath| == |b.basePath|
    ensures a == b
  {
    MatchIsPrefix(a.basePath, path);
    MatchIsPrefix(b.basePath, path);
    assert a.basePath == path[..|a.basePath|] == b.basePath;
  }

  /** The same apps in any order route every path the same way, and to one app only. */
  lemma RoutingIgnoresOrder(apps: seq<AppEntry>, others: seq<AppEntry>, path: string, r: Option<AppResolution>, q: Option<AppResolution>)
    requires AppsOk(apps) && multiset(apps) == multiset(others)
    requires Resolves(multiset(apps), path, r) && Resolves(multiset(others), path, q)
    ensures r == q
  {
    if r.Some? && q.Some? {
      var m := multiset(apps);
      var a :| RoutedTo(m, path, a) && r.value.appId == a.id && Strips(a.basePath, path, r.value.relativePath);
      var b :| RoutedTo(m, path, b) && q.value.appId == b.id && Strips(b.basePath, path, q.value.relativePath);
      SameLongest(apps, path, a, b);
      StripsUnique(a.basePath, path, r.value.relativePath, q.value.relativePath);
    }
  }

  // ---- storage ----

  const DEFAULT_APP_ID := "_default"

  predicate IsMultiApp(r: Registry) { |r.apps| > 1 }

  function StorageAppId(r: Registry, resolved: string): string { if IsMultiApp(r) then resolved else DEFAULT_APP_ID }

  const SEPARATOR: char := '\U{001F}'

  function ScopedIndexName(r: Registry, appId: string, indexName: string): string {
    if IsMultiApp(r) then appId + [SEPARATOR] + indexName else indexName
  }

  /** Whatever the app ids contain, the last separator marks where the index name starts. */
  lemma SplitAtLastSeparator(a: string, i: string, b: string, j: string)
    requires SEPARATOR !in i && SEPARATOR !in j
    requires a + [SEPARATOR] + i == b + [SEPARATOR] + j
    ensures a == b && i == j
  {
    var s := a + [SEPARATOR] + i;
    assert s[|a|] == SEPARATOR && s[|b|] == SEPARATOR;
    assert forall k | |a| < k < |s| :: s[k] == i[k - |a| - 1];
    assert forall k | |b| < k < |s| :: s[k] == j[k - |b| - 1];
    assert a == s[..|a|] && b == s[..|b|] && i == s[|a| + 1..] && j == s[|b| + 1..];
  }

  /** On a multi-app server a stored index belongs to one app and one index name. */
  lemma ScopedNamesInjective(r: Registry, a: string, i: string, b: string, j: string)
    requires IsMultiApp(r) && SEPARATOR !in i && SEPARATOR !in j
    ensures ScopedIndexName(r, a, i) == ScopedIndexName(r, b, j) <==> a == b && i == j
  {
    if ScopedIndexName(r, a, i) == ScopedIndexName(r, b, j) {
      SplitAtLastSeparator(a, i, b, j);
    }
  }

  /** `b` is `a`, the separator, and `x`. */
  predicate ExtendsBy(b: string, a: string, x: string) { b == a + [SEPARATOR] + x }

  lemma LongerIdTakesMore(a: string, i: string, b: string, j: string) returns (x: string)
    requires |a| < |b| && a + [SEPARATOR] + i == b + [SEPARATOR] + j
    ensures ExtendsBy(b, a, x) && i == x + [SEPARATOR] + j
  {
    var s := a + [SEPARATOR] + i;
    x := b[|a| + 1..];
    assert b == s[..|b|] && a == s[..|a|] && s[|a|] == SEPARATOR;
    assert i == s[|a| + 1..] && j == s[|b| + 1..] && s[|b|] == SEPARATOR;
  }

  /** Two stored names are equal only if all parts are, or the longer app id takes over the start of the other's index name. */
  lemma SharedNameExactly(r: Registry, a: string, i: string, b: string, j: string)
    requires IsMultiApp(r) && |a| <= |b|
    ensures ScopedIndexName(r, a, i) == ScopedIndexName(r, b, j) <==>
            (a == b && i == j) || exists x :: ExtendsBy(b, a, x) && i == x + [SEPARATOR] + j
  {
    var s, t := a + [SEPARATOR] + i, b + [SEPARATOR] + j;
    if s == t {
      if |a| == |b| {
        assert a == s[..|a|] == b && i == s[|a| + 1..] == j;
      } else {
        var x := LongerIdTakesMore(a, i, b, j);
      }
    }
    if x :| ExtendsBy(b, a, x) && i == x + [SEPARATOR] + j {
      ExtendedIdShares(a, x, j);
    }
  }

  lemma ExtendedIdShares(a: string, x: string, j: string)
    ensures a + [SEPARATOR] + (x + [SEPARATOR] + j) == (a + [SEPARATOR] + x) + [SEPARATOR] + j
  {
  }

  /** No two apps ever store under one name, whatever their indexes are called. */
  ghost predicate Partitioned(r: Registry) {
    forall a, b, i, j | a in r.apps && b in r.apps && a != b ::
      ScopedIndexName(r, StorageAppId(r, a.id), i) != ScopedIndexName(r, StorageAppId(r, b.id), j)
  }

  /** No app id is another one followed by the separator and more. */
  ghost predicate IdsApart(r: Registry) { forall a, b, x | a in r.apps && b in r.apps :: !ExtendsBy(b.id, a.id, x) }

  lemma ApartNeverShare(r: Registry, a: AppEntry, b: AppEntry, i: string, j: string)
    requires IsBuilt(r) && IsMultiApp(r) && IdsApart(r) && a in r.apps && b in r.apps && a != b
    ensures ScopedIndexName(r, a.id, i) != ScopedIndexName(r, b.id, j)
  {
    assert a.id != b.id;
    if |a.id| <= |b.id| {
      SharedNameExactly(r, a.id, i, b.id, j);
    } else {
      SharedNameExactly(r, b.id, j, a.id, i);
    }
  }

  /** A multi-app server partitions every index by app exactly when no app id extends another by the separator. */
  lemma PartitionedExactly(r: Registry)
    requires IsBuilt(r) && IsMultiApp(r)
    ensures Partitioned(r) <==> IdsApart(r)
  {
    if IdsApart(r) {
      forall a, b, i, j | a in r.apps && b in r.apps && a != b
        ensures ScopedIndexName(r, StorageAppId(r, a.id), i) != ScopedIndexName(r, StorageAppId(r, b.id), j)
      {
        ApartNeverShare(r, a, b, i, j);
      }
    } else {
      var a, b, x :| a in r.apps && b in r.apps && ExtendsBy(b.id, a.id, x);
      ExtendedIdShares(a.id, x, "");
      assert ScopedIndexName(r, StorageAppId(r, a.id), x + [SEPARATOR] + "") == ScopedIndexName(r, StorageAppId(r, b.id), "");
    }
  }

  function CollidingApps(): seq<AppEntry> { [AppEntry("a", "/a"), AppEntry("a\U{001F}b", "/b")] }

  /** Registration accepts two such apps, and then they do share a stored index. */
  lemma RegisteredAppsMayCollide()
    ensures var r := Registry(CollidingApps(), Sort(LongestFirst(CollidingApps()), Indices(2)));
            && IsBuilt(r) && IsMultiApp(r)
            && ScopedIndexName(r, r.apps[0].id, "b\U{001F}c") == ScopedIndexName(r, r.apps[1].id, "c")
  {
    assert "a" != "a\U{001F}b" && "/a"[1] != "/b"[1];
    assert AppsOk(CollidingApps());
    SortedIndices(CollidingApps());
  }

  /** Requests routed to different apps never share a stored index. */
  lemma RoutedAppsNeverShareAnIndex(reg: Registry, p: string, q: string, a: AppEntry, b: AppEntry, i: string, j: string)
    requires IsBuilt(reg) && IsMultiApp(reg) && SEPARATOR !in i && SEPARATOR !in j
    requires RoutedTo(multiset(reg.apps), p, a) && RoutedTo(multiset(reg.apps), q, b) && a != b
    ensures ScopedIndexName(reg, StorageAppId(reg, a.id), i) != ScopedIndexName(reg, StorageAppId(reg, b.id), j)
  {
    var k :| 0 <= k < |reg.apps| && reg.apps[k] == a;
    var l :| 0 <= l < |reg.apps| && reg.apps[l] == b;
    assert a.id != b.id;
    ScopedNamesInjective(reg, a.id, i, b.id, j);
  }

  /** A single-app server keeps raw index names under the default app, whatever was resolved. */
  lemma SingleAppIsUnscoped(r: Registry, appId: string, indexName: string)
    requires |r.apps| == 1
    ensures StorageAppId(r, appId) == "_default" && ScopedIndexName(r, StorageAppId(r, appId), indexName) == indexName
  {
  }
}
