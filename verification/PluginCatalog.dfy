/** Plugin metadata read from the configuration file: which plugins to load, what each one
    depends on, and the inverse relation `requiredBy` that shutdown walks. */
module PluginCatalog {
  import opened Wrappers
  import opened NameOrder

  datatype PluginMetadata = PluginMetadata(pluginName: string, dependsOn: seq<string>, requiredBy: seq<string>)

  type Catalog = map<string, PluginMetadata>

  /** One `[plugins/plugin]` section: its `title`, if any, and all its `depends` values. */
  datatype ConfigGroup = ConfigGroup(title: Option<string>, depends: seq<string>)

  datatype CatalogError = PluginNotFound(title: string)

  predicate Titled(group: ConfigGroup, title: string) {
    group.title == Some(title)
  }

  /** Section `i` is the one that decides the entry of `title` among the first `n` sections. */
  ghost predicate Decides(groups: seq<ConfigGroup>, n: nat, i: int, title: string) {
    && 0 <= i < n <= |groups|
    && Titled(groups[i], title)
    && forall j :: i < j < n ==> !Titled(groups[j], title)
  }

  /** The catalog holds exactly the titles of the first `n` sections; a later section overwrites an
      earlier one with the same title. */
  ghost predicate ReadsConfig(groups: seq<ConfigGroup>, n: nat, cat: Catalog)
    requires n <= |groups|
  {
    && (forall t :: t in cat <==> exists i :: 0 <= i < n && Titled(groups[i], t))
    && (forall t, i :: t in cat && Decides(groups, n, i, t) ==> cat[t] == PluginMetadata(t, groups[i].depends, []))
    && (forall t :: t in cat ==> cat[t].pluginName == t && cat[t].requiredBy == [])
  }

  /** Occurrences of `a` among the plugins recorded as requiring `b`. */
  ghost function Requirers(cat: Catalog, b: string, a: string): nat {
    if b in cat then multiset(cat[b].requiredBy)[a] else 0
  }

  /** Occurrences of `b` among the dependencies of `a`. */
  ghost function Dependencies(cat: Catalog, a: string, b: string): nat {
    if a in cat then multiset(cat[a].dependsOn)[b] else 0
  }

  ghost predicate SortedNames(s: seq<string>) {
    forall i, j :: 0 <= i < j < |s| ==> AtMost(s[i], s[j])
  }

  /** Titles and dependencies of `before` survive; what `after` adds is nameless and depends on nothing. */
  ghost predicate KeepsEntries(before: Catalog, after: Catalog) {
    && before.Keys <= after.Keys
    && (forall t :: t in before ==> after[t] == before[t].(requiredBy := after[t].requiredBy))
    && (forall t :: t in after && t !in before ==> after[t] == PluginMetadata("", [], after[t].requiredBy))
  }

  /** `requiredBy` is the transpose of `dependsOn`, with multiplicities and in name order. */
  ghost predicate ExactTranspose(before: Catalog, after: Catalog) {
    && KeepsEntries(before, after)
    && (forall a, b :: Requirers(after, b, a) == Dependencies(before, a, b))
    && (forall b :: b in after ==> SortedNames(after[b].requiredBy))
    && (forall b :: b in after && b !in before ==> after[b].requiredBy != [])
  }

  ghost predicate NamedByKey(cat: Catalog) {
    forall t :: t in cat ==> cat[t].pluginName == t && cat[t].requiredBy == []
  }

  // ---------------------------------------------------------------------------------------------
  // The loop that fills `requiredBy` while it iterates over the same map.

  ghost function Universe(cat: Catalog): set<string> {
    cat.Keys + set a, d | a in cat && d in cat[a].dependsOn :: d
  }

  /** Share of `a` in `requiredBy(b)` once the iterator has passed `cur`. */
  ghost function Pushed(before: Catalog, cur: Option<string>, a: string, b: string): nat {
    if a in before && a !in Later(before.Keys, cur) then multiset(before[a].dependsOn)[b] else 0
  }

  ghost predicate Partial(before: Catalog, after: Catalog, cur: Option<string>) {
    && KeepsEntries(before, after)
    && after.Keys <= Universe(before)
    && (forall a, b :: Requirers(after, b, a) == Pushed(before, cur, a, b))
    && (forall b :: b in after ==> SortedNames(after[b].requiredBy))
    && (forall b :: b in after && b !in before ==> after[b].requiredBy != [])
  }

  /** Part way through the dependencies of the plugin `k` that the iterator stands on. */
  ghost predicate PartialAt(before: Catalog, after: Catalog, cur: Option<string>, k: string, handled: seq<string>) {
    && KeepsEntries(before, after)
    && after.Keys <= Universe(before)
    && (forall a, b :: Requirers(after, b, a) == Pushed(before, cur, a, b) + if a == k then multiset(handled)[b] else 0)
    && (forall b :: b in after ==> SortedNames(after[b].requiredBy))
    && (forall b :: b in after && b !in before ==> after[b].requiredBy != [])
  }

  /** `filtered_plugins[dep].requiredBy.push_back(name)`; `operator[]` inserts a missing entry. */
  function PushRequirer(cat: Catalog, dep: string, name: string): Catalog {
    var entry := if dep in cat then cat[dep] else PluginMetadata("", [], []);
    cat[dep := entry.(requiredBy := entry.requiredBy + [name])]
  }

  lemma RequirersAreEarlier(before: Catalog, after: Catalog, cur: Option<string>, k: string, handled: seq<string>,
          b: string, x: string)
    requires PartialAt(before, after, cur, k, handled)
    requires k in Later(before.Keys, cur)
    requires b in after && x in after[b].requiredBy
    ensures AtMost(x, k)
  {
    assert Requirers(after, b, x) > 0;
    if x != k {
      assert Pushed(before, cur, x, b) > 0;
      BeforeIsTotal(x, cur.value);
      if x != cur.value {
        BeforeIsTransitive(x, cur.value, k);
      }
    }
  }

  lemma PushKeepsPartial(before: Catalog, after: Catalog, cur: Option<string>, k: string, handled: seq<string>,
          dep: string)
    requires PartialAt(before, after, cur, k, handled)
    requires k in Later(before.Keys, cur) && dep in before[k].dependsOn
    ensures PartialAt(before, PushRequirer(after, dep, k), cur, k, handled + [dep])
  {
    var next := PushRequirer(after, dep, k);
    forall a, b
      ensures Requirers(next, b, a) == Requirers(after, b, a) + if b == dep && a == k then 1 else 0
    {
    }
    assert multiset(handled + [dep]) == multiset(handled) + multiset{dep};
    forall b | b in next
      ensures SortedNames(next[b].requiredBy)
    {
      if b == dep && dep in after {
        forall x | x in after[dep].requiredBy
          ensures AtMost(x, k)
        {
          RequirersAreEarlier(before, after, cur, k, handled, dep, x);
        }
      }
    }
  }

  /** Having handled all of `k`'s dependencies, the iterator may move past `k`. */
  lemma FinishKey(before: Catalog, after: Catalog, keys: set<string>, cur: Option<string>, k: string)
    requires k in before ==> PartialAt(before, after, cur, k, before[k].dependsOn)
    requires k !in before ==> Partial(before, after, cur)
    requires before.Keys <= keys && IsLeast(k, Later(keys, cur))
    ensures Partial(before, after, Some(k))
  {
    BeforeIsIrreflexive(k);
    forall a | a in before
      ensures a in Later(before.Keys, Some(k)) <==> a in Later(before.Keys, cur) && a != k
    {
      if a in Later(before.Keys, cur) {
        assert a in Later(keys, cur);
      }
      if Before(k, a) && cur.Some? {
        BeforeIsTransitive(cur.value, k, a);
      }
    }
    forall a, b
      ensures Requirers(after, b, a) == Pushed(before, Some(k), a, b)
    {
    }
  }

  lemma AdvanceShrinks(keys: set<string>, cur: Option<string>, k: string)
    requires k in Later(keys, cur)
    ensures Later(keys, Some(k)) < Later(keys, cur)
  {
    BeforeIsIrreflexive(k);
    forall j | j in Later(keys, Some(k))
      ensures j in Later(keys, cur)
    {
      if cur.Some? {
        BeforeIsTransitive(cur.value, k, j);
      }
    }
    assert k !in Later(keys, Some(k));
  }

  lemma StartKey(before: Catalog, after: Catalog, cur: Option<string>, k: string)
    requires Partial(before, after, cur)
    ensures PartialAt(before, after, cur, k, [])
  {
  }

  /** The inner loop: `k` is pushed onto `requiredBy` of each of its dependencies. */
  method PushToDependencies(ghost before: Catalog, start: Catalog, ghost cur: Option<string>, k: string)
    returns (after: Catalog)
    requires Partial(before, start, cur) && k in start && (k in before ==> before[k].pluginName == k)
    requires k in before ==> k in Later(before.Keys, cur)
    ensures start.Keys <= after.Keys
    ensures k in before ==> PartialAt(before, after, cur, k, before[k].dependsOn)
    ensures k !in before ==> Partial(before, after, cur)
  {
    after := start;
    var deps := start[k].dependsOn;
    StartKey(before, start, cur, k);
    for j := 0 to |deps|
      invariant start.Keys <= after.Keys
      invariant k in before ==> PartialAt(before, after, cur, k, deps[..j])
      invariant k !in before ==> after == start
    {
      PushKeepsPartial(before, after, cur, k, deps[..j], deps[j]);
      assert deps[..j + 1] == deps[..j] + [deps[j]];
      assert after[k].pluginName == k;
      after := PushRequirer(after, deps[j], after[k].pluginName);
    }
    assert deps[..|deps|] == deps;
  }

  method PopulateRequiredBy(before: Catalog) returns (after: Catalog)
    requires NamedByKey(before)
    ensures ExactTranspose(before, after)
  {
    after := before;
    var cur: Option<string> := None;
    while Later(after.Keys, cur) != {}
      invariant Partial(before, after, cur)
      decreases Later(Universe(before), cur)
    {
      var k := NextKey(after.Keys, cur);
      ghost var keys := after.Keys;
      after := PushToDependencies(before, after, cur, k);
      FinishKey(before, after, keys, cur, k);
      AdvanceShrinks(Universe(before), cur, k);
      cur := Some(k);
    }
    forall a, b
      ensures Requirers(after, b, a) == Dependencies(before, a, b)
    {
      assert a in Later(before.Keys, cur) ==> a in Later(after.Keys, cur);
      assert Requirers(after, b, a) == Pushed(before, cur, a, b);
    }
  }

  /** A catalog that lists its requirers in order is determined by the configuration alone. */
  lemma TransposeIsUnique(before: Catalog, x: Catalog, y: Catalog)
    requires ExactTranspose(before, x) && ExactTranspose(before, y)
    ensures x == y
  {
    forall b
      ensures b in x <==> b in y
      ensures b in x ==> x[b] == y[b]
    {
      forall a
        ensures Requirers(x, b, a) == Requirers(y, b, a)
      {
        assert Requirers(x, b, a) == Dependencies(before, a, b);
      }
      if b in x && b !in before {
        assert Requirers(x, b, x[b].requiredBy[0]) > 0;
      }
      if b in y && b !in before {
        assert Requirers(y, b, y[b].requiredBy[0]) > 0;
      }
      if b in x && b in y {
        forall a
          ensures multiset(x[b].requiredBy)[a] == multiset(y[b].requiredBy)[a]
        {
          assert Requirers(x, b, a) == Requirers(y, b, a);
        }
        SortedIsUnique(x[b].requiredBy, y[b].requiredBy);
      }
    }
  }

  lemma SortedHeadsAgree(s: seq<string>, t: seq<string>)
    requires SortedNames(s) && SortedNames(t) && multiset(s) == multiset(t) && s != []
    ensures t != [] && s[0] == t[0]
  {
    assert s[0] in multiset(t);
    assert t[0] in multiset(s);
    var i :| 0 <= i < |t| && t[i] == s[0];
    var j :| 0 <= j < |s| && s[j] == t[0];
    AtMostIsAntisymmetric(s[0], t[0]);
  }

  lemma {:induction false} SortedIsUnique(s: seq<string>, t: seq<string>)
    requires SortedNames(s) && SortedNames(t) && multiset(s) == multiset(t)
    ensures s == t
  {
    if s == [] {
      assert |multiset(t)| == 0;
    } else {
      SortedHeadsAgree(s, t);
      assert s == [s[0]] + s[1..];
      assert t == [t[0]] + t[1..];
      assert multiset(s[1..]) == multiset(s) - multiset{s[0]};
      assert multiset(t[1..]) == multiset(t) - multiset{t[0]};
      SortedIsUnique(s[1..], t[1..]);
    }
  }

  lemma AtMostIsAntisymmetric(a: string, b: string)
    requires AtMost(a, b) && AtMost(b, a)
    ensures a == b
  {
    if a != b {
      BeforeIsTransitive(a, b, a);
      BeforeIsIrreflexive(a);
    }
  }

  // ---------------------------------------------------------------------------------------------
  // Reading the sections.

  /** The map after the first loop over the sections. */
  ghost function ConfigCatalog(groups: seq<ConfigGroup>): Catalog {
    if groups == [] then map[]
    else
      var rest := ConfigCatalog(groups[..|groups| - 1]);
      var last := groups[|groups| - 1];
      match last.title
      case None => rest
      case Some(t) => rest[t := PluginMetadata(t, last.depends, [])]
  }

  lemma {:induction false} ConfigCatalogReadsConfig(groups: seq<ConfigGroup>)
    ensures ReadsConfig(groups, |groups|, ConfigCatalog(groups))
  {
    if groups != [] {
      var n := |groups| - 1;
      var init := groups[..n];
      var rest, cat := ConfigCatalog(init), ConfigCatalog(groups);
      ConfigCatalogReadsConfig(init);
      forall t
        ensures t in cat <==> exists i :: 0 <= i < n + 1 && Titled(groups[i], t)
      {
        if i :| 0 <= i < n && Titled(init[i], t) {
          assert Titled(groups[i], t);
        }
        if t in cat && !Titled(groups[n], t) {
          assert t in rest;
          var i :| 0 <= i < n && Titled(init[i], t);
          assert Titled(groups[i], t);
        }
        if i :| 0 <= i < n + 1 && Titled(groups[i], t) {
          assert i < n ==> Titled(init[i], t);
        }
      }
      forall t, i | t in cat && Decides(groups, n + 1, i, t)
        ensures cat[t] == PluginMetadata(t, groups[i].depends, [])
      {
        if i < n {
          assert !Titled(groups[n], t);
          forall j | i < j < n
            ensures !Titled(init[j], t)
          {
            assert !Titled(groups[j], t);
          }
          assert Titled(init[i], t);
          assert Decides(init, n, i, t);
        }
      }
    }
  }

  method FindTitle(title: string, names: seq<string>) returns (found: bool)
    ensures found <==> title in names
  {
    for i := 0 to |names|
      invariant title !in names[..i]
    {
      if names[i] == title {
        return true;
      }
    }
    return false;
  }

  /** `loadPluginsMetadata`. A section without a title is skipped; the first title that names neither a
      dynamic nor a static plugin aborts. */
  method LoadPluginsMetadata(groups: seq<ConfigGroup>, dynamicPlugins: seq<string>, staticPlugins: seq<string>)
    returns (r: Result<Catalog, CatalogError>)
    ensures r.Success? <==>
      forall i :: 0 <= i < |groups| && groups[i].title.Some? ==>
        groups[i].title.value in dynamicPlugins || groups[i].title.value in staticPlugins
    ensures r.Failure? ==>
      exists i :: 0 <= i < |groups| && Titled(groups[i], r.error.title)
               && r.error.title !in dynamicPlugins && r.error.title !in staticPlugins
               && forall j :: 0 <= j < i && groups[j].title.Some? ==>
                    groups[j].title.value in dynamicPlugins || groups[j].title.value in staticPlugins
    ensures r.Success? ==> ExactTranspose(ConfigCatalog(groups), r.value)
  {
    var filtered: Catalog := map[];
    for i := 0 to |groups|
      invariant filtered == ConfigCatalog(groups[..i])
      invariant NamedByKey(filtered)
      invariant forall j :: 0 <= j < i && groups[j].title.Some? ==>
        groups[j].title.value in dynamicPlugins || groups[j].title.value in staticPlugins
    {
      assert groups[..i + 1][..i] == groups[..i];
      match groups[i].title {
        case None =>
        case Some(title) =>
          var isDynamic := FindTitle(title, dynamicPlugins);
          var isStatic := FindTitle(title, staticPlugins);
          if !isDynamic && !isStatic {
            assert Titled(groups[i], title);
            return Failure(PluginNotFound(title));
          }
          filtered := filtered[title := PluginMetadata(title, groups[i].depends, [])];
      }
    }
    assert groups[..|groups|] == groups;
    var linked := PopulateRequiredBy(filtered);
    return Success(linked);
  }
}
