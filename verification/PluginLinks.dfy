/** What the entries of the plugin map say about each other, before and after the plugins given by path
    are added, and which maps get past the `CHECK`s of `startup`. */
module PluginLinks {
  import opened NameOrder
  import opened PluginCatalog

  /** Plugins given by path are added after the configured ones and replace an entry with the same key. */
  function Overlay(config: Catalog, extraPaths: seq<string>): Catalog {
    config + map p | p in extraPaths :: PluginMetadata(p, [], [])
  }

  ghost function Names(cat: Catalog): set<string> {
    set t | t in cat :: cat[t].pluginName
  }

  /** The `CHECK`s of `startup` on the final map: no two entries share a plugin name, and every
      dependency is the name of an entry. */
  ghost predicate ChecksPass(cat: Catalog) {
    && (forall s, t :: s in cat && t in cat && s != t ==> cat[s].pluginName != cat[t].pluginName)
    && (forall t, d :: t in cat && d in cat[t].dependsOn ==> d in Names(cat))
  }

  /** Which configurations get past the `CHECK`s: those that mention no unknown plugin, except that
      one section named by the empty string may be missing, because the entry inserted for a missing
      dependency is itself nameless. */
  lemma ChecksPassExactlyWhenClosed(config: Catalog, cat: Catalog)
    requires NamedByKey(config) && ExactTranspose(config, cat)
    ensures ChecksPass(cat) <==> forall a, d :: a in config && d in config[a].dependsOn ==> d in config || d == ""
  {
    if ChecksPass(cat) {
      forall a, d | a in config && d in config[a].dependsOn
        ensures d in config || d == ""
      {
        assert a in cat && d in cat[a].dependsOn;
        assert d in Names(cat);
        var u :| u in cat && cat[u].pluginName == d;
      }
    }
    if forall a, d :: a in config && d in config[a].dependsOn ==> d in config || d == "" {
      forall t | t in cat
        ensures cat[t].pluginName == t
      {
        if t !in config {
          var a := cat[t].requiredBy[0];
          assert Requirers(cat, t, a) > 0;
          assert Dependencies(config, a, t) > 0;
        }
      }
      forall t, d | t in cat && d in cat[t].dependsOn
        ensures d in Names(cat)
      {
        assert Dependencies(config, t, d) > 0;
        assert Requirers(cat, d, t) > 0;
        assert cat[d].pluginName == d;
      }
    }
  }

  /** Entries are named by their key, all links stay inside the map and `requiredBy` is the
      transpose of `dependsOn`. */
  ghost predicate WellLinked(cat: Catalog) {
    && (forall t :: t in cat ==> cat[t].pluginName == t)
    && (forall t, d :: t in cat && d in cat[t].dependsOn ==> d in cat)
    && (forall a, b :: b in cat ==> multiset(cat[b].requiredBy)[a] == Dependencies(cat, a, b))
  }

  lemma CheckedConfigIsWellLinked(config: Catalog, cat: Catalog)
    requires NamedByKey(config) && ExactTranspose(config, cat) && ChecksPass(cat)
    ensures WellLinked(cat)
  {
    ChecksPassExactlyWhenClosed(config, cat);
    forall t | t in cat
      ensures cat[t].pluginName == t
    {
      if t !in config {
        var a := cat[t].requiredBy[0];
        assert Requirers(cat, t, a) > 0;
        assert Dependencies(config, a, t) > 0;
      }
    }
    forall t, d | t in cat && d in cat[t].dependsOn
      ensures d in cat
    {
      assert Dependencies(config, t, d) > 0;
      assert Requirers(cat, d, t) > 0;
    }
    forall a, b | b in cat
      ensures multiset(cat[b].requiredBy)[a] == Dependencies(cat, a, b)
    {
      assert Requirers(cat, b, a) == Dependencies(config, a, b);
    }
  }

  /** Replacing configured plugins by paths keeps the links exactly when no dependency joins a
      replaced plugin to one that is kept. */
  lemma OverlayKeepsLinksExactlyWhen(cat: Catalog, extraPaths: seq<string>)
    requires WellLinked(cat)
    ensures WellLinked(Overlay(cat, extraPaths)) <==>
      forall a, b :: a in cat && b in cat[a].dependsOn ==> (a in extraPaths <==> b in extraPaths)
  {
    var final := Overlay(cat, extraPaths);
    if WellLinked(final) {
      forall a, b | a in cat && b in cat[a].dependsOn
        ensures a in extraPaths <==> b in extraPaths
      {
        assert Dependencies(cat, a, b) > 0;
        assert b in final;
        assert multiset(final[b].requiredBy)[a] == Dependencies(final, a, b);
      }
    }
    if forall a, b :: a in cat && b in cat[a].dependsOn ==> (a in extraPaths <==> b in extraPaths) {
      forall a, b | b in final
        ensures multiset(final[b].requiredBy)[a] == Dependencies(final, a, b)
      {
        if b in cat {
          assert multiset(cat[b].requiredBy)[a] == Dependencies(cat, a, b);
        }
      }
    }
  }

  // ---------------------------------------------------------------------------------------------
  // Maps with plugins given by path.

  /** Dependencies that neither a section nor a path provides; each gets a nameless entry. */
  ghost function Missing(config: Catalog, extraPaths: seq<string>): set<string> {
    set a, d | a in config && d in config[a].dependsOn && d !in config && d !in extraPaths :: d
  }

  lemma LinkedKeys(config: Catalog, linked: Catalog, t: string)
    requires ExactTranspose(config, linked)
    ensures t in linked <==> t in config || exists a :: a in config && t in config[a].dependsOn
    ensures t in linked ==> forall a :: a in linked[t].requiredBy <==> a in config && t in config[a].dependsOn
  {
    forall a
      ensures a in config && t in config[a].dependsOn ==> t in linked && a in linked[t].requiredBy
      ensures t in linked && a in linked[t].requiredBy ==> a in config && t in config[a].dependsOn
    {
      assert Requirers(linked, t, a) == Dependencies(config, a, t);
    }
    if t in linked && t !in config {
      assert linked[t].requiredBy[0] in linked[t].requiredBy;
    }
  }

  /** The entries of the final map. */
  lemma OverlayEntries(config: Catalog, linked: Catalog, extraPaths: seq<string>, t: string)
    requires NamedByKey(config) && ExactTranspose(config, linked)
    ensures var final := Overlay(linked, extraPaths);
            && (t in final <==> t in config || t in extraPaths || t in Missing(config, extraPaths))
            && (t in extraPaths ==> final[t] == PluginMetadata(t, [], []))
            && (t in config && t !in extraPaths ==>
                  final[t].pluginName == t && final[t].dependsOn == config[t].dependsOn)
            && (t in Missing(config, extraPaths) ==> final[t].pluginName == "" && final[t].dependsOn == [])
            && (t in final && t !in extraPaths ==>
                  forall a :: a in final[t].requiredBy <==> a in config && t in config[a].dependsOn)
  {
    LinkedKeys(config, linked, t);
  }

  /** Every dependency of a plugin that no path replaces is a section, a path or the empty name, and at
      most one entry is nameless. */
  ghost predicate Provided(config: Catalog, extraPaths: seq<string>) {
    && (forall a, d :: a in config && a !in extraPaths && d in config[a].dependsOn ==>
          d in config || d in extraPaths || d == "")
    && (forall d, e :: d in Missing(config, extraPaths) && e in Missing(config, extraPaths) ==> d == e)
    && ("" in config ==> Missing(config, extraPaths) == {})
  }

  /** The names and dependencies of the final map. */
  ghost predicate Shaped(config: Catalog, extraPaths: seq<string>, final: Catalog) {
    && (forall t :: t in final <==> t in config || t in extraPaths || t in Missing(config, extraPaths))
    && (forall t :: t in final ==> final[t].pluginName == if t in Missing(config, extraPaths) then "" else t)
    && (forall t :: t in final ==>
          final[t].dependsOn == if t in config && t !in extraPaths then config[t].dependsOn else [])
  }

  lemma OverlayIsShaped(config: Catalog, linked: Catalog, extraPaths: seq<string>)
    requires NamedByKey(config) && ExactTranspose(config, linked)
    ensures Shaped(config, extraPaths, Overlay(linked, extraPaths))
  {
    var final := Overlay(linked, extraPaths);
    forall t
      ensures t in final <==> t in config || t in extraPaths || t in Missing(config, extraPaths)
      ensures t in final ==> final[t].pluginName == if t in Missing(config, extraPaths) then "" else t
      ensures t in final ==>
        final[t].dependsOn == if t in config && t !in extraPaths then config[t].dependsOn else []
    {
      OverlayEntries(config, linked, extraPaths, t);
    }
  }

  lemma PassingIsProvided(config: Catalog, extraPaths: seq<string>, final: Catalog)
    requires Shaped(config, extraPaths, final) && "" !in extraPaths && ChecksPass(final)
    ensures Provided(config, extraPaths)
  {
    forall a, d | a in config && a !in extraPaths && d in config[a].dependsOn
      ensures d in config || d in extraPaths || d == ""
    {
      assert a in final && d in final[a].dependsOn;
      assert d in Names(final);
      var u :| u in final && final[u].pluginName == d;
    }
    forall d, e | d in Missing(config, extraPaths) && e in Missing(config, extraPaths)
      ensures d == e
    {
      assert final[d].pluginName == final[e].pluginName;
    }
    forall d | d in Missing(config, extraPaths)
      ensures "" !in config
    {
      assert "" in config ==> "" in final;
      assert final[d].pluginName == "";
    }
  }

  lemma ProvidedPasses(config: Catalog, extraPaths: seq<string>, final: Catalog)
    requires Shaped(config, extraPaths, final) && "" !in extraPaths && Provided(config, extraPaths)
    ensures ChecksPass(final)
  {
    forall t, d | t in final && d in final[t].dependsOn
      ensures d in Names(final)
    {
      if d in config || d in extraPaths {
        assert final[d].pluginName == d;
      } else {
        assert "" in Missing(config, extraPaths) && final[""].pluginName == "";
      }
    }
  }

  /** Which configurations and paths get past the `CHECK`s. */
  lemma ChecksPassExactlyWhen(config: Catalog, linked: Catalog, extraPaths: seq<string>)
    requires NamedByKey(config) && ExactTranspose(config, linked) && "" !in extraPaths
    ensures ChecksPass(Overlay(linked, extraPaths)) <==> Provided(config, extraPaths)
  {
    OverlayIsShaped(config, linked, extraPaths);
    if ChecksPass(Overlay(linked, extraPaths)) {
      PassingIsProvided(config, extraPaths, Overlay(linked, extraPaths));
    }
    if Provided(config, extraPaths) {
      ProvidedPasses(config, extraPaths, Overlay(linked, extraPaths));
    }
  }

  // ---------------------------------------------------------------------------------------------
  // The maps that get past the `CHECK`s, entry by name.

  ghost function EntryNamed(cat: Catalog, name: string): PluginMetadata
    requires name in Names(cat)
  {
    var t :| t in cat && cat[t].pluginName == name;
    cat[t]
  }

  /** The manager uses names only; the keys of the map are forgotten. */
  ghost function ByName(cat: Catalog): Catalog {
    map name | name in Names(cat) :: EntryNamed(cat, name)
  }

  /** Entries are named by their key, and every dependency has an entry. */
  ghost predicate Accepted(cat: Catalog) {
    && (forall t :: t in cat ==> cat[t].pluginName == t)
    && (forall t, d :: t in cat && d in cat[t].dependsOn ==> d in cat)
  }

  lemma ByNameAt(cat: Catalog, t: string)
    requires ChecksPass(cat) && t in cat
    ensures cat[t].pluginName in ByName(cat) && ByName(cat)[cat[t].pluginName] == cat[t]
  {
    var name := cat[t].pluginName;
    assert name in Names(cat);
    var u :| u in cat && cat[u].pluginName == name && EntryNamed(cat, name) == cat[u];
  }

  /** Everything `startup` accepts is such a map; so the results that ask for no more hold of it. */
  lemma StartedIsAccepted(cat: Catalog)
    requires ChecksPass(cat)
    ensures Accepted(ByName(cat))
  {
    forall n | n in ByName(cat)
      ensures ByName(cat)[n].pluginName == n
      ensures forall d :: d in ByName(cat)[n].dependsOn ==> d in ByName(cat)
    {
      var t :| t in cat && cat[t].pluginName == n;
      ByNameAt(cat, t);
    }
  }

  lemma AcceptedIsByName(cat: Catalog)
    requires Accepted(cat)
    ensures ChecksPass(cat) && ByName(cat) == cat
  {
    assert Names(cat) == cat.Keys by {
      forall t | t in cat
        ensures t in Names(cat)
      {
        assert cat[t].pluginName == t;
      }
    }
    forall t | t in cat
      ensures ByName(cat)[t] == cat[t]
    {
      ByNameAt(cat, t);
    }
  }

  /** A plugin given by path depends on nothing and nobody is recorded as requiring it. */
  predicate Bare(m: PluginMetadata) {
    m.dependsOn == [] && m.requiredBy == []
  }

  /** What paths may do to the links: requirers exist, and `requiredBy` and `dependsOn` reverse each other
      except at bare entries. */
  ghost predicate Overlaid(cat: Catalog) {
    && Accepted(cat)
    && (forall a, b :: b in cat && a in cat[b].requiredBy ==> a in cat && (b in cat[a].dependsOn || Bare(cat[a])))
    && (forall a, b :: a in cat && b in cat[a].dependsOn ==> a in cat[b].requiredBy || Bare(cat[b]))
  }

  lemma WellLinkedIsOverlaid(cat: Catalog)
    requires WellLinked(cat)
    ensures Overlaid(cat)
    ensures forall a, b :: b in cat ==> (a in cat[b].requiredBy <==> a in cat && b in cat[a].dependsOn)
  {
    forall a, b | b in cat
      ensures a in cat[b].requiredBy <==> a in cat && b in cat[a].dependsOn
    {
      assert multiset(cat[b].requiredBy)[a] == Dependencies(cat, a, b);
      assert a in cat[b].requiredBy <==> multiset(cat[b].requiredBy)[a] > 0;
    }
  }

  /** What the manager works with after the sections and the paths were read. */
  lemma StartedEntries(config: Catalog, linked: Catalog, extraPaths: seq<string>, n: string)
    requires NamedByKey(config) && ExactTranspose(config, linked) && "" !in extraPaths
    requires ChecksPass(Overlay(linked, extraPaths))
    ensures var cat := ByName(Overlay(linked, extraPaths));
            && (n in config || n in extraPaths ==> n in cat)
            && (n in cat && n !in config && n !in extraPaths ==> n == "" && cat[n].dependsOn == [])
            && (n in extraPaths ==> cat[n] == PluginMetadata(n, [], []))
            && (n in config && n !in extraPaths ==>
                  && cat[n].pluginName == n && cat[n].dependsOn == config[n].dependsOn
                  && forall a :: a in cat[n].requiredBy <==> a in config && n in config[a].dependsOn)
  {
    var final := Overlay(linked, extraPaths);
    OverlayEntries(config, linked, extraPaths, n);
    if n in config || n in extraPaths {
      ByNameAt(final, n);
    } else if n in ByName(final) {
      var t :| t in final && final[t].pluginName == n;
      ByNameAt(final, t);
      OverlayEntries(config, linked, extraPaths, t);
    }
  }

  lemma NamelessEntry(config: Catalog, linked: Catalog, extraPaths: seq<string>) returns (t: string)
    requires NamedByKey(config) && ExactTranspose(config, linked) && "" !in extraPaths && "" !in config
    requires ChecksPass(Overlay(linked, extraPaths)) && "" in ByName(Overlay(linked, extraPaths))
    ensures t in Missing(config, extraPaths)
    ensures forall a ::
      a in ByName(Overlay(linked, extraPaths))[""].requiredBy <==> a in config && t in config[a].dependsOn
  {
    var final := Overlay(linked, extraPaths);
    t :| t in final && final[t].pluginName == "";
    ByNameAt(final, t);
    OverlayEntries(config, linked, extraPaths, t);
  }

  lemma RequirerIsKnown(config: Catalog, linked: Catalog, extraPaths: seq<string>, a: string, b: string)
    requires NamedByKey(config) && ExactTranspose(config, linked) && "" !in extraPaths
    requires ChecksPass(Overlay(linked, extraPaths)) && Provided(config, extraPaths)
    requires var cat := ByName(Overlay(linked, extraPaths)); b in cat && a in cat[b].requiredBy
    ensures var cat := ByName(Overlay(linked, extraPaths)); a in cat && (b in cat[a].dependsOn || Bare(cat[a]))
  {
    StartedEntries(config, linked, extraPaths, a);
    StartedEntries(config, linked, extraPaths, b);
    if b !in config && b !in extraPaths {
      var t := NamelessEntry(config, linked, extraPaths);
    }
  }

  lemma DependencyIsRecorded(config: Catalog, linked: Catalog, extraPaths: seq<string>, a: string, b: string)
    requires NamedByKey(config) && ExactTranspose(config, linked) && "" !in extraPaths
    requires ChecksPass(Overlay(linked, extraPaths)) && Provided(config, extraPaths)
    requires var cat := ByName(Overlay(linked, extraPaths)); a in cat && b in cat[a].dependsOn && b in cat
    ensures var cat := ByName(Overlay(linked, extraPaths)); a in cat[b].requiredBy || Bare(cat[b])
  {
    StartedEntries(config, linked, extraPaths, a);
    StartedEntries(config, linked, extraPaths, b);
    if b !in config && b !in extraPaths {
      var t := NamelessEntry(config, linked, extraPaths);
      assert b in Missing(config, extraPaths);
    }
  }

  /** Every map the manager gets from sections and paths is of that kind. */
  lemma StartedIsOverlaid(config: Catalog, linked: Catalog, extraPaths: seq<string>)
    requires NamedByKey(config) && ExactTranspose(config, linked) && "" !in extraPaths
    requires ChecksPass(Overlay(linked, extraPaths))
    ensures Overlaid(ByName(Overlay(linked, extraPaths)))
  {
    var cat := RequirersAreKnown(config, linked, extraPaths);
    var same := DependenciesAreRecorded(config, linked, extraPaths);
    var accepted := EntriesAreAccepted(Overlay(linked, extraPaths));
    LinksMakeOverlaid(cat);
  }

  lemma EntriesAreAccepted(cat: Catalog) returns (entries: Catalog)
    requires ChecksPass(cat)
    ensures entries == ByName(cat) && Accepted(entries)
  {
    entries := ByName(cat);
    StartedIsAccepted(cat);
  }

  lemma LinksMakeOverlaid(cat: Catalog)
    requires Accepted(cat)
    requires forall a, b :: b in cat && a in cat[b].requiredBy ==> a in cat && (b in cat[a].dependsOn || Bare(cat[a]))
    requires forall a, b :: a in cat && b in cat[a].dependsOn ==> b in cat && (a in cat[b].requiredBy || Bare(cat[b]))
    ensures Overlaid(cat)
  {
  }

  lemma RequirersAreKnown(config: Catalog, linked: Catalog, extraPaths: seq<string>) returns (cat: Catalog)
    requires NamedByKey(config) && ExactTranspose(config, linked) && "" !in extraPaths
    requires ChecksPass(Overlay(linked, extraPaths))
    ensures cat == ByName(Overlay(linked, extraPaths))
    ensures forall a, b :: b in cat && a in cat[b].requiredBy ==> a in cat && (b in cat[a].dependsOn || Bare(cat[a]))
  {
    cat := ByName(Overlay(linked, extraPaths));
    ChecksPassExactlyWhen(config, linked, extraPaths);
    forall a, b | b in cat && a in cat[b].requiredBy
      ensures a in cat && (b in cat[a].dependsOn || Bare(cat[a]))
    {
      RequirerIsKnown(config, linked, extraPaths, a, b);
    }
  }

  lemma DependenciesAreRecorded(config: Catalog, linked: Catalog, extraPaths: seq<string>) returns (cat: Catalog)
    requires NamedByKey(config) && ExactTranspose(config, linked) && "" !in extraPaths
    requires ChecksPass(Overlay(linked, extraPaths))
    ensures cat == ByName(Overlay(linked, extraPaths))
    ensures forall a, b :: a in cat && b in cat[a].dependsOn ==> b in cat && (a in cat[b].requiredBy || Bare(cat[b]))
  {
    cat := ByName(Overlay(linked, extraPaths));
    StartedIsAccepted(Overlay(linked, extraPaths));
    ChecksPassExactlyWhen(config, linked, extraPaths);
    forall a, b | a in cat && b in cat[a].dependsOn
      ensures b in cat && (a in cat[b].requiredBy || Bare(cat[b]))
    {
      DependencyIsRecorded(config, linked, extraPaths, a, b);
    }
  }
}
