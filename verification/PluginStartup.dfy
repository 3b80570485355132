/** From the sections of the configuration file to the runs of the plugin manager. */
module PluginStartup {
  import opened Wrappers
  import opened PluginCatalog
  import opened PluginLinks
  import opened PluginManagement
  import opened PluginLifetimes
  import PG = PromiseGraph

  ghost predicate TitlesAvailable(groups: seq<ConfigGroup>, dynamicPlugins: seq<string>, staticPlugins: seq<string>) {
    forall i :: 0 <= i < |groups| && groups[i].title.Some? ==>
      groups[i].title.value in dynamicPlugins || groups[i].title.value in staticPlugins
  }

  lemma SectionsAreNamed(groups: seq<ConfigGroup>)
    ensures NamedByKey(ConfigCatalog(groups))
  {
    ConfigCatalogReadsConfig(groups);
  }

  /** All of `startup`: succeeds exactly when the titles are available, the paths exist and the sections
      and paths provide what is depended on; then the load chains of the manager are the load graph of
      the entries by name, and `shutdown` will find every promise it looks up. */
  method StartFromSections(manager: PluginManager, groups: seq<ConfigGroup>, dynamicPlugins: seq<string>,
                           staticPlugins: seq<string>, extraPaths: seq<string>, files: set<string>, broken: set<string>)
    returns (ok: bool, ghost linked: Catalog)
    requires manager.Untouched()
    modifies manager
    ensures ok <==> TitlesAvailable(groups, dynamicPlugins, staticPlugins) && PathsExist(extraPaths, files)
                    && Provided(ConfigCatalog(groups), extraPaths)
    ensures ok ==> ExactTranspose(ConfigCatalog(groups), linked)
    ensures ok ==> manager.StartedWith(Overlay(linked, extraPaths), broken)
    ensures ok ==> Started(manager, ByName(Overlay(linked, extraPaths)), broken)
    ensures manager.unloadChains == {} && manager.unloadWaits == map[]
  {
    var read := LoadPluginsMetadata(groups, dynamicPlugins, staticPlugins);
    if read.Failure? {
      ok, linked := false, map[];
      return;
    }
    linked := read.value;
    SectionsAreNamed(groups);
    var r := manager.Startup(read.value, extraPaths, files, broken);
    ok := r.Success?;
    if PathsExist(extraPaths, files) {
      ChecksPassExactlyWhen(ConfigCatalog(groups), linked, extraPaths);
      if ok {
        StartedIsOverlaid(ConfigCatalog(groups), linked, extraPaths);
        StartedIsBuilt(manager, Overlay(linked, extraPaths), broken);
      }
    }
  }

  /** What `shutdown` and the results on runs need of a started manager. */
  ghost predicate Started(manager: PluginManager, cat: Catalog, broken: set<string>)
    reads manager
  {
    && Overlaid(cat)
    && Built(manager.loadPromises, manager.loadChains, manager.loadWaits) == LoadGraph(cat, broken)
    && manager.loadCount == Zeros(cat.Keys) && manager.unloadCount == Zeros(cat.Keys)
  }

  lemma StartedIsBuilt(manager: PluginManager, cat: Catalog, broken: set<string>)
    requires manager.StartedWith(cat, broken) && ChecksPass(cat) && Overlaid(ByName(cat))
    ensures Started(manager, ByName(cat), broken)
  {
    var order :| manager.StartedInOrder(cat, broken, order);
    StartupBuildsLoadGraph(cat, broken, order);
    NamesOfMembers(cat, order);
    assert NamesOf(cat, order) == ByName(cat).Keys;
  }

  /** `shutdown` of a started manager finds every promise, and its chains form the unload graph. */
  method ShutdownStarted(manager: PluginManager, ghost cat: Catalog, ghost broken: set<string>)
    requires manager.StartedWith(cat, broken) && ChecksPass(cat) && Overlaid(ByName(cat))
    requires manager.unloadChains == {} && manager.unloadWaits == map[]
    modifies manager`unloadWaits, manager`unloadChains
    ensures Built(manager.unloadPromises, manager.unloadChains, manager.unloadWaits) == UnloadGraph(ByName(cat), broken)
  {
    ghost var order :| manager.StartedInOrder(cat, broken, order);
    ShutdownChecksPass(cat, broken, order);
    ShutdownBuildsUnloadGraph(cat, broken, order);
    var r := manager.Shutdown();
  }

  // ---------------------------------------------------------------------------------------------
  // Counters.

  /** The counters after the reports among `es`, each counted by `OnLoaded` or `OnUnloaded`. */
  ghost function Counted(counter: map<string, nat>, es: seq<PG.Event>): map<string, nat> {
    if es == [] then counter
    else
      var rest, e := Counted(counter, es[..|es| - 1]), es[|es| - 1];
      if e.Report? then Bumped(rest, e.p) else rest
  }

  method CountLoads(manager: PluginManager, es: seq<PG.Event>)
    modifies manager`loadCount
    ensures manager.loadCount == Counted(old(manager.loadCount), es)
  {
    for i := 0 to |es|
      invariant manager.loadCount == Counted(old(manager.loadCount), es[..i])
    {
      assert es[..i + 1][..i] == es[..i];
      if es[i].Report? {
        manager.OnLoaded(es[i].p);
      }
    }
    assert es[..|es|] == es;
  }

  method CountUnloads(manager: PluginManager, es: seq<PG.Event>)
    modifies manager`unloadCount
    ensures manager.unloadCount == Counted(old(manager.unloadCount), es)
  {
    for i := 0 to |es|
      invariant manager.unloadCount == Counted(old(manager.unloadCount), es[..i])
    {
      assert es[..i + 1][..i] == es[..i];
      if es[i].Report? {
        manager.OnUnloaded(es[i].p);
      }
    }
    assert es[..|es|] == es;
  }

  /** Counting the reports of a run from zero gives the counters that the results on runs speak of. */
  lemma {:induction false} CountersAreReports(g: PG.Graph, es: seq<PG.Event>)
    requires PG.Closed(g) && PG.IsRun(g, es)
    ensures Counted(Zeros(g.waits.Keys), es) == PG.After(g, es).value.reports
  {
    if es != [] {
      CountersAreReports(g, es[..|es| - 1]);
    }
  }

  // ---------------------------------------------------------------------------------------------
  // What the sections alone decide.

  /** Each section of the chain names the next title among its dependencies. */
  ghost predicate SectionChain(groups: seq<ConfigGroup>, chain: seq<string>) {
    chain != [] && forall k :: 0 <= k < |chain| - 1 ==> DependsVia(groups, chain[k], chain[k + 1])
  }

  /** The section that decides `t` lists `d`. */
  ghost predicate DependsVia(groups: seq<ConfigGroup>, t: string, d: string) {
    exists i :: Decides(groups, |groups|, i, t) && d in groups[i].depends
  }

  ghost predicate HasCycle(groups: seq<ConfigGroup>) {
    exists chain :: SectionChain(groups, chain) && |chain| > 1 && chain[0] == chain[|chain| - 1]
  }

  ghost predicate SectionsClosed(groups: seq<ConfigGroup>) {
    forall t, d :: DependsVia(groups, t, d) ==> exists j :: 0 <= j < |groups| && Titled(groups[j], d)
  }

  lemma {:induction false} LastSection(groups: seq<ConfigGroup>, n: nat, t: string) returns (i: nat)
    requires n <= |groups| && exists j :: 0 <= j < n && Titled(groups[j], t)
    ensures Decides(groups, n, i, t)
  {
    if Titled(groups[n - 1], t) {
      i := n - 1;
    } else {
      i := LastSection(groups, n - 1, t);
    }
  }

  lemma SectionsDecide(groups: seq<ConfigGroup>, t: string, d: string)
    ensures DependsVia(groups, t, d) <==> t in ConfigCatalog(groups) && d in ConfigCatalog(groups)[t].dependsOn
  {
    ConfigCatalogReadsConfig(groups);
    if t in ConfigCatalog(groups) {
      var i := LastSection(groups, |groups|, t);
      assert ConfigCatalog(groups)[t].dependsOn == groups[i].depends;
    }
    if DependsVia(groups, t, d) {
      var i :| Decides(groups, |groups|, i, t) && d in groups[i].depends;
      assert Titled(groups[i], t);
      assert ConfigCatalog(groups)[t].dependsOn == groups[i].depends;
    }
  }

  lemma ClosedSectionsAreAccepted(groups: seq<ConfigGroup>, linked: Catalog)
    requires ExactTranspose(ConfigCatalog(groups), linked) && SectionsClosed(groups)
    ensures Accepted(linked) && linked.Keys == ConfigCatalog(groups).Keys
    ensures forall t :: t in linked ==> linked[t].dependsOn == ConfigCatalog(groups)[t].dependsOn
  {
    var config := ConfigCatalog(groups);
    ConfigCatalogReadsConfig(groups);
    forall t, d | t in config && d in config[t].dependsOn
      ensures d in config
    {
      SectionsDecide(groups, t, d);
    }
    forall t
      ensures t in linked <==> t in config
    {
      LinkedKeys(config, linked, t);
    }
  }

  lemma ChainsArePaths(groups: seq<ConfigGroup>, linked: Catalog, chain: seq<string>)
    requires ExactTranspose(ConfigCatalog(groups), linked) && SectionsClosed(groups)
    ensures PG.Path(LoadGraph(linked, {}), chain) <==> SectionChain(groups, chain)
  {
    ClosedSectionsAreAccepted(groups, linked);
    var g := LoadGraph(linked, {});
    if PG.Path(g, chain) {
      forall k | 0 <= k < |chain| - 1
        ensures DependsVia(groups, chain[k], chain[k + 1])
      {
        assert chain[k] in g.waits && chain[k + 1] in g.waits[chain[k]];
        SectionsDecide(groups, chain[k], chain[k + 1]);
      }
    }
    if SectionChain(groups, chain) {
      forall k | 0 <= k < |chain| - 1
        ensures chain[k] in g.waits && chain[k + 1] in g.waits[chain[k]]
      {
        assert DependsVia(groups, chain[k], chain[k + 1]);
        SectionsDecide(groups, chain[k], chain[k + 1]);
      }
    }
  }

  /** From sections to runs: with every dependency a section and every plugin instantiated, a run whose
      loading can go no further has resolved the startup promise exactly when no chain of sections leads
      back to where it started; then every plugin was loaded and counted once. */
  lemma SectionsLoadExactlyWhenAcyclic(groups: seq<ConfigGroup>, linked: Catalog, run: seq<Event>)
    requires ExactTranspose(ConfigCatalog(groups), linked) && SectionsClosed(groups)
    requires IsRun(linked, {}, run) && LoadingStuck(linked, {}, After(linked, {}, run).value)
    ensures StartupResolved(linked, {}, run) <==> !HasCycle(groups)
    ensures !HasCycle(groups) ==> forall i :: 0 <= i < |groups| && groups[i].title.Some? ==>
      var t := groups[i].title.value;
      Load(PG.Finish(t)) in run && PG.ReportsOf(After(linked, {}, run).value.load, t) == 1
  {
    var g := LoadGraph(linked, {});
    ClosedSectionsAreAccepted(groups, linked);
    LoadedExactlyWhenSound(linked, {}, run);
    if !HasCycle(groups) {
      forall p
        ensures !PG.WaitsOn(g, p, p)
      {
        if chain :| PG.PathFromTo(g, chain, p, p) && |chain| > 1 {
          ChainsArePaths(groups, linked, chain);
        }
      }
      AcyclicLoadsCompletely(linked, run);
      ConfigCatalogReadsConfig(groups);
      forall i | 0 <= i < |groups| && groups[i].title.Some?
        ensures groups[i].title.value in linked
      {
        assert Titled(groups[i], groups[i].title.value);
      }
    } else if StartupResolved(linked, {}, run) {
      CycleNeverLoads(groups, linked, run);
    }
  }

  lemma CycleNeverLoads(groups: seq<ConfigGroup>, linked: Catalog, run: seq<Event>)
    requires ExactTranspose(ConfigCatalog(groups), linked) && SectionsClosed(groups) && HasCycle(groups)
    requires IsRun(linked, {}, run)
    ensures !StartupResolved(linked, {}, run)
  {
    var g := LoadGraph(linked, {});
    ClosedSectionsAreAccepted(groups, linked);
    var chain :| SectionChain(groups, chain) && |chain| > 1 && chain[0] == chain[|chain| - 1];
    ChainsArePaths(groups, linked, chain);
    assert PG.PathFromTo(g, chain, chain[0], chain[0]);
    assert PG.WaitsOn(g, chain[0], chain[0]) && PG.ReachesOrIs(g, chain[0], chain[0]);
    assert chain[0] in g.waits && chain[1] in g.waits[chain[0]];
    if StartupResolved(linked, {}, run) {
      ResolvedMeansLoadable(linked, {}, run);
    }
  }
}
