/** `PluginManager`: the maps of promises and counters, and which promises each load or unload chain
    is made to wait on. */
module PluginManagement {
  import opened Wrappers
  import opened NameOrder
  import opened PluginCatalog
  import opened PluginLinks
  import opened PromiseGraph

  datatype StartupError =
    | NoSuchFile(path: string)
    | LoadedTwice(name: string)
    | UnknownDependency(plugin: string, dependency: string)
    | UnknownRequirer(plugin: string, requirer: string)

  function Zeros(names: set<string>): map<string, nat> {
    map n | n in names :: 0
  }

  lemma OneMoreZero(names: set<string>, name: string)
    ensures Zeros(names)[name := 0] == Zeros(names + {name})
  {
  }

  /** `counter[name]++`; a missing counter starts from zero. */
  function Bumped(counter: map<string, nat>, name: string): map<string, nat> {
    counter[name := 1 + if name in counter then counter[name] else 0]
  }

  /** `loaded_plugins_`: the entries that could be instantiated, in the given order. */
  function Instantiated(cat: Catalog, order: seq<string>, broken: set<string>): seq<PluginMetadata>
    requires forall k :: k in order ==> k in cat
  {
    if order == [] then []
    else
      var last := cat[order[|order| - 1]];
      Instantiated(cat, order[..|order| - 1], broken) + if last.pluginName in broken then [] else [last]
  }

  lemma {:induction false} InstantiatedMembers(cat: Catalog, order: seq<string>, broken: set<string>)
    requires forall k :: k in order ==> k in cat
    ensures forall m :: m in Instantiated(cat, order, broken) <==>
      exists k :: k in order && m == cat[k] && m.pluginName !in broken
  {
    if order != [] {
      var n := |order| - 1;
      InstantiatedMembers(cat, order[..n], broken);
      assert order == order[..n] + [order[n]];
      var init, all := Instantiated(cat, order[..n], broken), Instantiated(cat, order, broken);
      forall m
        ensures m in all <==> exists k :: k in order && m == cat[k] && m.pluginName !in broken
      {
        if m in all && m !in init {
          assert order[n] in order && m == cat[order[n]];
        }
      }
    }
  }

  /** The names registered, the promises awaited and the checks made while visiting `order`. */
  function NamesOf(cat: Catalog, order: seq<string>): set<string>
    requires forall k :: k in order ==> k in cat
  {
    if order == [] then {} else NamesOf(cat, order[..|order| - 1]) + {cat[order[|order| - 1]].pluginName}
  }

  function WaitsOf(cat: Catalog, order: seq<string>): map<string, seq<string>>
    requires forall k :: k in order ==> k in cat
  {
    if order == [] then map[]
    else
      var last := cat[order[|order| - 1]];
      WaitsOf(cat, order[..|order| - 1])[last.pluginName := last.dependsOn]
  }

  ghost predicate DistinctNames(cat: Catalog, keys: seq<string>) {
    forall s, t :: s in keys && t in keys && s in cat && t in cat && s != t ==> cat[s].pluginName != cat[t].pluginName
  }

  ghost predicate KnownDependencies(cat: Catalog, keys: seq<string>, names: set<string>) {
    forall t, d :: t in keys && t in cat && d in cat[t].dependsOn ==> d in names
  }

  lemma {:induction false} NamesOfMembers(cat: Catalog, order: seq<string>)
    requires forall k :: k in order ==> k in cat
    ensures forall n :: n in NamesOf(cat, order) <==> exists k :: k in order && cat[k].pluginName == n
  {
    if order != [] {
      var last := order[|order| - 1];
      var init := order[..|order| - 1];
      NamesOfMembers(cat, init);
      assert forall k :: k in order <==> k in init || k == last;
      assert NamesOf(cat, order) == NamesOf(cat, init) + {cat[last].pluginName};
      forall n
        ensures n in NamesOf(cat, order) <==> exists k :: k in order && cat[k].pluginName == n
      {
        if n in NamesOf(cat, init) {
          var k :| k in init && cat[k].pluginName == n;
          assert k in order;
        } else if n == cat[last].pluginName {
          assert last in order;
        }
      }
    }
  }

  lemma {:induction false} WaitsOfEntries(cat: Catalog, order: seq<string>)
    requires forall k :: k in order ==> k in cat
    requires DistinctNames(cat, order)
    ensures WaitsOf(cat, order).Keys == NamesOf(cat, order)
    ensures forall k :: k in order ==>
      cat[k].pluginName in WaitsOf(cat, order) && WaitsOf(cat, order)[cat[k].pluginName] == cat[k].dependsOn
  {
    if order != [] {
      var n := |order| - 1;
      WaitsOfEntries(cat, order[..n]);
      assert order == order[..n] + [order[n]];
    }
  }

  /** A range-for over the map visits the keys as `order` lists them. */
  ghost predicate KeyOrder(cat: Catalog, order: seq<string>) {
    Ascending(order) && forall k :: k in order <==> k in cat
  }

  /** Which promises the load chains wait on; `broken` holds the plugins that could not be loaded or
      instantiated, for which no chain is built. */
  function LoadGraph(cat: Catalog, broken: set<string>): Graph {
    Graph(set t | t in cat && t !in broken, map t | t in cat :: set d | d in cat[t].dependsOn)
  }

  /** Which promises the unload chains wait on. */
  function UnloadGraph(cat: Catalog, broken: set<string>): Graph {
    Graph(set t | t in cat && t !in broken,
          map t | t in cat :: if t in broken then {} else set q | q in cat[t].requiredBy)
  }

  /** The promises, chains and awaited promises held by the manager, as a graph. */
  function Built(promises: set<string>, chains: set<string>, waits: map<string, seq<string>>): Graph {
    Graph(chains, map p | p in promises :: if p in waits then set d | d in waits[p] else {})
  }

  /** The unload promises awaited by the plugins of `loaded`, visited from the last one to the first. */
  function UnloadWaitsOf(loaded: seq<PluginMetadata>): map<string, seq<string>> {
    if loaded == [] then map[] else UnloadWaitsOf(loaded[1..])[loaded[0].pluginName := loaded[0].requiredBy]
  }

  lemma NamesAreKeys(cat: Catalog, order: seq<string>)
    requires KeyOrder(cat, order)
    ensures NamesOf(cat, order) == ByName(cat).Keys
  {
    NamesOfMembers(cat, order);
    assert NamesOf(cat, order) == Names(cat);
  }

  lemma WaitsAreDependencies(cat: Catalog, order: seq<string>, p: string)
    requires ChecksPass(cat) && KeyOrder(cat, order) && p in ByName(cat)
    ensures p in WaitsOf(cat, order) && WaitsOf(cat, order)[p] == ByName(cat)[p].dependsOn
  {
    WaitsOfEntries(cat, order);
    var t :| t in cat && cat[t].pluginName == p;
    ByNameAt(cat, t);
  }

  /** After `startup` on any map it accepts the load chains form the `LoadGraph` of its entries by name. */
  lemma StartupBuildsLoadGraph(cat: Catalog, broken: set<string>, order: seq<string>)
    requires ChecksPass(cat) && KeyOrder(cat, order)
    ensures Built(NamesOf(cat, order), NamesOf(cat, order) - broken, WaitsOf(cat, order))
         == LoadGraph(ByName(cat), broken)
  {
    NamesAreKeys(cat, order);
    forall p | p in ByName(cat)
      ensures p in WaitsOf(cat, order) && WaitsOf(cat, order)[p] == ByName(cat)[p].dependsOn
    {
      WaitsAreDependencies(cat, order, p);
    }
    WaitsMakeLoadGraph(ByName(cat), broken, WaitsOf(cat, order));
  }

  lemma WaitsMakeLoadGraph(entries: Catalog, broken: set<string>, waits: map<string, seq<string>>)
    requires forall p :: p in entries ==> p in waits && waits[p] == entries[p].dependsOn
    ensures Built(entries.Keys, entries.Keys - broken, waits) == LoadGraph(entries, broken)
  {
  }

  /** After `shutdown` the unload chains form `UnloadGraph`. */
  lemma ShutdownBuildsUnloadGraph(cat: Catalog, broken: set<string>, order: seq<string>)
    requires ChecksPass(cat) && KeyOrder(cat, order)
    ensures var waits := UnloadWaitsOf(Instantiated(cat, order, broken));
            Built(NamesOf(cat, order), waits.Keys, waits) == UnloadGraph(ByName(cat), broken)
  {
    NamesAreKeys(cat, order);
    LoadedAreUnloaded(cat, broken, order);
    WaitsMakeUnloadGraph(ByName(cat), broken, UnloadWaitsOf(Instantiated(cat, order, broken)));
  }

  lemma WaitsMakeUnloadGraph(entries: Catalog, broken: set<string>, waits: map<string, seq<string>>)
    requires waits.Keys == UnloadGraph(entries, broken).active
    requires forall t :: t in waits ==> waits[t] == entries[t].requiredBy
    ensures Built(entries.Keys, waits.Keys, waits) == UnloadGraph(entries, broken)
  {
  }

  lemma LoadedAreUnloaded(cat: Catalog, broken: set<string>, order: seq<string>)
    requires ChecksPass(cat) && KeyOrder(cat, order)
    ensures var waits := UnloadWaitsOf(Instantiated(cat, order, broken));
            && waits.Keys == UnloadGraph(ByName(cat), broken).active
            && forall t :: t in waits ==> waits[t] == ByName(cat)[t].requiredBy
  {
    InstantiatedMembers(cat, order, broken);
    var loaded, entries := Instantiated(cat, order, broken), ByName(cat);
    forall m | m in loaded
      ensures m.pluginName in entries && m == entries[m.pluginName]
    {
      var k :| k in order && m == cat[k];
      ByNameAt(cat, k);
    }
    UnloadWaitsEntries(entries, loaded);
    forall t
      ensures t in UnloadWaitsOf(loaded) <==> t in entries && t !in broken
    {
      if t in entries && t !in broken {
        var k :| k in cat && cat[k].pluginName == t;
        ByNameAt(cat, k);
        assert k in order && cat[k] in loaded;
      } else if t in entries {
        StartedIsAccepted(cat);
      }
    }
  }

  lemma {:induction false} UnloadWaitsEntries(entries: Catalog, loaded: seq<PluginMetadata>)
    requires forall m :: m in loaded ==> m.pluginName in entries && m == entries[m.pluginName]
    ensures forall t ::
      t in UnloadWaitsOf(loaded) <==> t in entries && entries[t].pluginName == t && entries[t] in loaded
    ensures forall t :: t in UnloadWaitsOf(loaded) ==> UnloadWaitsOf(loaded)[t] == entries[t].requiredBy
  {
    if loaded != [] {
      assert loaded == [loaded[0]] + loaded[1..];
      UnloadWaitsEntries(entries, loaded[1..]);
    }
  }

  /** `shutdown` finds a promise for every requirer, whatever paths were added. */
  lemma ShutdownChecksPass(cat: Catalog, broken: set<string>, order: seq<string>)
    requires ChecksPass(cat) && KeyOrder(cat, order) && Overlaid(ByName(cat))
    ensures forall m, q :: m in Instantiated(cat, order, broken) && q in m.requiredBy ==> q in NamesOf(cat, order)
  {
    NamesOfMembers(cat, order);
    InstantiatedMembers(cat, order, broken);
    forall m, q | m in Instantiated(cat, order, broken) && q in m.requiredBy
      ensures q in NamesOf(cat, order)
    {
      var k :| k in order && m == cat[k];
      ByNameAt(cat, k);
      var entries := ByName(cat);
      assert entries[m.pluginName] == m && q in entries && entries.Keys == Names(cat);
    }
  }

  lemma AcceptedGraphsAreClosed(cat: Catalog, broken: set<string>)
    ensures Accepted(cat) ==> Closed(LoadGraph(cat, broken))
    ensures Overlaid(cat) ==> Closed(UnloadGraph(cat, broken))
  {
  }

  /** Between loaded plugins, unload chains wait along the reversed dependencies. */
  lemma UnloadGraphReversesLoadGraph(cat: Catalog, broken: set<string>)
    requires WellLinked(cat)
    ensures Closed(UnloadGraph(cat, broken)) && Closed(LoadGraph(cat, broken))
    ensures forall a, b :: b in cat && b !in broken ==>
              (a in UnloadGraph(cat, broken).waits[b] <==> a in cat && b in LoadGraph(cat, broken).waits[a])
  {
    WellLinkedIsOverlaid(cat);
  }

  lemma ChecksInOrder(cat: Catalog, order: seq<string>)
    requires KeyOrder(cat, order)
    ensures ChecksPass(cat) <==> DistinctNames(cat, order) && KnownDependencies(cat, order, NamesOf(cat, order))
  {
    NamesOfMembers(cat, order);
    assert NamesOf(cat, order) == Names(cat);
  }

  /** Whether the name of the next key was already registered decides whether names stay distinct. */
  lemma NextNameIsDistinct(cat: Catalog, order: seq<string>, i: nat)
    requires KeyOrder(cat, order) && i < |order| && DistinctNames(cat, order[..i])
    ensures NamesOf(cat, order[..i + 1]) == NamesOf(cat, order[..i]) + {cat[order[i]].pluginName}
    ensures cat[order[i]].pluginName in NamesOf(cat, order[..i]) ==> !DistinctNames(cat, order)
    ensures cat[order[i]].pluginName !in NamesOf(cat, order[..i]) ==> DistinctNames(cat, order[..i + 1])
  {
    var name := cat[order[i]].pluginName;
    NamesOfMembers(cat, order[..i]);
    assert order[..i + 1][..i] == order[..i];
    assert order[..i + 1] == order[..i] + [order[i]];
    if name in NamesOf(cat, order[..i]) {
      var k :| k in order[..i] && cat[k].pluginName == name;
      BeforeIsIrreflexive(k);
      assert k in order && order[i] in order && k != order[i];
    } else {
      forall k | k in order[..i]
        ensures cat[k].pluginName != name
      {
        assert cat[k].pluginName in NamesOf(cat, order[..i]);
      }
    }
  }

  /** The key that registered the name of key `i` before it. */
  lemma NameTakenBy(cat: Catalog, order: seq<string>, i: nat) returns (k: string)
    requires KeyOrder(cat, order) && i < |order| && cat[order[i]].pluginName in NamesOf(cat, order[..i])
    ensures k in order && k != order[i] && cat[k].pluginName == cat[order[i]].pluginName
  {
    NamesOfMembers(cat, order[..i]);
    k :| k in order[..i] && cat[k].pluginName == cat[order[i]].pluginName;
    BeforeIsIrreflexive(k);
  }

  ghost predicate SharedName(cat: Catalog, name: string) {
    exists s, t :: s in cat && t in cat && s != t && cat[s].pluginName == name && cat[t].pluginName == name
  }

  ghost predicate DependsOnMissing(cat: Catalog, plugin: string, dependency: string, names: set<string>) {
    dependency !in names && exists t :: t in cat && cat[t].pluginName == plugin && dependency in cat[t].dependsOn
  }

  /** What each error of `startup` says about the final map. */
  ghost predicate Explains(error: StartupError, cat: Catalog, extraPaths: seq<string>, files: set<string>) {
    match error
    case NoSuchFile(path) => path in extraPaths && (path == "" || path !in files)
    case LoadedTwice(name) => SharedName(cat, name)
    case UnknownDependency(plugin, dependency) => DependsOnMissing(cat, plugin, dependency, Names(cat))
    case UnknownRequirer(_, _) => false
  }

  predicate PathsExist(extraPaths: seq<string>, files: set<string>) {
    forall j :: 0 <= j < |extraPaths| ==> extraPaths[j] != "" && extraPaths[j] in files
  }

  lemma OverlayOneMore(config: Catalog, extraPaths: seq<string>, i: nat)
    requires i < |extraPaths|
    ensures Overlay(config, extraPaths[..i + 1])
         == Overlay(config, extraPaths[..i])[extraPaths[i] := PluginMetadata(extraPaths[i], [], [])]
  {
    assert extraPaths[..i + 1] == extraPaths[..i] + [extraPaths[i]];
  }

  /** What visiting one more entry adds. */
  lemma OneMoreEntry(cat: Catalog, order: seq<string>, i: nat, broken: set<string>)
    requires i < |order| && forall k :: k in order ==> k in cat
    ensures var meta := cat[order[i]];
            && NamesOf(cat, order[..i + 1]) == NamesOf(cat, order[..i]) + {meta.pluginName}
            && WaitsOf(cat, order[..i + 1]) == WaitsOf(cat, order[..i])[meta.pluginName := meta.dependsOn]
            && Instantiated(cat, order[..i + 1], broken)
               == Instantiated(cat, order[..i], broken) + if meta.pluginName in broken then [] else [meta]
  {
    assert order[..i + 1][..i] == order[..i];
  }

  lemma NextDependenciesKnown(cat: Catalog, order: seq<string>, i: nat, names: set<string>)
    requires i < |order| && order[i] in cat
    ensures KnownDependencies(cat, order[..i + 1], names) <==>
              KnownDependencies(cat, order[..i], names) && forall d :: d in cat[order[i]].dependsOn ==> d in names
    ensures KnownDependencies(cat, order, names) ==> KnownDependencies(cat, order[..i + 1], names)
  {
    assert order[..i + 1] == order[..i] + [order[i]];
  }

  method AddExtraPaths(config: Catalog, extraPaths: seq<string>, files: set<string>)
    returns (r: Result<Catalog, StartupError>)
    ensures r.Success? <==> PathsExist(extraPaths, files)
    ensures r.Success? ==> r.value == Overlay(config, extraPaths)
    ensures r.Failure? ==>
      r.error.NoSuchFile? && r.error.path in extraPaths && (r.error.path == "" || r.error.path !in files)
  {
    var cat := config;
    for i := 0 to |extraPaths|
      invariant cat == Overlay(config, extraPaths[..i])
      invariant forall j :: 0 <= j < i ==> extraPaths[j] != "" && extraPaths[j] in files
    {
      var path := extraPaths[i];
      if path == "" || path !in files {
        return Failure(NoSuchFile(path));
      }
      OverlayOneMore(config, extraPaths, i);
      cat := cat[path := PluginMetadata(path, [], [])];
    }
    assert extraPaths[..|extraPaths|] == extraPaths;
    return Success(cat);
  }

  /** Folds the promises of `names` into one; a name without a promise fails the `CHECK`. */
  method AwaitAll(names: seq<string>, promises: set<string>) returns (r: Result<seq<string>, string>)
    ensures r.Success? <==> forall d :: d in names ==> d in promises
    ensures r.Success? ==> r.value == names
    ensures r.Failure? ==> r.error in names && r.error !in promises
  {
    var awaited: seq<string> := [];
    for j := 0 to |names|
      invariant awaited == names[..j]
      invariant forall d :: d in awaited ==> d in promises
    {
      if names[j] !in promises {
        return Failure(names[j]);
      }
      awaited := awaited + [names[j]];
    }
    return Success(awaited);
  }

  class PluginManager {
    var initialized: bool
    var loadPromises: set<string>
    var unloadPromises: set<string>
    var loadCount: map<string, nat>
    var unloadCount: map<string, nat>
    var loadWaits: map<string, seq<string>>
    var unloadWaits: map<string, seq<string>>
    var loadChains: set<string>
    var unloadChains: set<string>
    var loadedPlugins: seq<PluginMetadata>

    constructor ()
      ensures Untouched()
    {
      initialized := false;
      loadPromises, unloadPromises, loadChains, unloadChains := {}, {}, {}, {};
      loadCount, unloadCount, loadWaits, unloadWaits := map[], map[], map[], map[];
      loadedPlugins := [];
    }

    ghost predicate Untouched()
      reads this
    {
      && !initialized
      && loadPromises == {} == unloadPromises && loadChains == {} == unloadChains
      && loadCount == map[] == unloadCount && loadWaits == map[] == unloadWaits
      && loadedPlugins == []
    }

    /** What a successful `startup` leaves behind. */
    ghost predicate StartedWith(cat: Catalog, broken: set<string>)
      reads this
    {
      initialized && exists order :: StartedInOrder(cat, broken, order)
    }

    ghost predicate StartedInOrder(cat: Catalog, broken: set<string>, order: seq<string>)
      reads this
    {
      && KeyOrder(cat, order)
      && loadPromises == NamesOf(cat, order) && unloadPromises == loadPromises
      && loadCount == Zeros(loadPromises) && unloadCount == loadCount
      && loadChains == NamesOf(cat, order) - broken
      && loadWaits == WaitsOf(cat, order)
      && loadedPlugins == Instantiated(cat, order, broken)
    }

    /** `files` are the paths that exist. A failed `CHECK` ends the process, so nothing is promised
        about the fields then. */
    method Startup(config: Catalog, extraPaths: seq<string>, files: set<string>, broken: set<string>)
      returns (r: Result<(), StartupError>)
      requires Untouched()
      modifies this
      ensures r.Success? <==> PathsExist(extraPaths, files) && ChecksPass(Overlay(config, extraPaths))
      ensures r.Success? ==> StartedWith(Overlay(config, extraPaths), broken)
      ensures r.Failure? ==> Explains(r.error, Overlay(config, extraPaths), extraPaths, files)
      ensures unloadChains == {} && unloadWaits == map[]
    {
      var paths := AddExtraPaths(config, extraPaths, files);
      if paths.Failure? {
        return Failure(paths.error);
      }
      r := StartPlugins(paths.value, broken);
    }

    method StartPlugins(cat: Catalog, broken: set<string>) returns (r: Result<(), StartupError>)
      requires Untouched()
      modifies this
      ensures r.Success? <==> ChecksPass(cat)
      ensures r.Success? ==> StartedWith(cat, broken)
      ensures r.Failure? && r.error.LoadedTwice? ==> SharedName(cat, r.error.name)
      ensures r.Failure? && r.error.UnknownDependency? ==>
        DependsOnMissing(cat, r.error.plugin, r.error.dependency, Names(cat))
      ensures r.Failure? ==> r.error.LoadedTwice? || r.error.UnknownDependency?
      ensures unloadChains == {} && unloadWaits == map[]
    {
      var order := KeysInOrder(cat.Keys);
      ChecksInOrder(cat, order);
      NamesOfMembers(cat, order);
      assert NamesOf(cat, order) == Names(cat);
      r := RegisterPromises(cat, order);
      if r.Success? {
        r := WireLoading(cat, order, broken);
        assert r.Success? ==> StartedInOrder(cat, broken, order);
      }
    }

    /** The loop that gives every entry its resolvers, promises and counters. */
    method RegisterPromises(cat: Catalog, order: seq<string>) returns (r: Result<(), StartupError>)
      requires KeyOrder(cat, order)
      requires loadPromises == {} && unloadPromises == {} && loadCount == map[] && unloadCount == map[]
      modifies this`loadPromises, this`unloadPromises, this`loadCount, this`unloadCount
      ensures r.Success? <==> DistinctNames(cat, order)
      ensures r.Failure? ==> r.error.LoadedTwice? && SharedName(cat, r.error.name)
      ensures r.Success? ==> loadPromises == NamesOf(cat, order) && unloadPromises == loadPromises
      ensures r.Success? ==> loadCount == Zeros(loadPromises) && unloadCount == loadCount
    {
      for i := 0 to |order|
        invariant loadPromises == NamesOf(cat, order[..i])
        invariant unloadPromises == loadPromises
        invariant loadCount == Zeros(loadPromises)
        invariant unloadCount == loadCount
        invariant DistinctNames(cat, order[..i])
      {
        var name := cat[order[i]].pluginName;
        NextNameIsDistinct(cat, order, i);
        if name in loadPromises {
          ghost var k := NameTakenBy(cat, order, i);
          return Failure(LoadedTwice(name));
        }
        OneMoreZero(loadPromises, name);
        loadPromises := loadPromises + {name};
        unloadPromises := unloadPromises + {name};
        loadCount := loadCount[name := 0];
        unloadCount := unloadCount[name := 0];
      }
      assert order[..|order|] == order;
      return Success(());
    }

    /** Folds the promises of the dependencies of one plugin and, if it could be instantiated, appends
        its load chain. */
    method WirePlugin(meta: PluginMetadata, broken: set<string>) returns (r: Result<(), StartupError>)
      modifies this`loadWaits, this`loadChains, this`loadedPlugins
      ensures r.Success? <==> forall d :: d in meta.dependsOn ==> d in loadPromises
      ensures r.Failure? ==> r.error.UnknownDependency? && r.error.plugin == meta.pluginName
      ensures r.Failure? ==> r.error.dependency in meta.dependsOn && r.error.dependency !in loadPromises
      ensures r.Success? ==> loadWaits == old(loadWaits)[meta.pluginName := meta.dependsOn]
      ensures r.Success? ==> loadChains == old(loadChains) + ({meta.pluginName} - broken)
      ensures r.Success? ==> loadedPlugins == old(loadedPlugins) + if meta.pluginName in broken then [] else [meta]
    {
      var name := meta.pluginName;
      var awaited := AwaitAll(meta.dependsOn, loadPromises);
      if awaited.Failure? {
        return Failure(UnknownDependency(name, awaited.error));
      }
      loadWaits := loadWaits[name := awaited.value];
      if name !in broken {
        loadChains := loadChains + {name};
        loadedPlugins := loadedPlugins + [meta];
      }
      return Success(());
    }

    /** The loop over all entries. */
    method WireLoading(cat: Catalog, order: seq<string>, broken: set<string>) returns (r: Result<(), StartupError>)
      requires KeyOrder(cat, order)
      requires !initialized && loadWaits == map[] && loadChains == {} && loadedPlugins == []
      modifies this`loadWaits, this`loadChains, this`loadedPlugins, this`initialized
      ensures r.Success? <==> KnownDependencies(cat, order, loadPromises)
      ensures r.Failure? ==>
        r.error.UnknownDependency? && DependsOnMissing(cat, r.error.plugin, r.error.dependency, loadPromises)
      ensures r.Success? ==> initialized && loadWaits == WaitsOf(cat, order)
      ensures r.Success? ==> loadChains == NamesOf(cat, order) - broken
      ensures r.Success? ==> loadedPlugins == Instantiated(cat, order, broken)
    {
      for i := 0 to |order|
        invariant loadWaits == WaitsOf(cat, order[..i])
        invariant loadChains == NamesOf(cat, order[..i]) - broken
        invariant loadedPlugins == Instantiated(cat, order[..i], broken)
        invariant KnownDependencies(cat, order[..i], loadPromises)
      {
        NextDependenciesKnown(cat, order, i, loadPromises);
        OneMoreEntry(cat, order, i, broken);
        r := WirePlugin(cat[order[i]], broken);
        if r.Failure? {
          return;
        }
      }
      assert order[..|order|] == order;
      initialized := true;
      return Success(());
    }

    /** `shutdown` visits the loaded plugins backwards and makes each unload chain wait on the
        unload promises of the plugins that require it. */
    method Shutdown() returns (r: Result<(), StartupError>)
      requires unloadChains == {} && unloadWaits == map[]
      modifies this`unloadWaits, this`unloadChains
      ensures r.Success? <==> forall m, q :: m in loadedPlugins && q in m.requiredBy ==> q in unloadPromises
      ensures r.Failure? ==> r.error.UnknownRequirer? && r.error.requirer !in unloadPromises
      ensures r.Failure? ==>
        exists m :: m in loadedPlugins && m.pluginName == r.error.plugin && r.error.requirer in m.requiredBy
      ensures r.Success? ==> unloadWaits == UnloadWaitsOf(loadedPlugins) && unloadChains == unloadWaits.Keys
    {
      var n := |loadedPlugins|;
      for i := n downto 0
        invariant unloadWaits == UnloadWaitsOf(loadedPlugins[i..]) && unloadChains == unloadWaits.Keys
        invariant forall m, q :: m in loadedPlugins[i..] && q in m.requiredBy ==> q in unloadPromises
      {
        var meta := loadedPlugins[i];
        var awaited := AwaitAll(meta.requiredBy, unloadPromises);
        if awaited.Failure? {
          assert meta in loadedPlugins;
          return Failure(UnknownRequirer(meta.pluginName, awaited.error));
        }
        assert loadedPlugins[i..][1..] == loadedPlugins[i + 1..];
        assert loadedPlugins[i..] == [meta] + loadedPlugins[i + 1..];
        unloadWaits := unloadWaits[meta.pluginName := awaited.value];
        unloadChains := unloadChains + {meta.pluginName};
      }
      return Success(());
    }

    method OnLoaded(name: string)
      modifies this`loadCount
      ensures loadCount == Bumped(old(loadCount), name)
    {
      var count := if name in loadCount then loadCount[name] else 0;
      loadCount := loadCount[name := count + 1];
    }

    method OnUnloaded(name: string)
      modifies this`unloadCount
      ensures unloadCount == Bumped(old(unloadCount), name)
    {
      var count := if name in unloadCount then unloadCount[name] else 0;
      unloadCount := unloadCount[name := count + 1];
    }
  }
}
