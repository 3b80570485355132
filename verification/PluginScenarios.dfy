/** Which runs of the plugin manager there are: when unloading nests in all of them, and runs in which
    it does not or in which shutdown hangs. */
module PluginScenarios {
  import opened Wrappers
  import opened PluginCatalog
  import opened PluginLinks
  import opened PluginManagement
  import opened PluginLifetimes
  import PG = PromiseGraph

  // ---------------------------------------------------------------------------------------------
  // Complete runs exist.

  ghost function Loads(es: seq<PG.Event>): seq<Event> {
    seq(|es|, i requires 0 <= i < |es| => Load(es[i]))
  }

  ghost function Unloads(es: seq<PG.Event>): seq<Event> {
    seq(|es|, i requires 0 <= i < |es| => Unload(es[i]))
  }

  lemma {:induction false} LoadsAreARun(cat: Catalog, broken: set<string>, es: seq<PG.Event>)
    requires PG.IsRun(LoadGraph(cat, broken), es)
    ensures After(cat, broken, Loads(es)) == Some(State(PG.After(LoadGraph(cat, broken), es).value, None))
  {
    if es != [] {
      var n := |es| - 1;
      LoadsAreARun(cat, broken, es[..n]);
      assert Loads(es)[..n] == Loads(es[..n]);
    }
  }

  lemma {:induction false} UnloadsContinue(cat: Catalog, broken: set<string>, run: seq<Event>, es: seq<PG.Event>)
    requires IsRun(cat, broken, run)
    requires After(cat, broken, run).value.unload == Some(PG.Init(UnloadGraph(cat, broken)))
    requires PG.IsRun(UnloadGraph(cat, broken), es)
    ensures IsRun(cat, broken, run + Unloads(es))
    ensures After(cat, broken, run + Unloads(es)).value.unload == PG.After(UnloadGraph(cat, broken), es)
  {
    var all := run + Unloads(es);
    if es == [] {
      assert all == run;
    } else {
      var n := |es| - 1;
      UnloadsContinue(cat, broken, run, es[..n]);
      assert Unloads(es)[..n] == Unloads(es[..n]);
      assert all[..|all| - 1] == run + Unloads(es[..n]);
    }
  }

  /** If every plugin with a chain can load, some run loads them all. */
  lemma CompleteLoad(cat: Catalog, broken: set<string>) returns (run: seq<Event>)
    requires Accepted(cat) && AllLoadable(cat, broken)
    ensures IsRun(cat, broken, run) && StartupResolved(cat, broken, run)
    ensures BeginShutdown !in run && forall u :: Unload(u) !in run
  {
    var g := LoadGraph(cat, broken);
    AcceptedGraphsAreClosed(cat, broken);
    var full := PG.RunsCanGetStuck(g, []);
    PG.StuckFinishedExactlySound(g, full);
    LoadsAreARun(cat, broken, full);
    run := Loads(full);
    forall p | p in cat && p !in broken
      ensures Load(PG.Report(p)) in run
    {
      assert PG.Report(p) in full;
      var i :| 0 <= i < |full| && full[i] == PG.Report(p);
      assert run[i] == Load(PG.Report(p));
    }
  }

  lemma ShutdownIsOrderly(cat: Catalog, broken: set<string>, loads: seq<Event>, more: seq<Event>)
    requires StartupResolved(cat, broken, loads) && BeginShutdown !in loads && BeginShutdown !in more
    ensures Orderly(cat, broken, loads + [BeginShutdown] + more)
  {
    var run := loads + [BeginShutdown] + more;
    assert forall k :: 0 <= k < |loads| ==> run[k] == loads[k];
    assert forall k :: |loads| < k < |run| ==> run[k] == more[k - |loads| - 1];
    forall i | 0 <= i < |run| && run[i] == BeginShutdown
      ensures StartupResolved(cat, broken, run[..i])
    {
      assert run[..i] == loads;
    }
  }

  /** Then some orderly run goes on until unloading can go no further. */
  lemma CompleteUnload(cat: Catalog, broken: set<string>) returns (run: seq<Event>)
    requires Overlaid(cat) && AllLoadable(cat, broken)
    ensures IsRun(cat, broken, run) && Orderly(cat, broken, run) && BeginShutdown in run
    ensures UnloadingStuck(cat, broken, After(cat, broken, run).value)
  {
    var g := UnloadGraph(cat, broken);
    var loads := CompleteLoad(cat, broken);
    Projections(cat, broken, loads);
    var begun := loads + [BeginShutdown];
    assert begun[..|loads|] == loads && begun[|loads|] == BeginShutdown;
    var full := PG.RunsCanGetStuck(g, []);
    UnloadsContinue(cat, broken, begun, full);
    run := begun + Unloads(full);
    ShutdownIsOrderly(cat, broken, loads, Unloads(full));
    forall e
      ensures !Enabled(cat, broken, After(cat, broken, run).value, Unload(e))
    {
      assert !PG.Enabled(g, PG.After(g, full).value, e);
    }
  }

  // ---------------------------------------------------------------------------------------------
  // When unloading nests.

  /** In every orderly run a loadable plugin is unloaded before what it depends on starts unloading. */
  ghost predicate UnloadingNests(cat: Catalog, broken: set<string>) {
    forall run: seq<Event>, a, b ::
      IsRun(cat, broken, run) && Orderly(cat, broken, run)
      && a in cat && a !in broken && PG.WaitsOn(LoadGraph(cat, broken), a, b)
      ==> Precedes(run, Unload(PG.Finish(a)), Unload(PG.Start(b)))
  }

  /** A dependency that nobody is recorded as requiring may start unloading first. */
  lemma UnrecordedUnloadsFirst(cat: Catalog, broken: set<string>, a: string, b: string) returns (run: seq<Event>)
    requires Accepted(cat) && AllLoadable(cat, broken)
    requires a in cat && a !in broken && b in cat[a].dependsOn && cat[b].requiredBy == []
    ensures IsRun(cat, broken, run) && Orderly(cat, broken, run)
    ensures PG.WaitsOn(LoadGraph(cat, broken), a, b)
    ensures !Precedes(run, Unload(PG.Finish(a)), Unload(PG.Start(b)))
  {
    var g := LoadGraph(cat, broken);
    assert PG.PathFromTo(g, [a, b], a, b);
    assert PG.WaitsOn(g, a, b);
    assert PG.ReachesOrIs(g, a, b);
    var loads := CompleteLoad(cat, broken);
    run := loads + [BeginShutdown, Unload(PG.Start(b))];
    UnloadsFirst(cat, broken, loads, a, b);
  }

  lemma UnloadsFirst(cat: Catalog, broken: set<string>, loads: seq<Event>, a: string, b: string)
    requires IsRun(cat, broken, loads) && StartupResolved(cat, broken, loads)
    requires BeginShutdown !in loads && Unload(PG.Finish(a)) !in loads
    requires b in cat && b !in broken && cat[b].requiredBy == []
    ensures var run := loads + [BeginShutdown, Unload(PG.Start(b))];
            && IsRun(cat, broken, run) && Orderly(cat, broken, run)
            && !Precedes(run, Unload(PG.Finish(a)), Unload(PG.Start(b)))
  {
    BeginUnloading(cat, broken, loads, b);
    var run := loads + [BeginShutdown, Unload(PG.Start(b))];
    assert run == loads + [BeginShutdown] + [Unload(PG.Start(b))];
    ShutdownIsOrderly(cat, broken, loads, [Unload(PG.Start(b))]);
    assert run[|loads| + 1] == Unload(PG.Start(b)) && run[..|loads| + 1] == loads + [BeginShutdown];
  }

  lemma UnresolvedNeverUnloads(cat: Catalog, broken: set<string>, run: seq<Event>, p: string, j: nat)
    requires Accepted(cat) && IsRun(cat, broken, run) && Orderly(cat, broken, run)
    requires p in cat && p !in broken && !PG.Sound(LoadGraph(cat, broken), p)
    ensures j < |run| ==> !run[j].Unload?
  {
    if j < |run| && run[j].Unload? {
      StartupResolvedBefore(cat, broken, run, j);
      ResolvedMeansLoadable(cat, broken, run[..j]);
    }
  }

  /** Unloading nests in every orderly run exactly when startup can never resolve, or the dependencies of
      loadable plugins are recorded in the other direction. */
  lemma NestsExactlyWhen(cat: Catalog, broken: set<string>)
    requires Overlaid(cat)
    ensures UnloadingNests(cat, broken) <==> !AllLoadable(cat, broken) || Recorded(cat, broken)
  {
    if UnloadingNests(cat, broken) && AllLoadable(cat, broken) {
      forall a, b | a in cat && a !in broken && b in cat[a].dependsOn
        ensures a in cat[b].requiredBy
      {
        if a !in cat[b].requiredBy {
          var run := UnrecordedUnloadsFirst(cat, broken, a, b);
        }
      }
    }
    if !AllLoadable(cat, broken) || Recorded(cat, broken) {
      forall run: seq<Event>, a, b | IsRun(cat, broken, run) && Orderly(cat, broken, run)
                         && a in cat && a !in broken && PG.WaitsOn(LoadGraph(cat, broken), a, b)
        ensures Precedes(run, Unload(PG.Finish(a)), Unload(PG.Start(b)))
      {
        if Recorded(cat, broken) {
          UnloadsNest(cat, broken, run, a, b);
        } else {
          var p :| p in cat && p !in broken && !PG.Sound(LoadGraph(cat, broken), p);
          forall j | 0 <= j < |run|
            ensures !run[j].Unload?
          {
            UnresolvedNeverUnloads(cat, broken, run, p, j);
          }
        }
      }
    }
  }

  /** In terms of sections and paths: no loadable plugin may depend on one given by path. */
  lemma StartedNestsExactlyWhen(config: Catalog, linked: Catalog, extraPaths: seq<string>, broken: set<string>)
    requires NamedByKey(config) && ExactTranspose(config, linked) && "" !in extraPaths
    requires ChecksPass(Overlay(linked, extraPaths))
    ensures var cat := ByName(Overlay(linked, extraPaths));
            UnloadingNests(cat, broken) <==>
              !AllLoadable(cat, broken)
              || forall a, b :: a in cat && a !in broken && b in cat[a].dependsOn ==> b !in extraPaths
  {
    StartedIsOverlaid(config, linked, extraPaths);
    var cat := EdgesRecordedUnlessReplaced(config, linked, extraPaths);
    NestsExactlyWhen(cat, broken);
    RecordedMeansKept(cat, extraPaths, broken);
  }

  lemma RecordedMeansKept(cat: Catalog, extraPaths: seq<string>, broken: set<string>)
    requires forall a, b :: a in cat && b in cat[a].dependsOn ==> b in cat && (a in cat[b].requiredBy <==> b !in extraPaths)
    ensures Recorded(cat, broken) <==>
      forall a, b :: a in cat && a !in broken && b in cat[a].dependsOn ==> b !in extraPaths
  {
  }

  lemma EdgesRecordedUnlessReplaced(config: Catalog, linked: Catalog, extraPaths: seq<string>) returns (cat: Catalog)
    requires NamedByKey(config) && ExactTranspose(config, linked) && "" !in extraPaths
    requires ChecksPass(Overlay(linked, extraPaths))
    ensures cat == ByName(Overlay(linked, extraPaths))
    ensures forall a, b :: a in cat && b in cat[a].dependsOn ==> b in cat && (a in cat[b].requiredBy <==> b !in extraPaths)
  {
    cat := ByName(Overlay(linked, extraPaths));
    StartedIsAccepted(Overlay(linked, extraPaths));
    forall a, b | a in cat && b in cat[a].dependsOn
      ensures b in cat && (a in cat[b].requiredBy <==> b !in extraPaths)
    {
      RecordedUnlessReplaced(config, linked, extraPaths, a, b);
    }
  }

  lemma RecordedUnlessReplaced(config: Catalog, linked: Catalog, extraPaths: seq<string>, a: string, b: string)
    requires NamedByKey(config) && ExactTranspose(config, linked) && "" !in extraPaths
    requires ChecksPass(Overlay(linked, extraPaths))
    requires var cat := ByName(Overlay(linked, extraPaths)); a in cat && b in cat[a].dependsOn && b in cat
    ensures a in ByName(Overlay(linked, extraPaths))[b].requiredBy <==> b !in extraPaths
  {
    StartedEntries(config, linked, extraPaths, a);
    StartedEntries(config, linked, extraPaths, b);
    if b !in config && b !in extraPaths {
      ChecksPassExactlyWhen(config, linked, extraPaths);
      var t := NamelessEntry(config, linked, extraPaths);
      assert b in Missing(config, extraPaths);
    }
  }

  // ---------------------------------------------------------------------------------------------
  // Runs in which it does not nest, or shutdown hangs.

  /** Two sections, of which the first depends on the second; and the same with `requiredBy` filled in. */
  function Sections(a: string, b: string): Catalog {
    map[a := PluginMetadata(a, [b], []), b := PluginMetadata(b, [], [])]
  }

  function LinkedSections(a: string, b: string): Catalog {
    map[a := PluginMetadata(a, [b], []), b := PluginMetadata(b, [], [a])]
  }

  lemma SectionsTranspose(a: string, b: string, x: string, y: string)
    requires a != b
    ensures Dependencies(Sections(a, b), x, y) == if x == a && y == b then 1 else 0
    ensures Dependencies(LinkedSections(a, b), x, y) == if x == a && y == b then 1 else 0
    ensures Requirers(LinkedSections(a, b), y, x) == if x == a && y == b then 1 else 0
  {
  }

  lemma SectionsAreLinked(a: string, b: string)
    requires a != b
    ensures NamedByKey(Sections(a, b)) && ExactTranspose(Sections(a, b), LinkedSections(a, b))
  {
    var config, linked := Sections(a, b), LinkedSections(a, b);
    forall x, y
      ensures Requirers(linked, y, x) == Dependencies(config, x, y)
    {
      SectionsTranspose(a, b, x, y);
    }
  }

  lemma SectionsAreWellLinked(a: string, b: string)
    requires a != b
    ensures WellLinked(LinkedSections(a, b))
  {
    var linked := LinkedSections(a, b);
    forall x, y | y in linked
      ensures multiset(linked[y].requiredBy)[x] == Dependencies(linked, x, y)
    {
      SectionsTranspose(a, b, x, y);
    }
  }

  lemma ReplacedSection(a: string, b: string)
    requires a != b
    ensures Overlay(LinkedSections(a, b), [b]) == Sections(a, b)
    ensures ChecksPass(Sections(a, b)) && ByName(Sections(a, b)) == Sections(a, b)
  {
    assert Overlay(LinkedSections(a, b), [b]) == Sections(a, b);
    AcceptedIsByName(Sections(a, b));
  }

  lemma Extend(cat: Catalog, broken: set<string>, run: seq<Event>, s: State, e: Event)
    returns (longer: seq<Event>, next: State)
    requires After(cat, broken, run) == Some(s) && Enabled(cat, broken, s, e)
    ensures longer == run + [e] && After(cat, broken, longer) == Some(next) && next == Apply(cat, broken, s, e)
  {
    longer, next := run + [e], Apply(cat, broken, s, e);
    assert longer[..|run|] == run;
  }

  lemma BothLoad(a: string, b: string) returns (run: seq<Event>, s: State)
    requires a != b
    ensures After(Sections(a, b), {}, run) == Some(s)
    ensures run == [Load(PG.Start(b)), Load(PG.Finish(b)), Load(PG.Start(a)), Load(PG.Finish(a)),
                    Load(PG.Report(b)), Load(PG.Report(a))]
  {
    var cat := Sections(a, b);
    s := State(PG.Init(LoadGraph(cat, {})), None);
    run, s := Extend(cat, {}, [], s, Load(PG.Start(b)));
    run, s := Extend(cat, {}, run, s, Load(PG.Finish(b)));
    run, s := Extend(cat, {}, run, s, Load(PG.Start(a)));
    run, s := Extend(cat, {}, run, s, Load(PG.Finish(a)));
    run, s := Extend(cat, {}, run, s, Load(PG.Report(b)));
    run, s := Extend(cat, {}, run, s, Load(PG.Report(a)));
  }

  lemma FirstUnloads(a: string, b: string) returns (run: seq<Event>)
    requires a != b
    ensures IsRun(Sections(a, b), {}, run) && Orderly(Sections(a, b), {}, run)
    ensures !Precedes(run, Unload(PG.Finish(a)), Unload(PG.Start(b)))
    ensures run == [Load(PG.Start(b)), Load(PG.Finish(b)), Load(PG.Start(a)), Load(PG.Finish(a)),
                    Load(PG.Report(b)), Load(PG.Report(a)), BeginShutdown, Unload(PG.Start(b))]
  {
    var cat := Sections(a, b);
    var loads, s := BothLoad(a, b);
    assert StartupResolved(cat, {}, loads) by {
      assert loads[4] == Load(PG.Report(b)) && loads[5] == Load(PG.Report(a));
    }
    UnloadsFirst(cat, {}, loads, a, b);
    run := loads + [BeginShutdown, Unload(PG.Start(b))];
  }

  /** `a` depends on `b`, and `b` is also given by path: in this orderly run `b` starts unloading while
      `a` is loaded. */
  lemma ReplacedDependencyUnloadsFirst(a: string, b: string) returns (run: seq<Event>)
    requires a != b
    ensures NamedByKey(Sections(a, b)) && ExactTranspose(Sections(a, b), LinkedSections(a, b))
    ensures WellLinked(LinkedSections(a, b)) && ChecksPass(Overlay(LinkedSections(a, b), [b]))
    ensures var cat := ByName(Overlay(LinkedSections(a, b), [b]));
            && PG.WaitsOn(LoadGraph(cat, {}), a, b)
            && IsRun(cat, {}, run) && Orderly(cat, {}, run)
            && !Precedes(run, Unload(PG.Finish(a)), Unload(PG.Start(b)))
  {
    SectionsAreLinked(a, b);
    SectionsAreWellLinked(a, b);
    ReplacedSection(a, b);
    FirstWaitsOnSecond(a, b);
    run := FirstUnloads(a, b);
  }

  lemma FirstWaitsOnSecond(a: string, b: string)
    requires a != b
    ensures PG.WaitsOn(LoadGraph(Sections(a, b), {}), a, b)
  {
    assert PG.PathFromTo(LoadGraph(Sections(a, b), {}), [a, b], a, b);
  }

  lemma OneLoads(q: string, d: string) returns (loads: seq<Event>, s: State)
    requires q != d
    ensures After(LinkedSections(q, d), {q}, loads) == Some(s) && s.unload.None?
    ensures loads == [Load(PG.Start(d)), Load(PG.Finish(d)), Load(PG.Report(d))]
  {
    var cat := LinkedSections(q, d);
    s := State(PG.Init(LoadGraph(cat, {q})), None);
    loads, s := Extend(cat, {q}, [], s, Load(PG.Start(d)));
    loads, s := Extend(cat, {q}, loads, s, Load(PG.Finish(d)));
    loads, s := Extend(cat, {q}, loads, s, Load(PG.Report(d)));
  }

  lemma NothingUnloads(q: string, d: string, s: State)
    requires q != d && s.unload == Some(PG.Init(UnloadGraph(LinkedSections(q, d), {q})))
    ensures UnloadingStuck(LinkedSections(q, d), {q}, s)
  {
    var g := UnloadGraph(LinkedSections(q, d), {q});
    assert q in g.waits[d] && g.active == {d};
  }

  /** `q` depends on `d` and cannot be instantiated: startup resolves, and shutdown can do nothing. */
  lemma BrokenRequirerHangsShutdown(q: string, d: string) returns (run: seq<Event>)
    requires q != d
    ensures NamedByKey(Sections(q, d)) && ExactTranspose(Sections(q, d), LinkedSections(q, d))
    ensures WellLinked(LinkedSections(q, d))
    ensures var cat := LinkedSections(q, d);
            && IsRun(cat, {q}, run) && Orderly(cat, {q}, run) && BeginShutdown in run
            && UnloadingStuck(cat, {q}, After(cat, {q}, run).value) && !ShutdownResolved(cat, {q}, run)
    ensures run == [Load(PG.Start(d)), Load(PG.Finish(d)), Load(PG.Report(d)), BeginShutdown]
  {
    SectionsAreLinked(q, d);
    SectionsAreWellLinked(q, d);
    run := HangingShutdown(q, d);
  }

  lemma HangingShutdown(q: string, d: string) returns (run: seq<Event>)
    requires q != d
    ensures var cat := LinkedSections(q, d);
            && IsRun(cat, {q}, run) && Orderly(cat, {q}, run) && BeginShutdown in run
            && UnloadingStuck(cat, {q}, After(cat, {q}, run).value) && !ShutdownResolved(cat, {q}, run)
    ensures run == [Load(PG.Start(d)), Load(PG.Finish(d)), Load(PG.Report(d)), BeginShutdown]
  {
    var cat := LinkedSections(q, d);
    var loads, s := OneLoads(q, d);
    assert StartupResolved(cat, {q}, loads) by {
      assert loads[2] == Load(PG.Report(d));
    }
    run, s := Extend(cat, {q}, loads, s, BeginShutdown);
    NothingUnloads(q, d, s);
    assert run == loads + [BeginShutdown] + [] && run[3] == BeginShutdown;
    ShutdownIsOrderly(cat, {q}, loads, []);
    assert d in cat && Unload(PG.Report(d)) !in run;
  }

  /** In general: whenever startup can resolve although a broken plugin requires a loadable one, some
      orderly run hangs in shutdown. */
  lemma ShutdownMayHang(cat: Catalog, broken: set<string>) returns (run: seq<Event>)
    requires Overlaid(cat) && AllLoadable(cat, broken) && !NoBrokenRequirer(cat, broken)
    ensures IsRun(cat, broken, run) && Orderly(cat, broken, run) && BeginShutdown in run
    ensures UnloadingStuck(cat, broken, After(cat, broken, run).value) && !ShutdownResolved(cat, broken, run)
  {
    run := CompleteUnload(cat, broken);
    ShutdownResolvesExactlyWhen(cat, broken, run);
  }
}
