/** Whole runs of the plugin manager: loading after `startup`, then unloading after `shutdown`. */
module PluginLifetimes {
  import opened Wrappers
  import opened PluginCatalog
  import opened PluginLinks
  import opened PluginManagement
  import PG = PromiseGraph

  datatype Event = Load(e: PG.Event) | BeginShutdown | Unload(u: PG.Event)

  datatype State = State(load: PG.State, unload: Option<PG.State>)

  predicate Enabled(cat: Catalog, broken: set<string>, s: State, e: Event) {
    match e
    case Load(x) => PG.Enabled(LoadGraph(cat, broken), s.load, x)
    case BeginShutdown => s.unload.None?
    case Unload(x) => s.unload.Some? && PG.Enabled(UnloadGraph(cat, broken), s.unload.value, x)
  }

  function Apply(cat: Catalog, broken: set<string>, s: State, e: Event): State
    requires Enabled(cat, broken, s, e)
  {
    match e
    case Load(x) => s.(load := PG.Apply(LoadGraph(cat, broken), s.load, x))
    case BeginShutdown => s.(unload := Some(PG.Init(UnloadGraph(cat, broken))))
    case Unload(x) => s.(unload := Some(PG.Apply(UnloadGraph(cat, broken), s.unload.value, x)))
  }

  ghost function After(cat: Catalog, broken: set<string>, run: seq<Event>): Option<State> {
    if run == [] then Some(State(PG.Init(LoadGraph(cat, broken)), None))
    else
      var s := After(cat, broken, run[..|run| - 1]);
      var e := run[|run| - 1];
      if s.Some? && Enabled(cat, broken, s.value, e) then Some(Apply(cat, broken, s.value, e)) else None
  }

  ghost predicate IsRun(cat: Catalog, broken: set<string>, run: seq<Event>) {
    After(cat, broken, run).Some?
  }

  /** The promise returned by `startup` is resolved: every load chain has reported. */
  ghost predicate StartupResolved(cat: Catalog, broken: set<string>, run: seq<Event>) {
    forall p :: p in cat && p !in broken ==> Load(PG.Report(p)) in run
  }

  /** The promise returned by `shutdown` is resolved. */
  ghost predicate ShutdownResolved(cat: Catalog, broken: set<string>, run: seq<Event>) {
    forall p :: p in cat && p !in broken ==> Unload(PG.Report(p)) in run
  }

  /** `shutdown` is called only after the promise returned by `startup` resolved. */
  ghost predicate Orderly(cat: Catalog, broken: set<string>, run: seq<Event>) {
    forall i :: 0 <= i < |run| && run[i] == BeginShutdown ==> StartupResolved(cat, broken, run[..i])
  }

  /** `y` never happens without `x` having happened earlier. */
  ghost predicate Precedes(run: seq<Event>, x: Event, y: Event) {
    forall j :: 0 <= j < |run| && run[j] == y ==> x in run[..j]
  }

  /** No load (unload) event is possible any more. */
  ghost predicate LoadingStuck(cat: Catalog, broken: set<string>, s: State) {
    forall e :: !Enabled(cat, broken, s, Load(e))
  }

  ghost predicate UnloadingStuck(cat: Catalog, broken: set<string>, s: State) {
    forall e :: !Enabled(cat, broken, s, Unload(e))
  }

  // ---------------------------------------------------------------------------------------------
  // The load events of a run are a run of the load graph; likewise for the unload events.

  ghost function LoadEvents(run: seq<Event>): seq<PG.Event> {
    if run == [] then []
    else
      var e := run[|run| - 1];
      LoadEvents(run[..|run| - 1]) + if e.Load? then [e.e] else []
  }

  ghost function UnloadEvents(run: seq<Event>): seq<PG.Event> {
    if run == [] then []
    else
      var e := run[|run| - 1];
      UnloadEvents(run[..|run| - 1]) + if e.Unload? then [e.u] else []
  }

  lemma {:induction false} Projections(cat: Catalog, broken: set<string>, run: seq<Event>)
    requires IsRun(cat, broken, run)
    ensures PG.After(LoadGraph(cat, broken), LoadEvents(run)) == Some(After(cat, broken, run).value.load)
    ensures After(cat, broken, run).value.unload.None? <==> BeginShutdown !in run
    ensures After(cat, broken, run).value.unload.None? ==> UnloadEvents(run) == []
    ensures After(cat, broken, run).value.unload.Some? ==>
              PG.After(UnloadGraph(cat, broken), UnloadEvents(run)) == After(cat, broken, run).value.unload
  {
    if run != [] {
      var n := |run| - 1;
      var init, e := run[..n], run[n];
      Projections(cat, broken, init);
      assert run == init + [e];
      assert LoadEvents(run) == LoadEvents(init) || LoadEvents(run)[..|LoadEvents(init)|] == LoadEvents(init);
      assert UnloadEvents(run) == UnloadEvents(init) || UnloadEvents(run)[..|UnloadEvents(init)|] == UnloadEvents(init);
    }
  }

  lemma {:induction false} ProjectionMembers(run: seq<Event>)
    ensures forall e :: e in LoadEvents(run) <==> Load(e) in run
    ensures forall e :: e in UnloadEvents(run) <==> Unload(e) in run
  {
    if run != [] {
      var n := |run| - 1;
      ProjectionMembers(run[..n]);
      assert run == run[..n] + [run[n]];
    }
  }

  lemma {:induction false} PrefixIsRun(cat: Catalog, broken: set<string>, run: seq<Event>, n: nat)
    requires IsRun(cat, broken, run) && n <= |run|
    ensures IsRun(cat, broken, run[..n])
    ensures n < |run| ==> Enabled(cat, broken, After(cat, broken, run[..n]).value, run[n])
  {
    if n == |run| {
      assert run[..n] == run;
    } else if n < |run| - 1 {
      PrefixIsRun(cat, broken, run[..|run| - 1], n);
      assert run[..|run| - 1][..n] == run[..n];
    }
  }

  lemma OneMore(run: seq<Event>, j: nat)
    requires j < |run|
    ensures LoadEvents(run[..j + 1]) == LoadEvents(run[..j]) + if run[j].Load? then [run[j].e] else []
    ensures UnloadEvents(run[..j + 1]) == UnloadEvents(run[..j]) + if run[j].Unload? then [run[j].u] else []
  {
    assert run[..j + 1][..j] == run[..j];
  }

  // ---------------------------------------------------------------------------------------------
  // Nested lifetimes.

  /** Loading `a` starts only after everything it transitively depends on has finished loading. */
  lemma LoadsNest(cat: Catalog, broken: set<string>, run: seq<Event>, a: string, b: string)
    requires Accepted(cat) && IsRun(cat, broken, run)
    requires PG.WaitsOn(LoadGraph(cat, broken), a, b)
    ensures Precedes(run, Load(PG.Finish(b)), Load(PG.Start(a)))
  {
    var g := LoadGraph(cat, broken);
    AcceptedGraphsAreClosed(cat, broken);
    var path :| PG.PathFromTo(g, path, a, b) && |path| > 1;
    forall j | 0 <= j < |run| && run[j] == Load(PG.Start(a))
      ensures Load(PG.Finish(b)) in run[..j]
    {
      PrefixIsRun(cat, broken, run, j + 1);
      Projections(cat, broken, run[..j + 1]);
      OneMore(run, j);
      var log := LoadEvents(run[..j]);
      PG.StartFollowsPath(g, LoadEvents(run[..j + 1]), |log|, path);
      assert LoadEvents(run[..j + 1])[..|log|] == log;
      ProjectionMembers(run[..j]);
    }
  }

  lemma FinishedIfReported(cat: Catalog, broken: set<string>, run: seq<Event>, x: string)
    requires Accepted(cat) && IsRun(cat, broken, run) && Load(PG.Report(x)) in run
    ensures Load(PG.Finish(x)) in run
    ensures PG.Sound(LoadGraph(cat, broken), x)
  {
    Projections(cat, broken, run);
    ProjectionMembers(run);
    AcceptedGraphsAreClosed(cat, broken);
    PG.ReportedHasFinished(LoadGraph(cat, broken), LoadEvents(run), x);
    PG.FinishedIsSound(LoadGraph(cat, broken), LoadEvents(run), x);
  }

  ghost function Reversed(path: seq<string>): seq<string> {
    seq(|path|, i requires 0 <= i < |path| => path[|path| - 1 - i])
  }

  /** Every dependency of a loadable plugin is recorded in the other direction too. */
  ghost predicate Recorded(cat: Catalog, broken: set<string>) {
    forall a, b :: a in cat && a !in broken && b in cat[a].dependsOn && b in cat ==> a in cat[b].requiredBy
  }

  /** A chain of dependencies between loadable plugins is, read backwards, a chain of unload waits. */
  lemma ReversedPath(cat: Catalog, broken: set<string>, path: seq<string>)
    requires Recorded(cat, broken) && PG.Path(LoadGraph(cat, broken), path)
    requires forall i :: 0 <= i < |path| ==> path[i] in cat && path[i] !in broken
    ensures PG.Path(UnloadGraph(cat, broken), Reversed(path))
  {
    var back := Reversed(path);
    forall i | 0 <= i < |back| - 1
      ensures back[i + 1] in UnloadGraph(cat, broken).waits[back[i]]
    {
      var k := |path| - 2 - i;
      assert back[i] == path[k + 1] && back[i + 1] == path[k];
      assert path[k + 1] in LoadGraph(cat, broken).waits[path[k]];
    }
  }

  /** Every plugin on a chain of dependencies from a loaded plugin is loadable. */
  lemma PathIsLoadable(cat: Catalog, broken: set<string>, path: seq<string>)
    requires PG.Path(LoadGraph(cat, broken), path)
    requires PG.Sound(LoadGraph(cat, broken), path[0])
    ensures forall i :: 0 <= i < |path| ==> path[i] in cat && path[i] !in broken
  {
    forall i | 0 <= i < |path|
      ensures path[i] in cat && path[i] !in broken
    {
      assert PG.PathFromTo(LoadGraph(cat, broken), path[..i + 1], path[0], path[i]);
      assert PG.ReachesOrIs(LoadGraph(cat, broken), path[0], path[i]);
    }
  }

  lemma StartupResolvedBefore(cat: Catalog, broken: set<string>, run: seq<Event>, j: nat)
    requires IsRun(cat, broken, run) && Orderly(cat, broken, run)
    requires j < |run| && run[j].Unload?
    ensures IsRun(cat, broken, run[..j]) && StartupResolved(cat, broken, run[..j])
  {
    PrefixIsRun(cat, broken, run, j);
    Projections(cat, broken, run[..j]);
    var i :| 0 <= i < j && run[i] == BeginShutdown;
    assert run[..i] == run[..j][..i];
    assert StartupResolved(cat, broken, run[..i]);
    forall e | e in run[..i]
      ensures e in run[..j]
    {
    }
  }

  /** In an orderly run every loadable plugin has finished loading before any unload event. */
  lemma LoadsPrecedeUnloads(cat: Catalog, broken: set<string>, run: seq<Event>, x: string, u: PG.Event)
    requires Accepted(cat) && IsRun(cat, broken, run) && Orderly(cat, broken, run)
    requires x in cat && x !in broken
    ensures Precedes(run, Load(PG.Finish(x)), Unload(u))
  {
    forall j | 0 <= j < |run| && run[j] == Unload(u)
      ensures Load(PG.Finish(x)) in run[..j]
    {
      StartupResolvedBefore(cat, broken, run, j);
      FinishedIfReported(cat, broken, run[..j], x);
    }
  }

  /** Nested lifetimes: when a loadable plugin `a` transitively depends on `b`, then `b` is loaded
      before `a` starts loading, both are loaded before either is unloaded, and `a` is unloaded
      before `b` starts unloading, although the code makes chains wait on direct neighbours only. The
      last part needs the dependencies to be recorded; `NestsExactlyWhen` says what happens otherwise. */
  lemma LifetimesNest(cat: Catalog, broken: set<string>, run: seq<Event>, a: string, b: string)
    requires Overlaid(cat) && IsRun(cat, broken, run) && Orderly(cat, broken, run)
    requires a in cat && a !in broken && PG.WaitsOn(LoadGraph(cat, broken), a, b)
    ensures Precedes(run, Load(PG.Finish(b)), Load(PG.Start(a)))
    ensures Precedes(run, Load(PG.Finish(a)), Unload(PG.Start(a)))
    ensures Recorded(cat, broken) ==> Precedes(run, Unload(PG.Finish(a)), Unload(PG.Start(b)))
  {
    LoadsNest(cat, broken, run, a, b);
    LoadsPrecedeUnloads(cat, broken, run, a, PG.Start(a));
    if Recorded(cat, broken) {
      UnloadsNest(cat, broken, run, a, b);
    }
  }

  lemma UnloadsNest(cat: Catalog, broken: set<string>, run: seq<Event>, a: string, b: string)
    requires Overlaid(cat) && Recorded(cat, broken) && IsRun(cat, broken, run) && Orderly(cat, broken, run)
    requires a in cat && a !in broken && PG.WaitsOn(LoadGraph(cat, broken), a, b)
    ensures Precedes(run, Unload(PG.Finish(a)), Unload(PG.Start(b)))
  {
    var lg, ug := LoadGraph(cat, broken), UnloadGraph(cat, broken);
    var path :| PG.PathFromTo(lg, path, a, b) && |path| > 1;
    forall j | 0 <= j < |run| && run[j] == Unload(PG.Start(b))
      ensures Unload(PG.Finish(a)) in run[..j]
    {
      StartupResolvedBefore(cat, broken, run, j);
      FinishedIfReported(cat, broken, run[..j], a);
      PathIsLoadable(cat, broken, path);
      ReversedPath(cat, broken, path);
      AcceptedGraphsAreClosed(cat, broken);
      PrefixIsRun(cat, broken, run, j + 1);
      Projections(cat, broken, run[..j + 1]);
      OneMore(run, j);
      var log := UnloadEvents(run[..j]);
      PG.StartFollowsPath(ug, UnloadEvents(run[..j + 1]), |log|, Reversed(path));
      assert UnloadEvents(run[..j + 1])[..|log|] == log;
      ProjectionMembers(run[..j]);
    }
  }

  /** Without that order nothing nests: whatever was loaded so far, a plugin nobody requires may start
      unloading before it has finished loading. */
  lemma EarlyShutdownMayUnloadFirst(cat: Catalog, broken: set<string>, loads: seq<Event>, p: string)
    requires IsRun(cat, broken, loads) && BeginShutdown !in loads && Load(PG.Finish(p)) !in loads
    requires p in cat && p !in broken && cat[p].requiredBy == []
    ensures var run := loads + [BeginShutdown, Unload(PG.Start(p))];
            IsRun(cat, broken, run) && !Precedes(run, Load(PG.Finish(p)), Unload(PG.Start(p)))
  {
    BeginUnloading(cat, broken, loads, p);
    var run := loads + [BeginShutdown, Unload(PG.Start(p))];
    assert run[|loads| + 1] == Unload(PG.Start(p)) && run[..|loads| + 1] == loads + [BeginShutdown];
  }

  lemma BeginUnloading(cat: Catalog, broken: set<string>, loads: seq<Event>, p: string)
    requires IsRun(cat, broken, loads) && BeginShutdown !in loads
    requires p in cat && p !in broken && cat[p].requiredBy == []
    ensures IsRun(cat, broken, loads + [BeginShutdown])
    ensures IsRun(cat, broken, loads + [BeginShutdown, Unload(PG.Start(p))])
  {
    Projections(cat, broken, loads);
    var begun := loads + [BeginShutdown];
    assert begun[..|loads|] == loads;
    var run := loads + [BeginShutdown, Unload(PG.Start(p))];
    assert run[..|run| - 1] == begun;
  }

  // ---------------------------------------------------------------------------------------------
  // Which plugins load, and when both promises resolve.

  /** In a run whose loading can go no further, the loaded plugins are exactly those whose closure of
      dependencies has no cycle and no broken plugin; each of them is loaded and reported once. */
  lemma LoadedExactlyWhenSound(cat: Catalog, broken: set<string>, run: seq<Event>)
    requires Accepted(cat) && IsRun(cat, broken, run)
    requires LoadingStuck(cat, broken, After(cat, broken, run).value)
    ensures forall p :: p in cat ==> (Load(PG.Finish(p)) in run <==> PG.Sound(LoadGraph(cat, broken), p))
    ensures forall p :: p in cat ==> (Load(PG.Report(p)) in run <==> PG.Sound(LoadGraph(cat, broken), p))
    ensures forall p :: p in cat ==>
              PG.ReportsOf(After(cat, broken, run).value.load, p) == if PG.Sound(LoadGraph(cat, broken), p) then 1 else 0
  {
    var s := After(cat, broken, run).value;
    Projections(cat, broken, run);
    ProjectionMembers(run);
    AcceptedGraphsAreClosed(cat, broken);
    forall e: PG.Event
      ensures !PG.Enabled(LoadGraph(cat, broken), s.load, e)
    {
      assert !Enabled(cat, broken, s, Load(e));
    }
    PG.StuckFinishedExactlySound(LoadGraph(cat, broken), LoadEvents(run));
  }

  /** An acyclic configuration whose plugins all instantiate always loads completely. */
  lemma AcyclicLoadsCompletely(cat: Catalog, run: seq<Event>)
    requires Accepted(cat) && IsRun(cat, {}, run)
    requires LoadingStuck(cat, {}, After(cat, {}, run).value)
    requires forall p :: !PG.WaitsOn(LoadGraph(cat, {}), p, p)
    ensures StartupResolved(cat, {}, run)
  {
    var g := LoadGraph(cat, {});
    LoadedExactlyWhenSound(cat, {}, run);
    forall p, q | p in cat && PG.ReachesOrIs(g, p, q)
      ensures q in cat
    {
      if p != q {
        var path :| PG.PathFromTo(g, path, p, q) && |path| > 1;
        assert path[|path| - 2 + 1] in g.waits[path[|path| - 2]];
      }
    }
  }

  /** The same for unloading: the plugins unloaded in the end are those that no broken plugin and no
      cycle transitively requires. */
  lemma UnloadedExactlyWhenSound(cat: Catalog, broken: set<string>, run: seq<Event>)
    requires Overlaid(cat) && IsRun(cat, broken, run) && BeginShutdown in run
    requires UnloadingStuck(cat, broken, After(cat, broken, run).value)
    ensures forall p :: p in cat ==> (Unload(PG.Report(p)) in run <==> PG.Sound(UnloadGraph(cat, broken), p))
    ensures After(cat, broken, run).value.unload.Some?
    ensures forall p :: p in cat ==>
              PG.ReportsOf(After(cat, broken, run).value.unload.value, p)
              == if PG.Sound(UnloadGraph(cat, broken), p) then 1 else 0
  {
    var s := After(cat, broken, run).value;
    Projections(cat, broken, run);
    ProjectionMembers(run);
    AcceptedGraphsAreClosed(cat, broken);
    forall e: PG.Event
      ensures !PG.Enabled(UnloadGraph(cat, broken), s.unload.value, e)
    {
      assert !Enabled(cat, broken, s, Unload(e));
    }
    PG.StuckFinishedExactlySound(UnloadGraph(cat, broken), UnloadEvents(run));
  }

  /** No unload chain waits for a plugin that has none. */
  ghost predicate NoBrokenRequirer(cat: Catalog, broken: set<string>) {
    forall p, q :: p in cat && p !in broken && q in cat[p].requiredBy ==> q !in broken
  }

  ghost predicate AllLoadable(cat: Catalog, broken: set<string>) {
    forall p :: p in cat && p !in broken ==> PG.Sound(LoadGraph(cat, broken), p)
  }

  lemma {:induction false} UnloadPathIsLoadable(cat: Catalog, broken: set<string>, path: seq<string>)
    requires Overlaid(cat) && NoBrokenRequirer(cat, broken) && PG.Path(UnloadGraph(cat, broken), path)
    requires path[0] in cat && path[0] !in broken
    ensures forall i :: 0 <= i < |path| ==> path[i] in cat && path[i] !in broken
  {
    var n := |path| - 1;
    if n > 0 {
      UnloadPathIsLoadable(cat, broken, path[..n]);
      assert path[n - 1 + 1] in UnloadGraph(cat, broken).waits[path[n - 1]];
      assert path[..n][n - 1] == path[n - 1];
      forall i | 0 <= i < n
        ensures path[i] in cat && path[i] !in broken
      {
        assert path[..n][i] == path[i];
      }
    }
  }

  /** Whoever waits is not bare, so a cycle of unload waits is a cycle of dependencies read backwards. */
  lemma UnloadCycleReverses(cat: Catalog, broken: set<string>, cycle: seq<string>, q: string)
    requires Overlaid(cat) && PG.PathFromTo(UnloadGraph(cat, broken), cycle, q, q) && |cycle| > 1
    ensures PG.PathFromTo(LoadGraph(cat, broken), Reversed(cycle), q, q)
  {
    var ug, back := UnloadGraph(cat, broken), Reversed(cycle);
    forall i | 0 <= i < |back| - 1
      ensures back[i] in LoadGraph(cat, broken).waits && back[i + 1] in LoadGraph(cat, broken).waits[back[i]]
    {
      var k := |cycle| - 2 - i;
      assert back[i] == cycle[k + 1] && back[i + 1] == cycle[k];
      var after := if k + 1 < |cycle| - 1 then k + 1 else 0;
      assert cycle[after] == cycle[k + 1];
      assert cycle[after + 1] in ug.waits[cycle[after]] && cycle[k + 1] in ug.waits[cycle[k]];
    }
  }

  /** If no loadable plugin is required by a broken one, unloading cannot get stuck. */
  lemma UnloadIsSound(cat: Catalog, broken: set<string>, p: string)
    requires Overlaid(cat) && NoBrokenRequirer(cat, broken) && AllLoadable(cat, broken)
    requires p in cat && p !in broken
    ensures PG.Sound(UnloadGraph(cat, broken), p)
  {
    var lg, ug := LoadGraph(cat, broken), UnloadGraph(cat, broken);
    forall q | PG.ReachesOrIs(ug, p, q)
      ensures q in ug.active && !PG.WaitsOn(ug, q, q)
    {
      if p != q {
        var path :| PG.PathFromTo(ug, path, p, q) && |path| > 1;
        UnloadPathIsLoadable(cat, broken, path);
      }
      if PG.WaitsOn(ug, q, q) {
        var cycle :| PG.PathFromTo(ug, cycle, q, q) && |cycle| > 1;
        UnloadCycleReverses(cat, broken, cycle, q);
        assert PG.WaitsOn(lg, q, q);
        assert PG.ReachesOrIs(lg, q, q);
      }
    }
  }

  lemma BrokenRequirerBlocks(cat: Catalog, broken: set<string>, q: string, d: string)
    requires d in cat && d !in broken && q in broken && q in cat[d].requiredBy
    ensures !PG.Sound(UnloadGraph(cat, broken), d)
  {
    var ug := UnloadGraph(cat, broken);
    assert PG.PathFromTo(ug, [d, q], d, q);
    assert PG.WaitsOn(ug, d, q);
    assert PG.ReachesOrIs(ug, d, q);
  }

  /** Even when startup resolved, shutdown can hang: a plugin that could not be instantiated never
      resolves its unload promise. The promise of `shutdown` resolves exactly when no broken plugin
      requires a loadable one. */
  lemma ShutdownResolvesExactlyWhen(cat: Catalog, broken: set<string>, run: seq<Event>)
    requires Overlaid(cat) && IsRun(cat, broken, run) && Orderly(cat, broken, run) && BeginShutdown in run
    requires UnloadingStuck(cat, broken, After(cat, broken, run).value)
    ensures ShutdownResolved(cat, broken, run) <==> NoBrokenRequirer(cat, broken)
  {
    UnloadedExactlyWhenSound(cat, broken, run);
    var i :| 0 <= i < |run| && run[i] == BeginShutdown;
    assert StartupResolved(cat, broken, run[..i]);
    PrefixIsRun(cat, broken, run, i);
    ResolvedMeansLoadable(cat, broken, run[..i]);
    if ShutdownResolved(cat, broken, run) {
      forall d, q | d in cat && d !in broken && q in cat[d].requiredBy
        ensures q !in broken
      {
        if q in broken {
          BrokenRequirerBlocks(cat, broken, q, d);
        }
      }
    }
    if NoBrokenRequirer(cat, broken) {
      forall p | p in cat && p !in broken
        ensures Unload(PG.Report(p)) in run
      {
        UnloadIsSound(cat, broken, p);
      }
    }
  }

  lemma ResolvedMeansLoadable(cat: Catalog, broken: set<string>, run: seq<Event>)
    requires Accepted(cat) && IsRun(cat, broken, run) && StartupResolved(cat, broken, run)
    ensures AllLoadable(cat, broken)
  {
    forall q | q in cat && q !in broken
      ensures PG.Sound(LoadGraph(cat, broken), q)
    {
      FinishedIfReported(cat, broken, run, q);
    }
  }

  /** No manager run has more than six events per loadable plugin, besides the call of `shutdown`. */
  lemma RunsAreShort(cat: Catalog, broken: set<string>, run: seq<Event>)
    requires IsRun(cat, broken, run)
    ensures |LoadEvents(run)| <= 3 * |LoadGraph(cat, broken).active|
    ensures |UnloadEvents(run)| <= 3 * |LoadGraph(cat, broken).active|
    ensures |run| <= 6 * |LoadGraph(cat, broken).active| + 1
  {
    Projections(cat, broken, run);
    PG.RunsAreShort(LoadGraph(cat, broken), LoadEvents(run));
    if BeginShutdown in run {
      PG.RunsAreShort(UnloadGraph(cat, broken), UnloadEvents(run));
      assert UnloadGraph(cat, broken).active == LoadGraph(cat, broken).active;
    }
    EventsAddUp(cat, broken, run);
  }

  lemma {:induction false} EventsAddUp(cat: Catalog, broken: set<string>, run: seq<Event>)
    requires IsRun(cat, broken, run)
    ensures |run| == |LoadEvents(run)| + |UnloadEvents(run)| + if BeginShutdown in run then 1 else 0
  {
    if run != [] {
      var n := |run| - 1;
      EventsAddUp(cat, broken, run[..n]);
      Projections(cat, broken, run[..n]);
      assert run == run[..n] + [run[n]];
    }
  }
}
