/** Promise-chained tasks: every name owns a promise; a started chain waits for the promises of the
    names it waits on, runs its task, resolves its own promise and finally reports. */
module PromiseGraph {
  import opened Wrappers

  /** `waits[p]`: names whose promise the chain of `p` waits on. `active`: names whose chain was
      built; the promise of a name outside `active` exists but nothing ever resolves it. */
  datatype Graph = Graph(active: set<string>, waits: map<string, set<string>>)

  datatype Phase = Waiting | Running | Resolved | Reported

  datatype Event = Start(p: string) | Finish(p: string) | Report(p: string)

  datatype State = State(phase: map<string, Phase>, reports: map<string, nat>)

  /** Every name waited on has a promise. */
  ghost predicate Closed(g: Graph) {
    && g.active <= g.waits.Keys
    && forall p :: p in g.waits ==> g.waits[p] <= g.waits.Keys
  }

  function Init(g: Graph): State {
    State(map p | p in g.active :: Waiting, map p | p in g.waits :: 0)
  }

  predicate PromiseResolved(s: State, p: string) {
    p in s.phase && (s.phase[p] == Resolved || s.phase[p] == Reported)
  }

  predicate Enabled(g: Graph, s: State, e: Event) {
    e.p in s.phase &&
    match e
    case Start(p) => s.phase[p] == Waiting && p in g.waits && forall d :: d in g.waits[p] ==> PromiseResolved(s, d)
    case Finish(p) => s.phase[p] == Running
    case Report(p) => s.phase[p] == Resolved && p in s.reports
  }

  function Apply(g: Graph, s: State, e: Event): State
    requires Enabled(g, s, e)
  {
    match e
    case Start(p) => s.(phase := s.phase[p := Running])
    case Finish(p) => s.(phase := s.phase[p := Resolved])
    case Report(p) => State(s.phase[p := Reported], s.reports[p := s.reports[p] + 1])
  }

  /** The state after the events of `run`, or `None` if some event was not enabled. */
  ghost function After(g: Graph, run: seq<Event>): Option<State> {
    if run == [] then Some(Init(g))
    else
      var s := After(g, run[..|run| - 1]);
      var e := run[|run| - 1];
      if s.Some? && Enabled(g, s.value, e) then Some(Apply(g, s.value, e)) else None
  }

  ghost predicate IsRun(g: Graph, run: seq<Event>) {
    After(g, run).Some?
  }

  /** No event is possible any more; a started task always has its `Finish` possible. */
  ghost predicate Stuck(g: Graph, s: State) {
    forall e: Event :: !Enabled(g, s, e)
  }

  // ---------------------------------------------------------------------------------------------
  // The log of a run and the phases agree.

  ghost predicate LoggedAt(g: Graph, run: seq<Event>, s: State, p: string)
    requires s.phase.Keys == g.active && s.reports.Keys == g.waits.Keys
  {
    && (Start(p) in run <==> p in g.active && s.phase[p] != Waiting)
    && (Finish(p) in run <==> PromiseResolved(s, p))
    && (Report(p) in run <==> p in g.active && s.phase[p] == Reported)
    && (p in g.waits ==> s.reports[p] == if Report(p) in run then 1 else 0)
  }

  ghost predicate Logged(g: Graph, run: seq<Event>, s: State) {
    && s.phase.Keys == g.active
    && s.reports.Keys == g.waits.Keys
    && forall p :: LoggedAt(g, run, s, p)
  }

  lemma EventIsLogged(g: Graph, run: seq<Event>, s: State, e: Event, p: string)
    requires Closed(g) && s.phase.Keys == g.active && s.reports.Keys == g.waits.Keys
    requires LoggedAt(g, run, s, p) && Enabled(g, s, e)
    ensures LoggedAt(g, run + [e], Apply(g, s, e), p)
  {
    var t := Apply(g, s, e);
    assert t.phase.Keys == g.active && t.reports.Keys == g.waits.Keys;
    assert Start(p) in run + [e] <==> Start(p) in run || e == Start(p);
    assert Finish(p) in run + [e] <==> Finish(p) in run || e == Finish(p);
    assert Report(p) in run + [e] <==> Report(p) in run || e == Report(p);
  }

  lemma {:induction false} RunsAreLogged(g: Graph, run: seq<Event>)
    requires Closed(g) && IsRun(g, run)
    ensures Logged(g, run, After(g, run).value)
  {
    if run != [] {
      var init, e := run[..|run| - 1], run[|run| - 1];
      var s := After(g, init).value;
      RunsAreLogged(g, init);
      assert run == init + [e];
      var t := Apply(g, s, e);
      assert t.phase.Keys == g.active && t.reports.Keys == g.waits.Keys;
      forall p
        ensures LoggedAt(g, run, t, p)
      {
        assert LoggedAt(g, init, s, p);
        EventIsLogged(g, init, s, e, p);
      }
    }
  }

  lemma {:induction false} PrefixIsRun(g: Graph, run: seq<Event>, n: nat)
    requires IsRun(g, run) && n <= |run|
    ensures IsRun(g, run[..n])
    ensures n < |run| ==> Enabled(g, After(g, run[..n]).value, run[n])
  {
    if n == |run| {
      assert run[..n] == run;
    } else if n < |run| - 1 {
      PrefixIsRun(g, run[..|run| - 1], n);
      assert run[..|run| - 1][..n] == run[..n];
    }
  }

  /** Every task starts, finishes and reports at most once. */
  lemma EventsHappenOnce(g: Graph, run: seq<Event>, i: nat, j: nat)
    requires Closed(g) && IsRun(g, run) && i < j < |run|
    ensures run[i] != run[j]
  {
    PrefixIsRun(g, run, j);
    RunsAreLogged(g, run[..j]);
    assert run[..j][i] == run[i];
    assert LoggedAt(g, run[..j], After(g, run[..j]).value, run[j].p);
  }

  /** A task starts only after every promise it waits on is resolved, and events of one task are in order. */
  lemma StartFollowsFinish(g: Graph, run: seq<Event>, j: nat)
    requires Closed(g) && IsRun(g, run) && j < |run|
    ensures run[j].Start? ==> run[j].p in g.waits && forall d :: d in g.waits[run[j].p] ==> Finish(d) in run[..j]
    ensures run[j].Finish? ==> Start(run[j].p) in run[..j]
    ensures run[j].Report? ==> Finish(run[j].p) in run[..j]
  {
    PrefixIsRun(g, run, j);
    RunsAreLogged(g, run[..j]);
    var s := After(g, run[..j]).value;
    assert LoggedAt(g, run[..j], s, run[j].p);
    if run[j].Start? {
      forall d | d in g.waits[run[j].p]
        ensures Finish(d) in run[..j]
      {
        assert LoggedAt(g, run[..j], s, d);
      }
    }
  }

  lemma ReportedHasFinished(g: Graph, run: seq<Event>, p: string)
    requires Closed(g) && IsRun(g, run) && Report(p) in run
    ensures Finish(p) in run && p in g.active
  {
    RunsAreLogged(g, run);
    assert LoggedAt(g, run, After(g, run).value, p);
  }

  // ---------------------------------------------------------------------------------------------
  // Transitive waiting.

  ghost predicate Path(g: Graph, path: seq<string>) {
    && path != []
    && forall i :: 0 <= i < |path| - 1 ==> path[i] in g.waits && path[i + 1] in g.waits[path[i]]
  }

  ghost predicate PathFromTo(g: Graph, path: seq<string>, a: string, b: string) {
    Path(g, path) && path[0] == a && path[|path| - 1] == b
  }

  /** `a` waits on `b` through one or more chains. */
  ghost predicate WaitsOn(g: Graph, a: string, b: string) {
    exists path :: PathFromTo(g, path, a, b) && |path| > 1
  }

  ghost predicate ReachesOrIs(g: Graph, a: string, b: string) {
    a == b || WaitsOn(g, a, b)
  }

  /** The reflexive-transitive closure of `p` holds only built chains and no cycle. */
  ghost predicate Sound(g: Graph, p: string) {
    forall q :: ReachesOrIs(g, p, q) ==> q in g.active && !WaitsOn(g, q, q)
  }

  /** When `a` starts, everything it transitively waits on has finished. */
  lemma {:induction false} StartFollowsPath(g: Graph, run: seq<Event>, j: nat, path: seq<string>)
    requires Closed(g) && IsRun(g, run) && j < |run|
    requires Path(g, path) && |path| > 1 && run[j] == Start(path[0])
    ensures Finish(path[|path| - 1]) in run[..j]
    decreases |path|
  {
    StartFollowsFinish(g, run, j);
    var d := path[1];
    var i :| 0 <= i < j && run[i] == Finish(d);
    if |path| > 2 {
      StartFollowsFinish(g, run, i);
      var h :| 0 <= h < i && run[h] == Start(d);
      assert Path(g, path[1..]) by {
        forall m | 0 <= m < |path[1..]| - 1
          ensures path[1..][m] in g.waits && path[1..][m + 1] in g.waits[path[1..][m]]
        {
          assert path[1..][m] == path[m + 1] && path[1..][m + 1] == path[m + 2];
        }
      }
      StartFollowsPath(g, run, h, path[1..]);
      assert run[..j][..h] == run[..h];
    }
  }

  lemma Extend(g: Graph, path: seq<string>, b: string)
    requires Path(g, path) && path[|path| - 1] in g.waits && b in g.waits[path[|path| - 1]]
    ensures PathFromTo(g, path + [b], path[0], b) && WaitsOn(g, path[0], b)
  {
    assert PathFromTo(g, path + [b], path[0], b);
  }

  /** A finished task has a sound closure: otherwise something would have had to finish before itself. */
  lemma FinishedIsSound(g: Graph, run: seq<Event>, p: string)
    requires Closed(g) && IsRun(g, run) && Finish(p) in run
    ensures Sound(g, p)
  {
    var i :| 0 <= i < |run| && run[i] == Finish(p);
    StartFollowsFinish(g, run, i);
    var h :| 0 <= h < i && run[h] == Start(p);
    forall q | ReachesOrIs(g, p, q)
      ensures q in g.active && !WaitsOn(g, q, q)
    {
      var k: nat;
      if q == p {
        k := h;
      } else {
        var path :| PathFromTo(g, path, p, q) && |path| > 1;
        StartFollowsPath(g, run, h, path);
        var f :| 0 <= f < h && run[f] == Finish(q);
        StartFollowsFinish(g, run, f);
        k :| 0 <= k < f && run[k] == Start(q);
      }
      PrefixIsRun(g, run, k);
      RunsAreLogged(g, run[..k]);
      assert LoggedAt(g, run[..k], After(g, run[..k]).value, q);
      if WaitsOn(g, q, q) {
        var cycle :| PathFromTo(g, cycle, q, q) && |cycle| > 1;
        StartFollowsPath(g, run, k, cycle);
        assert false;
      }
    }
  }

  /** In a stuck state an unfinished chain waits on an unfinished one; following these never repeats
      a name unless there is a cycle, so a sound name cannot be unfinished. */
  lemma {:induction false} UnfinishedIsUnsound(g: Graph, s: State, path: seq<string>)
    requires Closed(g) && s.phase.Keys == g.active && s.reports.Keys == g.waits.Keys && Stuck(g, s)
    requires Path(g, path) && Sound(g, path[0])
    requires forall i, j :: 0 <= i < j < |path| ==> path[i] != path[j]
    requires forall i :: 0 <= i < |path| ==> path[i] in g.waits
    requires !PromiseResolved(s, path[|path| - 1])
    ensures false
    decreases |g.waits| - |path|
  {
    var q := path[|path| - 1];
    assert ReachesOrIs(g, path[0], q) by {
      if |path| > 1 {
        assert PathFromTo(g, path, path[0], q);
      }
    }
    assert !Enabled(g, s, Finish(q)) && !Enabled(g, s, Start(q));
    var d :| d in g.waits[q] && !PromiseResolved(s, d);
    Extend(g, path, d);
    if i :| 0 <= i < |path| && path[i] == d {
      var cycle := path[i..] + [d];
      assert PathFromTo(g, cycle, d, d);
      assert ReachesOrIs(g, path[0], d);
      assert WaitsOn(g, d, d);
    } else {
      DistinctNamesFit(path + [d], g.waits.Keys);
      UnfinishedIsUnsound(g, s, path + [d]);
    }
  }

  lemma {:induction false} DistinctNamesFit(s: seq<string>, names: set<string>)
    requires forall i, j :: 0 <= i < j < |s| ==> s[i] != s[j]
    requires forall i :: 0 <= i < |s| ==> s[i] in names
    ensures |s| <= |names|
  {
    if s != [] {
      var n := |s| - 1;
      DistinctNamesFit(s[..n], names - {s[n]});
    }
  }

  ghost function ReportsOf(s: State, p: string): nat {
    if p in s.reports then s.reports[p] else 0
  }

  lemma StuckAt(g: Graph, run: seq<Event>, p: string)
    requires Closed(g) && IsRun(g, run) && Stuck(g, After(g, run).value) && p in g.waits
    ensures Finish(p) in run <==> Sound(g, p)
    ensures Finish(p) in run <==> Report(p) in run
    ensures Finish(p) in run <==> Start(p) in run
    ensures ReportsOf(After(g, run).value, p) == if Finish(p) in run then 1 else 0
  {
    var s := After(g, run).value;
    RunsAreLogged(g, run);
    assert LoggedAt(g, run, s, p);
    if Finish(p) in run {
      FinishedIsSound(g, run, p);
    } else if Sound(g, p) {
      UnfinishedIsUnsound(g, s, [p]);
    }
    assert !Enabled(g, s, Finish(p)) && !Enabled(g, s, Report(p));
  }

  /** Deadlock characterisation: once nothing can happen any more, the finished tasks are exactly
      those whose closure of awaited names has no cycle and no chain that was never built; the
      others never started. */
  lemma StuckFinishedExactlySound(g: Graph, run: seq<Event>)
    requires Closed(g) && IsRun(g, run) && Stuck(g, After(g, run).value)
    ensures forall p :: p in g.waits ==> (Finish(p) in run <==> Sound(g, p))
    ensures forall p :: p in g.waits ==> (Report(p) in run <==> Sound(g, p)) && (Start(p) in run <==> Sound(g, p))
    ensures forall p :: p in g.waits ==> ReportsOf(After(g, run).value, p) == if Sound(g, p) then 1 else 0
  {
    forall p | p in g.waits {
      StuckAt(g, run, p);
    }
  }

  // ---------------------------------------------------------------------------------------------
  // Every run is short, and every run can be continued to a stuck one.

  ghost function InPhase(s: State, phase: Phase): set<string> {
    set p | p in s.phase && s.phase[p] == phase
  }

  ghost function Remaining(s: State): nat {
    3 * |InPhase(s, Waiting)| + 2 * |InPhase(s, Running)| + |InPhase(s, Resolved)|
  }

  lemma MovePhase(s: State, t: State, p: string, to: Phase, phase: Phase)
    requires p in s.phase && s.phase[p] != to && t.phase == s.phase[p := to]
    ensures |InPhase(t, phase)| ==
      |InPhase(s, phase)| + (if phase == to then 1 else 0) - (if phase == s.phase[p] then 1 else 0)
  {
    if phase == to {
      assert InPhase(t, phase) == InPhase(s, phase) + {p};
    } else {
      assert InPhase(t, phase) == InPhase(s, phase) - {p};
    }
  }

  lemma EventUsesUpOne(g: Graph, s: State, e: Event)
    requires Enabled(g, s, e)
    ensures Remaining(Apply(g, s, e)) == Remaining(s) - 1
  {
    var t := Apply(g, s, e);
    var to := match e case Start(_) => Running case Finish(_) => Resolved case Report(_) => Reported;
    MovePhase(s, t, e.p, to, Waiting);
    MovePhase(s, t, e.p, to, Running);
    MovePhase(s, t, e.p, to, Resolved);
  }

  /** No run has more than three events per built chain. */
  lemma {:induction false} RunsAreShort(g: Graph, run: seq<Event>)
    requires IsRun(g, run)
    ensures |run| + Remaining(After(g, run).value) == 3 * |g.active|
  {
    if run == [] {
      assert InPhase(Init(g), Waiting) == g.active;
      assert InPhase(Init(g), Running) == {} == InPhase(Init(g), Resolved);
    } else {
      var init := run[..|run| - 1];
      RunsAreShort(g, init);
      EventUsesUpOne(g, After(g, init).value, run[|run| - 1]);
    }
  }

  lemma {:induction false} RunsCanGetStuck(g: Graph, run: seq<Event>) returns (full: seq<Event>)
    requires IsRun(g, run)
    ensures IsRun(g, full) && run <= full && Stuck(g, After(g, full).value)
    decreases Remaining(After(g, run).value)
  {
    var s := After(g, run).value;
    if Stuck(g, s) {
      full := run;
    } else {
      var e :| Enabled(g, s, e);
      assert (run + [e])[..|run|] == run;
      EventUsesUpOne(g, s, e);
      full := RunsCanGetStuck(g, run + [e]);
    }
  }
}
