/** What the registry sequence guarantees over whole runs of the server. */
module ServerRuns {
  import opened Wrappers
  import opened Entities
  import opened NetworkRegistry
  import opened RegistryTasks
  import opened Connections
  import opened Server
  import opened Lifecycle
  import opened RegistryQueue
  import opened Safety

  /** In every run, each task of the registry sequence finds what its checks demand: the entity it is
      about is alive (only a mark-unused may come too late), a tick finds a consistent registry. */
  lemma EveryTaskIsReady(run: seq<Event>, reused: Option<Entity>)
    requires After(run + [RunTask(reused)]).Some?
    ensures After(run).Some? && After(run).value.tasks != []
    ensures Ready(After(run).value.reg, After(run).value.tasks[0], reused)
  {
    assert (run + [RunTask(reused)])[..|run|] == run;
    ReachableIsInvariant(run);
    FirstTaskIsReady(After(run).value, reused);
  }

  /** In every reachable state a tick leaves no unused and no dying entity, destroys exactly the unused
      connections and all their children, and counts them; the survivors just done with construction
      are those that were delayed. */
  lemma EveryTickIsClean(run: seq<Event>)
    requires After(run).Some?
    ensures var reg := After(run).value.reg;
            var next, lost := Tick(reg), Failing(reg.ents);
            && (forall e :: e in next.ents ==> !next.ents[e].unused && !next.ents[e].dying && !next.ents[e].doomed)
            && next.ents.Keys == reg.ents.Keys - lost - ChildrenOf(reg.children, lost)
            && (forall p, c :: p in reg.children && c in reg.children[p] ==> (p in next.ents <==> c in next.ents))
            && |reg.ents.Keys| == |next.ents.Keys| + |lost| + TotalChildren(reg.children, lost)
            && forall e :: e in next.ents ==> !next.ents[e].delayed && (next.ents[e].justDone <==> reg.ents[e].delayed)
  {
    ReachableIsInvariant(run);
    var reg := After(run).value.reg;
    CleanTick(reg);
  }

  lemma CleanTick(reg: Registry)
    requires Consistent(reg)
    ensures var next, lost := Tick(reg), Failing(reg.ents);
            && (forall e :: e in next.ents ==> !next.ents[e].unused && !next.ents[e].dying && !next.ents[e].doomed)
            && next.ents.Keys == reg.ents.Keys - lost - ChildrenOf(reg.children, lost)
            && (forall p, c :: p in reg.children && c in reg.children[p] ==> (p in next.ents <==> c in next.ents))
            && |reg.ents.Keys| == |next.ents.Keys| + |lost| + TotalChildren(reg.children, lost)
            && forall e :: e in next.ents ==> !next.ents[e].delayed && (next.ents[e].justDone <==> reg.ents[e].delayed)
  {
    TickLeavesNoGarbage(reg);
    TickAccounting(reg);
    TickKeepsConsistent(reg);
    forall e | e in Tick(reg).ents
      ensures !Tick(reg).ents[e].delayed && (Tick(reg).ents[e].justDone <==> reg.ents[e].delayed)
    {
      TickAt(reg, e);
      ConstructionTakesOneTick(reg, e);
    }
  }

  /** The components of an entity that may be cached. */
  predicate Whitelisted(reg: Registry, c: Entity)
    requires c in reg.ents
  {
    var x := reg.ents[c];
    !x.message && !x.justDone && !x.dying && !x.doomed && c !in reg.children
  }

  /** Safe cache reuse: in every reachable state both result checks hold for whatever the allocator could
      pick, and its component whitelist is violated exactly by children. */
  lemma ReuseMeetsTheChecks(run: seq<Event>, c: Entity)
    requires After(run).Some? && c in Candidates(After(run).value.reg.ents)
    ensures var reg := After(run).value.reg;
            ReuseReady(reg.ents[c]) && (Whitelisted(reg, c) <==> c !in reg.children)
  {
    ReachableIsInvariant(run);
    ReusedWasMarked(After(run).value, c);
  }

  /** A session that ended is on its way out: its entity is unused, gone, or has a mark-unused queued. */
  lemma EndedSessionIsMarked(run: seq<Event>, e: Entity)
    requires After(run).Some?
    requires var s := After(run).value; e in s.stage && Ended(s.stage[e])
    ensures var s := After(run).value;
            e in s.reg.ents && (s.reg.ents[e].unused || MarkUnused(e) in s.tasks)
  {
    ReachableIsInvariant(run);
    var s := After(run).value;
    KnownConnection(s.stage, s.reg, s.nextId, e);
    if Waits(s.stage[e]) {
      assert Served(s.stage[e], e, s.tasks);
      var t :| t in s.tasks && WaitsFor(s.stage[e], e, t);
      assert t == MarkUnused(e);
    }
  }
}
