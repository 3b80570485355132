/** What is left in the registry when nothing more can happen: which connections are never freed. */
module Leaks {
  import opened Wrappers
  import opened Sockets
  import opened Entities
  import opened ChildLinks
  import opened NetworkRegistry
  import opened RegistryTasks
  import opened Listening
  import opened Detection
  import opened Connections
  import opened Server
  import opened Lifecycle
  import opened RegistryQueue
  import opened AcceptLoop
  import opened Safety
  import opened AcceptLoopRuns
  import opened StaleReuse
  import Http = HttpSession
  import Ws = WsSession

  predicate NothingOutstanding(x: Ent) {
    && (x.detector.Some? ==> !DetectPossible(x.detector.value))
    && IdleHttp(x) && IdleWs(x)
  }

  /** Nothing is queued and nothing is outstanding. */
  ghost predicate AtRest(s: State) {
    && s.strand == [] && s.tasks == [] && s.acceptor.accepting.None?
    && forall e :: e in s.reg.ents ==> NothingOutstanding(s.reg.ents[e])
  }

  /** Then only a stop or an update can start anything. */
  lemma RestExactlyWhen(s: State)
    ensures AtRest(s) <==> forall ev :: Enabled(s, ev) ==> ev.PostStop? || ev.PostUpdate?
  {
    if forall ev :: Enabled(s, ev) ==> ev.PostStop? || ev.PostUpdate? {
      assert !Enabled(s, RunStrand(Configured)) && !Enabled(s, AcceptCompletes(false, true));
      assert !Enabled(s, RunTask(None));
      if c :| c in Candidates(s.reg.ents) {
        assert !Enabled(s, RunTask(Some(c)));
      }
      forall e | e in s.reg.ents
        ensures NothingOutstanding(s.reg.ents[e])
      {
        assert !Enabled(s, DetectCompletes(e, false, false, true));
        assert !Enabled(s, HttpCompletes(e, Http.ReadDone(Http.EndOfStream)));
        assert !Enabled(s, HttpCompletes(e, Http.WriteDone(false, false)));
        assert !Enabled(s, WsCompletes(e, Ws.AcceptDone(false, true)));
        assert !Enabled(s, WsCompletes(e, Ws.ReadDone(Ws.ReadFailed, true)));
        assert !Enabled(s, WsCompletes(e, Ws.CloseDone(false, true)));
      }
    }
  }

  // ---------------------------------------------------------------------------------------------
  // A WebSocket that stopped reading.

  /** It read an empty or too big message: no operation is outstanding and no mark-unused was posted. */
  ghost predicate Stalled(s: State, e: Entity) {
    && e in s.stage && s.stage[e].Ws?
    && e in s.reg.ents && s.reg.ents[e].ws.Some? && s.reg.ents[e].ws.value.op.NoOp?
  }

  lemma TickKeepsStalled(s: State, e: Entity)
    requires Invariant(s) && s.tasks != [] && s.tasks[0].Update? && Stalled(s, e)
    ensures Stalled(TaskStep(s, None), e)
  {
    KnownConnection(s.stage, s.reg, s.nextId, e);
    TickMovesOne(s.stage, s.reg, s.nextId, e);
    TickAt(s.reg, e);
    TickKeepsSession(s.reg.ents[e]);
  }

  lemma TickKeepsSession(x: Ent)
    ensures Survivor(x).ws == x.ws
  {
    AcceptKeepsSession(x);
    DetectKeepsSession(HandleAccept(x));
    TagsKeepSession(Results(x));
  }

  lemma AcceptKeepsSession(x: Ent)
    ensures HandleAccept(x).ws == x.ws
  {
  }

  lemma DetectKeepsSession(x: Ent)
    ensures HandleDetect(x).ws == x.ws
  {
  }

  lemma TagsKeepSession(x: Ent)
    ensures FinishConstruction(ForgetJustDone(x)).ws == x.ws
  {
  }

  lemma TaskKeepsStalled(s: State, reused: Option<Entity>, e: Entity)
    requires Invariant(s) && Enabled(s, RunTask(reused)) && Stalled(s, e)
    ensures Stalled(TaskStep(s, reused), e)
  {
    KnownConnection(s.stage, s.reg, s.nextId, e);
    assert s.tasks[0] in s.tasks;
    if s.tasks[0].Update? {
      TickKeepsStalled(s, e);
    } else if s.tasks[0].Allocate? && reused.Some? {
      ReusedWasMarked(s, reused.value);
    }
  }

  lemma CompletionKeepsStalled(s: State, ev: Event, e: Entity)
    requires Invariant(s) && Enabled(s, ev) && Stalled(s, e)
    requires ev.DetectCompletes? || ev.HttpCompletes? || ev.WsCompletes?
    ensures Stalled(Apply(s, ev), e)
  {
    KnownConnection(s.stage, s.reg, s.nextId, e);
    assert ev.e != e;
  }

  lemma StepKeepsStalled(s: State, ev: Event, e: Entity)
    requires Invariant(s) && Enabled(s, ev) && Stalled(s, e)
    ensures Stalled(Apply(s, ev), e)
  {
    match ev {
      case RunStrand(outcome) => FirstOfStrand(s);
      case RunTask(reused) => TaskKeepsStalled(s, reused, e);
      case DetectCompletes(_, _, _, _) => CompletionKeepsStalled(s, ev, e);
      case HttpCompletes(_, _) => CompletionKeepsStalled(s, ev, e);
      case WsCompletes(_, _) => CompletionKeepsStalled(s, ev, e);
      case _ =>
    }
  }

  /** A stalled WebSocket stays so: nothing the running server does frees its entity. What asking the
      WebSockets to end changes is said in `Closing`. */
  lemma {:induction false} StalledStaysForever(run: seq<Event>, more: seq<Event>, e: Entity)
    requires After(run + more).Some? && After(run).Some? && Stalled(After(run).value, e)
    ensures Stalled(After(run + more).value, e)
    decreases |more|
  {
    if more == [] {
      assert run + more == run;
    } else {
      var rest := more[..|more| - 1];
      assert (run + more)[..|run + more| - 1] == run + rest;
      StalledStaysForever(run, rest, e);
      ReachableIsInvariant(run + rest);
      StepKeepsStalled(After(run + rest).value, more[|more| - 1], e);
    }
  }

  /** An empty or a too big message gets a connection there. */
  lemma StalledIsReachable(outcome: Ws.ReadOutcome) returns (run: seq<Event>, s: State)
    requires outcome == Ws.EmptyMessage || outcome == Ws.TooBigMessage
    ensures After(run) == Some(s) && Stalled(s, 0)
  {
    run, s := ReachUpgraded();
    run, s := Extend(run, s, WsCompletes(0, Ws.AcceptDone(false, true)));
    assert Looks(s, [DoAccept], None, [], READING);
    run, s := Extend(run, s, WsCompletes(0, Ws.ReadDone(outcome, true)));
    assert s.reg.ents[0] == CLOSED;
    ReachableIsInvariant(run);
    KnownConnection(s.stage, s.reg, s.nextId, 0);
  }

  // ---------------------------------------------------------------------------------------------
  // Received messages belong to somebody.

  ghost predicate IsChild(children: Children, m: Entity) {
    exists p :: p in children && m in children[p]
  }

  /** Every entity that is not a connection is in the list of one. */
  ghost predicate MessagesAreChildren(s: State) {
    forall m :: m in s.reg.ents && m !in s.stage ==> IsChild(s.reg.children, m)
  }

  lemma LeavingKeepsChild(reg: Registry, next: Registry, failing: set<Entity>, m: Entity)
    requires Leaves(reg, next, failing) && m in next.ents && IsChild(reg.children, m)
    ensures IsChild(next.children, m)
  {
    var p :| p in reg.children && m in reg.children[p];
    assert p !in failing;
    assert p in next.children && m in next.children[p];
  }

  lemma UpdateKeepsChildren(s: State)
    requires Invariant(s) && s.tasks != [] && s.tasks[0].Update? && MessagesAreChildren(s)
    ensures MessagesAreChildren(TaskStep(s, None))
  {
    var reg, next := s.reg, Tick(s.reg);
    TickLeaves(reg);
    assert next.ents.Keys <= reg.ents.Keys;
    forall m | m in next.ents && m !in s.stage
      ensures IsChild(next.children, m)
    {
      LeavingKeepsChild(reg, next, Failing(reg.ents), m);
    }
  }

  lemma ReceiveKeepsChildren(s: State)
    requires Invariant(s) && s.tasks != [] && s.tasks[0].Receive? && MessagesAreChildren(s)
    ensures MessagesAreChildren(TaskStep(s, None))
  {
    var next := TaskStep(s, None);
    forall m | m in next.reg.ents && m !in s.stage
      ensures IsChild(next.reg.children, m)
    {
      if m in s.reg.ents {
        assert IsChild(s.reg.children, m);
        var p :| p in s.reg.children && m in s.reg.children[p];
        assert p in next.reg.children && m in next.reg.children[p];
      } else {
        var p := s.tasks[0].e;
        assert p in next.reg.children && m in next.reg.children[p];
      }
    }
  }

  lemma SameMessages(s: State, next: State)
    requires MessagesAreChildren(s) && next.reg.children == s.reg.children
    requires forall m :: m in next.reg.ents && m !in next.stage ==> m in s.reg.ents && m !in s.stage
    ensures MessagesAreChildren(next)
  {
  }

  lemma OtherTaskKeepsChildren(s: State, reused: Option<Entity>)
    requires Invariant(s) && Enabled(s, RunTask(reused)) && MessagesAreChildren(s)
    requires !s.tasks[0].Update? && !s.tasks[0].Receive?
    ensures MessagesAreChildren(TaskStep(s, reused))
  {
    TaskAddsNoMessage(s, reused);
    SameMessages(s, TaskStep(s, reused));
  }

  lemma TaskAddsNoMessage(s: State, reused: Option<Entity>)
    requires Enabled(s, RunTask(reused)) && !s.tasks[0].Update? && !s.tasks[0].Receive?
    ensures var next := TaskStep(s, reused);
            && next.reg.children == s.reg.children && s.stage.Keys <= next.stage.Keys
            && forall m :: m in next.reg.ents && m !in next.stage ==> m in s.reg.ents
  {
  }

  lemma OtherStepKeepsChildren(s: State, ev: Event)
    requires Invariant(s) && Enabled(s, ev) && MessagesAreChildren(s) && !ev.RunTask?
    ensures MessagesAreChildren(Apply(s, ev))
  {
    SameMessages(s, Apply(s, ev));
  }

  lemma StepKeepsChildren(s: State, ev: Event)
    requires Invariant(s) && Enabled(s, ev) && MessagesAreChildren(s)
    ensures MessagesAreChildren(Apply(s, ev))
  {
    if ev.RunTask? && s.tasks[0].Update? {
      UpdateKeepsChildren(s);
    } else if ev.RunTask? && s.tasks[0].Receive? {
      ReceiveKeepsChildren(s);
    } else if ev.RunTask? {
      OtherTaskKeepsChildren(s, ev.reused);
    } else {
      OtherStepKeepsChildren(s, ev);
    }
  }

  lemma {:induction false} ReachableMessagesAreChildren(run: seq<Event>)
    requires After(run).Some?
    ensures MessagesAreChildren(After(run).value)
  {
    if run != [] {
      var before := run[..|run| - 1];
      ReachableIsInvariant(before);
      ReachableMessagesAreChildren(before);
      StepKeepsChildren(After(before).value, run[|run| - 1]);
    }
  }

  // ---------------------------------------------------------------------------------------------
  // What is left at rest.

  const UPDATE := [PostUpdate, RunTask(None)]

  ghost predicate Live(s: State, e: Entity) {
    e in s.stage && !s.stage[e].Gone?
  }

  /** Right after an update nothing is unused or in delayed construction. */
  ghost predicate JustUpdated(s: State) {
    forall e :: e in s.reg.ents ==> !s.reg.ents[e].unused && !s.reg.ents[e].delayed
  }

  lemma UpdateAlone(run: seq<Event>, s: State) returns (next: State)
    requires After(run) == Some(s) && s.tasks == []
    ensures After(run + UPDATE) == Some(next) && next == TaskStep(s.(tasks := [Update]), None)
  {
    var longer, all, posted;
    longer, posted := Extend(run, s, PostUpdate);
    assert posted == s.(tasks := [Update]);
    all, next := Extend(longer, posted, RunTask(None));
    assert all == run + UPDATE;
  }

  lemma UpdateIsFresh(s: State)
    requires Invariant(s) && s.tasks == [Update]
    ensures JustUpdated(TaskStep(s, None)) && TaskStep(s, None).tasks == []
  {
    TickIsFresh(s.reg);
  }

  lemma TickIsFresh(reg: Registry)
    requires Consistent(reg)
    ensures forall e :: e in Tick(reg).ents ==> !Tick(reg).ents[e].unused && !Tick(reg).ents[e].delayed
  {
    TickLeavesNoGarbage(reg);
    forall e | e in Tick(reg).ents
      ensures !Tick(reg).ents[e].delayed
    {
      TickAt(reg, e);
      ConstructionTakesOneTick(reg, e);
    }
  }

  /** At rest a live connection is an orphan, a stalled WebSocket, or waits for an update. */
  lemma RestStages(s: State, e: Entity)
    requires Invariant(s) && AtRest(s) && Live(s, e)
    ensures IsOrphan(s, e) || Stalled(s, e) || Marked(s.stage[e])
            || s.stage[e].AcceptRecorded? || s.stage[e].DetectRecorded?
  {
    KnownConnection(s.stage, s.reg, s.nextId, e);
    assert Served(s.stage[e], e, s.tasks);
    LastHolderIsOrphan(s);
  }

  /** A result that is still recorded after an update was not there before, unless it was delayed. */
  lemma UpdateHandlesRecorded(s: State, e: Entity)
    requires Invariant(s) && s.tasks != [] && s.tasks[0].Update? && JustUpdated(s) && Live(s, e)
    ensures var st := TaskStep(s, None).stage[e]; !st.AcceptRecorded? && !st.DetectRecorded?
  {
    KnownConnection(s.stage, s.reg, s.nextId, e);
    TickMovesOne(s.stage, s.reg, s.nextId, e);
  }

  lemma FreshRestStages(t: State, e: Entity)
    requires Invariant(t) && AtRest(t) && JustUpdated(t) && Live(t, e)
    requires !t.stage[e].AcceptRecorded? && !t.stage[e].DetectRecorded?
    ensures IsOrphan(t, e) || Stalled(t, e)
  {
    RestStages(t, e);
    KnownConnection(t.stage, t.reg, t.nextId, e);
  }

  lemma LiveWasLive(m: State, e: Entity)
    requires Invariant(m) && m.tasks == [Update] && Live(TaskStep(m, None), e)
    ensures Live(m, e)
  {
    TickMovesOne(m.stage, m.reg, m.nextId, e);
  }

  lemma PostedIsInvariant(s: State)
    requires Invariant(s) && s.tasks == []
    ensures Invariant(s.(tasks := [Update]))
  {
    PostUpdateKeeps(s);
    assert s.tasks + [Update] == [Update];
  }

  /** The state in which a second update runs. */
  lemma SecondUpdate(run: seq<Event>, s: State) returns (m: State)
    requires After(run) == Some(s) && s.tasks == []
    ensures Invariant(m) && m.tasks == [Update] && JustUpdated(m)
    ensures After(run + UPDATE + UPDATE) == Some(TaskStep(m, None))
  {
    ReachableIsInvariant(run);
    PostedIsInvariant(s);
    var next := UpdateAlone(run, s);
    UpdateIsFresh(s.(tasks := [Update]));
    ReachableIsInvariant(run + UPDATE);
    PostedIsInvariant(next);
    m := next.(tasks := [Update]);
    var t := UpdateAlone(run + UPDATE, next);
  }

  /** The leak of the running server, exactly: if nothing is queued and nothing outstanding after two
      updates, the connections still there are the orphans and the stalled WebSockets. */
  lemma LiveAtRest(run: seq<Event>, e: Entity)
    requires After(run).Some? && After(run).value.tasks == []
    requires After(run + UPDATE + UPDATE).Some? && AtRest(After(run + UPDATE + UPDATE).value)
    ensures var t := After(run + UPDATE + UPDATE).value; Live(t, e) <==> IsOrphan(t, e) || Stalled(t, e)
  {
    var t := After(run + UPDATE + UPDATE).value;
    if Live(t, e) {
      var m := SecondUpdate(run, After(run).value);
      ReachableIsInvariant(run + UPDATE + UPDATE);
      LiveWasLive(m, e);
      UpdateHandlesRecorded(m, e);
      UpdateIsFresh(m);
      FreshRestStages(t, e);
    }
  }

  lemma SomebodyIsLive(s: State, e: Entity) returns (p: Entity)
    requires Invariant(s) && MessagesAreChildren(s) && e in s.reg.ents
    ensures Live(s, p)
  {
    KnownConnection(s.stage, s.reg, s.nextId, e);
    if e in s.stage {
      p := e;
    } else {
      assert IsChild(s.reg.children, e);
      p :| p in s.reg.children && e in s.reg.children[p];
      KnownConnection(s.stage, s.reg, s.nextId, p);
    }
  }

  /** So the registry is empty then exactly when there is neither. */
  lemma RegistryEmptiesExactlyWhen(run: seq<Event>)
    requires After(run).Some? && After(run).value.tasks == []
    requires After(run + UPDATE + UPDATE).Some? && AtRest(After(run + UPDATE + UPDATE).value)
    ensures var t := After(run + UPDATE + UPDATE).value;
            t.reg.ents == map[] <==> forall e: Entity :: !IsOrphan(t, e) && !Stalled(t, e)
  {
    var t := After(run + UPDATE + UPDATE).value;
    ReachableIsInvariant(run + UPDATE + UPDATE);
    ReachableMessagesAreChildren(run + UPDATE + UPDATE);
    forall e: Entity
      ensures Live(t, e) <==> IsOrphan(t, e) || Stalled(t, e)
    {
      LiveAtRest(run, e);
    }
    if forall e: Entity :: !IsOrphan(t, e) && !Stalled(t, e) {
      if e :| e in t.reg.ents {
        var p := SomebodyIsLive(t, e);
      }
      assert t.reg.ents == map[];
    }
    forall e: Entity | IsOrphan(t, e)
      ensures e in t.reg.ents
    {
      KnownConnection(t.stage, t.reg, t.nextId, e);
    }
  }
}
