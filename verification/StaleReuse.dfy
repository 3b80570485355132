/** Why runs with reuse need the hypotheses of `CleanReuse`: a reuse goes wrong exactly when a mark-unused or
    a close outlives its session, and runs of the server get to states where each hypothesis fails. */
module StaleReuse {
  import opened Wrappers
  import opened Sockets
  import opened Entities
  import opened NetworkRegistry
  import opened RegistryTasks
  import opened Listening
  import opened Detection
  import opened Connections
  import opened Server
  import opened Lifecycle
  import opened RegistryQueue
  import opened AcceptLoop
  import opened Safety
  import Http = HttpSession
  import Ws = WsSession

  // ---------------------------------------------------------------------------------------------
  // What a stale mark-unused does.

  /** The state after a run that starts in `s`. */
  ghost function From(s: State, run: seq<Event>): Option<State> {
    if run == [] then Some(s)
    else
      var t := From(s, run[..|run| - 1]);
      var ev := run[|run| - 1];
      if t.Some? && Enabled(t.value, ev) && Clean(t.value, ev) then Some(Apply(t.value, ev)) else None
  }

  lemma {:induction false} FromContinues(run: seq<Event>, s: State, more: seq<Event>)
    requires After(run) == Some(s)
    ensures After(run + more) == From(s, more)
    decreases |more|
  {
    if more == [] {
      assert run + more == run;
    } else {
      FromContinues(run, s, more[..|more| - 1]);
      assert (run + more)[..|run + more| - 1] == run + more[..|more| - 1];
    }
  }

  /** The accept loop is about to accept with an entity that is unused or destroyed. */
  ghost predicate Spoiled(s: State, c: Entity) {
    AsyncAccept(c) in s.strand && (c !in s.reg.ents || s.reg.ents[c].unused)
  }

  ghost predicate MayBeSpoiled(s: State, c: Entity) {
    exists more :: From(s, more).Some? && Spoiled(From(s, more).value, c)
  }

  /** The registry sequence runs `k` tasks while nothing else happens. */
  function Drain(k: nat): seq<Event> {
    if k == 0 then [] else Drain(k - 1) + [RunTask(None)]
  }

  lemma {:induction false} DrainRunsInOrder(s: State, k: nat)
    requires k <= |s.tasks| && forall j :: 0 <= j < k ==> !s.tasks[j].Allocate?
    ensures From(s, Drain(k)).Some?
    ensures var t := From(s, Drain(k)).value; t.tasks == s.tasks[k..] && t.strand == s.strand
  {
    if k > 0 {
      DrainRunsInOrder(s, k - 1);
      var t := From(s, Drain(k - 1)).value;
      assert Drain(k)[..|Drain(k)| - 1] == Drain(k - 1);
      assert t.tasks[0] == s.tasks[k - 1];
      TaskKeepsTheRest(t);
    }
  }

  lemma TaskKeepsTheRest(t: State)
    requires t.tasks != [] && !t.tasks[0].Allocate?
    ensures TaskStep(t, None).tasks == t.tasks[1..] && TaskStep(t, None).strand == t.strand
  {
  }

  lemma MarkingSpoils(t: State, c: Entity)
    requires t.tasks != [] && t.tasks[0] == MarkUnused(c) && AsyncAccept(c) in t.strand
    ensures Spoiled(TaskStep(t, None), c)
  {
  }

  lemma DrainingSpoils(s: State, c: Entity, i: nat)
    requires i < |s.tasks| && s.tasks[i] == MarkUnused(c) && AsyncAccept(c) in s.strand
    requires forall j :: 0 <= j < i ==> !s.tasks[j].Allocate?
    ensures MayBeSpoiled(s, c)
  {
    DrainRunsInOrder(s, i);
    var t := From(s, Drain(i)).value;
    assert Drain(i + 1)[..|Drain(i + 1)| - 1] == Drain(i);
    MarkingSpoils(t, c);
    assert From(s, Drain(i + 1)) == Some(TaskStep(t, None));
  }

  lemma StaleMarkSpoils(s: State, c: Entity)
    requires LoopInv(s) && Enabled(s, RunTask(Some(c))) && MarkUnused(c) in s.tasks
    ensures MayBeSpoiled(TaskStep(s, Some(c)), c)
  {
    var i :| 0 <= i < |s.tasks| && s.tasks[i] == MarkUnused(c);
    var next := TaskStep(s, Some(c));
    assert next.strand == s.strand + [AsyncAccept(c)];
    OneAllocation(s);
    assert next.tasks == s.tasks[1..];
    DrainingSpoils(next, c, i - 1);
  }

  lemma InvariantIsUnspoiled(s: State, c: Entity)
    requires Invariant(s)
    ensures !Spoiled(s, c)
  {
    if AsyncAccept(c) in s.strand {
      KnownConnection(s.stage, s.reg, s.nextId, c);
    }
  }

  lemma CleanReuseIsNeverSpoiled(run: seq<Event>, s: State, c: Entity)
    requires After(run) == Some(s) && Enabled(s, RunTask(Some(c))) && CleanReuse(s, c)
    ensures !MayBeSpoiled(TaskStep(s, Some(c)), c)
  {
    var longer, next := Extend(run, s, RunTask(Some(c)));
    forall more | From(next, more).Some?
      ensures !Spoiled(From(next, more).value, c)
    {
      FromContinues(longer, next, more);
      ReachableIsInvariant(longer + more);
      InvariantIsUnspoiled(From(next, more).value, c);
    }
  }

  /** Only a mark-unused can be queued about an entity the allocator may take over. */
  lemma StaleTasksAreMarks(s: State, c: Entity)
    requires Invariant(s) && c in Candidates(s.reg.ents)
    ensures forall t :: t in s.tasks && About(t, c) ==> t == MarkUnused(c)
  {
    ReusedWasMarked(s, c);
  }

  lemma {:induction false} FromJoins(s: State, run: seq<Event>, next: State, more: seq<Event>)
    requires From(s, run) == Some(next)
    ensures From(s, run + more) == From(next, more)
    decreases |more|
  {
    if more == [] {
      assert run + more == run;
    } else {
      FromJoins(s, run, next, more[..|more| - 1]);
      assert (run + more)[..|run + more| - 1] == run + more[..|more| - 1];
    }
  }

  lemma FromOne(s: State, ev: Event)
    requires Enabled(s, ev) && Clean(s, ev)
    ensures From(s, [ev]) == Some(Apply(s, ev))
  {
    assert [ev][..0] == [];
  }

  lemma SpoiledLater(s: State, ev: Event, c: Entity)
    requires Enabled(s, ev) && Clean(s, ev) && MayBeSpoiled(Apply(s, ev), c)
    ensures MayBeSpoiled(s, c)
  {
    var more :| From(Apply(s, ev), more).Some? && Spoiled(From(Apply(s, ev), more).value, c);
    FromOne(s, ev);
    FromJoins(s, [ev], Apply(s, ev), more);
  }

  /** A close that is outstanding when the allocator takes over the entity may still fail. */
  lemma OutstandingCloseSpoils(s: State, c: Entity)
    requires Invariant(s) && Enabled(s, RunTask(Some(c))) && !IdleWs(s.reg.ents[c])
    ensures MayBeSpoiled(TaskStep(s, Some(c)), c)
  {
    ReusedWasMarked(s, c);
    OneAllocation(s);
    var next := TaskStep(s, Some(c));
    var ev := WsCompletes(c, Ws.CloseDone(true, false));
    assert next.reg.ents[c].ws == s.reg.ents[c].ws && Enabled(next, ev);
    var failed := Apply(next, ev);
    assert failed.tasks == s.tasks[1..] + [MarkUnused(c)] && failed.strand == s.strand + [AsyncAccept(c)];
    DrainingSpoils(failed, c, |s.tasks| - 1);
    SpoiledLater(next, ev, c);
  }

  /** In every reachable state, when the allocator takes over an entity that has no children: some
      continuation gets the accept loop to accept with an unused or destroyed entity exactly when a
      mark-unused of the entity was still queued or a close of its WebSocket outstanding. */
  lemma ReuseIsSpoiltExactlyWhen(run: seq<Event>, c: Entity)
    requires After(run).Some? && Enabled(After(run).value, RunTask(Some(c))) && c !in After(run).value.reg.children
    ensures var s := After(run).value;
            MayBeSpoiled(TaskStep(s, Some(c)), c) <==> MarkUnused(c) in s.tasks || !IdleWs(s.reg.ents[c])
  {
    ReachableIsInvariant(run);
    var s := After(run).value;
    if MarkUnused(c) in s.tasks {
      StaleMarkSpoils(s, c);
    } else if !IdleWs(s.reg.ents[c]) {
      OutstandingCloseSpoils(s, c);
    } else {
      StaleTasksAreMarks(s, c);
      CleanReuseIsNeverSpoiled(run, s, c);
    }
  }

  lemma OneAllocation(s: State)
    requires LoopInv(s) && s.tasks != [] && s.tasks[0].Allocate?
    ensures forall j :: 0 < j < |s.tasks| ==> !s.tasks[j].Allocate?
  {
    CountPositive(s.tasks[1..], IsAllocate);
    forall j | 0 < j < |s.tasks|
      ensures !s.tasks[j].Allocate?
    {
      assert s.tasks[1..][j - 1] == s.tasks[j];
    }
  }

  // ---------------------------------------------------------------------------------------------
  // A run: one connection is accepted, detected and upgraded to WebSocket.

  const SOCKET := Socket(0, true)

  const ALLOCATED := BLANK.(tcp := true, strand := true, delayed := true)
  const ACCEPTED := ALLOCATED.(accept := Some(AcceptResult(false, Some(SOCKET), false)))
  const CONSTRUCTED := ACCEPTED.(delayed := false, justDone := true)
  const DETECTING := CONSTRUCTED.(justDone := false,
                                  accept := Some(AcceptResult(false, None, false)), acceptUsed := true,
                                  detector := Some(DetectChannel(Some(SOCKET), false)))
  const RECORDED := DETECTING.(detector := Some(DETECTED),
                               detect := Some(DetectResult(false, false, Some(SOCKET), false)))
  const HTTP := RECORDED.(detect := Some(DetectResult(false, false, None, false)), detectUsed := true,
                          http := Some(Http.Fresh(Some(SOCKET))))
  const UPGRADED := HTTP.(http := Some(Http.Channel(None, false, true, 0, 0)), ws := Some(Ws.Fresh(Some(SOCKET))))

  /** The only entity is 0, with components `x`. */
  ghost predicate Looks(s: State, strand: seq<StrandTask>, accepting: Option<Entity>, tasks: seq<Task>, x: Ent) {
    && s.acceptor == Acceptor(true, Started, accepting) && s.strand == strand && s.tasks == tasks
    && s.reg == Registry(map[0 := x], map[]) && s.nextId == 1 && 0 in s.stage
  }

  lemma TickOfOne(reg: Registry, x: Ent)
    requires reg == Registry(map[0 := x], map[]) && Settled(x) && !Results(x).unused
    ensures Tick(reg) == Registry(map[0 := Survivor(x)], map[])
  {
    TickLeaves(reg);
    assert Failing(reg.ents) == {} && ChildrenOf(reg.children, {}) == {};
    assert Tick(reg).ents.Keys == {0};
    TickAt(reg, 0);
    SingletonMap(Tick(reg).ents, Survivor(x));
  }

  lemma SingletonMap(ents: Ents, y: Ent)
    requires ents.Keys == {0} && ents[0] == y
    ensures ents == map[0 := y]
  {
  }

  /** Posts an update and runs it. */
  lemma Updated(run: seq<Event>, s: State, strand: seq<StrandTask>, x: Ent) returns (longer: seq<Event>, next: State)
    requires After(run) == Some(s) && Looks(s, strand, None, [], x) && Settled(x) && !Results(x).unused
    ensures After(longer) == Some(next) && Looks(next, strand, None, [], Survivor(x))
  {
    TickOfOne(s.reg, x);
    longer, next := Extend(run, s, PostUpdate);
    longer, next := Extend(longer, next, RunTask(None));
  }

  lemma ReachAllocated() returns (run: seq<Event>, s: State)
    ensures After(run) == Some(s) && Looks(s, [AsyncAccept(0)], None, [], ALLOCATED) && s.nextSocket == 0
  {
    run, s := Extend([], INITIAL, RunStrand(Configured));
    assert Candidates(s.reg.ents) == {};
    run, s := Extend(run, s, RunTask(None));
  }

  lemma ReachAccepted() returns (run: seq<Event>, s: State)
    ensures After(run) == Some(s) && Looks(s, [DoAccept], None, [], ACCEPTED)
  {
    run, s := ReachAllocated();
    run, s := Extend(run, s, RunStrand(Configured));
    run, s := Extend(run, s, AcceptCompletes(false, true));
    assert s.tasks == [SetAccept(0, false, SOCKET)];
    run, s := Extend(run, s, RunTask(None));
  }

  lemma ReachDetected() returns (run: seq<Event>, s: State)
    ensures After(run) == Some(s)
    ensures Looks(s, [DoAccept], None, [SetDetect(0, false, false, Some(SOCKET), false)],
                  DETECTING.(detector := Some(DETECTED)))
  {
    run, s := ReachAccepted();
    run, s := Updated(run, s, [DoAccept], ACCEPTED);
    run, s := Updated(run, s, [DoAccept], CONSTRUCTED);
    assert Looks(s, [DoAccept], None, [], DETECTING);
    run, s := Extend(run, s, DetectCompletes(0, false, false, true));
  }

  lemma ReachHttp() returns (run: seq<Event>, s: State)
    ensures After(run) == Some(s) && Looks(s, [DoAccept], None, [], HTTP)
  {
    run, s := ReachDetected();
    run, s := Extend(run, s, RunTask(None));
    assert Looks(s, [DoAccept], None, [], RECORDED);
    run, s := Updated(run, s, [DoAccept], RECORDED);
  }

  lemma ReachUpgraded() returns (run: seq<Event>, s: State)
    ensures After(run) == Some(s) && Looks(s, [DoAccept], None, [], UPGRADED)
  {
    run, s := ReachHttp();
    run, s := Extend(run, s, HttpCompletes(0, Http.ReadDone(Http.UpgradeRequested)));
    assert s.tasks == [Upgrade(0, Some(SOCKET))];
    run, s := Extend(run, s, RunTask(None));
  }

  const READING := UPGRADED.(ws := Some(Ws.Channel(Some(SOCKET), Ws.Reading)))

  const CLOSED := UPGRADED.(ws := Some(Ws.Channel(Some(SOCKET), Ws.NoOp)))

  lemma ReachClosing() returns (run: seq<Event>, s: State)
    ensures After(run) == Some(s)
    ensures Looks(s, [], None, [MarkUnused(0), Allocate], UPGRADED.(ws := Some(Ws.Channel(Some(SOCKET), Ws.Closing))))
  {
    run, s := ReachUpgraded();
    run, s := Extend(run, s, WsCompletes(0, Ws.AcceptDone(false, true)));
    assert Looks(s, [DoAccept], None, [], READING);
    run, s := Extend(run, s, WsCompletes(0, Ws.ReadDone(Ws.ReadFailed, true)));
    assert s.tasks == [MarkUnused(0)];
    run, s := Extend(run, s, RunStrand(Configured));
  }

  lemma ReachClosed() returns (run: seq<Event>, s: State)
    ensures After(run) == Some(s) && Looks(s, [], None, [MarkUnused(0), Allocate, MarkUnused(0)], CLOSED)
  {
    run, s := ReachClosing();
    run, s := Extend(run, s, WsCompletes(0, Ws.CloseDone(true, false)));
  }

  /** `doEof` twice on one WebSocket, first for a failed read and then for the failed close: the
      first mark-unused makes the entity reusable while the second is still queued. */
  lemma StaleMarkIsReachable() returns (run: seq<Event>, s: State)
    ensures After(run) == Some(s) && Enabled(s, RunTask(Some(0)))
    ensures s.tasks == [Allocate, MarkUnused(0)] && IdleWs(s.reg.ents[0]) && 0 !in s.reg.children
  {
    run, s := ReachClosed();
    run, s := Extend(run, s, RunTask(None));
    assert s.reg.ents[0] == CLOSED.(unused := true);
  }

  /** After a failed read the first mark-unused makes the entity reusable while the close it started is
      still outstanding, and with it, should it fail, a second mark-unused. */
  lemma OutstandingCloseIsReachable() returns (run: seq<Event>, s: State)
    ensures After(run) == Some(s) && Enabled(s, RunTask(Some(0)))
    ensures s.tasks == [Allocate] && !IdleWs(s.reg.ents[0]) && 0 !in s.reg.children
  {
    run, s := ReachClosing();
    run, s := Extend(run, s, RunTask(None));
    assert s.reg.ents[0] == UPGRADED.(ws := Some(Ws.Channel(Some(SOCKET), Ws.Closing)), unused := true);
  }

  lemma ReachReading() returns (run: seq<Event>, s: State)
    ensures After(run) == Some(s) && Looks(s, [DoAccept], None, [Receive(0)], READING)
  {
    run, s := ReachUpgraded();
    run, s := Extend(run, s, WsCompletes(0, Ws.AcceptDone(false, true)));
    assert Looks(s, [DoAccept], None, [], READING);
    run, s := Extend(run, s, WsCompletes(0, Ws.ReadDone(Ws.MessageRead, true)));
  }

  lemma ReachMessage() returns (run: seq<Event>, s: State)
    ensures After(run) == Some(s) && s.strand == [DoAccept] && s.acceptor.open && s.tasks == [] && 0 in s.stage
    ensures s.reg.ents == map[0 := READING, 1 := MESSAGE] && 0 in s.reg.children
  {
    run, s := ReachReading();
    run, s := Extend(run, s, RunTask(None));
  }

  lemma ReachEnded() returns (run: seq<Event>, s: State)
    ensures After(run) == Some(s) && s.tasks == [MarkUnused(0), Allocate]
    ensures s.reg.ents == map[0 := CLOSED, 1 := MESSAGE] && 0 in s.reg.children
  {
    run, s := ReachMessage();
    run, s := Extend(run, s, WsCompletes(0, Ws.ReadDone(Ws.ReadFailed, false)));
    assert s.tasks == [MarkUnused(0)];
    run, s := Extend(run, s, RunStrand(Configured));
  }

  /** A connection that received a message and ended can be picked before the next update: it is clean but
      for its child, which the component whitelist does not allow. */
  lemma ChildrenAreReachable() returns (run: seq<Event>, s: State)
    ensures After(run) == Some(s) && Enabled(s, RunTask(Some(0)))
    ensures s.tasks == [Allocate] && IdleWs(s.reg.ents[0]) && 0 in s.reg.children
  {
    run, s := ReachEnded();
    run, s := Extend(run, s, RunTask(None));
    assert s.reg.ents[0] == CLOSED.(unused := true);
  }
}
