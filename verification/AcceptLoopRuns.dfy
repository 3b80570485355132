/** What the accept loop guarantees over whole runs of the server. */
module AcceptLoopRuns {
  import opened Wrappers
  import opened Entities
  import opened RegistryTasks
  import opened Listening
  import opened Connections
  import opened Server
  import opened Lifecycle
  import opened RegistryQueue
  import opened AcceptLoop
  import opened Safety

  function Token(s: State): nat {
    Tokens(s.acceptor.accepting, s.strand, s.tasks)
  }

  ghost function LackingOnes(s: State): set<Entity> {
    set e | e in s.stage && Lacking(s.stage[e])
  }

  /** Single token: over all interleavings at most one of {configure posted, `doAccept` posted, allocate
      posted, `asyncAccept` posted, accept outstanding} exists; the checks of the next strand task hold. */
  lemma SingleToken(run: seq<Event>)
    requires After(run).Some?
    ensures Token(After(run).value) <= 1
    ensures var s := After(run).value; s.strand != [] ==> StrandReady(s.acceptor, s.strand[0])
  {
    ReachableIsInvariant(run);
    if After(run).value.strand != [] {
      FirstOfStrand(After(run).value);
    }
  }

  lemma LackingIsOne(s: State)
    requires LoopInv(s)
    ensures LackingOnes(s) == if s.lacking.Some? then {s.lacking.value} else {}
  {
  }

  /** Conservation: every allocated entity has its result recorded, but at most one. */
  lemma AtMostOneLacksItsResult(run: seq<Event>)
    requires After(run).Some?
    ensures var s := After(run).value;
            |LackingOnes(s)| <= 1 && s.allocations == s.recordings + |LackingOnes(s)|
  {
    ReachableIsInvariant(run);
    LackingIsOne(After(run).value);
  }

  /** FIFO: the result of one connection is recorded before the entity of the next is allocated. */
  lemma RecordedBeforeNextAllocation(run: seq<Event>, reused: Option<Entity>)
    requires After(run + [RunTask(reused)]).Some?
    requires var s := After(run).value; s.tasks != [] && s.tasks[0].Allocate?
    ensures var s := After(run).value; LackingOnes(s) == {} && s.allocations == s.recordings
  {
    assert (run + [RunTask(reused)])[..|run|] == run;
    ReachableIsInvariant(run);
    LackingIsOne(After(run).value);
    AllocationFindsNoLacking(After(run).value);
  }

  /** The accept loop works with `e`: it is in an `asyncAccept` task, in the accept or in a result task. */
  ghost predicate InAcceptLoop(s: State, e: Entity) {
    || AsyncAccept(e) in s.strand
    || s.acceptor.accepting == Some(e)
    || exists ec, socket :: SetAccept(e, ec, socket) in s.tasks
  }

  /** Entity validity across ticks: however updates interleave, an entity the accept loop works with is
      alive, has its strand and is neither unused nor about to be destroyed. */
  lemma AcceptedEntityStaysValid(run: seq<Event>, e: Entity)
    requires After(run).Some? && InAcceptLoop(After(run).value, e)
    ensures var ents := After(run).value.reg.ents;
            e in ents && ents[e].tcp && ents[e].strand && !ents[e].unused && !ents[e].dying
  {
    ReachableIsInvariant(run);
    var s := After(run).value;
    if AsyncAccept(e) !in s.strand && s.acceptor.accepting != Some(e) {
      var ec, socket :| SetAccept(e, ec, socket) in s.tasks;
      assert TaskFits(s.stage, SetAccept(e, ec, socket));
    }
    KnownConnection(s.stage, s.reg, s.nextId, e);
  }

  // ---------------------------------------------------------------------------------------------
  // After the acceptor is closed.

  ghost predicate Stopped(s: State) {
    s.acceptor.sm == Terminated
  }

  /** An entity will be left without a result, or is already. */
  predicate Leaks(s: State) {
    Count(s.tasks, IsAllocate) > 0 || Count(s.strand, IsAsyncAccept) > 0 || Lost(s.stage, s.lacking)
  }

  /** The steps the loop can still take once it is closed. */
  function Work(s: State): nat {
    Count(s.strand, IsLoopTask) + 2 * Count(s.tasks, IsAllocate) + 3 * One(s.acceptor.accepting.Some?)
    + Count(s.tasks, IsSetAccept)
  }

  predicate IsLoopStep(s: State, ev: Event)
    requires Enabled(s, ev)
  {
    match ev
    case RunStrand(_) => IsLoopTask(s.strand[0])
    case RunTask(_) => InLoop(s.tasks[0])
    case AcceptCompletes(_, _) => true
    case _ => false
  }

  function Promised(s: State): nat {
    s.allocations + Count(s.tasks, IsAllocate)
  }

  /** What one step of a stopped server leaves as it was. */
  ghost predicate KeepsStopped(s: State, next: State, loop: bool) {
    && Stopped(next) && (Leaks(next) <==> Leaks(s))
    && Work(next) + One(loop) == Work(s)
    && Promised(next) == Promised(s)
  }

  lemma StoppedOther(s: State, next: State)
    requires LoopInv(s) && Stopped(s) && Spares(s, next)
    ensures KeepsStopped(s, next, false)
  {
    assert Lost(next.stage, next.lacking) == Lost(s.stage, s.lacking);
  }

  lemma StoppedStrand(s: State, outcome: ConfigureOutcome)
    requires LoopInv(s) && Stopped(s) && s.strand != []
    ensures KeepsStopped(s, StrandStep(s, outcome), IsLoopTask(s.strand[0]))
  {
    FirstOfStrand(s);
    assert s.tasks + [] == s.tasks;
  }

  lemma StoppedAccept(s: State, ec: bool, isOpen: bool)
    requires LoopInv(s) && Stopped(s) && s.acceptor.accepting.Some?
    ensures KeepsStopped(s, AcceptStep(s, ec, isOpen), true)
  {
    var t := AcceptStep(s, ec, isOpen).tasks[|s.tasks|];
    CountMonotone(s.strand, IsAsyncAccept, IsLoopTask);
    CountConcat(s.strand, [DoAccept], IsLoopTask);
    CountConcat(s.strand, [DoAccept], IsAsyncAccept);
    CountConcat(s.tasks, [t], IsAllocate);
    CountConcat(s.tasks, [t], IsSetAccept);
  }

  lemma StoppedAllocate(s: State, reused: Option<Entity>)
    requires LoopInv(s) && Stopped(s) && s.tasks != [] && s.tasks[0].Allocate?
    ensures KeepsStopped(s, TaskStep(s, reused), true)
  {
    var e := Allocated(s.nextId, reused);
    CountConcat(s.strand, [AsyncAccept(e)], IsLoopTask);
    CountConcat(s.strand, [AsyncAccept(e)], IsAsyncAccept);
  }

  lemma StoppedSetAccept(s: State)
    requires LoopInv(s) && Stopped(s) && s.tasks != [] && s.tasks[0].SetAccept?
    ensures KeepsStopped(s, TaskStep(s, None), true)
  {
  }

  lemma StoppedPostStop(s: State)
    requires LoopInv(s) && Stopped(s)
    ensures KeepsStopped(s, s.(strand := s.strand + [Stop]), false)
  {
    CountConcat(s.strand, [Stop], IsLoopTask);
    CountConcat(s.strand, [Stop], IsAsyncAccept);
  }

  lemma StoppedStep(s: State, ev: Event)
    requires Invariant(s) && Stopped(s) && Enabled(s, ev) && Clean(s, ev)
    ensures KeepsStopped(s, Apply(s, ev), IsLoopStep(s, ev))
  {
    StepKeeps(s, ev);
    if Elsewhere(s, ev) {
      StoppedOther(s, Apply(s, ev));
    } else {
      match ev {
        case RunStrand(outcome) => StoppedStrand(s, outcome);
        case PostStop => StoppedPostStop(s);
        case AcceptCompletes(ec, isOpen) => StoppedAccept(s, ec, isOpen);
        case RunTask(reused) =>
          if s.tasks[0].Allocate? {
            StoppedAllocate(s, reused);
          } else {
            StoppedSetAccept(s);
          }
      }
    }
  }

  /** How many of the events after the first `n` are steps of the loop. */
  ghost function LoopSteps(run: seq<Event>, n: nat): nat
    requires After(run).Some?
  {
    if |run| <= n then 0
    else
      var before := run[..|run| - 1];
      LoopSteps(before, n) + One(IsLoopStep(After(before).value, run[|run| - 1]))
  }

  lemma {:induction false} StoppedRun(run: seq<Event>, more: seq<Event>)
    requires After(run + more).Some?
    ensures After(run).Some?
    ensures Stopped(After(run).value) ==>
      var s, t := After(run).value, After(run + more).value;
      && Stopped(t) && (Leaks(t) <==> Leaks(s)) && Promised(t) == Promised(s)
      && Work(t) + LoopSteps(run + more, |run|) == Work(s)
    decreases |more|
  {
    if more == [] {
      assert run + more == run;
    } else {
      var rest := more[..|more| - 1];
      assert (run + more)[..|run + more| - 1] == run + rest;
      StoppedRun(run, rest);
      if Stopped(After(run).value) {
        StoppedOneMore(run + rest, more[|more| - 1], |run|);
        assert run + rest + [more[|more| - 1]] == run + more;
      }
    }
  }

  lemma StoppedOneMore(run: seq<Event>, ev: Event, n: nat)
    requires After(run + [ev]).Some? && After(run).Some? && Stopped(After(run).value) && n <= |run|
    ensures var s, t := After(run).value, After(run + [ev]).value;
            && Stopped(t) && (Leaks(t) <==> Leaks(s)) && Promised(t) == Promised(s)
            && Work(t) + LoopSteps(run + [ev], n) == Work(s) + LoopSteps(run, n)
  {
    assert (run + [ev])[..|run|] == run;
    ReachableIsInvariant(run);
    StoppedStep(After(run).value, ev);
  }

  /** The loop is over: nothing of it is posted or outstanding. */
  ghost predicate LoopOver(s: State) {
    && (forall t :: t in s.strand ==> t.Stop?)
    && (forall t :: t in s.tasks ==> !InLoop(t))
    && s.acceptor.accepting.None?
  }

  /** This event is the stop that closes the open acceptor. */
  ghost predicate Closes(s: State, ev: Event) {
    s.acceptor.open && s.strand != [] && s.strand[0].Stop? && ev.RunStrand?
  }

  /** When the acceptor is closed, the token is at allocate-posted or at `asyncAccept`-posted. */
  ghost predicate TokenWithEntity(s: State) {
    (exists t :: t in s.tasks && t.Allocate?) || (exists t :: t in s.strand && t.AsyncAccept?)
  }

  lemma StopStep(s: State, ev: Event)
    requires LoopInv(s) && Closes(s, ev)
    ensures var next := StrandStep(s, ev.outcome);
            && Stopped(next) && (Leaks(next) <==> TokenWithEntity(s)) && Work(next) <= 3
            && Promised(next) == s.allocations + Count(s.tasks, IsAllocate) && next.allocations == s.allocations
  {
    assert s.tasks + [] == s.tasks;
    CountPositive(s.tasks, IsAllocate);
    CountPositive(s.strand, IsAsyncAccept);
    CountMonotone(s.strand, IsAsyncAccept, IsLoopTask);
  }

  lemma OverWhen(s: State)
    requires LoopInv(s) && Stopped(s)
    ensures LoopOver(s) <==> Work(s) == 0
    ensures LoopOver(s) ==> (Leaks(s) <==> s.lacking.Some?)
  {
    CountPositive(s.strand, IsLoopTask);
    CountPositive(s.tasks, IsAllocate);
    CountPositive(s.tasks, IsSetAccept);
    CountMonotone(s.strand, IsAsyncAccept, IsLoopTask);
  }

  /** Exact accounting at stop. After the stop that closes the acceptor the loop takes at most three
      further steps and makes at most one further allocation; once it is over, allocations exceed
      recorded results by one if the token was with an entity when the stop ran, and are equal
      otherwise. */
  lemma StopAccounting(run: seq<Event>, stop: Event, more: seq<Event>)
    requires After(run + [stop] + more).Some? && After(run).Some? && Closes(After(run).value, stop)
    ensures var s, t := After(run).value, After(run + [stop] + more).value;
            && LoopSteps(run + [stop] + more, |run| + 1) <= 3
            && t.allocations <= s.allocations + 1
            && (LoopOver(t) ==> t.allocations == t.recordings + One(TokenWithEntity(s)))
  {
    var s := After(run).value;
    var t := After(run + [stop] + more).value;
    assert (run + [stop])[..|run|] == run;
    ReachableIsInvariant(run);
    ReachableIsInvariant(run + [stop] + more);
    StoppedRun(run + [stop], more);
    StopStep(s, stop);
    OverWhen(t);
  }

  // ---------------------------------------------------------------------------------------------
  // The entity left behind.

  ghost predicate IsOrphan(s: State, e: Entity) {
    e in s.stage && s.stage[e].Orphan?
  }

  lemma OrphanStays(s: State, ev: Event, e: Entity)
    requires Invariant(s) && Enabled(s, ev) && Clean(s, ev) && IsOrphan(s, e)
    ensures IsOrphan(Apply(s, ev), e)
  {
    StepKeeps(s, ev);
    OrphanEndsTheLoop(s, e);
  }

  lemma OrphanEndsTheLoop(s: State, e: Entity)
    requires LoopInv(s) && IsOrphan(s, e)
    ensures LoopOver(s)
  {
    CountPositive(s.strand, IsLoopTask);
    CountPositive(s.tasks, IsAllocate);
    CountPositive(s.tasks, IsSetAccept);
  }

  /** An orphan is never destroyed by anything the running server does: its registry is never empty again.
      What asking the WebSockets to end changes is said in `Closing`. */
  lemma OrphanStaysForever(run: seq<Event>, more: seq<Event>, e: Entity)
    requires After(run + more).Some? && After(run).Some? && IsOrphan(After(run).value, e)
    ensures e in After(run + more).value.reg.ents
  {
    OrphanStaysOrphan(run, more, e);
    ReachableIsInvariant(run + more);
    var t := After(run + more).value;
    KnownConnection(t.stage, t.reg, t.nextId, e);
  }

  lemma {:induction false} OrphanStaysOrphan(run: seq<Event>, more: seq<Event>, e: Entity)
    requires After(run + more).Some? && After(run).Some? && IsOrphan(After(run).value, e)
    ensures IsOrphan(After(run + more).value, e)
    decreases |more|
  {
    if more == [] {
      assert run + more == run;
    } else {
      var rest := more[..|more| - 1];
      assert (run + more)[..|run + more| - 1] == run + rest;
      OrphanStaysOrphan(run, rest, e);
      ReachableIsInvariant(run + rest);
      OrphanStays(After(run + rest).value, more[|more| - 1], e);
    }
  }

  /** Once the loop is over after a stop, an orphan is left exactly when the token was with an entity
      when the stop ran. */
  lemma OrphanLeftExactlyWhen(run: seq<Event>, stop: Event, more: seq<Event>)
    requires After(run + [stop] + more).Some? && After(run).Some? && Closes(After(run).value, stop)
    requires LoopOver(After(run + [stop] + more).value)
    ensures (exists e: Entity :: IsOrphan(After(run + [stop] + more).value, e)) <==> TokenWithEntity(After(run).value)
  {
    var t := After(run + [stop] + more).value;
    assert (run + [stop])[..|run|] == run;
    ReachableIsInvariant(run);
    ReachableIsInvariant(run + [stop] + more);
    StoppedRun(run + [stop], more);
    StopStep(After(run).value, stop);
    OverWhen(t);
    LastHolderIsOrphan(t);
  }

  lemma LastHolderIsOrphan(s: State)
    requires LoopInv(s) && LoopOver(s)
    ensures s.lacking.Some? ==> IsOrphan(s, s.lacking.value)
    ensures forall e: Entity :: IsOrphan(s, e) ==> s.lacking == Some(e)
  {
    CountPositive(s.strand, IsAsyncAccept);
    CountPositive(s.tasks, IsSetAccept);
  }

  lemma ReachStop() returns (run: seq<Event>, s: State)
    ensures After(run) == Some(s) && s.tasks == [Allocate] && s.strand == [Stop] && s.acceptor == Acceptor(true, Started, None)
    ensures s.reg == Registry(map[], map[]) && s.nextId == 0 && s.stage == map[]
  {
    run, s := Extend([], INITIAL, RunStrand(Configured));
    run, s := Extend(run, s, PostStop);
  }

  /** A stop that overtakes the first allocation leaves such an orphan. */
  lemma OrphanIsReachable() returns (run: seq<Event>, stop: Event, more: seq<Event>, s: State)
    ensures After(run).Some? && Closes(After(run).value, stop) && TokenWithEntity(After(run).value)
    ensures After(run + [stop] + more) == Some(s) && LoopOver(s) && IsOrphan(s, 0)
    ensures s.strand == [] && s.tasks == [] && s.acceptor.accepting.None?
    ensures s.reg.ents == map[0 := WithStrand(NEW_CONNECTION)]
  {
    run, s := ReachStop();
    assert Allocate in s.tasks;
    stop := RunStrand(Configured);
    var longer;
    longer, s := Extend(run, s, stop);
    more := [RunTask(None), RunStrand(Configured)];
    longer, s := Extend(longer, s, RunTask(None));
    assert s.strand == [AsyncAccept(0)] && s.tasks == [];
    longer, s := Extend(longer, s, RunStrand(Configured));
    assert run + [stop] + more == longer;
  }
}
