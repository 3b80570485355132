/** The wait for an empty registry. Before each look at the registry every WebSocket is asked to end, so
    the question is what that cannot free. */
module Closing {
  import opened Wrappers
  import opened Entities
  import opened Connections
  import opened Server
  import opened Lifecycle
  import opened Safety
  import opened AcceptLoopRuns
  import opened Leaks
  import Ws = WsSession

  /** Tasks of the registry sequence: one round of `closeNetworkResources`, an update, a mark-unused. */
  datatype Job = CloseAll | UpdateAll | Mark(e: Entity)

  /** `eofs` are the `doEof` posted on connection strands and not yet run, `closes` the outstanding closes;
      `rounds` counts the rounds so far. */
  datatype Phase = Phase(reg: Registry, jobs: seq<Job>, eofs: multiset<Entity>, closes: multiset<Entity>, rounds: nat)

  datatype Step =
    | PostRound
    | PostUpdate
    | RunJob
    | RunEof(e: Entity, stillOpen: bool)
    | CloseCompletes(e: Entity, failed: bool, stillOpen: bool)

  /** The connections a round asks to end: constructed, with a WebSocket channel in their context. */
  function Closable(ents: Ents): set<Entity> {
    set e | e in ents && ents[e].tcp && Constructed(ents[e]) && ents[e].ws.Some?
  }

  predicate CanStep(c: Phase, st: Step) {
    match st
    case PostRound | PostUpdate => true
    case RunJob => c.jobs != []
    case RunEof(e, _) => e in c.eofs
    case CloseCompletes(e, _, _) => e in c.closes && e in c.reg.ents
  }

  function Reopened(e: Entity, stillOpen: bool): multiset<Entity> {
    if stillOpen then multiset{e} else multiset{}
  }

  /** An eof finds its channel through a weak pointer and is dropped with it. */
  function Take(c: Phase, st: Step): Phase
    requires CanStep(c, st)
  {
    match st
    case PostRound => c.(jobs := c.jobs + [CloseAll])
    case PostUpdate => c.(jobs := c.jobs + [UpdateAll])
    case RunJob =>
      var rest := c.(jobs := c.jobs[1..]);
      (match c.jobs[0]
       case CloseAll => rest.(eofs := c.eofs + multiset(Closable(c.reg.ents)), rounds := c.rounds + 1)
       case UpdateAll => rest.(reg := Tick(c.reg))
       case Mark(e) => rest.(reg := c.reg.(ents := MarkUnused(c.reg.ents, e))))
    case RunEof(e, stillOpen) =>
      var rest := c.(eofs := c.eofs - multiset{e});
      if e in c.reg.ents then rest.(jobs := c.jobs + [Mark(e)], closes := c.closes + Reopened(e, stillOpen)) else rest
    case CloseCompletes(e, failed, stillOpen) =>
      var rest := c.(closes := c.closes - multiset{e});
      if failed then rest.(jobs := c.jobs + [Mark(e)], closes := rest.closes + Reopened(e, stillOpen)) else rest
  }

  ghost function AfterSteps(reg: Registry, steps: seq<Step>): Option<Phase> {
    if steps == [] then Some(Phase(reg, [], multiset{}, multiset{}, 0))
    else
      var c := AfterSteps(reg, steps[..|steps| - 1]);
      var st := steps[|steps| - 1];
      if c.Some? && CanStep(c.value, st) then Some(Take(c.value, st)) else None
  }

  /** Closing ends each WebSocket as a session from outside does: an eof posts a mark-unused and starts a
      close if the stream is open, and so does a close that failed. */
  lemma EofsFollowTheSession(c: Phase, e: Entity, failed: bool, stillOpen: bool)
    requires e in c.reg.ents
    ensures e in c.eofs ==>
              var (x, post) := Ws.Take(Ws.Session(Ws.NoOp, c.closes[e]), Ws.OutsideEof(stillOpen));
              var next := Take(c, RunEof(e, stillOpen));
              && next.eofs == c.eofs - multiset{e} && next.jobs == c.jobs + MarksFor(e, post)
              && next.closes == c.closes[e := x.closings]
    ensures e in c.closes ==>
              var (x, post) := Ws.Take(Ws.Session(Ws.NoOp, c.closes[e]), Ws.Own(Ws.CloseDone(failed, stillOpen)));
              var next := Take(c, CloseCompletes(e, failed, stillOpen));
              && next.eofs == c.eofs && next.jobs == c.jobs + MarksFor(e, post)
              && next.closes == c.closes[e := x.closings]
  {
  }

  function MarksFor(e: Entity, post: Ws.Post): seq<Job> {
    if post == Ws.PostMarkUnused then [Mark(e)] else []
  }

  // ---------------------------------------------------------------------------------------------
  // What every step keeps.

  /** No update will change such a connection, unless it is unused. */
  predicate Quiet(x: Ent) {
    !x.delayed && !AcceptPending(x) && !DetectPending(x)
  }

  /** Every message is in a list, and connections are quiet. */
  ghost predicate Calm(reg: Registry) {
    && Consistent(reg)
    && (forall m :: m in reg.ents && !reg.ents[m].tcp ==> IsChild(reg.children, m))
    && (forall e :: e in reg.ents ==> Quiet(reg.ents[e]))
  }

  predicate HasChannel(reg: Registry, e: Entity) {
    e in reg.ents && reg.ents[e].tcp && reg.ents[e].ws.Some?
  }

  predicate NoChannel(reg: Registry, e: Entity) {
    e in reg.ents && reg.ents[e].tcp && reg.ents[e].ws.None?
  }

  ghost predicate Asked(c: Phase, e: Entity) {
    (e in c.reg.ents && c.reg.ents[e].unused) || Mark(e) in c.jobs || e in c.eofs
  }

  /** Channels are where they were, and a connection without one is still there and in use. */
  ghost predicate Kept(reg: Registry, now: Registry) {
    && (forall e :: e in now.ents ==> e in reg.ents && now.ents[e].tcp == reg.ents[e].tcp)
    && (forall e :: HasChannel(now, e) ==> HasChannel(reg, e))
    && (forall e :: NoChannel(now, e) <==> NoChannel(reg, e))
    && (forall e :: NoChannel(reg, e) ==> e in now.ents && !now.ents[e].unused)
  }

  ghost predicate PostedInv(reg: Registry, c: Phase) {
    forall e :: Mark(e) in c.jobs || e in c.eofs || e in c.closes ==> HasChannel(reg, e)
  }

  /** Once a round has run, every connection with a channel was asked to end. */
  ghost predicate AskedInv(c: Phase) {
    c.rounds > 0 ==> forall e :: HasChannel(c.reg, e) ==> Asked(c, e)
  }

  ghost predicate ClosingInv(reg: Registry, c: Phase) {
    Calm(c.reg) && Kept(reg, c.reg) && PostedInv(reg, c) && AskedInv(c)
  }

  lemma QuietSurvives(x: Ent)
    requires Settled(x) && Quiet(x)
    ensures Results(x) == x
    ensures !x.unused ==> Quiet(Survivor(x)) && Survivor(x).tcp == x.tcp && Survivor(x).ws == x.ws && !Survivor(x).unused
  {
  }

  lemma UpdateAt(reg: Registry, e: Entity)
    requires Calm(reg)
    ensures var next := Tick(reg);
            && (e in reg.ents && reg.ents[e].tcp ==> (e in next.ents <==> !reg.ents[e].unused))
            && (e in next.ents ==> e in reg.ents && Quiet(next.ents[e]) && !next.ents[e].unused
                                   && next.ents[e].tcp == reg.ents[e].tcp && next.ents[e].ws == reg.ents[e].ws)
  {
    TickAt(reg, e);
    if e in reg.ents {
      QuietSurvives(reg.ents[e]);
      if reg.ents[e].tcp {
        ConnectionIsNoChild(reg, Failing(reg.ents), e);
      }
    }
  }

  lemma UpdateKeepsCalm(reg: Registry)
    requires Calm(reg)
    ensures Calm(Tick(reg))
  {
    var next := Tick(reg);
    TickKeepsConsistent(reg);
    TickLeaves(reg);
    forall e | e in next.ents
      ensures Quiet(next.ents[e])
      ensures !next.ents[e].tcp ==> IsChild(next.children, e)
    {
      UpdateAt(reg, e);
      if !next.ents[e].tcp {
        LeavingKeepsChild(reg, next, Failing(reg.ents), e);
      }
    }
  }

  lemma MarkKeepsCalm(reg: Registry, e: Entity)
    requires Calm(reg) && (e in reg.ents ==> reg.ents[e].tcp)
    ensures Calm(reg.(ents := MarkUnused(reg.ents, e)))
  {
    var next := reg.(ents := MarkUnused(reg.ents, e));
    if e in reg.ents {
      assert reg.ents[e] != MESSAGE;
    }
    assert Consistent(next);
  }

  /** What an update does to connections with and without a channel. */
  ghost predicate Updates(now: Registry, next: Registry) {
    && (forall e :: e in next.ents ==> e in now.ents && next.ents[e].tcp == now.ents[e].tcp)
    && (forall e :: HasChannel(next, e) ==> HasChannel(now, e) && !now.ents[e].unused)
    && (forall e :: NoChannel(next, e) ==> NoChannel(now, e))
    && (forall e :: NoChannel(now, e) && !now.ents[e].unused ==> NoChannel(next, e) && !next.ents[e].unused)
  }

  lemma TickUpdates(now: Registry)
    requires Calm(now)
    ensures Updates(now, Tick(now))
  {
    var next := Tick(now);
    forall e
      ensures e in next.ents ==> e in now.ents && next.ents[e].tcp == now.ents[e].tcp
      ensures HasChannel(next, e) ==> HasChannel(now, e) && !now.ents[e].unused
      ensures NoChannel(next, e) ==> NoChannel(now, e)
      ensures NoChannel(now, e) && !now.ents[e].unused ==> NoChannel(next, e) && !next.ents[e].unused
    {
      UpdateAt(now, e);
    }
  }

  lemma UpdateJobKeeps(reg: Registry, c: Phase, next: Phase)
    requires Kept(reg, c.reg) && PostedInv(reg, c) && AskedInv(c) && Updates(c.reg, next.reg)
    requires c.jobs != [] && c.jobs[0].UpdateAll? && next == c.(jobs := c.jobs[1..], reg := next.reg)
    ensures Kept(reg, next.reg) && PostedInv(reg, next) && AskedInv(next)
  {
    forall e | HasChannel(next.reg, e) && c.rounds > 0
      ensures Asked(next, e)
    {
      assert Asked(c, e);
    }
  }

  lemma CloseAllKeeps(reg: Registry, c: Phase)
    requires ClosingInv(reg, c) && c.jobs != [] && c.jobs[0].CloseAll?
    ensures ClosingInv(reg, Take(c, RunJob))
  {
    var next := Take(c, RunJob);
    forall e | HasChannel(c.reg, e)
      ensures e in next.eofs
    {
      assert e in Closable(c.reg.ents);
    }
    forall e | e in next.eofs
      ensures HasChannel(reg, e)
    {
      assert e in c.eofs || e in Closable(c.reg.ents);
      assert HasChannel(c.reg, e) || e in c.eofs;
    }
  }

  lemma MarkJobKeeps(reg: Registry, c: Phase)
    requires ClosingInv(reg, c) && c.jobs != [] && c.jobs[0].Mark?
    ensures ClosingInv(reg, Take(c, RunJob))
  {
    var next, e := Take(c, RunJob), c.jobs[0].e;
    assert Mark(e) in c.jobs;
    assert HasChannel(reg, e) && !NoChannel(reg, e);
    MarkKeepsCalm(c.reg, e);
    MarkKeepsChannels(c.reg, e);
    MarkKeepsAsked(c);
  }

  lemma MarkKeepsChannels(now: Registry, e: Entity)
    ensures var next := now.(ents := MarkUnused(now.ents, e));
            && next.ents.Keys == now.ents.Keys
            && (forall d :: HasChannel(next, d) <==> HasChannel(now, d))
            && (forall d :: NoChannel(next, d) <==> NoChannel(now, d))
            && (forall d :: d in now.ents ==> next.ents[d].tcp == now.ents[d].tcp)
            && (forall d :: d in now.ents && d != e ==> next.ents[d] == now.ents[d])
  {
  }

  lemma MarkKeepsAsked(c: Phase)
    requires AskedInv(c) && c.jobs != [] && c.jobs[0].Mark?
    ensures AskedInv(Take(c, RunJob))
  {
    var next := Take(c, RunJob);
    forall d | HasChannel(next.reg, d) && c.rounds > 0
      ensures Asked(next, d)
    {
      assert HasChannel(c.reg, d) && Asked(c, d);
    }
  }

  lemma EofKeeps(reg: Registry, c: Phase, e: Entity, stillOpen: bool)
    requires ClosingInv(reg, c) && CanStep(c, RunEof(e, stillOpen))
    ensures ClosingInv(reg, Take(c, RunEof(e, stillOpen)))
  {
    var next := Take(c, RunEof(e, stillOpen));
    assert HasChannel(reg, e);
    forall d | HasChannel(next.reg, d) && c.rounds > 0
      ensures Asked(next, d)
    {
      assert HasChannel(c.reg, d) && Asked(c, d);
    }
  }

  lemma CloseKeeps(reg: Registry, c: Phase, e: Entity, failed: bool, stillOpen: bool)
    requires ClosingInv(reg, c) && CanStep(c, CloseCompletes(e, failed, stillOpen))
    ensures ClosingInv(reg, Take(c, CloseCompletes(e, failed, stillOpen)))
  {
    var next := Take(c, CloseCompletes(e, failed, stillOpen));
    assert HasChannel(reg, e);
    forall d | HasChannel(next.reg, d) && c.rounds > 0
      ensures Asked(next, d)
    {
      assert HasChannel(c.reg, d) && Asked(c, d);
    }
  }

  lemma PostKeeps(reg: Registry, c: Phase, next: Phase, j: Job)
    requires ClosingInv(reg, c) && !j.Mark? && next == c.(jobs := c.jobs + [j])
    ensures ClosingInv(reg, next)
  {
    assert forall e :: Mark(e) in next.jobs <==> Mark(e) in c.jobs;
    forall d | HasChannel(next.reg, d) && c.rounds > 0
      ensures Asked(next, d)
    {
      assert Asked(c, d);
    }
  }

  lemma StepKeepsClosing(reg: Registry, c: Phase, st: Step)
    requires ClosingInv(reg, c) && CanStep(c, st)
    ensures ClosingInv(reg, Take(c, st))
  {
    match st {
      case PostRound => PostKeeps(reg, c, Take(c, st), CloseAll);
      case PostUpdate => PostKeeps(reg, c, Take(c, st), UpdateAll);
      case RunEof(e, stillOpen) => EofKeeps(reg, c, e, stillOpen);
      case CloseCompletes(e, failed, stillOpen) => CloseKeeps(reg, c, e, failed, stillOpen);
      case RunJob =>
        if c.jobs[0].CloseAll? {
          CloseAllKeeps(reg, c);
        } else if c.jobs[0].Mark? {
          MarkJobKeeps(reg, c);
        } else {
          UpdateKeepsCalm(c.reg);
          TickUpdates(c.reg);
          UpdateJobKeeps(reg, c, Take(c, st));
        }
    }
  }

  /** Where closing starts. */
  ghost predicate Rested(reg: Registry) {
    Calm(reg) && forall e :: e in reg.ents ==> !reg.ents[e].unused
  }

  lemma {:induction false} ClosingIsKept(reg: Registry, steps: seq<Step>)
    requires Rested(reg) && AfterSteps(reg, steps).Some?
    ensures ClosingInv(reg, AfterSteps(reg, steps).value)
  {
    if steps != [] {
      var before := steps[..|steps| - 1];
      ClosingIsKept(reg, before);
      StepKeepsClosing(reg, AfterSteps(reg, before).value, steps[|steps| - 1]);
    }
  }

  // ---------------------------------------------------------------------------------------------
  // When the registry gets empty.

  /** A round has run, and what it asked for was done. */
  ghost predicate RoundDone(c: Phase) {
    c.rounds > 0 && c.jobs == [] && c.eofs == multiset{}
  }

  lemma UnusedGo(now: Registry, e: Entity)
    requires Calm(now) && e in now.ents && forall d :: d in now.ents && now.ents[d].tcp ==> now.ents[d].unused
    ensures e !in Tick(now).ents
  {
    UpdateAt(now, e);
    if !now.ents[e].tcp {
      assert IsChild(now.children, e);
      var p :| p in now.children && e in now.children[p];
      assert p in now.ents && now.ents[p].tcp;
      QuietSurvives(now.ents[p]);
      assert p in Failing(now.ents);
      TickAt(now, e);
    }
  }

  /** After a round that is done, the next update empties the registry exactly when every connection had a
      WebSocket channel when closing began. */
  lemma EmptiesExactlyWhen(reg: Registry, c: Phase)
    requires ClosingInv(reg, c) && RoundDone(c)
    ensures Tick(c.reg).ents == map[] <==> forall e :: !NoChannel(reg, e)
  {
    if forall e :: !NoChannel(reg, e) {
      forall e | e in c.reg.ents && c.reg.ents[e].tcp
        ensures c.reg.ents[e].unused
      {
        assert !NoChannel(c.reg, e) && HasChannel(c.reg, e);
        assert Asked(c, e);
      }
      forall e | e in c.reg.ents
        ensures e !in Tick(c.reg).ents
      {
        UnusedGo(c.reg, e);
      }
      TickLeaves(c.reg);
      assert Tick(c.reg).ents == map[];
    }
    forall e | NoChannel(reg, e)
      ensures e in Tick(c.reg).ents
    {
      UpdateAt(c.reg, e);
    }
  }

  // ---------------------------------------------------------------------------------------------
  // From a server at rest.

  /** Two updates after `run` nothing is queued and nothing outstanding. */
  ghost predicate RestsAfter(run: seq<Event>) {
    && After(run).Some? && After(run).value.tasks == []
    && After(run + UPDATE + UPDATE).Some? && AtRest(After(run + UPDATE + UPDATE).value)
  }

  ghost function RestOf(run: seq<Event>): State
    requires RestsAfter(run)
  {
    After(run + UPDATE + UPDATE).value
  }

  lemma RestIsFresh(run: seq<Event>)
    requires RestsAfter(run)
    ensures Invariant(RestOf(run)) && MessagesAreChildren(RestOf(run)) && JustUpdated(RestOf(run))
  {
    ReachableIsInvariant(run + UPDATE + UPDATE);
    ReachableMessagesAreChildren(run + UPDATE + UPDATE);
    var m := SecondUpdate(run, After(run).value);
    UpdateIsFresh(m);
  }

  lemma RestAt(run: seq<Event>, e: Entity)
    requires RestsAfter(run)
    ensures var t := RestOf(run);
            && (e in t.reg.ents ==> Quiet(t.reg.ents[e]) && !t.reg.ents[e].unused)
            && (e in t.reg.ents && !t.reg.ents[e].tcp ==> IsChild(t.reg.children, e))
            && (NoChannel(t.reg, e) <==> IsOrphan(t, e) && e in t.reg.ents && t.reg.ents[e].ws.None?)
  {
    var t := RestOf(run);
    RestIsFresh(run);
    LiveAtRest(run, e);
    KnownConnection(t.stage, t.reg, t.nextId, e);
  }

  lemma RestIsRested(run: seq<Event>)
    requires RestsAfter(run)
    ensures Rested(RestOf(run).reg)
  {
    RestIsFresh(run);
    var reg := RestOf(run).reg;
    forall e | e in reg.ents
      ensures Quiet(reg.ents[e]) && !reg.ents[e].unused && (!reg.ents[e].tcp ==> IsChild(reg.children, e))
    {
      RestAt(run, e);
    }
  }

  /** The wait for an empty registry, exactly: once a round of closing is done, the next update empties
      the registry if and only if every orphan was taken over with the channel of an ended WebSocket. */
  lemma WaitEndsExactlyWhen(run: seq<Event>, steps: seq<Step>)
    requires RestsAfter(run) && AfterSteps(RestOf(run).reg, steps).Some?
    requires RoundDone(AfterSteps(RestOf(run).reg, steps).value)
    ensures var t, c := RestOf(run), AfterSteps(RestOf(run).reg, steps).value;
            Tick(c.reg).ents == map[] <==>
              forall e: Entity :: IsOrphan(t, e) ==> e in t.reg.ents && t.reg.ents[e].ws.Some?
  {
    var t := RestOf(run);
    RestIsRested(run);
    RestIsFresh(run);
    ClosingIsKept(t.reg, steps);
    EmptiesExactlyWhen(t.reg, AfterSteps(t.reg, steps).value);
    forall e: Entity
      ensures NoChannel(t.reg, e) <==> IsOrphan(t, e) && !(e in t.reg.ents && t.reg.ents[e].ws.Some?)
    {
      RestAt(run, e);
      KnownConnection(t.stage, t.reg, t.nextId, e);
    }
  }

  /** An orphan that never was a WebSocket stays through every sequence of rounds, updates and completions,
      so the wait never ends. */
  lemma OrphanKeepsWaiting(run: seq<Event>, steps: seq<Step>, e: Entity)
    requires RestsAfter(run) && AfterSteps(RestOf(run).reg, steps).Some?
    requires IsOrphan(RestOf(run), e) && e in RestOf(run).reg.ents && RestOf(run).reg.ents[e].ws.None?
    ensures e in AfterSteps(RestOf(run).reg, steps).value.reg.ents
  {
    RestIsRested(run);
    RestAt(run, e);
    ClosingIsKept(RestOf(run).reg, steps);
    assert NoChannel(RestOf(run).reg, e);
  }

  // ---------------------------------------------------------------------------------------------
  // There are such rounds, and such orphans.

  lemma ExtendClosing(reg: Registry, steps: seq<Step>, c: Phase, st: Step) returns (longer: seq<Step>, next: Phase)
    requires AfterSteps(reg, steps) == Some(c) && CanStep(c, st)
    ensures AfterSteps(reg, longer) == Some(next) && next == Take(c, st) && steps <= longer
  {
    longer, next := steps + [st], Take(c, st);
    assert longer[..|steps|] == steps;
  }

  lemma {:induction false} JobsRunOut(reg: Registry, steps: seq<Step>, c: Phase)
    returns (longer: seq<Step>, next: Phase)
    requires AfterSteps(reg, steps) == Some(c)
    ensures AfterSteps(reg, longer) == Some(next) && steps <= longer
    ensures next.jobs == [] && next.rounds >= c.rounds
    decreases |c.jobs|
  {
    longer, next := steps, c;
    if c.jobs != [] {
      longer, next := ExtendClosing(reg, steps, c, RunJob);
      longer, next := JobsRunOut(reg, longer, next);
    }
  }

  lemma {:induction false} EofsRunOut(reg: Registry, steps: seq<Step>, c: Phase)
    returns (longer: seq<Step>, next: Phase)
    requires AfterSteps(reg, steps) == Some(c) && c.rounds > 0 && c.jobs == []
    ensures AfterSteps(reg, longer) == Some(next) && steps <= longer && RoundDone(next)
    decreases |c.eofs|
  {
    longer, next := steps, c;
    if e :| e in c.eofs {
      longer, next := ExtendClosing(reg, longer, next, RunEof(e, false));
      assert |next.eofs| == |c.eofs| - 1;
      if next.jobs != [] {
        assert next.jobs == [Mark(e)];
        longer, next := ExtendClosing(reg, longer, next, RunJob);
      }
      longer, next := EofsRunOut(reg, longer, next);
    }
  }

  /** However far closing went, it can go on until a round is done. */
  lemma RoundCanBeDone(reg: Registry, steps: seq<Step>) returns (longer: seq<Step>)
    requires AfterSteps(reg, steps).Some?
    ensures steps <= longer && AfterSteps(reg, longer).Some? && RoundDone(AfterSteps(reg, longer).value)
  {
    var c := AfterSteps(reg, steps).value;
    longer, c := ExtendClosing(reg, steps, c, PostRound);
    longer, c := RoundsRun(reg, longer, c);
    longer, c := EofsRunOut(reg, longer, c);
  }

  lemma {:induction false} RoundsRun(reg: Registry, steps: seq<Step>, c: Phase)
    returns (longer: seq<Step>, next: Phase)
    requires AfterSteps(reg, steps) == Some(c) && CloseAll in c.jobs
    ensures AfterSteps(reg, longer) == Some(next) && steps <= longer
    ensures next.jobs == [] && next.rounds > 0
    decreases |c.jobs|
  {
    longer, next := ExtendClosing(reg, steps, c, RunJob);
    if c.jobs[0].CloseAll? {
      longer, next := JobsRunOut(reg, longer, next);
    } else {
      longer, next := RoundsRun(reg, longer, next);
    }
  }

  lemma TickKeepsSoleConnection(reg: Registry)
    requires Consistent(reg) && reg.ents.Keys <= {0} && (0 in reg.ents ==> reg.ents[0].ws.None?)
    ensures Tick(reg).ents.Keys <= {0} && (0 in Tick(reg).ents ==> Tick(reg).ents[0].ws.None?)
  {
    TickLeaves(reg);
    TickAt(reg, 0);
    if 0 in Tick(reg).ents {
      TickKeepsSession(reg.ents[0]);
    }
  }

  lemma TwoTicksLater(run: seq<Event>, s: State) returns (t: State)
    requires After(run) == Some(s) && s.tasks == [] && s.strand == [] && s.acceptor.accepting.None?
    requires s.reg.ents.Keys <= {0} && (0 in s.reg.ents ==> s.reg.ents[0].ws.None?)
    ensures After(run + UPDATE + UPDATE) == Some(t)
    ensures t.tasks == [] && t.strand == [] && t.acceptor.accepting.None?
    ensures t.reg.ents.Keys <= {0} && (0 in t.reg.ents ==> t.reg.ents[0].ws.None?)
  {
    ReachableIsInvariant(run);
    var next := UpdateAlone(run, s);
    ReachableIsInvariant(run + UPDATE);
    t := UpdateAlone(run + UPDATE, next);
    TickKeepsSoleConnection(s.reg);
    TickKeepsSoleConnection(next.reg);
  }

  /** A stop that overtakes the first allocation leaves an orphan no round can free. */
  lemma WaitMayNeverEnd() returns (run: seq<Event>)
    ensures RestsAfter(run) && IsOrphan(RestOf(run), 0)
    ensures 0 in RestOf(run).reg.ents && RestOf(run).reg.ents[0].ws.None?
  {
    var before, stop, more, s := OrphanIsReachable();
    run := before + [stop] + more;
    var t := TwoTicksLater(run, s);
    assert run + (UPDATE + UPDATE) == run + UPDATE + UPDATE;
    OrphanStaysForever(run, UPDATE + UPDATE, 0);
    OrphanStaysOrphan(run, UPDATE + UPDATE, 0);
    ReachableIsInvariant(run + UPDATE + UPDATE);
    KnownConnection(t.stage, t.reg, t.nextId, 0);
  }
}
