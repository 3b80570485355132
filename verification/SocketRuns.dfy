/** Linear ownership of sockets, and results handled exactly once, over whole runs. */
module SocketRuns {
  import opened Wrappers
  import opened Sockets
  import opened Entities
  import opened RegistryTasks
  import opened Detection
  import opened Connections
  import opened Server
  import opened Lifecycle
  import opened RegistryQueue
  import opened Safety
  import opened SocketOwnership
  import Http = HttpSession

  /** A socket whose accept result was handled is past that result, and so for detect results. */
  ghost predicate HandledInv(s: State) {
    && (forall id :: id in s.acceptsHandled || id in s.detectsHandled ==> id < s.nextSocket)
    && (forall p :: Held(s, p).Some? && Rank(s, p) <= 2 ==> Held(s, p).value !in s.acceptsHandled)
    && (forall p :: Held(s, p).Some? && Rank(s, p) <= 5 ==> Held(s, p).value !in s.detectsHandled)
  }

  lemma AcceptIdIsHeld(s: State, id: nat) returns (e: Entity)
    requires id in AcceptIds(s.reg.ents)
    ensures e in s.reg.ents && AcceptPending(s.reg.ents[e]) && Constructed(s.reg.ents[e])
    ensures Held(s, InAccept(e)) == Some(id)
  {
    var ents := s.reg.ents;
    e :| && e in ents && AcceptPending(ents[e]) && Constructed(ents[e])
         && ents[e].accept.value.socket.Some? && ents[e].accept.value.socket.value.id == id;
  }

  lemma DetectIdIsHeld(s: State, id: nat) returns (e: Entity)
    requires id in DetectIds(AfterAccepts(s.reg.ents))
    ensures e in s.reg.ents && DetectPending(s.reg.ents[e]) && Constructed(s.reg.ents[e])
    ensures Held(s, InDetect(e)) == Some(id)
  {
    var ents := AfterAccepts(s.reg.ents);
    e :| && e in ents && DetectPending(ents[e]) && Constructed(ents[e])
         && ents[e].detect.value.stream.Some? && ents[e].detect.value.stream.value.id == id;
    AcceptKeepsDetect(s.reg.ents[e], ents[e]);
  }

  lemma AcceptKeepsDetect(x: Ent, y: Ent)
    requires y == HandleAccept(x)
    ensures y.detect == x.detect && y.detectUsed == x.detectUsed && (Constructed(y) <==> Constructed(x))
  {
  }

  /** What the tick handles has left the results behind. */
  lemma HandledMovesOn(s: State, p: Place)
    requires Invariant(s) && Linear(s) && s.tasks != [] && s.tasks[0].Update?
    requires var next := TaskStep(s, None);
             Held(next, p).Some? && Held(s, TaskOrigin(s, p)) == Held(next, p)
    ensures var next := TaskStep(s, None);
            && (Held(next, p).value in AcceptIds(s.reg.ents) ==> Rank(next, p) > 2)
            && (Held(next, p).value in DetectIds(AfterAccepts(s.reg.ents)) ==> Rank(next, p) > 5)
  {
    var next := TaskStep(s, None);
    var id := Held(next, p).value;
    if !p.InTask? {
      HeldAfterTick(s, p);
    }
    if id in AcceptIds(s.reg.ents) {
      var e := AcceptIdIsHeld(s, id);
      assert TaskOrigin(s, p) == InAccept(e);
    }
    if id in DetectIds(AfterAccepts(s.reg.ents)) {
      var e := DetectIdIsHeld(s, id);
      assert TaskOrigin(s, p) == InDetect(e);
    }
  }

  lemma HandledIdsAreOld(s: State)
    requires Linear(s)
    ensures forall id :: id in AcceptIds(s.reg.ents) || id in DetectIds(AfterAccepts(s.reg.ents)) ==> id < s.nextSocket
  {
    forall id | id in AcceptIds(s.reg.ents) || id in DetectIds(AfterAccepts(s.reg.ents))
      ensures id < s.nextSocket
    {
      if id in AcceptIds(s.reg.ents) {
        var e := AcceptIdIsHeld(s, id);
      } else {
        var e := DetectIdIsHeld(s, id);
      }
    }
  }

  predicate Updates(s: State, ev: Event)
    requires Enabled(s, ev)
  {
    ev.RunTask? && s.tasks[0].Update?
  }

  lemma HandledGrows(s: State, ev: Event)
    requires Enabled(s, ev)
    ensures var next := Apply(s, ev);
            && next.acceptsHandled == s.acceptsHandled + (if Updates(s, ev) then AcceptIds(s.reg.ents) else {})
            && next.detectsHandled
               == s.detectsHandled + (if Updates(s, ev) then DetectIds(AfterAccepts(s.reg.ents)) else {})
            && next.nextSocket >= s.nextSocket
  {
  }

  lemma PlaceStaysUnhandled(s: State, ev: Event, p: Place)
    requires Invariant(s) && Linear(s) && HandledInv(s) && Enabled(s, ev) && Clean(s, ev)
    requires Held(Apply(s, ev), p).Some?
    ensures var next := Apply(s, ev);
            && (Rank(next, p) <= 2 ==> Held(next, p).value !in next.acceptsHandled)
            && (Rank(next, p) <= 5 ==> Held(next, p).value !in next.detectsHandled)
  {
    OldOrFresh(s, ev, p);
    HandledGrows(s, ev);
    if Updates(s, ev) {
      HandledMovesOn(s, p);
    }
  }

  lemma StepKeepsHandled(s: State, ev: Event)
    requires Invariant(s) && Linear(s) && HandledInv(s) && Enabled(s, ev) && Clean(s, ev)
    ensures HandledInv(Apply(s, ev))
  {
    HandledGrows(s, ev);
    HandledIdsAreOld(s);
    forall p | Held(Apply(s, ev), p).Some?
      ensures Rank(Apply(s, ev), p) <= 2 ==> Held(Apply(s, ev), p).value !in Apply(s, ev).acceptsHandled
      ensures Rank(Apply(s, ev), p) <= 5 ==> Held(Apply(s, ev), p).value !in Apply(s, ev).detectsHandled
    {
      PlaceStaysUnhandled(s, ev, p);
    }
  }

  ghost predicate Owned(s: State) {
    Linear(s) && HandledInv(s)
  }

  lemma InitiallyOwned()
    ensures Owned(INITIAL)
  {
    assert forall p :: Held(INITIAL, p).None?;
  }

  lemma StepKeepsOwned(s: State, ev: Event)
    requires Invariant(s) && Owned(s) && Enabled(s, ev) && Clean(s, ev)
    ensures Owned(Apply(s, ev))
  {
    StepKeepsLinear(s, ev);
    StepKeepsHandled(s, ev);
  }

  lemma {:induction false} ReachableIsOwned(run: seq<Event>)
    requires After(run).Some?
    ensures Owned(After(run).value)
  {
    if run == [] {
      InitiallyOwned();
    } else {
      var before := run[..|run| - 1];
      ReachableIsInvariant(before);
      ReachableIsOwned(before);
      StepKeepsOwned(After(before).value, run[|run| - 1]);
    }
  }

  // ---------------------------------------------------------------------------------------------
  // Main results.

  /** The place of a connection's socket at each stage. */
  predicate OwnerPlace(s: State, e: Entity, p: Place)
    requires e in s.stage
  {
    match s.stage[e]
    case AcceptTask | DetectTask | UpgradeTask => p.InTask? && p.i < |s.tasks| && WaitsFor(s.stage[e], e, s.tasks[p.i])
    case AcceptRecorded => p == InAccept(e)
    case Detecting => p == InDetector(e)
    case DetectRecorded => p == InDetect(e)
    case Http | HttpEnded(_) => p == InHttp(e)
    case Ws | WsEnded(_) => p == InWs(e)
    case _ => false
  }

  lemma OwnerHolds(s: State, e: Entity) returns (p: Place)
    requires Invariant(s) && e in s.stage && !s.stage[e].Gone? && (Lacking(s.stage[e]) ==> s.stage[e].AcceptTask?)
    ensures OwnerPlace(s, e, p) && Held(s, p).Some?
  {
    KnownConnection(s.stage, s.reg, s.nextId, e);
    var st := s.stage[e];
    match st {
      case AcceptTask | DetectTask | UpgradeTask =>
        assert Served(st, e, s.tasks);
        var t :| t in s.tasks && WaitsFor(st, e, t);
        var i :| 0 <= i < |s.tasks| && s.tasks[i] == t;
        p := InTask(i);
      case AcceptRecorded => p := InAccept(e);
      case Detecting => p := InDetector(e);
      case DetectRecorded => p := InDetect(e);
      case Http => p := InHttp(e);
      case HttpEnded(_) => p := InHttp(e);
      case Ws => p := InWs(e);
      case WsEnded(_) => p := InWs(e);
    }
  }

  /** Linear ownership: in every reachable state the socket of each connection that was accepted and is
      not gone is where its stage says, and nowhere else. */
  lemma SocketHasOneOwner(run: seq<Event>, e: Entity) returns (p: Place)
    requires After(run).Some?
    requires var s := After(run).value;
             e in s.stage && !s.stage[e].Gone? && (Lacking(s.stage[e]) ==> s.stage[e].AcceptTask?)
    ensures var s := After(run).value;
            && OwnerPlace(s, e, p) && Held(s, p).Some?
            && forall q :: Held(s, q) == Held(s, p) ==> q == p
  {
    ReachableIsInvariant(run);
    ReachableIsOwned(run);
    p := OwnerHolds(After(run).value, e);
  }

  /** Ownership only moves forward, whatever the step. */
  lemma SocketsMoveForward(run: seq<Event>, ev: Event, p: Place, q: Place)
    requires After(run + [ev]).Some? && After(run).Some?
    requires Held(After(run).value, p).Some? && Held(After(run).value, p) == Held(After(run + [ev]).value, q)
    ensures Rank(After(run).value, p) <= Rank(After(run + [ev]).value, q)
  {
    assert (run + [ev])[..|run|] == run;
    ReachableIsInvariant(run);
    ReachableIsOwned(run);
    OldOrFresh(After(run).value, ev, q);
  }

  /** A result without its "unused result" tag is exactly one that still owns a socket. */
  lemma UnhandledResultsOwnSockets(run: seq<Event>, e: Entity)
    requires After(run).Some? && e in After(run).value.reg.ents
    ensures var s := After(run).value; var x := s.reg.ents[e];
            && (x.accept.Some? ==> (!x.acceptUsed <==> Held(s, InAccept(e)).Some?))
            && (x.detect.Some? ==> (!x.detectUsed <==> Held(s, InDetect(e)).Some?))
  {
    ReachableIsInvariant(run);
    var s := After(run).value;
    assert Known(s.stage, s.reg.ents, e);
  }

  /** At most once: no update ever handles a result that an earlier one handled, nor one socket twice. */
  lemma ResultsAreHandledOnce(run: seq<Event>)
    requires After(run).Some?
    ensures var s := After(run).value;
            && AcceptIds(s.reg.ents) !! s.acceptsHandled
            && DetectIds(AfterAccepts(s.reg.ents)) !! s.detectsHandled
            && forall d, e :: Held(s, InAccept(d)).Some? && Held(s, InAccept(d)) == Held(s, InAccept(e)) ==> d == e
  {
    ReachableIsOwned(run);
    var s := After(run).value;
    forall id | id in AcceptIds(s.reg.ents)
      ensures id !in s.acceptsHandled
    {
      var e := AcceptIdIsHeld(s, id);
      assert Rank(s, InAccept(e)) == 2;
    }
    forall id | id in DetectIds(AfterAccepts(s.reg.ents))
      ensures id !in s.detectsHandled
    {
      var e := DetectIdIsHeld(s, id);
      assert Rank(s, InDetect(e)) == 5;
    }
    forall d, e | Held(s, InAccept(d)).Some? && Held(s, InAccept(d)) == Held(s, InAccept(e))
      ensures d == e
    {
      assert InAccept(d) == InAccept(e);
    }
  }

  /** At least once: an accept result that is pending when an update runs is handled by that update if its
      entity is constructed: the socket goes to a detect channel, or the accept failed and the connection
      is gone. Otherwise it waits, unchanged, for the next update. */
  lemma PendingResultIsHandledNow(run: seq<Event>, e: Entity)
    requires After(run + [RunTask(None)]).Some? && After(run).Some?
    requires After(run).value.tasks[0].Update?
    requires var ents := After(run).value.reg.ents; e in ents && AcceptPending(ents[e])
    ensures var s, next := After(run).value, After(run + [RunTask(None)]).value;
            var x := s.reg.ents[e];
            && (!x.delayed ==> x.accept.value.socket.Some? && x.accept.value.socket.value.id in next.acceptsHandled
                               && (e in next.reg.ents <==> !x.accept.value.ec && !x.accept.value.needClose)
                               && (e in next.reg.ents ==>
                                     && !AcceptPending(next.reg.ents[e])
                                     && next.reg.ents[e].detector == Some(DetectChannel(x.accept.value.socket, false))))
            && (x.delayed ==> e in next.reg.ents && next.reg.ents[e].accept == x.accept
                              && AcceptPending(next.reg.ents[e]) && !next.reg.ents[e].delayed)
  {
    assert (run + [RunTask(None)])[..|run|] == run;
    ReachableIsInvariant(run);
    PendingAtTick(After(run).value, e);
  }

  lemma PendingAtTick(s: State, e: Entity)
    requires Invariant(s) && s.tasks != [] && s.tasks[0].Update? && e in s.reg.ents && AcceptPending(s.reg.ents[e])
    ensures var next := TaskStep(s, None);
            var x := s.reg.ents[e];
            && (!x.delayed ==> x.accept.value.socket.Some? && x.accept.value.socket.value.id in next.acceptsHandled
                               && (e in next.reg.ents <==> !x.accept.value.ec && !x.accept.value.needClose)
                               && (e in next.reg.ents ==>
                                     && !AcceptPending(next.reg.ents[e])
                                     && next.reg.ents[e].detector == Some(DetectChannel(x.accept.value.socket, false))))
            && (x.delayed ==> e in next.reg.ents && next.reg.ents[e].accept == x.accept
                              && AcceptPending(next.reg.ents[e]) && !next.reg.ents[e].delayed)
  {
    var x := s.reg.ents[e];
    assert Known(s.stage, s.reg.ents, e);
    TickAt(s.reg, e);
    ConnectionIsNoChild(s.reg, Failing(s.reg.ents), e);
    AcceptIsHandled(x);
    assert TaskStep(s, None).reg == Tick(s.reg);
    if !x.delayed {
      AcceptIdIsHandled(s.reg.ents, e);
    }
  }

  lemma AcceptIsHandled(x: Ent)
    requires Fits(AcceptRecorded, x)
    ensures x.accept.value.socket.Some? && !x.dying
    ensures !x.delayed ==> (Results(x).unused <==> x.accept.value.ec || x.accept.value.needClose)
    ensures !x.delayed && !Results(x).unused ==>
              !AcceptPending(Survivor(x)) && Survivor(x).detector == Some(DetectChannel(x.accept.value.socket, false))
    ensures x.delayed ==> !Results(x).unused && Survivor(x).accept == x.accept
                          && AcceptPending(Survivor(x)) && !Survivor(x).delayed
  {
    PendingIsHandledOnceConstructed(x);
  }

  lemma AcceptIdIsHandled(ents: Ents, e: Entity)
    requires e in ents && AcceptPending(ents[e]) && Constructed(ents[e]) && ents[e].accept.value.socket.Some?
    ensures ents[e].accept.value.socket.value.id in AcceptIds(ents)
  {
  }

  /** The same for detect results, which no update delays: the stream becomes that of an HTTP channel, or
      the detection failed and the connection is gone. */
  lemma PendingDetectIsHandledNow(run: seq<Event>, e: Entity)
    requires After(run + [RunTask(None)]).Some? && After(run).Some?
    requires After(run).value.tasks[0].Update?
    requires var ents := After(run).value.reg.ents; e in ents && DetectPending(ents[e])
    ensures var s, next := After(run).value, After(run + [RunTask(None)]).value;
            var r := s.reg.ents[e].detect.value;
            && r.stream.Some? && r.stream.value.id in next.detectsHandled && r.stream.value.id !in s.detectsHandled
            && (e in next.reg.ents <==> !r.ec && !r.needClose)
            && (e in next.reg.ents ==> !DetectPending(next.reg.ents[e])
                                       && next.reg.ents[e].http == Some(Http.Channel(r.stream, true, true, 1, 0)))
  {
    assert (run + [RunTask(None)])[..|run|] == run;
    ReachableIsInvariant(run);
    ReachableIsOwned(run);
    DetectAtTick(After(run).value, e);
  }

  lemma DetectAtTick(s: State, e: Entity)
    requires Invariant(s) && Owned(s) && s.tasks != [] && s.tasks[0].Update?
    requires e in s.reg.ents && DetectPending(s.reg.ents[e])
    ensures var ents := s.reg.ents; var r := ents[e].detect.value;
            && r.stream.Some? && r.stream.value.id in DetectIds(AfterAccepts(ents))
            && r.stream.value.id !in s.detectsHandled
    ensures var r, next := s.reg.ents[e].detect.value, Tick(s.reg);
            && (e in next.ents <==> !r.ec && !r.needClose)
            && (e in next.ents ==> !DetectPending(next.ents[e]) && next.ents[e].detect.Some?
                                   && next.ents[e].detect.value.handshake == r.handshake
                                   && next.ents[e].http == Some(Http.Channel(r.stream, true, true, 1, 0)))
  {
    var x := s.reg.ents[e];
    assert Known(s.stage, s.reg.ents, e);
    assert Rank(s, InDetect(e)) == 5;
    DetectIsHandled(x);
    DetectIdIsHandled(s.reg.ents, e);
    TickAt(s.reg, e);
    ConnectionIsNoChild(s.reg, Failing(s.reg.ents), e);
  }

  lemma DetectIsHandled(x: Ent)
    requires Fits(DetectRecorded, x)
    ensures var r := x.detect.value;
            && HandleAccept(x) == x && Constructed(x) && r.stream.Some?
            && (Results(x).unused <==> r.ec || r.needClose)
    ensures var r, y := x.detect.value, Survivor(x);
            !Results(x).unused ==>
              && !DetectPending(y) && y.detect.Some? && y.detect.value.handshake == r.handshake
              && y.http == Some(Http.Channel(r.stream, true, true, 1, 0))
  {
  }

  lemma DetectIdIsHandled(ents: Ents, e: Entity)
    requires e in ents && DetectPending(ents[e]) && Constructed(ents[e]) && ents[e].detect.value.stream.Some?
    requires HandleAccept(ents[e]) == ents[e]
    ensures ents[e].detect.value.stream.value.id in DetectIds(AfterAccepts(ents))
  {
    assert AfterAccepts(ents)[e] == ents[e];
  }
}
