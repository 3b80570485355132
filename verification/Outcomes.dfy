/** What an operation reports decides what becomes of its connection, whatever happens in between. */
module Outcomes {
  import opened Wrappers
  import opened Sockets
  import opened Entities
  import opened RegistryTasks
  import opened Listening
  import opened Detection
  import opened Connections
  import opened Server
  import opened Lifecycle
  import opened RegistryQueue
  import opened AcceptLoop
  import opened Safety
  import opened SocketOwnership
  import opened SocketRuns
  import Http = HttpSession
  import Ws = WsSession

  // ---------------------------------------------------------------------------------------------
  // Reports that wait, in a task or in the registry.

  ghost predicate AcceptWaits(s: State, e: Entity, ec: bool, socket: Socket) {
    || SetAccept(e, ec, socket) in s.tasks
    || (e in s.reg.ents && AcceptPending(s.reg.ents[e])
        && s.reg.ents[e].accept == Some(AcceptResult(ec, Some(socket), !socket.open)))
  }

  ghost predicate DetectWaits(s: State, e: Entity, ec: bool, handshake: bool, stream: Socket) {
    || SetDetect(e, ec, handshake, Some(stream), !stream.open) in s.tasks
    || (e in s.reg.ents && DetectPending(s.reg.ents[e])
        && s.reg.ents[e].detect == Some(DetectResult(ec, handshake, Some(stream), !stream.open)))
  }

  lemma StaysQueued(s: State, ev: Event, t: Task)
    requires Enabled(s, ev) && t in s.tasks
    ensures t in Apply(s, ev).tasks || (ev.RunTask? && t == s.tasks[0])
  {
    if ev.RunTask? {
      assert s.tasks == [s.tasks[0]] + s.tasks[1..];
    }
  }

  predicate Recorded(st: Stage) {
    st.AcceptRecorded? || st.DetectRecorded?
  }

  /** Only an update touches a connection whose result is recorded and not handled. */
  lemma TaskSparesRecorded(s: State, reused: Option<Entity>, e: Entity)
    requires Invariant(s) && Enabled(s, RunTask(reused)) && !s.tasks[0].Update?
    requires e in s.stage && Recorded(s.stage[e])
    ensures var next := TaskStep(s, reused); e in next.reg.ents && next.reg.ents[e] == s.reg.ents[e]
  {
    KnownConnection(s.stage, s.reg, s.nextId, e);
    assert s.tasks[0] in s.tasks && TaskFits(s.stage, s.tasks[0]);
    if s.tasks[0].Allocate? && reused.Some? {
      ReusedWasMarked(s, reused.value);
    }
  }

  /** A completion on the strand of a connection finds it at another stage. */
  lemma CompletionIsElsewhere(s: State, ev: Event, d: Entity)
    requires Invariant(s) && Enabled(s, ev) && (ev.DetectCompletes? || ev.HttpCompletes? || ev.WsCompletes?)
    requires d == ev.e
    ensures d in s.stage && !Recorded(s.stage[d])
    ensures forall e :: e != d && e in s.reg.ents ==> e in Apply(s, ev).reg.ents && Apply(s, ev).reg.ents[e] == s.reg.ents[e]
  {
    KnownConnection(s.stage, s.reg, s.nextId, d);
  }

  lemma StepSparesRecorded(s: State, ev: Event, e: Entity)
    requires Invariant(s) && Enabled(s, ev) && !Updates(s, ev) && e in s.stage && Recorded(s.stage[e])
    ensures e in Apply(s, ev).reg.ents && Apply(s, ev).reg.ents[e] == s.reg.ents[e]
  {
    KnownConnection(s.stage, s.reg, s.nextId, e);
    match ev {
      case RunTask(reused) => TaskSparesRecorded(s, reused, e);
      case DetectCompletes(d, _, _, _) => CompletionIsElsewhere(s, ev, d);
      case HttpCompletes(d, _) => CompletionIsElsewhere(s, ev, d);
      case WsCompletes(d, _) => CompletionIsElsewhere(s, ev, d);
      case _ =>
    }
  }

  lemma AcceptIsRecorded(s: State, e: Entity, ec: bool, socket: Socket)
    requires Invariant(s) && s.tasks != [] && s.tasks[0] == SetAccept(e, ec, socket)
    ensures AcceptWaits(TaskStep(s, None), e, ec, socket)
  {
    assert s.tasks[0] in s.tasks;
    KnownConnection(s.stage, s.reg, s.nextId, e);
    var x := TaskStep(s, None).reg.ents[e];
    assert x == RecordAccept(s.reg.ents[e], ec, socket);
  }

  lemma StepKeepsAccept(s: State, ev: Event, e: Entity, ec: bool, socket: Socket)
    requires Invariant(s) && Enabled(s, ev) && Clean(s, ev) && AcceptWaits(s, e, ec, socket)
    ensures AcceptWaits(Apply(s, ev), e, ec, socket) || socket.id in Apply(s, ev).acceptsHandled
  {
    if SetAccept(e, ec, socket) in s.tasks {
      StaysQueued(s, ev, SetAccept(e, ec, socket));
      if ev.RunTask? && s.tasks[0] == SetAccept(e, ec, socket) {
        AcceptIsRecorded(s, e, ec, socket);
      }
    } else {
      assert Known(s.stage, s.reg.ents, e);
      if Updates(s, ev) {
        PendingAtTick(s, e);
      } else {
        StepSparesRecorded(s, ev, e);
      }
    }
  }

  lemma DetectIsRecorded(s: State, e: Entity, ec: bool, handshake: bool, stream: Socket)
    requires Invariant(s) && s.tasks != [] && s.tasks[0] == SetDetect(e, ec, handshake, Some(stream), !stream.open)
    ensures DetectWaits(TaskStep(s, None), e, ec, handshake, stream)
  {
    assert s.tasks[0] in s.tasks;
    KnownConnection(s.stage, s.reg, s.nextId, e);
    var x := TaskStep(s, None).reg.ents[e];
    assert x == RecordDetect(s.reg.ents[e], ec, handshake, Some(stream), !stream.open);
  }

  lemma StepKeepsDetect(s: State, ev: Event, e: Entity, ec: bool, handshake: bool, stream: Socket)
    requires Invariant(s) && Owned(s) && Enabled(s, ev) && Clean(s, ev) && DetectWaits(s, e, ec, handshake, stream)
    ensures DetectWaits(Apply(s, ev), e, ec, handshake, stream) || stream.id in Apply(s, ev).detectsHandled
  {
    var t := SetDetect(e, ec, handshake, Some(stream), !stream.open);
    if t in s.tasks {
      StaysQueued(s, ev, t);
      if ev.RunTask? && s.tasks[0] == t {
        DetectIsRecorded(s, e, ec, handshake, stream);
      }
    } else {
      assert Known(s.stage, s.reg.ents, e);
      if Updates(s, ev) {
        DetectAtTick(s, e);
      } else {
        StepSparesRecorded(s, ev, e);
      }
    }
  }

  // ---------------------------------------------------------------------------------------------
  // Over whole runs.

  /** In every run an accept that was reported waits as it was reported, in a task or in the registry,
      until an update handles it. */
  lemma {:induction false} AcceptWaitsAsReported(run: seq<Event>, ec: bool, isOpen: bool, more: seq<Event>)
    requires After(run + [AcceptCompletes(ec, isOpen)] + more).Some? && After(run).Some?
    requires After(run).value.acceptor.accepting.Some?
    ensures var s, t := After(run).value, After(run + [AcceptCompletes(ec, isOpen)] + more).value;
            && s.nextSocket !in s.acceptsHandled
            && (AcceptWaits(t, s.acceptor.accepting.value, ec, Socket(s.nextSocket, isOpen))
                || s.nextSocket in t.acceptsHandled)
    decreases |more|
  {
    var ev, s := AcceptCompletes(ec, isOpen), After(run).value;
    ReachableIsOwned(run);
    if more == [] {
      assert run + [ev] + more == run + [ev] && (run + [ev])[..|run|] == run;
    } else {
      var rest, last := more[..|more| - 1], more[|more| - 1];
      OneMore(run + [ev], more);
      AcceptWaitsAsReported(run, ec, isOpen, rest);
      ReachableIsInvariant(run + [ev] + rest);
      var t := After(run + [ev] + rest).value;
      HandledGrows(t, last);
      if s.nextSocket !in t.acceptsHandled {
        StepKeepsAccept(t, last, s.acceptor.accepting.value, ec, Socket(s.nextSocket, isOpen));
      }
    }
  }

  lemma OneMore(run: seq<Event>, more: seq<Event>)
    requires After(run + more).Some? && more != []
    ensures var rest, ev := more[..|more| - 1], more[|more| - 1];
            && After(run + rest).Some? && Enabled(After(run + rest).value, ev) && Clean(After(run + rest).value, ev)
            && After(run + more).value == Apply(After(run + rest).value, ev)
  {
    assert (run + more)[..|run + more| - 1] == run + more[..|more| - 1];
  }

  lemma DetectReported(s: State, e: Entity, ec: bool, handshake: bool, stillOpen: bool)
    requires Owned(s) && Enabled(s, DetectCompletes(e, ec, handshake, stillOpen))
    ensures var id := s.reg.ents[e].detector.value.stream.value.id;
            && id !in s.detectsHandled
            && DetectWaits(DetectStep(s, e, ec, handshake, stillOpen), e, ec, handshake, Socket(id, stillOpen))
  {
    assert Held(s, InDetector(e)).Some? && Rank(s, InDetector(e)) == 3;
    var next := DetectStep(s, e, ec, handshake, stillOpen);
    assert next.tasks[|s.tasks|] in next.tasks;
  }

  /** The same for detections. */
  lemma {:induction false} DetectWaitsAsReported(run: seq<Event>, e: Entity, ec: bool, handshake: bool,
                                                 stillOpen: bool, more: seq<Event>)
    requires After(run).Some? && Enabled(After(run).value, DetectCompletes(e, ec, handshake, stillOpen))
    requires After(run + [DetectCompletes(e, ec, handshake, stillOpen)] + more).Some?
    ensures var s, t := After(run).value, After(run + [DetectCompletes(e, ec, handshake, stillOpen)] + more).value;
            var id := s.reg.ents[e].detector.value.stream.value.id;
            && id !in s.detectsHandled
            && (DetectWaits(t, e, ec, handshake, Socket(id, stillOpen)) || id in t.detectsHandled)
    decreases |more|
  {
    var ev, s := DetectCompletes(e, ec, handshake, stillOpen), After(run).value;
    var id := s.reg.ents[e].detector.value.stream.value.id;
    ReachableIsOwned(run);
    DetectReported(s, e, ec, handshake, stillOpen);
    if more == [] {
      assert run + [ev] + more == run + [ev] && (run + [ev])[..|run|] == run;
    } else {
      var rest, last := more[..|more| - 1], more[|more| - 1];
      OneMore(run + [ev], more);
      DetectWaitsAsReported(run, e, ec, handshake, stillOpen, rest);
      ReachableIsInvariant(run + [ev] + rest);
      ReachableIsOwned(run + [ev] + rest);
      var t := After(run + [ev] + rest).value;
      HandledGrows(t, last);
      if id !in t.detectsHandled {
        StepKeepsDetect(t, last, e, ec, handshake, Socket(id, stillOpen));
      }
    }
  }

  // ---------------------------------------------------------------------------------------------
  // The update that handles a report.

  lemma QueuedIsElsewhere(s: State, t: Task, p: Place)
    requires Linear(s) && TaskSocket(t).Some? && !p.InTask? && Held(s, p) == Id(TaskSocket(t))
    ensures t !in s.tasks
  {
    forall i | 0 <= i < |s.tasks|
      ensures s.tasks[i] != t
    {
      assert Held(s, InTask(i)) == Held(s, p) ==> InTask(i) == p;
    }
  }

  /** The result an update handles is the one the report left in the registry. */
  lemma HandledAcceptIsPending(s: State, e: Entity, ec: bool, socket: Socket)
    requires Invariant(s) && Owned(s) && AcceptWaits(s, e, ec, socket) && socket.id in AcceptIds(s.reg.ents)
    ensures e in s.reg.ents && AcceptPending(s.reg.ents[e]) && !s.reg.ents[e].delayed
    ensures s.reg.ents[e].accept == Some(AcceptResult(ec, Some(socket), !socket.open))
  {
    var d := AcceptIdIsHeld(s, socket.id);
    QueuedIsElsewhere(s, SetAccept(e, ec, socket), InAccept(d));
    assert Held(s, InAccept(e)) == Held(s, InAccept(d));
    assert InAccept(e) == InAccept(d);
  }

  lemma HandledDetectIsPending(s: State, e: Entity, ec: bool, handshake: bool, stream: Socket)
    requires Invariant(s) && Owned(s) && DetectWaits(s, e, ec, handshake, stream)
    requires stream.id in DetectIds(AfterAccepts(s.reg.ents))
    ensures e in s.reg.ents && DetectPending(s.reg.ents[e])
    ensures s.reg.ents[e].detect == Some(DetectResult(ec, handshake, Some(stream), !stream.open))
  {
    var d := DetectIdIsHeld(s, stream.id);
    QueuedIsElsewhere(s, SetDetect(e, ec, handshake, Some(stream), !stream.open), InDetect(d));
  }

  /** From the report of an accept to the update that handles it, in every interleaving: the connection lives
      on exactly when the accept succeeded with an open socket, and then that socket is being detected. */
  lemma AcceptOutcome(run: seq<Event>, ec: bool, isOpen: bool, more: seq<Event>)
    requires After(run).Some? && After(run).value.acceptor.accepting.Some?
    requires After(run + [AcceptCompletes(ec, isOpen)] + more).Some?
    requires After(run + [AcceptCompletes(ec, isOpen)] + more + [RunTask(None)]).Some?
    requires After(run).value.nextSocket !in After(run + [AcceptCompletes(ec, isOpen)] + more).value.acceptsHandled
    requires After(run).value.nextSocket
          in After(run + [AcceptCompletes(ec, isOpen)] + more + [RunTask(None)]).value.acceptsHandled
    ensures var s, next := After(run).value, After(run + [AcceptCompletes(ec, isOpen)] + more + [RunTask(None)]).value;
            var e := s.acceptor.accepting.value;
            && (e in next.reg.ents <==> !ec && isOpen)
            && (e in next.reg.ents ==>
                  next.reg.ents[e].detector == Some(DetectChannel(Some(Socket(s.nextSocket, true)), false)))
  {
    var before := run + [AcceptCompletes(ec, isOpen)] + more;
    var s, t := After(run).value, After(before).value;
    AcceptWaitsAsReported(run, ec, isOpen, more);
    assert (before + [RunTask(None)])[..|before|] == before;
    ReachableIsInvariant(before);
    ReachableIsOwned(before);
    HandledGrows(t, RunTask(None));
    HandledAcceptIsPending(t, s.acceptor.accepting.value, ec, Socket(s.nextSocket, isOpen));
    PendingAtTick(t, s.acceptor.accepting.value);
  }

  /** The same for a detection: the connection lives on exactly when it succeeded and the stream is still
      open, whether or not the peer wants a handshake, which is recorded; then HTTP reads from that stream. */
  lemma DetectOutcome(run: seq<Event>, e: Entity, ec: bool, handshake: bool, stillOpen: bool, more: seq<Event>)
    requires After(run).Some? && Enabled(After(run).value, DetectCompletes(e, ec, handshake, stillOpen))
    requires After(run + [DetectCompletes(e, ec, handshake, stillOpen)] + more).Some?
    requires After(run + [DetectCompletes(e, ec, handshake, stillOpen)] + more + [RunTask(None)]).Some?
    requires After(run).value.reg.ents[e].detector.value.stream.value.id
         !in After(run + [DetectCompletes(e, ec, handshake, stillOpen)] + more).value.detectsHandled
    requires After(run).value.reg.ents[e].detector.value.stream.value.id
          in After(run + [DetectCompletes(e, ec, handshake, stillOpen)] + more + [RunTask(None)]).value.detectsHandled
    ensures var next := After(run + [DetectCompletes(e, ec, handshake, stillOpen)] + more + [RunTask(None)]).value;
            var id := After(run).value.reg.ents[e].detector.value.stream.value.id;
            && (e in next.reg.ents <==> !ec && stillOpen)
            && (e in next.reg.ents ==>
                  && next.reg.ents[e].http == Some(Http.Channel(Some(Socket(id, true)), true, true, 1, 0))
                  && next.reg.ents[e].detect.Some? && next.reg.ents[e].detect.value.handshake == handshake)
  {
    var before := run + [DetectCompletes(e, ec, handshake, stillOpen)] + more;
    var t, id := After(before).value, After(run).value.reg.ents[e].detector.value.stream.value.id;
    DetectWaitsAsReported(run, e, ec, handshake, stillOpen, more);
    assert (before + [RunTask(None)])[..|before|] == before;
    ReachableIsInvariant(before);
    ReachableIsOwned(before);
    HandledGrows(t, RunTask(None));
    HandledDetectIsPending(t, e, ec, handshake, Socket(id, stillOpen));
    DetectAtTick(t, e);
  }

  // ---------------------------------------------------------------------------------------------
  // What a completion posts: upgrades, messages, mark-unused.

  /** The last event of the run ran the task `t`. */
  ghost predicate JustRan(run: seq<Event>, t: Task) {
    && run != [] && After(run).Some? && run[|run| - 1].RunTask?
    && After(run[..|run| - 1]).value.tasks[0] == t
  }

  ghost function Before(run: seq<Event>): State
    requires run != [] && After(run).Some?
  {
    After(run[..|run| - 1]).value
  }

  /** Every posted task stays queued until it runs; `done` is how far the run has to go, if it goes that far. */
  lemma {:induction false} TaskWaits(run: seq<Event>, t: Task, more: seq<Event>) returns (done: Option<seq<Event>>)
    requires After(run).Some? && After(run + more).Some? && t in After(run).value.tasks
    ensures done.None? ==> t in After(run + more).value.tasks
    ensures done.Some? ==> done.value <= more && JustRan(run + done.value, t)
    decreases |more|
  {
    if more == [] {
      assert run + more == run;
      done := None;
    } else {
      OneMore(run, more);
      done := TaskWaits(run, t, more[..|more| - 1]);
      if done.None? {
        done := TaskWaitsOneMore(run, t, more);
      }
    }
  }

  lemma TaskWaitsOneMore(run: seq<Event>, t: Task, more: seq<Event>) returns (done: Option<seq<Event>>)
    requires more != [] && After(run + more).Some? && After(run + more[..|more| - 1]).Some?
    requires t in After(run + more[..|more| - 1]).value.tasks
    ensures done.None? ==> t in After(run + more).value.tasks
    ensures done.Some? ==> done.value == more && JustRan(run + more, t)
  {
    var s, next := OneMoreTask(run, more, t);
    assert (run + more)[..|run + more| - 1] == run + more[..|more| - 1];
    done := if t in next.tasks then None else Some(more);
  }

  lemma OneMoreTask(run: seq<Event>, more: seq<Event>, t: Task) returns (s: State, next: State)
    requires more != [] && After(run + more).Some? && After(run + more[..|more| - 1]).Some?
    requires t in After(run + more[..|more| - 1]).value.tasks
    ensures After(run + more[..|more| - 1]) == Some(s) && After(run + more) == Some(next)
    ensures t in next.tasks || (more[|more| - 1].RunTask? && s.tasks != [] && s.tasks[0] == t)
  {
    s, next := After(run + more[..|more| - 1]).value, After(run + more).value;
    OneMore(run, more);
    StaysQueued(s, more[|more| - 1], t);
  }

  lemma UpgradeReported(s: State, e: Entity)
    requires Invariant(s) && Enabled(s, HttpCompletes(e, Http.ReadDone(Http.UpgradeRequested)))
    ensures s.reg.ents[e].http.value.stream.Some?
    ensures Upgrade(e, s.reg.ents[e].http.value.stream)
         in HttpStep(s, e, Http.ReadDone(Http.UpgradeRequested)).tasks
  {
    KnownConnection(s.stage, s.reg, s.nextId, e);
    var next := HttpStep(s, e, Http.ReadDone(Http.UpgradeRequested));
    assert next.tasks[|s.tasks|] in next.tasks;
  }

  lemma UpgradeRuns(run: seq<Event>, e: Entity, stream: Option<Socket>)
    requires JustRan(run, Upgrade(e, stream))
    ensures ShakesHands(After(run).value, e, stream)
  {
    var s := Before(run);
    ReachableIsInvariant(run[..|run| - 1]);
    assert s.tasks[0] in s.tasks;
    KnownConnection(s.stage, s.reg, s.nextId, e);
    assert After(run).value.reg.ents[e] == UpgradeToWs(s.reg.ents[e], stream);
  }

  /** The socket of a WebSocket that is about to shake hands. */
  ghost predicate ShakesHands(s: State, e: Entity, stream: Option<Socket>) {
    && e in s.reg.ents && s.reg.ents[e].ws == Some(Ws.Channel(stream, Ws.Accepting))
    && s.reg.ents[e].http.Some? && s.reg.ents[e].http.value.stream.None?
  }

  /** From the request for an upgrade to the WebSocket: in every interleaving the task with the very stream
      stays queued until it runs, and then that stream is the one of a channel about to shake hands. */
  lemma UpgradeOutcome(run: seq<Event>, e: Entity, more: seq<Event>) returns (done: Option<seq<Event>>)
    requires After(run).Some? && Enabled(After(run).value, HttpCompletes(e, Http.ReadDone(Http.UpgradeRequested)))
    requires After(run + [HttpCompletes(e, Http.ReadDone(Http.UpgradeRequested))] + more).Some?
    ensures var longer, stream := run + [HttpCompletes(e, Http.ReadDone(Http.UpgradeRequested))],
                                  After(run).value.reg.ents[e].http.value.stream;
            && stream.Some?
            && (done.None? ==> Upgrade(e, stream) in After(longer + more).value.tasks)
            && (done.Some? ==> done.value <= more && After(longer + done.value).Some?
                               && ShakesHands(After(longer + done.value).value, e, stream))
  {
    var s := After(run).value;
    ReachableIsInvariant(run);
    UpgradeReported(s, e);
    var longer, next := Extend(run, s, HttpCompletes(e, Http.ReadDone(Http.UpgradeRequested)));
    done := TaskWaits(longer, Upgrade(e, s.reg.ents[e].http.value.stream), more);
    if done.Some? {
      UpgradeRuns(longer + done.value, e, s.reg.ents[e].http.value.stream);
    }
  }

  /** A new entity is a received message and first in the list of connection `e`; nothing else changed. */
  ghost predicate Receives(reg: Registry, next: Registry, e: Entity) {
    exists m :: m !in reg.ents && next.ents == reg.ents[m := MESSAGE]
      && next.children == reg.children[e := [m] + if e in reg.children then reg.children[e] else []]
  }

  lemma ReceiveRuns(run: seq<Event>, e: Entity)
    requires JustRan(run, Receive(e))
    ensures Receives(Before(run).reg, After(run).value.reg, e)
  {
    var s := Before(run);
    ReachableIsInvariant(run[..|run| - 1]);
    assert s.tasks[0] in s.tasks;
    KnownConnection(s.stage, s.reg, s.nextId, e);
    assert s.nextId !in s.reg.ents && After(run).value.reg.ents == s.reg.ents[s.nextId := MESSAGE];
  }

  /** From the frame that was read to the message in the registry. */
  lemma MessageOutcome(run: seq<Event>, e: Entity, stillOpen: bool, more: seq<Event>) returns (done: Option<seq<Event>>)
    requires After(run).Some? && Enabled(After(run).value, WsCompletes(e, Ws.ReadDone(Ws.MessageRead, stillOpen)))
    requires After(run + [WsCompletes(e, Ws.ReadDone(Ws.MessageRead, stillOpen))] + more).Some?
    ensures var longer := run + [WsCompletes(e, Ws.ReadDone(Ws.MessageRead, stillOpen))];
            && (done.None? ==> Receive(e) in After(longer + more).value.tasks)
            && (done.Some? ==>
                  && done.value <= more && JustRan(longer + done.value, Receive(e))
                  && Receives(Before(longer + done.value).reg, After(longer + done.value).value.reg, e))
  {
    var s, ev := After(run).value, WsCompletes(e, Ws.ReadDone(Ws.MessageRead, stillOpen));
    var longer, next := Extend(run, s, ev);
    assert next.tasks[|s.tasks|] == Receive(e);
    done := TaskWaits(longer, Receive(e), more);
    if done.Some? {
      ReceiveRuns(longer + done.value, e);
    }
  }

  /** Completions that end a session by eof. */
  predicate Ends(ev: Event) {
    match ev
    case HttpCompletes(_, c) => Http.EndsSession(c)
    case WsCompletes(_, c) => Ws.Failed(c)
    case _ => false
  }

  lemma EndReported(s: State, ev: Event)
    requires Invariant(s) && Enabled(s, ev) && Ends(ev)
    ensures MarkUnused(ev.e) in Apply(s, ev).tasks
  {
    KnownConnection(s.stage, s.reg, s.nextId, ev.e);
    var next := Apply(s, ev);
    assert next.tasks[|s.tasks|] == MarkUnused(ev.e);
  }

  /** From the completion that ends a session to the tag that lets an update destroy its entity. */
  lemma EndOutcome(run: seq<Event>, ev: Event, more: seq<Event>) returns (done: Option<seq<Event>>)
    requires After(run).Some? && Enabled(After(run).value, ev) && Ends(ev) && After(run + [ev] + more).Some?
    ensures done.None? ==> MarkUnused(ev.e) in After(run + [ev] + more).value.tasks
    ensures done.Some? ==>
              && done.value <= more && JustRan(run + [ev] + done.value, MarkUnused(ev.e))
              && var ents := After(run + [ev] + done.value).value.reg.ents; ev.e in ents ==> ents[ev.e].unused
  {
    ReachableIsInvariant(run);
    EndReported(After(run).value, ev);
    var longer, next := Extend(run, After(run).value, ev);
    done := TaskWaits(longer, MarkUnused(ev.e), more);
  }

  // ---------------------------------------------------------------------------------------------
  // The acceptor.

  /** How far configuring got, if it ran. */
  ghost function ConfiguredAs(run: seq<Event>): Option<ConfigureOutcome>
    requires After(run).Some?
  {
    if run == [] then None
    else
      var before, ev := run[..|run| - 1], run[|run| - 1];
      if ev.RunStrand? && After(before).value.strand[0].Configure? then Some(ev.outcome) else ConfiguredAs(before)
  }

  ghost predicate StopRan(run: seq<Event>)
    requires After(run).Some?
  {
    run != [] &&
    var before, ev := run[..|run| - 1], run[|run| - 1];
    StopRan(before) || (ev.RunStrand? && After(before).value.strand[0].Stop?)
  }

  lemma StrandStepMoves(s: State, outcome: ConfigureOutcome)
    requires LoopInv(s) && s.strand != []
    ensures var a, t, next := s.acceptor, s.strand[0], StrandStep(s, outcome).acceptor;
            && (t.Configure? ==>
                  && a.sm == Uninitialized && !a.open
                  && (next.open <==> outcome != OpenFails)
                  && next.sm == if outcome == Configured then Started else Uninitialized)
            && (t.Stop? ==> !next.open && next.sm == Terminated)
            && (!t.Configure? && !t.Stop? ==> next.open == a.open && next.sm == a.sm)
  {
  }

  lemma OthersKeepAcceptor(s: State, ev: Event)
    requires Enabled(s, ev) && !ev.RunStrand?
    ensures Apply(s, ev).acceptor.open == s.acceptor.open && Apply(s, ev).acceptor.sm == s.acceptor.sm
  {
  }

  /** In every run the acceptor is open exactly when configuring opened it and no stop ran since; the state
      machine tells a stop and a complete configuration, but not a bind that failed. */
  lemma {:induction false} AcceptorExactly(run: seq<Event>)
    requires After(run).Some?
    ensures var s, outcome := After(run).value, ConfiguredAs(run);
            && (s.acceptor.open <==> outcome.Some? && outcome.value != OpenFails && !StopRan(run))
            && s.acceptor.sm == (if StopRan(run) then Terminated
                                 else if outcome == Some(Configured) then Started else Uninitialized)
  {
    if run != [] {
      var before := run[..|run| - 1];
      AcceptorExactly(before);
      ReachableIsInvariant(before);
      var s, ev := After(before).value, run[|run| - 1];
      if ev.RunStrand? {
        StrandStepMoves(s, ev.outcome);
      } else {
        OthersKeepAcceptor(s, ev);
      }
    }
  }

  /** After a bind that failed the acceptor is open although the listener never started. */
  lemma FailedBindStaysOpen() returns (run: seq<Event>, s: State)
    ensures After(run) == Some(s) && s.acceptor == Acceptor(true, Uninitialized, None)
    ensures s.strand == [] && s.tasks == [] && s.reg.ents == map[]
  {
    run, s := Extend([], INITIAL, RunStrand(BindFails));
  }
}
