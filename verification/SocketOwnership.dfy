/** Who holds which socket: tasks and components hand sockets over, and never share one. */
module SocketOwnership {
  import opened Wrappers
  import opened Sockets
  import opened Entities
  import opened RegistryTasks
  import opened Detection
  import opened Connections
  import opened Server
  import opened Lifecycle
  import opened RegistryQueue
  import opened Safety
  import Http = HttpSession
  import Ws = WsSession

  /** Everything that can hold a socket: a queued task or a component of an entity. */
  datatype Place =
    | InTask(i: nat)
    | InAccept(e: Entity) | InDetector(e: Entity) | InDetect(e: Entity) | InHttp(e: Entity) | InWs(e: Entity)

  function TaskSocket(t: Task): Option<Socket> {
    match t
    case SetAccept(_, _, socket) => Some(socket)
    case SetDetect(_, _, _, stream, _) => stream
    case Upgrade(_, stream) => stream
    case _ => None
  }

  function SlotSocket(x: Ent, p: Place): Option<Socket> {
    match p
    case InTask(_) => None
    case InAccept(_) => if x.accept.Some? then x.accept.value.socket else None
    case InDetector(_) => if x.detector.Some? then x.detector.value.stream else None
    case InDetect(_) => if x.detect.Some? then x.detect.value.stream else None
    case InHttp(_) => if x.http.Some? then x.http.value.stream else None
    case InWs(_) => if x.ws.Some? then x.ws.value.stream else None
  }

  /** The id of the socket held at a place. */
  function Held(s: State, p: Place): Option<nat> {
    var socket := if p.InTask? then (if p.i < |s.tasks| then TaskSocket(s.tasks[p.i]) else None)
                  else if p.e in s.reg.ents then SlotSocket(s.reg.ents[p.e], p) else None;
    if socket.Some? then Some(socket.value.id) else None
  }

  /** Ids in use are old, and no two places hold the same socket. */
  ghost predicate Linear(s: State) {
    && (forall p :: Held(s, p).Some? ==> Held(s, p).value < s.nextSocket)
    && (forall p, q :: Held(s, p).Some? && Held(s, p) == Held(s, q) ==> p == q)
  }

  /** How far along its life a socket is at a place. */
  function Rank(s: State, p: Place): nat {
    match p
    case InTask(i) => if i < |s.tasks| then (match s.tasks[i]
                                             case SetAccept(_, _, _) => 1
                                             case SetDetect(_, _, _, _, _) => 4
                                             case Upgrade(_, _) => 7
                                             case _ => 0) else 0
    case InAccept(_) => 2
    case InDetector(_) => 3
    case InDetect(_) => 5
    case InHttp(_) => 6
    case InWs(_) => 8
  }

  /** Where the socket held at `p` after a step was before. */
  function Origin(s: State, ev: Event, p: Place): Place
    requires Enabled(s, ev)
  {
    match ev
    case RunTask(_) => TaskOrigin(s, p)
    case DetectCompletes(e, _, _, _) => if p == InTask(|s.tasks|) then InDetector(e) else p
    case HttpCompletes(e, _) => if p == InTask(|s.tasks|) then InHttp(e) else p
    case _ => p
  }

  function TaskOrigin(s: State, p: Place): Place
    requires s.tasks != []
  {
    match (s.tasks[0], p)
    case (_, InTask(i)) => InTask(i + 1)
    case (SetAccept(e, _, _), InAccept(d)) => if d == e then InTask(0) else p
    case (SetDetect(e, _, _, _, _), InDetect(d)) => if d == e then InTask(0) else p
    case (Upgrade(e, _), InWs(d)) => if d == e then InTask(0) else p
    case (Update, InDetector(d)) =>
      if d in s.reg.ents && AcceptPending(s.reg.ents[d]) && Constructed(s.reg.ents[d]) then InAccept(d) else p
    case (Update, InHttp(d)) =>
      if d in s.reg.ents && DetectPending(s.reg.ents[d]) && Constructed(s.reg.ents[d]) then InDetect(d) else p
    case _ => p
  }

  /** A socket that was just accepted. */
  predicate FreshAt(s: State, ev: Event, p: Place) {
    ev.AcceptCompletes? && p == InTask(|s.tasks|)
  }

  /** The socket at `p` came from its origin, which is no further along. */
  ghost predicate CameFrom(s: State, ev: Event, next: State, p: Place)
    requires Enabled(s, ev)
  {
    Held(next, p).Some? && !FreshAt(s, ev, p) ==>
      Held(next, p) == Held(s, Origin(s, ev, p)) && Rank(s, Origin(s, ev, p)) <= Rank(next, p)
  }

  // ---------------------------------------------------------------------------------------------
  // Each step moves sockets to where their origin says.

  function Id(socket: Option<Socket>): Option<nat> {
    if socket.Some? then Some(socket.value.id) else None
  }

  lemma StrandMoves(s: State, ev: Event, p: Place)
    requires Enabled(s, ev) && (ev.RunStrand? || ev.PostStop? || ev.PostUpdate? || ev.AcceptCompletes?)
    ensures CameFrom(s, ev, Apply(s, ev), p)
  {
    assert Apply(s, ev).reg == s.reg;
    var tasks := Apply(s, ev).tasks;
    assert tasks[..|s.tasks|] == s.tasks;
    assert forall i :: |s.tasks| <= i < |tasks| ==> TaskSocket(tasks[i]).None? || FreshAt(s, ev, InTask(i));
  }

  /** One entity changed and at most one task was posted; elsewhere nothing moved. */
  lemma ElsewhereNothingMoved(s: State, e: Entity, x: Ent, posts: seq<Task>, st: Stage, p: Place)
    ensures var next := ConnectionStep(s, e, x, posts, st);
            && (p.InTask? && p.i < |s.tasks| ==> Held(next, p) == Held(s, p) && Rank(next, p) == Rank(s, p))
            && (p.InTask? && p.i >= |s.tasks| + |posts| ==> Held(next, p).None?)
            && (!p.InTask? && p.e != e ==> Held(next, p) == Held(s, p) && Rank(next, p) == Rank(s, p))
            && (!p.InTask? && p.e == e ==> Held(next, p) == Id(SlotSocket(x, p)))
  {
  }

  lemma DetectMoves(s: State, e: Entity, ec: bool, handshake: bool, stillOpen: bool, p: Place)
    requires Enabled(s, DetectCompletes(e, ec, handshake, stillOpen))
    ensures CameFrom(s, DetectCompletes(e, ec, handshake, stillOpen), DetectStep(s, e, ec, handshake, stillOpen), p)
  {
    var x := s.reg.ents[e];
    var t := ResultTask(e, x.detector.value, ec, handshake, stillOpen);
    ElsewhereNothingMoved(s, e, x.(detector := Some(DETECTED)), [t], DetectTask, p);
  }

  lemma HttpMoves(s: State, e: Entity, c: Http.Completion, p: Place)
    requires Enabled(s, HttpCompletes(e, c))
    ensures CameFrom(s, HttpCompletes(e, c), HttpStep(s, e, c), p)
  {
    var x := s.reg.ents[e];
    var eff := Http.Complete(x.http.value, c);
    var posts := HttpTasks(e, eff.posts);
    ElsewhereNothingMoved(s, e, x.(http := Some(eff.channel)), posts, HttpStage(eff.channel), p);
    assert |posts| <= 1 && (posts != [] ==> TaskSocket(posts[0]).None? || TaskSocket(posts[0]) == x.http.value.stream);
    assert Id(eff.channel.stream) == None || Id(eff.channel.stream) == Id(x.http.value.stream);
  }

  lemma WsMoves(s: State, e: Entity, c: Ws.Completion, p: Place)
    requires Enabled(s, WsCompletes(e, c))
    ensures CameFrom(s, WsCompletes(e, c), WsStep(s, e, c), p)
  {
    var x := s.reg.ents[e];
    var eff := Ws.Complete(x.ws.value, c);
    var posts := WsTasks(e, eff.post);
    var st := if e in s.stage then WsStage(s.stage[e], eff.post) else Gone;
    ElsewhereNothingMoved(s, e, x.(ws := Some(eff.channel)), posts, st, p);
    assert |posts| <= 1 && (posts != [] ==> TaskSocket(posts[0]).None?);
    assert eff.channel.stream == x.ws.value.stream;
  }

  lemma TagsKeepSockets(y: Ent, p: Place)
    ensures SlotSocket(FinishConstruction(ForgetJustDone(y)), p) == SlotSocket(y, p)
  {
  }

  lemma AcceptHandled(x: Ent, p: Place)
    ensures var y, now := HandleAccept(x), AcceptPending(x) && Constructed(x);
            && (DetectPending(y) <==> DetectPending(x)) && (Constructed(y) <==> Constructed(x))
            && (!y.unused ==> SlotSocket(y, p) == match p
                                                  case InAccept(_) => if now then None else SlotSocket(x, p)
                                                  case InDetector(e) => SlotSocket(x, if now then InAccept(e) else p)
                                                  case _ => SlotSocket(x, p))
  {
    if AcceptPending(x) && Constructed(x) {
      var r := x.accept.value;
      if !r.ec && !r.needClose {
        assert HandleAccept(x) == x.(accept := Some(r.(socket := None)), acceptUsed := true,
                                     detector := Some(DetectChannel(r.socket, false)));
      }
    }
  }

  lemma DetectHandled(x: Ent, p: Place)
    ensures var y, now := HandleDetect(x), DetectPending(x) && Constructed(x);
            && (x.unused ==> y.unused)
            && (!y.unused ==> SlotSocket(y, p) == match p
                                                  case InDetect(_) => if now then None else SlotSocket(x, p)
                                                  case InHttp(e) => SlotSocket(x, if now then InDetect(e) else p)
                                                  case _ => SlotSocket(x, p))
  {
    if DetectPending(x) && Constructed(x) {
      var r := x.detect.value;
      if !r.ec && !r.needClose {
        assert HandleDetect(x) == x.(detect := Some(r.(stream := None)), detectUsed := true,
                                     http := Some(Http.Fresh(r.stream)));
      }
    }
  }

  /** What a tick leaves in each component of a survivor. */
  function SocketAfterTick(x: Ent, p: Place): Option<Socket> {
    var accepted, detected := AcceptPending(x) && Constructed(x), DetectPending(x) && Constructed(x);
    match p
    case InAccept(_) => if accepted then None else SlotSocket(x, p)
    case InDetect(_) => if detected then None else SlotSocket(x, p)
    case InDetector(e) => SlotSocket(x, if accepted then InAccept(e) else p)
    case InHttp(e) => SlotSocket(x, if detected then InDetect(e) else p)
    case _ => SlotSocket(x, p)
  }

  lemma SurvivorSockets(x: Ent, p: Place)
    requires !Results(x).unused
    ensures SlotSocket(Survivor(x), p) == SocketAfterTick(x, p)
  {
    var y := HandleAccept(x);
    AcceptHandled(x, p);
    if p.InHttp? {
      AcceptHandled(x, InDetect(p.e));
    }
    DetectHandled(y, p);
    TagsKeepSockets(Results(x), p);
  }

  lemma UpdatedSlotMoves(s: State, next: State, x: Ent, y: Ent, p: Place)
    requires s.tasks != [] && s.tasks[0].Update? && !p.InTask?
    requires p.e in s.reg.ents && s.reg.ents[p.e] == x
    requires p.e in next.reg.ents && next.reg.ents[p.e] == y
    requires SlotSocket(y, p) == SocketAfterTick(x, p)
    ensures CameFrom(s, RunTask(None), next, p)
  {
  }

  lemma UpdateMoves(s: State, p: Place)
    requires Consistent(s.reg) && s.tasks != [] && s.tasks[0].Update?
    ensures CameFrom(s, RunTask(None), TaskStep(s, None), p)
  {
    if !p.InTask? {
      TickAt(s.reg, p.e);
      if p.e in Tick(s.reg).ents {
        var x := s.reg.ents[p.e];
        SurvivorSockets(x, p);
        UpdatedSlotMoves(s, TaskStep(s, None), x, Survivor(x), p);
      }
    } else {
      UpdatedQueueMoves(s, TaskStep(s, None), p);
    }
  }

  lemma UpdatedQueueMoves(s: State, next: State, p: Place)
    requires s.tasks != [] && s.tasks[0].Update? && p.InTask? && next.tasks == s.tasks[1..]
    ensures CameFrom(s, RunTask(None), next, p)
  {
  }

  /** The entity `e` got the components `x`, and the first task is done. */
  lemma PoppingMoves(s: State, reused: Option<Entity>, next: State, e: Entity, x: Ent, p: Place)
    requires s.tasks != [] && Enabled(s, RunTask(reused)) && !s.tasks[0].Update?
    requires next.tasks == s.tasks[1..] && next.reg.ents == s.reg.ents[e := x]
    requires !p.InTask? && p.e == e && SlotSocket(x, p).Some? ==>
      Id(SlotSocket(x, p)) == Held(s, TaskOrigin(s, p)) && Rank(s, TaskOrigin(s, p)) <= Rank(next, p)
    requires s.tasks[0].SetAccept? || s.tasks[0].SetDetect? || s.tasks[0].Upgrade? ==> s.tasks[0].e == e
    ensures CameFrom(s, RunTask(reused), next, p)
  {
  }

  lemma RecordingMoves(s: State, p: Place)
    requires s.tasks != [] && (s.tasks[0].SetAccept? || s.tasks[0].SetDetect? || s.tasks[0].Upgrade?)
    requires Ready(s.reg, s.tasks[0], None)
    ensures CameFrom(s, RunTask(None), TaskStep(s, None), p)
  {
    var t, next := s.tasks[0], TaskStep(s, None);
    var y := s.reg.ents[t.e];
    var x := next.reg.ents[t.e];
    if t.SetAccept? {
      assert x == RecordAccept(y, t.ec, t.socket);
    } else if t.SetDetect? {
      assert x == RecordDetect(y, t.ec, t.handshake, t.stream, t.needClose);
    } else {
      assert x == UpgradeToWs(y, t.stream);
    }
    PoppingMoves(s, None, next, t.e, x, p);
  }

  lemma OtherTaskMoves(s: State, reused: Option<Entity>, p: Place)
    requires s.tasks != [] && Enabled(s, RunTask(reused))
    requires s.tasks[0].Allocate? || s.tasks[0].Receive? || s.tasks[0].MarkUnused?
    ensures CameFrom(s, RunTask(reused), TaskStep(s, reused), p)
  {
  }

  lemma StepMoves(s: State, ev: Event, p: Place)
    requires Invariant(s) && Enabled(s, ev) && Clean(s, ev)
    ensures CameFrom(s, ev, Apply(s, ev), p)
  {
    match ev {
      case RunTask(reused) =>
        FirstTaskIsReady(s, reused);
        if s.tasks[0].Update? {
          UpdateMoves(s, p);
        } else if s.tasks[0].SetAccept? || s.tasks[0].SetDetect? || s.tasks[0].Upgrade? {
          RecordingMoves(s, p);
        } else {
          OtherTaskMoves(s, reused, p);
        }
      case DetectCompletes(e, ec, handshake, stillOpen) => DetectMoves(s, e, ec, handshake, stillOpen, p);
      case HttpCompletes(e, c) => HttpMoves(s, e, c, p);
      case WsCompletes(e, c) => WsMoves(s, e, c, p);
      case _ => StrandMoves(s, ev, p);
    }
  }

  // ---------------------------------------------------------------------------------------------
  // No socket is copied.

  lemma UpdateCopiesNothing(s: State, p: Place, q: Place)
    requires Consistent(s.reg) && s.tasks != [] && s.tasks[0].Update?
    requires var next := TaskStep(s, None); Held(next, p).Some? && Held(next, q).Some?
    requires TaskOrigin(s, p) == TaskOrigin(s, q)
    ensures p == q
  {
    if !p.InTask? && !q.InTask? {
      HeldAfterTick(s, p);
      HeldAfterTick(s, q);
      SlotsShareNothing(s, p, q);
    }
  }

  lemma HeldAfterTick(s: State, p: Place)
    requires Consistent(s.reg) && s.tasks != [] && s.tasks[0].Update?
    requires !p.InTask? && Held(TaskStep(s, None), p).Some?
    ensures p.e in s.reg.ents && SocketAfterTick(s.reg.ents[p.e], p).Some?
  {
    TickAt(s.reg, p.e);
    SurvivorSockets(s.reg.ents[p.e], p);
  }

  lemma SlotsShareNothing(s: State, p: Place, q: Place)
    requires s.tasks != [] && s.tasks[0].Update? && !p.InTask? && !q.InTask?
    requires p.e in s.reg.ents && SocketAfterTick(s.reg.ents[p.e], p).Some?
    requires q.e in s.reg.ents && SocketAfterTick(s.reg.ents[q.e], q).Some?
    requires TaskOrigin(s, p) == TaskOrigin(s, q)
    ensures p == q
  {
  }

  lemma TaskCopiesNothing(s: State, p: Place, q: Place)
    requires s.tasks != [] && !s.tasks[0].Update? && TaskOrigin(s, p) == TaskOrigin(s, q)
    ensures p == q
  {
  }

  lemma CompletionCopiesNothing(s: State, ev: Event, p: Place, q: Place)
    requires Enabled(s, ev) && (ev.DetectCompletes? || ev.HttpCompletes?)
    requires Held(Apply(s, ev), p).Some? && Held(Apply(s, ev), q).Some?
    requires Origin(s, ev, p) == Origin(s, ev, q)
    ensures p == q
  {
    var x := s.reg.ents[ev.e];
    if ev.HttpCompletes? {
      var eff := Http.Complete(x.http.value, ev.http);
      var y, posts, st := x.(http := Some(eff.channel)), HttpTasks(ev.e, eff.posts), HttpStage(eff.channel);
      ElsewhereNothingMoved(s, ev.e, y, posts, st, p);
      ElsewhereNothingMoved(s, ev.e, y, posts, st, q);
    } else {
      var t := ResultTask(ev.e, x.detector.value, ev.ec, ev.handshake, ev.stillOpen);
      ElsewhereNothingMoved(s, ev.e, x.(detector := Some(DETECTED)), [t], DetectTask, p);
      ElsewhereNothingMoved(s, ev.e, x.(detector := Some(DETECTED)), [t], DetectTask, q);
    }
  }

  lemma StepCopiesNothing(s: State, ev: Event, p: Place, q: Place)
    requires Invariant(s) && Enabled(s, ev)
    requires Held(Apply(s, ev), p).Some? && Held(Apply(s, ev), q).Some?
    requires Origin(s, ev, p) == Origin(s, ev, q)
    ensures p == q
  {
    match ev {
      case RunTask(reused) =>
        if s.tasks[0].Update? {
          UpdateCopiesNothing(s, p, q);
        } else {
          TaskCopiesNothing(s, p, q);
        }
      case DetectCompletes(_, _, _, _) => CompletionCopiesNothing(s, ev, p, q);
      case HttpCompletes(_, _) => CompletionCopiesNothing(s, ev, p, q);
      case _ =>
    }
  }

  lemma FreshIsNew(s: State, ev: Event, p: Place)
    requires Enabled(s, ev) && FreshAt(s, ev, p)
    ensures Held(Apply(s, ev), p) == Some(s.nextSocket) && Apply(s, ev).nextSocket == s.nextSocket + 1
  {
  }

  lemma StepKeepsLinear(s: State, ev: Event)
    requires Invariant(s) && Linear(s) && Enabled(s, ev) && Clean(s, ev)
    ensures Linear(Apply(s, ev))
  {
    var next := Apply(s, ev);
    forall p | Held(next, p).Some?
      ensures Held(next, p).value < next.nextSocket
      ensures !FreshAt(s, ev, p) ==> Held(next, p).value < s.nextSocket
    {
      OldOrFresh(s, ev, p);
    }
    forall p, q | Held(next, p).Some? && Held(next, p) == Held(next, q)
      ensures p == q
    {
      OldOrFresh(s, ev, p);
      OldOrFresh(s, ev, q);
      if !FreshAt(s, ev, p) && !FreshAt(s, ev, q) {
        StepCopiesNothing(s, ev, p, q);
      }
    }
  }

  lemma OldOrFresh(s: State, ev: Event, p: Place)
    requires Invariant(s) && Linear(s) && Enabled(s, ev) && Clean(s, ev)
    requires Held(Apply(s, ev), p).Some?
    ensures var next := Apply(s, ev);
            && Held(next, p).value < next.nextSocket
            && (FreshAt(s, ev, p) ==> Held(next, p) == Some(s.nextSocket))
            && (!FreshAt(s, ev, p) ==> Held(next, p).value < s.nextSocket && Held(s, Origin(s, ev, p)) == Held(next, p)
                                       && Rank(s, Origin(s, ev, p)) <= Rank(next, p))
  {
    StepMoves(s, ev, p);
    if FreshAt(s, ev, p) {
      FreshIsNew(s, ev, p);
    } else {
      SocketIdsGrow(s, ev);
    }
  }

  lemma SocketIdsGrow(s: State, ev: Event)
    requires Enabled(s, ev)
    ensures Apply(s, ev).nextSocket >= s.nextSocket
  {
  }
}
