/** The running server: the acceptor strand, the registry sequence and the connection strands take
    steps in any order, each queue in its own order. */
module Server {
  import opened Wrappers
  import opened Sockets
  import opened Entities
  import opened RegistryTasks
  import opened Listening
  import opened Detection
  import opened Connections
  import Http = HttpSession
  import Ws = WsSession

  /** `acceptor` and `strand` are the listener and its strand's queue, `tasks` the queue of the registry
      sequence, `reg` the registry; `nextId` and `nextSocket` are the ids never used so far. The rest is
      history: the stage of every connection so far, the connection allocated but without a result,
      how many were allocated and recorded, and the sockets whose results the ticks handled. */
  datatype State = State(
    acceptor: Acceptor, strand: seq<StrandTask>,
    tasks: seq<Task>, reg: Registry, nextId: Entity, nextSocket: nat,
    stage: map<Entity, Stage>, lacking: Option<Entity>, allocations: nat, recordings: nat,
    acceptsHandled: set<nat>, detectsHandled: set<nat>)

  /** Just after `configureAndRun` posted its task. */
  const INITIAL := State(Acceptor(false, Uninitialized, None), [Configure],
                         [], Registry(map[], map[]), 0, 0, map[], None, 0, 0, {}, {})

  datatype Event =
    | RunStrand(outcome: ConfigureOutcome)
    | RunTask(reused: Option<Entity>)
    | PostStop
    | PostUpdate
    | AcceptCompletes(ec: bool, isOpen: bool)
    | DetectCompletes(e: Entity, ec: bool, handshake: bool, stillOpen: bool)
    | HttpCompletes(e: Entity, http: Http.Completion)
    | WsCompletes(e: Entity, ws: Ws.Completion)

  predicate Enabled(s: State, ev: Event) {
    match ev
    case RunStrand(_) => s.strand != []
    case RunTask(reused) => s.tasks != [] && (if s.tasks[0].Allocate? then Choosable(s.reg, reused) else reused.None?)
    case PostStop => true
    case PostUpdate => true
    case AcceptCompletes(_, _) => s.acceptor.accepting.Some?
    case DetectCompletes(e, _, _, _) =>
      e in s.reg.ents && s.reg.ents[e].detector.Some? && DetectPossible(s.reg.ents[e].detector.value)
    case HttpCompletes(e, c) =>
      e in s.reg.ents && s.reg.ents[e].http.Some? && Http.Possible(s.reg.ents[e].http.value, c)
    case WsCompletes(e, c) =>
      e in s.reg.ents && s.reg.ents[e].ws.Some? && Ws.Possible(s.reg.ents[e].ws.value, c)
  }

  // ---------------------------------------------------------------------------------------------
  // The stages, which only record what happened.

  function AtStage(stage: map<Entity, Stage>, e: Entity, st: Stage): map<Entity, Stage> {
    if e in stage then stage[e := st] else stage
  }

  function AfterTick(stage: map<Entity, Stage>, reg: Registry): map<Entity, Stage> {
    map e | e in stage :: if e in reg.ents && e in Tick(reg).ents then SurvivorStage(stage[e], reg.ents[e]) else Gone
  }

  function StageAfterTask(s: State, t: Task, reused: Option<Entity>): map<Entity, Stage> {
    match t
    case Allocate => s.stage[Allocated(s.nextId, reused) := Posted]
    case SetAccept(e, _, _) => AtStage(s.stage, e, AcceptRecorded)
    case Update => AfterTick(s.stage, s.reg)
    case SetDetect(e, _, _, _, _) => AtStage(s.stage, e, DetectRecorded)
    case Upgrade(e, _) => AtStage(s.stage, e, Stage.Ws)
    case Receive(_) => s.stage
    case MarkUnused(e) => if e in s.stage then s.stage[e := MarkedStage(s.stage[e])] else s.stage
  }

  function AcceptIds(ents: Ents): set<nat> {
    set e | e in ents && AcceptPending(ents[e]) && Constructed(ents[e]) && ents[e].accept.value.socket.Some? ::
      ents[e].accept.value.socket.value.id
  }

  function DetectIds(ents: Ents): set<nat> {
    set e | e in ents && DetectPending(ents[e]) && Constructed(ents[e]) && ents[e].detect.value.stream.Some? ::
      ents[e].detect.value.stream.value.id
  }

  // ---------------------------------------------------------------------------------------------
  // Steps.

  /** One task of the acceptor strand. */
  function StrandStep(s: State, outcome: ConfigureOutcome): State
    requires s.strand != []
  {
    var t := s.strand[0];
    var eff := RunStrandTask(s.acceptor, t, outcome);
    s.(acceptor := eff.acceptor, strand := s.strand[1..], tasks := s.tasks + eff.posts,
       stage := if t.AsyncAccept? then AtStage(s.stage, t.e, if s.acceptor.open then Accepting else Orphan)
                else s.stage)
  }

  /** One task of the registry sequence. */
  function TaskStep(s: State, reused: Option<Entity>): State
    requires s.tasks != []
  {
    var t := s.tasks[0];
    var next := s.(tasks := s.tasks[1..], stage := StageAfterTask(s, t, reused),
                   reg := Perform(s.reg, s.nextId, t, reused), nextId := NextId(s.nextId, t, reused));
    match t
    case Allocate =>
      var e := Allocated(s.nextId, reused);
      next.(strand := s.strand + [AsyncAccept(e)], lacking := Some(e), allocations := s.allocations + 1)
    case SetAccept(_, _, _) => next.(lacking := None, recordings := s.recordings + 1)
    case Update =>
      next.(acceptsHandled := s.acceptsHandled + AcceptIds(s.reg.ents),
            detectsHandled := s.detectsHandled + DetectIds(AfterAccepts(s.reg.ents)))
    case _ => next
  }

  /** What the second system of a tick finds. */
  function AfterAccepts(ents: Ents): Ents {
    MapEnts(ents, HandleAccept)
  }

  /** `onAccept`: posts the result, then the next round of the loop. */
  function AcceptStep(s: State, ec: bool, isOpen: bool): State
    requires s.acceptor.accepting.Some?
  {
    var e := s.acceptor.accepting.value;
    var eff := Accepted(s.acceptor, ec, Socket(s.nextSocket, isOpen));
    s.(acceptor := eff.acceptor, strand := s.strand + [DoAccept], tasks := s.tasks + eff.posts,
       nextSocket := s.nextSocket + 1, stage := AtStage(s.stage, e, AcceptTask))
  }

  /** A completion on the strand of connection `e` changes one channel and posts tasks. */
  function ConnectionStep(s: State, e: Entity, x: Ent, posts: seq<Task>, st: Stage): State {
    s.(reg := Replace(s.reg, e, x), tasks := s.tasks + posts, stage := AtStage(s.stage, e, st))
  }

  function DetectStep(s: State, e: Entity, ec: bool, handshake: bool, stillOpen: bool): State
    requires e in s.reg.ents && s.reg.ents[e].detector.Some? && DetectPossible(s.reg.ents[e].detector.value)
  {
    var x := s.reg.ents[e];
    var result := ResultTask(e, x.detector.value, ec, handshake, stillOpen);
    ConnectionStep(s, e, x.(detector := Some(DETECTED)), [result], DetectTask)
  }

  function HttpTasks(e: Entity, posts: seq<Http.Post>): seq<Task> {
    seq(|posts|, i requires 0 <= i < |posts| =>
      match posts[i]
      case PostMarkUnused => MarkUnused(e)
      case PostUpgrade(stream) => Upgrade(e, stream))
  }

  function HttpStep(s: State, e: Entity, c: Http.Completion): State
    requires Enabled(s, HttpCompletes(e, c))
  {
    var x := s.reg.ents[e];
    var eff := Http.Complete(x.http.value, c);
    ConnectionStep(s, e, x.(http := Some(eff.channel)), HttpTasks(e, eff.posts), HttpStage(eff.channel))
  }

  function WsTasks(e: Entity, post: Ws.Post): seq<Task> {
    match post
    case NoPost => []
    case PostReceived => [Receive(e)]
    case PostMarkUnused => [MarkUnused(e)]
  }

  function WsStep(s: State, e: Entity, c: Ws.Completion): State
    requires Enabled(s, WsCompletes(e, c))
  {
    var x := s.reg.ents[e];
    var eff := Ws.Complete(x.ws.value, c);
    ConnectionStep(s, e, x.(ws := Some(eff.channel)), WsTasks(e, eff.post),
                   if e in s.stage then WsStage(s.stage[e], eff.post) else Gone)
  }

  function Apply(s: State, ev: Event): State
    requires Enabled(s, ev)
  {
    match ev
    case RunStrand(outcome) => StrandStep(s, outcome)
    case RunTask(reused) => TaskStep(s, reused)
    case PostStop => s.(strand := s.strand + [Stop])
    case PostUpdate => s.(tasks := s.tasks + [Update])
    case AcceptCompletes(ec, isOpen) => AcceptStep(s, ec, isOpen)
    case DetectCompletes(e, ec, handshake, stillOpen) => DetectStep(s, e, ec, handshake, stillOpen)
    case HttpCompletes(e, c) => HttpStep(s, e, c)
    case WsCompletes(e, c) => WsStep(s, e, c)
  }

  // ---------------------------------------------------------------------------------------------
  // Runs.

  predicate About(t: Task, e: Entity) {
    match t
    case Allocate => false
    case Update => false
    case _ => t.e == e
  }

  /** The hypotheses on reuse: nothing queued or outstanding is left of the connection whose entity the
      allocator takes over, and the entity has no children (only whitelisted components). */
  ghost predicate CleanReuse(s: State, c: Entity) {
    && (forall t :: t in s.tasks ==> !About(t, c))
    && (c in s.reg.ents ==> IdleWs(s.reg.ents[c]))
    && c !in s.reg.children
  }

  ghost predicate Clean(s: State, ev: Event) {
    ev.RunTask? && ev.reused.Some? ==> CleanReuse(s, ev.reused.value)
  }

  /** The state after a run, if each of its events was enabled and each reuse clean. */
  ghost function After(run: seq<Event>): Option<State> {
    if run == [] then Some(INITIAL)
    else
      var s := After(run[..|run| - 1]);
      var ev := run[|run| - 1];
      if s.Some? && Enabled(s.value, ev) && Clean(s.value, ev) then Some(Apply(s.value, ev)) else None
  }

  /** One more event. */
  lemma Extend(run: seq<Event>, s: State, ev: Event) returns (longer: seq<Event>, next: State)
    requires After(run) == Some(s) && Enabled(s, ev) && Clean(s, ev)
    ensures longer == run + [ev] && After(longer) == Some(next) && next == Apply(s, ev)
  {
    longer, next := run + [ev], Apply(s, ev);
    assert longer[..|run|] == run;
  }
}
