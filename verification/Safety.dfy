/** What holds in every reachable state of the server. */
module Safety {
  import opened Wrappers
  import opened Sockets
  import opened Entities
  import opened NetworkRegistry
  import opened RegistryTasks
  import opened Listening
  import opened Detection
  import opened Connections
  import opened Server
  import opened Lifecycle
  import opened RegistryQueue
  import opened AcceptLoop
  import Http = HttpSession
  import Ws = WsSession

  ghost predicate Invariant(s: State) {
    && RegistryInv(s.stage, s.reg, s.nextId)
    && QueueInv(s.stage, s.tasks)
    && LoopInv(s)
  }

  // ---------------------------------------------------------------------------------------------
  // The acceptor strand and `onAccept`.

  lemma StrandKeepsRegistryAndQueue(s: State, outcome: ConfigureOutcome)
    requires Invariant(s) && s.strand != []
    ensures var next := StrandStep(s, outcome);
            RegistryInv(next.stage, next.reg, next.nextId) && QueueInv(next.stage, next.tasks)
  {
    var t := s.strand[0];
    var posts := RunStrandTask(s.acceptor, t, outcome).posts;
    FirstOfStrand(s);
    if t.AsyncAccept? {
      var st := if s.acceptor.open then Accepting else Orphan;
      StageChanges(s.stage, s.reg, s.nextId, t.e, st);
      QuietStages(s.stage, s.tasks, t.e);
      PostingKeepsQueue(s.stage, s.tasks, t.e, st, posts);
    } else {
      PostingAlone(s.stage, s.tasks, posts);
    }
  }

  lemma StrandKeeps(s: State, outcome: ConfigureOutcome)
    requires Invariant(s) && s.strand != []
    ensures Invariant(StrandStep(s, outcome))
  {
    StrandKeepsRegistryAndQueue(s, outcome);
    match s.strand[0] {
      case Configure => ConfigureKeepsLoop(s, outcome);
      case DoAccept => DoAcceptKeepsLoop(s, outcome);
      case AsyncAccept(_) => AsyncAcceptKeepsLoop(s, outcome);
      case Stop => StopKeepsLoop(s, outcome);
    }
  }

  lemma AcceptKeeps(s: State, ec: bool, isOpen: bool)
    requires Invariant(s) && s.acceptor.accepting.Some?
    ensures Invariant(AcceptStep(s, ec, isOpen))
  {
    var e := s.acceptor.accepting.value;
    AcceptKeepsLoop(s, ec, isOpen);
    StageChanges(s.stage, s.reg, s.nextId, e, AcceptTask);
    QuietStages(s.stage, s.tasks, e);
    CountPositive(s.tasks, IsAllocate);
    var t := SetAccept(e, ec, Socket(s.nextSocket, isOpen));
    assert WaitsFor(AcceptTask, e, t) && t in s.tasks + [t];
    PostingKeepsQueue(s.stage, s.tasks, e, AcceptTask, [t]);
  }

  lemma PostUpdateKeeps(s: State)
    requires Invariant(s)
    ensures Invariant(s.(tasks := s.tasks + [Update])) && Spares(s, s.(tasks := s.tasks + [Update]))
  {
    PostingAlone(s.stage, s.tasks, [Update]);
    PostingKeepsCounts(s.tasks, [Update]);
    OtherStepKeepsLoop(s, s.(tasks := s.tasks + [Update]));
  }

  // ---------------------------------------------------------------------------------------------
  // Completions on the connection strands.

  lemma ConnectionKeeps(s: State, e: Entity, x: Ent, posts: seq<Task>, st: Stage)
    requires Invariant(s) && e in s.stage && !s.stage[e].Gone? && !Lacking(s.stage[e]) && !Lacking(st)
    requires Fits(st, x) && !x.delayed
    requires forall t :: t in s.tasks && About(t, e) ==> TaskFits(s.stage[e := st], t)
    requires Postable(s.stage[e := st], s.tasks, posts) && forall p :: p in posts ==> !InLoop(p)
    requires Served(st, e, s.tasks + posts)
    ensures Invariant(ConnectionStep(s, e, x, posts, st)) && Spares(s, ConnectionStep(s, e, x, posts, st))
  {
    ConnectionChanges(s.stage, s.reg, s.nextId, e, st, x);
    PostingKeepsQueue(s.stage, s.tasks, e, st, posts);
    PostingKeepsCounts(s.tasks, posts);
    OtherStepKeepsLoop(s, ConnectionStep(s, e, x, posts, st));
  }

  lemma DetectKeeps(s: State, e: Entity, ec: bool, handshake: bool, stillOpen: bool)
    requires Invariant(s) && Enabled(s, DetectCompletes(e, ec, handshake, stillOpen))
    ensures e in s.stage && s.stage[e].Detecting?
    ensures var next := DetectStep(s, e, ec, handshake, stillOpen); Invariant(next) && Spares(s, next)
  {
    var x := s.reg.ents[e];
    KnownConnection(s.stage, s.reg, s.nextId, e);
    QuietStages(s.stage, s.tasks, e);
    DetectedFits(x);
    var t := ResultTask(e, x.detector.value, ec, handshake, stillOpen);
    assert WaitsFor(DetectTask, e, t) && t in s.tasks + [t];
    ConnectionKeeps(s, e, x.(detector := Some(DETECTED)), [t], DetectTask);
  }

  lemma HttpServed(s: State, e: Entity, posts: seq<Http.Post>, st: Stage)
    requires QueueInv(s.stage, s.tasks) && e in s.stage && s.stage[e].Http?
    requires match st
             case HttpEnded(marked) => !marked && posts == [Http.PostMarkUnused]
             case UpgradeTask => |posts| == 1 && posts[0].PostUpgrade? && posts[0].stream.Some?
             case _ => !Waits(st) && posts == []
    ensures Postable(s.stage[e := st], s.tasks, HttpTasks(e, posts))
    ensures Served(st, e, s.tasks + HttpTasks(e, posts))
    ensures forall p :: p in HttpTasks(e, posts) ==> !InLoop(p)
  {
    QuietStages(s.stage, s.tasks, e);
    var tasks := HttpTasks(e, posts);
    if posts != [] {
      assert tasks == [tasks[0]] && tasks[0] in s.tasks + tasks;
    }
  }

  lemma HttpKeeps(s: State, e: Entity, c: Http.Completion)
    requires Invariant(s) && Enabled(s, HttpCompletes(e, c))
    ensures e in s.stage && s.stage[e].Http? && Invariant(HttpStep(s, e, c)) && Spares(s, HttpStep(s, e, c))
  {
    var x := s.reg.ents[e];
    KnownConnection(s.stage, s.reg, s.nextId, e);
    QuietStages(s.stage, s.tasks, e);
    HttpFits(x, c);
    var eff := Http.Complete(x.http.value, c);
    HttpServed(s, e, eff.posts, HttpStage(eff.channel));
    ConnectionKeeps(s, e, x.(http := Some(eff.channel)), HttpTasks(e, eff.posts), HttpStage(eff.channel));
  }

  lemma WsServed(s: State, e: Entity, post: Ws.Post)
    requires QueueInv(s.stage, s.tasks) && e in s.stage && (s.stage[e].Ws? || s.stage[e].WsEnded?)
    requires post.PostReceived? ==> s.stage[e].Ws?
    ensures var st := WsStage(s.stage[e], post);
            && Postable(s.stage[e := st], s.tasks, WsTasks(e, post))
            && Served(st, e, s.tasks + WsTasks(e, post))
  {
    var posts := WsTasks(e, post);
    if post.PostMarkUnused? {
      assert MarkUnused(e) in s.tasks + posts;
    } else {
      assert Served(s.stage[e], e, s.tasks);
      if Waits(s.stage[e]) {
        var t :| t in s.tasks && WaitsFor(s.stage[e], e, t);
        assert t in s.tasks + posts;
      }
    }
  }

  lemma WsKeeps(s: State, e: Entity, c: Ws.Completion)
    requires Invariant(s) && Enabled(s, WsCompletes(e, c))
    ensures e in s.stage && (s.stage[e].Ws? || s.stage[e].WsEnded?)
    ensures Invariant(WsStep(s, e, c)) && Spares(s, WsStep(s, e, c))
  {
    var x := s.reg.ents[e];
    KnownConnection(s.stage, s.reg, s.nextId, e);
    WsFits(s.stage[e], x, c);
    var eff := Ws.Complete(x.ws.value, c);
    WsServed(s, e, eff.post);
    ConnectionKeeps(s, e, x.(ws := Some(eff.channel)), WsTasks(e, eff.post), WsStage(s.stage[e], eff.post));
  }

  // ---------------------------------------------------------------------------------------------
  // The registry sequence.

  /** Every task about a connection finds its entity alive, with what the task needs, except that a
      mark-unused may come after the end. */
  lemma FirstTaskIsReady(s: State, reused: Option<Entity>)
    requires Invariant(s) && Enabled(s, RunTask(reused)) && Clean(s, RunTask(reused))
    ensures Ready(s.reg, s.tasks[0], reused)
  {
    var t := s.tasks[0];
    assert t in s.tasks;
    if t.Allocate? && reused.Some? {
      ReusedWasMarked(s, reused.value);
    } else if !t.Allocate? && !t.Update? {
      KnownConnection(s.stage, s.reg, s.nextId, t.e);
    }
  }

  /** Safe reuse: whatever the allocator takes over ended its session, and each of its results was
      handled. */
  lemma ReusedWasMarked(s: State, c: Entity)
    requires Invariant(s) && c in Candidates(s.reg.ents)
    ensures c in s.stage && Marked(s.stage[c]) && Fits(s.stage[c], s.reg.ents[c])
    ensures ReuseReady(s.reg.ents[c]) && !s.reg.ents[c].justDone && !s.reg.ents[c].message
  {
    KnownConnection(s.stage, s.reg, s.nextId, c);
  }

  lemma AllocateKeeps(s: State, reused: Option<Entity>)
    requires Invariant(s) && Enabled(s, RunTask(reused)) && Clean(s, RunTask(reused)) && s.tasks[0].Allocate?
    ensures Invariant(TaskStep(s, reused))
  {
    var e := Allocated(s.nextId, reused);
    AllocateKeepsLoop(s, reused);
    if reused.None? {
      NewConnection(s.stage, s.reg, s.nextId);
    } else {
      ReusedWasMarked(s, e);
      ReuseFits(s.stage[e], s.reg.ents[e]);
      ConnectionChanges(s.stage, s.reg, s.nextId, e, Posted, WithStrand(Reuse(s.reg.ents[e])));
    }
    NobodyAwaits(s, reused);
    AllocationKeepsQueue(s.stage, s.tasks, e);
  }

  lemma NobodyAwaits(s: State, reused: Option<Entity>)
    requires Invariant(s) && Clean(s, RunTask(reused))
    ensures forall t :: t in s.tasks ==> !About(t, Allocated(s.nextId, reused))
  {
    forall t | t in s.tasks
      ensures !About(t, Allocated(s.nextId, reused))
    {
      assert TaskFits(s.stage, t);
    }
  }

  lemma UpdateKeeps(s: State)
    requires Invariant(s) && s.tasks != [] && s.tasks[0].Update?
    ensures Invariant(TaskStep(s, None)) && Spares(s, TaskStep(s, None))
  {
    var next := TaskStep(s, None);
    TickKeepsRegistry(s.stage, s.reg, s.nextId);
    TickKeepsQueue(s.stage, next.stage, s.tasks);
    TickSparesLacking(s.stage, next.stage);
    OtherStepKeepsLoop(s, next);
  }

  lemma TickSparesLacking(stage: Stages, next: Stages)
    requires next.Keys == stage.Keys && forall e :: e in stage ==> TickMoves(stage[e], next[e])
    ensures SameLacking(stage, next)
  {
  }

  /** A task that changes the entity of one connection. */
  lemma ChangingKeeps(s: State, e: Entity, x: Ent, st: Stage)
    requires Invariant(s) && s.tasks != [] && !InLoop(s.tasks[0])
    requires e in s.stage && !s.stage[e].Gone? && !Lacking(s.stage[e]) && !Lacking(st) && Fits(st, x) && !x.delayed
    requires QueueInv(s.stage[e := st], s.tasks[1..])
    ensures var next := s.(tasks := s.tasks[1..], reg := Replace(s.reg, e, x), stage := s.stage[e := st]);
            Invariant(next) && Spares(s, next)
  {
    ConnectionChanges(s.stage, s.reg, s.nextId, e, st, x);
    OtherStepKeepsLoop(s, s.(tasks := s.tasks[1..], reg := Replace(s.reg, e, x), stage := s.stage[e := st]));
  }

  lemma SetAcceptKeeps(s: State)
    requires Invariant(s) && s.tasks != [] && s.tasks[0].SetAccept?
    ensures Invariant(TaskStep(s, None))
  {
    var SetAccept(e, ec, socket) := s.tasks[0];
    assert s.tasks[0] in s.tasks;
    KnownConnection(s.stage, s.reg, s.nextId, e);
    SetAcceptKeepsLoop(s);
    RecordAcceptFits(s.reg.ents[e], ec, socket);
    var x := RecordAccept(s.reg.ents[e], ec, socket);
    ConnectionChanges(s.stage, s.reg, s.nextId, e, AcceptRecorded, x);
    HandOverKeepsQueue(s.stage, s.tasks, e, AcceptRecorded);
  }

  lemma SetDetectKeeps(s: State)
    requires Invariant(s) && s.tasks != [] && s.tasks[0].SetDetect?
    ensures Invariant(TaskStep(s, None)) && Spares(s, TaskStep(s, None))
  {
    var SetDetect(e, ec, handshake, stream, needClose) := s.tasks[0];
    assert s.tasks[0] in s.tasks;
    KnownConnection(s.stage, s.reg, s.nextId, e);
    RecordDetectFits(s.reg.ents[e], ec, handshake, stream, needClose);
    HandOverKeepsQueue(s.stage, s.tasks, e, DetectRecorded);
    ChangingKeeps(s, e, RecordDetect(s.reg.ents[e], ec, handshake, stream, needClose), DetectRecorded);
  }

  lemma UpgradeKeeps(s: State)
    requires Invariant(s) && s.tasks != [] && s.tasks[0].Upgrade?
    ensures Invariant(TaskStep(s, None)) && Spares(s, TaskStep(s, None))
  {
    var Upgrade(e, stream) := s.tasks[0];
    assert s.tasks[0] in s.tasks;
    KnownConnection(s.stage, s.reg, s.nextId, e);
    UpgradeFits(s.reg.ents[e], stream);
    HandOverKeepsQueue(s.stage, s.tasks, e, Stage.Ws);
    ChangingKeeps(s, e, UpgradeToWs(s.reg.ents[e], stream), Stage.Ws);
  }

  lemma ReceiveKeeps(s: State)
    requires Invariant(s) && s.tasks != [] && s.tasks[0].Receive?
    ensures Invariant(TaskStep(s, None)) && Spares(s, TaskStep(s, None))
  {
    assert s.tasks[0] in s.tasks;
    NewMessage(s.stage, s.reg, s.nextId, s.tasks[0].e);
    ReceivingKeepsQueue(s.stage, s.tasks);
    OtherStepKeepsLoop(s, TaskStep(s, None));
  }

  lemma MarkUnusedKeeps(s: State)
    requires Invariant(s) && s.tasks != [] && s.tasks[0].MarkUnused?
    ensures Invariant(TaskStep(s, None)) && Spares(s, TaskStep(s, None))
  {
    var e := s.tasks[0].e;
    assert s.tasks[0] in s.tasks;
    KnownConnection(s.stage, s.reg, s.nextId, e);
    MarkingKeepsQueue(s.stage, s.tasks, e);
    if s.stage[e].Gone? {
      assert s.stage[e := Gone] == s.stage;
      OtherStepKeepsLoop(s, TaskStep(s, None));
    } else {
      MarkFits(s.stage[e], s.reg.ents[e]);
      ChangingKeeps(s, e, s.reg.ents[e].(unused := true), MarkedStage(s.stage[e]));
    }
  }

  lemma TaskKeeps(s: State, reused: Option<Entity>)
    requires Invariant(s) && Enabled(s, RunTask(reused)) && Clean(s, RunTask(reused))
    ensures Invariant(TaskStep(s, reused))
    ensures !InLoop(s.tasks[0]) ==> Spares(s, TaskStep(s, reused))
  {
    match s.tasks[0] {
      case Allocate => AllocateKeeps(s, reused);
      case SetAccept(_, _, _) => SetAcceptKeeps(s);
      case Update => UpdateKeeps(s);
      case SetDetect(_, _, _, _, _) => SetDetectKeeps(s);
      case Upgrade(_, _) => UpgradeKeeps(s);
      case Receive(_) => ReceiveKeeps(s);
      case MarkUnused(_) => MarkUnusedKeeps(s);
    }
  }

  // ---------------------------------------------------------------------------------------------
  // Every run.

  lemma InitiallyInvariant()
    ensures Invariant(INITIAL)
  {
    forall e
      ensures Known(INITIAL.stage, INITIAL.reg.ents, e)
    {
    }
  }

  /** Steps that are not the accept loop's. */
  predicate Elsewhere(s: State, ev: Event)
    requires Enabled(s, ev)
  {
    match ev
    case RunStrand(_) => false
    case PostStop => false
    case AcceptCompletes(_, _) => false
    case RunTask(_) => !InLoop(s.tasks[0])
    case _ => true
  }

  lemma StepKeeps(s: State, ev: Event)
    requires Invariant(s) && Enabled(s, ev) && Clean(s, ev)
    ensures Invariant(Apply(s, ev))
    ensures Elsewhere(s, ev) ==> Spares(s, Apply(s, ev))
  {
    match ev {
      case RunStrand(outcome) => StrandKeeps(s, outcome);
      case RunTask(reused) => TaskKeeps(s, reused);
      case PostStop => StopPosted(s);
      case PostUpdate => PostUpdateKeeps(s);
      case AcceptCompletes(ec, isOpen) => AcceptKeeps(s, ec, isOpen);
      case DetectCompletes(e, ec, handshake, stillOpen) => DetectKeeps(s, e, ec, handshake, stillOpen);
      case HttpCompletes(e, c) => HttpKeeps(s, e, c);
      case WsCompletes(e, c) => WsKeeps(s, e, c);
    }
  }

  lemma {:induction false} ReachableIsInvariant(run: seq<Event>)
    requires After(run).Some?
    ensures Invariant(After(run).value)
  {
    if run == [] {
      InitiallyInvariant();
    } else {
      var before := run[..|run| - 1];
      ReachableIsInvariant(before);
      StepKeeps(After(before).value, run[|run| - 1]);
    }
  }
}
