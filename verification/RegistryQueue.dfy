/** What is queued on the registry sequence fits the stages of the connections: every task finds its
    entity as it expects it, in every order the steps can produce. */
module RegistryQueue {
  import opened Wrappers
  import opened Entities
  import opened RegistryTasks
  import opened Connections
  import opened Server
  import opened Lifecycle

  predicate TaskFits(stage: Stages, t: Task) {
    match t
    case Allocate | Update => true
    case SetAccept(e, _, _) => e in stage && stage[e].AcceptTask?
    case SetDetect(e, _, _, stream, _) => e in stage && stage[e].DetectTask? && stream.Some?
    case Upgrade(e, stream) => e in stage && stage[e].UpgradeTask? && stream.Some?
    case Receive(e) => e in stage && (stage[e].Ws? || stage[e] == WsEnded(false))
    case MarkUnused(e) => e in stage && (Ended(stage[e]) || stage[e].Gone?)
  }

  /** `b` may be queued behind `a`: results before the next allocation, messages before mark-unused, and
      no hand-over twice. */
  predicate MayFollow(a: Task, b: Task) {
    match (a, b)
    case (Allocate, SetAccept(_, _, _)) => false
    case (MarkUnused(e), Receive(d)) => e != d
    case (SetAccept(e, _, _), SetAccept(d, _, _)) => e != d
    case (SetDetect(e, _, _, _, _), SetDetect(d, _, _, _, _)) => e != d
    case (Upgrade(e, _), Upgrade(d, _)) => e != d
    case _ => true
  }

  ghost predicate Ordered(tasks: seq<Task>) {
    forall i, j :: 0 <= i < j < |tasks| ==> MayFollow(tasks[i], tasks[j])
  }

  /** A connection at this stage waits for a task. */
  predicate Waits(st: Stage) {
    st.AcceptTask? || st.DetectTask? || st.UpgradeTask? || (Ended(st) && !st.marked)
  }

  predicate WaitsFor(st: Stage, e: Entity, t: Task) {
    match t
    case SetAccept(d, _, _) => d == e && st.AcceptTask?
    case SetDetect(d, _, _, _, _) => d == e && st.DetectTask?
    case Upgrade(d, _) => d == e && st.UpgradeTask?
    case MarkUnused(d) => d == e && Ended(st)
    case _ => false
  }

  ghost predicate Served(st: Stage, e: Entity, tasks: seq<Task>) {
    Waits(st) ==> exists t :: t in tasks && WaitsFor(st, e, t)
  }

  ghost predicate QueueInv(stage: Stages, tasks: seq<Task>) {
    && (forall t :: t in tasks ==> TaskFits(stage, t))
    && Ordered(tasks)
    && (forall e :: e in stage ==> Served(stage[e], e, tasks))
  }

  /** No task concerns a connection at any other stage. */
  lemma QuietStages(stage: Stages, tasks: seq<Task>, e: Entity)
    requires QueueInv(stage, tasks)
    requires e in stage ==> !Waits(stage[e]) && !stage[e].Ws? && !Ended(stage[e]) && !stage[e].Gone?
    ensures forall t :: t in tasks ==> !About(t, e)
  {
  }

  ghost predicate Postable(stage: Stages, tasks: seq<Task>, posts: seq<Task>) {
    && |posts| <= 1
    && forall p :: p in posts ==> TaskFits(stage, p) && forall t :: t in tasks ==> MayFollow(t, p)
  }

  lemma PostingKeepsOrder(stage: Stages, tasks: seq<Task>, posts: seq<Task>)
    requires Ordered(tasks) && Postable(stage, tasks, posts)
    ensures Ordered(tasks + posts)
  {
    forall i, j | 0 <= i < j < |tasks + posts|
      ensures MayFollow((tasks + posts)[i], (tasks + posts)[j])
    {
      if j >= |tasks| {
        assert (tasks + posts)[i] in tasks && (tasks + posts)[j] in posts;
      }
    }
  }

  /** A step that moves connection `e` and posts at most one task. */
  lemma PostingKeepsQueue(stage: Stages, tasks: seq<Task>, e: Entity, st: Stage, posts: seq<Task>)
    requires QueueInv(stage, tasks) && Postable(stage[e := st], tasks, posts)
    requires forall t :: t in tasks && About(t, e) ==> TaskFits(stage[e := st], t)
    requires Served(st, e, tasks + posts)
    ensures QueueInv(stage[e := st], tasks + posts)
  {
    PostingKeepsOrder(stage[e := st], tasks, posts);
    var next := stage[e := st];
    forall d | d in next
      ensures Served(next[d], d, tasks + posts)
    {
      if d != e && Waits(stage[d]) {
        assert Served(stage[d], d, tasks);
        var t :| t in tasks && WaitsFor(stage[d], d, t);
        assert t in tasks + posts;
      }
    }
  }

  /** A step that only posts. */
  lemma PostingAlone(stage: Stages, tasks: seq<Task>, posts: seq<Task>)
    requires QueueInv(stage, tasks) && Postable(stage, tasks, posts)
    ensures QueueInv(stage, tasks + posts)
  {
    PostingKeepsOrder(stage, tasks, posts);
    forall d | d in stage
      ensures Served(stage[d], d, tasks + posts)
    {
      if Waits(stage[d]) {
        assert Served(stage[d], d, tasks);
        var t :| t in tasks && WaitsFor(stage[d], d, t);
        assert t in tasks + posts;
      }
    }
  }

  /** The first task is run, and stages move. */
  lemma RunningKeepsQueue(stage: Stages, next: Stages, tasks: seq<Task>)
    requires QueueInv(stage, tasks) && tasks != []
    requires forall t :: t in tasks[1..] ==> TaskFits(next, t)
    requires forall e :: e in next && Waits(next[e]) ==>
      e in stage && next[e] == stage[e] && !WaitsFor(stage[e], e, tasks[0])
    ensures QueueInv(next, tasks[1..])
  {
    forall e | e in next
      ensures Served(next[e], e, tasks[1..])
    {
      if Waits(next[e]) {
        assert Served(stage[e], e, tasks);
        var t :| t in tasks && WaitsFor(stage[e], e, t);
        assert t in tasks[1..];
      }
    }
  }

  /** The tasks behind the first one concern other connections, as far as it rules. */
  lemma RestFollows(tasks: seq<Task>)
    requires Ordered(tasks) && tasks != []
    ensures forall t :: t in tasks[1..] ==> t in tasks && MayFollow(tasks[0], t)
  {
    forall t | t in tasks[1..]
      ensures MayFollow(tasks[0], t)
    {
      var j :| 0 <= j < |tasks| - 1 && tasks[1..][j] == t;
      assert tasks[j + 1] == t;
    }
  }

  // ---------------------------------------------------------------------------------------------
  // Running each task.

  /** A task about one connection, which moves to a stage where it waits for nothing. */
  lemma HandOverKeepsQueue(stage: Stages, tasks: seq<Task>, e: Entity, st: Stage)
    requires QueueInv(stage, tasks) && tasks != []
    requires e in stage && Waits(stage[e]) && !Ended(stage[e]) && WaitsFor(stage[e], e, tasks[0]) && !Waits(st)
    ensures QueueInv(stage[e := st], tasks[1..])
  {
    RestFollows(tasks);
    RunningKeepsQueue(stage, stage[e := st], tasks);
  }

  lemma MarkingKeepsQueue(stage: Stages, tasks: seq<Task>, e: Entity)
    requires QueueInv(stage, tasks) && tasks != [] && tasks[0] == MarkUnused(e)
    ensures e in stage && QueueInv(stage[e := MarkedStage(stage[e])], tasks[1..])
  {
    assert tasks[0] in tasks;
    RestFollows(tasks);
    RunningKeepsQueue(stage, stage[e := MarkedStage(stage[e])], tasks);
  }

  lemma TickKeepsQueue(stage: Stages, next: Stages, tasks: seq<Task>)
    requires QueueInv(stage, tasks) && tasks != [] && tasks[0].Update?
    requires next.Keys == stage.Keys && forall e :: e in stage ==> TickMoves(stage[e], next[e])
    ensures QueueInv(next, tasks[1..])
  {
    RestFollows(tasks);
    RunningKeepsQueue(stage, next, tasks);
  }

  lemma AllocationKeepsQueue(stage: Stages, tasks: seq<Task>, e: Entity)
    requires QueueInv(stage, tasks) && tasks != [] && tasks[0].Allocate?
    requires forall t :: t in tasks ==> !About(t, e)
    ensures QueueInv(stage[e := Posted], tasks[1..])
  {
    RestFollows(tasks);
    RunningKeepsQueue(stage, stage[e := Posted], tasks);
  }

  lemma ReceivingKeepsQueue(stage: Stages, tasks: seq<Task>)
    requires QueueInv(stage, tasks) && tasks != [] && tasks[0].Receive?
    ensures QueueInv(stage, tasks[1..])
  {
    RestFollows(tasks);
    RunningKeepsQueue(stage, stage, tasks);
  }
}
