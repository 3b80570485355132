/** The accept loop: one token moves between the acceptor strand and the registry sequence, and one
    allocated entity at a time lacks its result. */
module AcceptLoop {
  import opened Wrappers
  import opened Entities
  import opened RegistryTasks
  import opened Listening
  import opened Connections
  import opened Server
  import opened Lifecycle
  import opened RegistryQueue

  function Count<T>(q: seq<T>, p: T -> bool): nat {
    if q == [] then 0 else (if p(q[0]) then 1 else 0) + Count(q[1..], p)
  }

  lemma {:induction false} CountConcat<T>(a: seq<T>, b: seq<T>, p: T -> bool)
    ensures Count(a + b, p) == Count(a, p) + Count(b, p)
  {
    if a == [] {
      assert a + b == b;
    } else {
      assert (a + b)[1..] == a[1..] + b;
      CountConcat(a[1..], b, p);
    }
  }

  lemma {:induction false} CountPositive<T>(q: seq<T>, p: T -> bool)
    ensures Count(q, p) > 0 <==> exists t :: t in q && p(t)
  {
    if q != [] {
      CountPositive(q[1..], p);
      if t :| t in q && p(t) {
        assert t == q[0] || t in q[1..];
      }
    }
  }

  lemma {:induction false} CountMonotone<T>(q: seq<T>, p: T -> bool, r: T -> bool)
    requires forall t :: t in q && p(t) ==> r(t)
    ensures Count(q, p) <= Count(q, r)
  {
    if q != [] {
      CountMonotone(q[1..], p, r);
    }
  }

  // ---------------------------------------------------------------------------------------------

  /** `configureAndRun` starts the loop, so its task counts as the token too. */
  predicate IsLoopTask(t: StrandTask) {
    !t.Stop?
  }

  predicate IsAsyncAccept(t: StrandTask) {
    t.AsyncAccept?
  }

  predicate IsAllocate(t: Task) {
    t.Allocate?
  }

  predicate IsSetAccept(t: Task) {
    t.SetAccept?
  }

  function One(b: bool): nat {
    if b then 1 else 0
  }

  /** Everything that keeps the loop going. */
  function Tokens(accepting: Option<Entity>, strand: seq<StrandTask>, tasks: seq<Task>): nat {
    Count(strand, IsLoopTask) + Count(tasks, IsAllocate) + One(accepting.Some?)
  }

  /** Everything that holds an entity whose result is not recorded. */
  function Holders(accepting: Option<Entity>, strand: seq<StrandTask>, tasks: seq<Task>, lost: bool): nat {
    Count(strand, IsAsyncAccept) + Count(tasks, IsSetAccept) + One(accepting.Some?) + One(lost)
  }

  predicate Lost(stage: Stages, lacking: Option<Entity>) {
    lacking.Some? && lacking.value in stage && stage[lacking.value].Orphan?
  }

  /** The state machine goes with the acceptor, and configuring comes first. */
  ghost predicate AcceptorInv(a: Acceptor, strand: seq<StrandTask>, tokens: nat, lost: bool) {
    && (a.sm == Uninitialized || a.sm == Started || a.sm == Terminated)
    && (a.open ==> a.sm != Terminated && (a.sm == Started || tokens == 0))
    && (forall i :: 0 <= i < |strand| && strand[i].Configure? ==> i == 0 && a.sm == Uninitialized && !a.open)
    && (lost ==> tokens == 0 && !a.open)
  }

  /** Which connection lacks its result, and who holds it. */
  ghost predicate LackingInv(stage: Stages, accepting: Option<Entity>, strand: seq<StrandTask>,
          lacking: Option<Entity>) {
    && (lacking.Some? ==> lacking.value in stage)
    && (forall e :: e in stage ==> (Lacking(stage[e]) <==> lacking == Some(e)))
    && (forall t :: t in strand && t.AsyncAccept? ==> lacking == Some(t.e) && stage[t.e].Posted?)
    && (accepting.Some? ==> lacking == accepting && stage[accepting.value].Accepting?)
  }

  ghost predicate LoopInv(s: State) {
    var a := s.acceptor;
    var tokens := Tokens(a.accepting, s.strand, s.tasks);
    var lost := Lost(s.stage, s.lacking);
    && tokens <= 1
    && Holders(a.accepting, s.strand, s.tasks, lost) == One(s.lacking.Some?)
    && AcceptorInv(a, s.strand, tokens, lost)
    && LackingInv(s.stage, a.accepting, s.strand, s.lacking)
    && s.allocations == s.recordings + One(s.lacking.Some?)
  }

  // ---------------------------------------------------------------------------------------------
  // Steps outside the loop.

  ghost predicate SameLacking(stage: Stages, next: Stages) {
    && next.Keys == stage.Keys
    && forall e :: e in stage ==> next[e] == stage[e] || (!Lacking(stage[e]) && !Lacking(next[e]))
  }

  /** The loop is where it was. */
  ghost predicate Spares(s: State, next: State) {
    && SameLacking(s.stage, next.stage)
    && next.acceptor == s.acceptor && next.strand == s.strand && next.lacking == s.lacking
    && next.allocations == s.allocations && next.recordings == s.recordings
    && Count(next.tasks, IsAllocate) == Count(s.tasks, IsAllocate)
    && Count(next.tasks, IsSetAccept) == Count(s.tasks, IsSetAccept)
  }

  lemma OtherStepKeepsLoop(s: State, next: State)
    requires LoopInv(s) && Spares(s, next)
    ensures LoopInv(next)
  {
    assert Lost(next.stage, next.lacking) == Lost(s.stage, s.lacking);
  }

  predicate InLoop(t: Task) {
    t.Allocate? || t.SetAccept?
  }

  lemma PostingKeepsCounts(tasks: seq<Task>, posts: seq<Task>)
    requires |posts| <= 1 && forall p :: p in posts ==> !InLoop(p)
    ensures Count(tasks + posts, IsAllocate) == Count(tasks, IsAllocate)
    ensures Count(tasks + posts, IsSetAccept) == Count(tasks, IsSetAccept)
  {
    CountConcat(tasks, posts, IsAllocate);
    CountConcat(tasks, posts, IsSetAccept);
    CountPositive(posts, IsAllocate);
    CountPositive(posts, IsSetAccept);
  }

  // ---------------------------------------------------------------------------------------------
  // The strand.

  lemma StopPosted(s: State)
    requires LoopInv(s)
    ensures LoopInv(s.(strand := s.strand + [Stop]))
  {
    CountConcat(s.strand, [Stop], IsLoopTask);
    CountConcat(s.strand, [Stop], IsAsyncAccept);
  }

  /** What the queue tells about its first task. */
  lemma FirstOfStrand(s: State)
    requires LoopInv(s) && s.strand != []
    ensures StrandReady(s.acceptor, s.strand[0])
    ensures s.strand[0].AsyncAccept? ==> s.strand[0].e in s.stage && s.stage[s.strand[0].e].Posted?
    ensures !s.strand[0].Stop? ==>
      Tokens(s.acceptor.accepting, s.strand, s.tasks) == 1 && Count(s.strand[1..], IsLoopTask) == 0
      && Count(s.strand[1..], IsAsyncAccept) == 0 && Count(s.tasks, IsAllocate) == 0 && s.acceptor.accepting.None?
  {
    assert s.strand[0] in s.strand;
    CountMonotone(s.strand[1..], IsAsyncAccept, IsLoopTask);
  }

  /** Nothing of the loop is left on the strand but what `tasks` says. */
  lemma NoLoopTasks(strand: seq<StrandTask>)
    requires Count(strand, IsLoopTask) == 0
    ensures forall t :: t in strand ==> t.Stop?
  {
    CountPositive(strand, IsLoopTask);
  }

  lemma ConfigureKeepsLoop(s: State, outcome: ConfigureOutcome)
    requires LoopInv(s) && s.strand != [] && s.strand[0].Configure?
    ensures LoopInv(StrandStep(s, outcome))
  {
    FirstOfStrand(s);
    NoLoopTasks(s.strand[1..]);
    CountConcat(s.tasks, [Allocate], IsAllocate);
    CountConcat(s.tasks, [Allocate], IsSetAccept);
    assert s.tasks + [] == s.tasks;
  }

  lemma DoAcceptKeepsLoop(s: State, outcome: ConfigureOutcome)
    requires LoopInv(s) && s.strand != [] && s.strand[0].DoAccept?
    ensures LoopInv(StrandStep(s, outcome))
  {
    FirstOfStrand(s);
    NoLoopTasks(s.strand[1..]);
    CountConcat(s.tasks, [Allocate], IsAllocate);
    CountConcat(s.tasks, [Allocate], IsSetAccept);
    assert s.tasks + [] == s.tasks;
  }

  lemma AsyncAcceptKeepsLoop(s: State, outcome: ConfigureOutcome)
    requires LoopInv(s) && s.strand != [] && s.strand[0].AsyncAccept?
    ensures LoopInv(StrandStep(s, outcome))
  {
    FirstOfStrand(s);
    NoLoopTasks(s.strand[1..]);
    assert s.tasks + [] == s.tasks;
  }

  lemma StopKeepsLoop(s: State, outcome: ConfigureOutcome)
    requires LoopInv(s) && s.strand != [] && s.strand[0].Stop?
    ensures LoopInv(StrandStep(s, outcome))
  {
    assert s.tasks + [] == s.tasks;
    assert forall t :: t in s.strand[1..] ==> t in s.strand;
  }

  /** `onAccept`. */
  lemma AcceptKeepsLoop(s: State, ec: bool, isOpen: bool)
    requires LoopInv(s) && s.acceptor.accepting.Some?
    ensures LoopInv(AcceptStep(s, ec, isOpen))
  {
    var next := AcceptStep(s, ec, isOpen);
    var t := next.tasks[|s.tasks|];
    CountConcat(s.strand, [DoAccept], IsLoopTask);
    CountConcat(s.strand, [DoAccept], IsAsyncAccept);
    CountConcat(s.tasks, [t], IsAllocate);
    CountConcat(s.tasks, [t], IsSetAccept);
  }

  // ---------------------------------------------------------------------------------------------
  // The registry sequence.

  /** FIFO: when an allocation runs, the result of the last connection is recorded. */
  lemma AllocationFindsNoLacking(s: State)
    requires LoopInv(s) && Ordered(s.tasks) && s.tasks != [] && s.tasks[0].Allocate?
    ensures s.lacking.None? && Tokens(s.acceptor.accepting, s.strand, s.tasks) == 1
    ensures Count(s.strand, IsLoopTask) == 0 && Count(s.tasks[1..], IsAllocate) == 0
  {
    CountMonotone(s.strand, IsAsyncAccept, IsLoopTask);
    CountPositive(s.tasks, IsSetAccept);
    forall j | 0 <= j < |s.tasks|
      ensures !IsSetAccept(s.tasks[j])
    {
      assert j > 0 ==> MayFollow(s.tasks[0], s.tasks[j]);
    }
  }

  lemma AllocateKeepsLoop(s: State, reused: Option<Entity>)
    requires LoopInv(s) && Ordered(s.tasks) && s.tasks != [] && s.tasks[0].Allocate?
    ensures LoopInv(TaskStep(s, reused))
  {
    AllocationFindsNoLacking(s);
    NoLoopTasks(s.strand);
    var e := Allocated(s.nextId, reused);
    CountConcat(s.strand, [AsyncAccept(e)], IsLoopTask);
    CountConcat(s.strand, [AsyncAccept(e)], IsAsyncAccept);
  }

  lemma SetAcceptKeepsLoop(s: State)
    requires LoopInv(s) && QueueInv(s.stage, s.tasks) && s.tasks != [] && s.tasks[0].SetAccept?
    ensures LoopInv(TaskStep(s, None))
  {
    var e := s.tasks[0].e;
    assert s.tasks[0] in s.tasks;
    CountPositive(s.strand, IsAsyncAccept);
  }
}
