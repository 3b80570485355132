/** The listener: its acceptor, its debug state machine and the tasks of the accept loop. */
module Listening {
  import opened Wrappers
  import opened Sockets
  import opened Entities
  import opened RegistryTasks

  datatype ListenerState = Uninitialized | Started | Paused | Terminated | Failed

  datatype ListenerEvent = Start | Pause | Terminate | Fault

  /** `fillStateTransitionTable`. */
  function Transition(sm: ListenerState, ev: ListenerEvent): Option<ListenerState> {
    match (sm, ev)
    case (_, Fault) => Some(Failed)
    case (Failed, _) => None
    case (_, Terminate) => Some(Terminated)
    case (Uninitialized, Start) => Some(Started)
    case (Started, Pause) => Some(Paused)
    case _ => None
  }

  function Moved(sm: ListenerState, ev: ListenerEvent): ListenerState {
    var to := Transition(sm, ev);
    if to.Some? then to.value else sm
  }

  /** Tasks of the acceptor strand. */
  datatype StrandTask = Configure | DoAccept | AsyncAccept(e: Entity) | Stop

  /** How far configuring gets; a failure after `open` leaves the acceptor open. */
  datatype ConfigureOutcome = OpenFails | BindFails | Configured

  /** `accepting` is the entity given to the outstanding `async_accept`. */
  datatype Acceptor = Acceptor(open: bool, sm: ListenerState, accepting: Option<Entity>)

  /** The acceptor, and the tasks posted on the registry sequence. */
  datatype Effect = Effect(acceptor: Acceptor, posts: seq<Task>)

  /** The checks a strand task makes. */
  predicate StrandReady(a: Acceptor, t: StrandTask) {
    match t
    case Configure => a.sm == Uninitialized || a.sm == Paused
    case DoAccept => a.open ==> a.sm == Started
    case AsyncAccept(_) => a.open ==> a.sm == Started && a.accepting.None?
    case Stop => Transition(a.sm, Terminate).Some?
  }

  /** What a strand task does; `outcome` matters for `Configure` only. */
  function RunStrandTask(a: Acceptor, t: StrandTask, outcome: ConfigureOutcome): Effect {
    match t
    case Configure =>
      (match outcome
       case OpenFails => Effect(a, [])
       case BindFails => Effect(a.(open := true), [])
       case Configured => Effect(a.(open := true, sm := Moved(a.sm, Start)), [Allocate]))
    case DoAccept => Effect(a, if a.open then [Allocate] else [])
    case AsyncAccept(e) => Effect(if a.open then a.(accepting := Some(e)) else a, [])
    case Stop => Effect(a.(open := false, sm := Moved(a.sm, Terminate)), [])
  }

  /** `onAccept`: the outstanding accept is over and its result goes to the registry. */
  function Accepted(a: Acceptor, ec: bool, socket: Socket): Effect
    requires a.accepting.Some?
  {
    Effect(a.(accepting := None), [SetAccept(a.accepting.value, ec, socket)])
  }

  /** The listener object, with the tasks it posted on its strand and on the registry sequence. */
  class Listener {
    var open: bool
    var sm: ListenerState
    var accepting: Option<Entity>
    var strandPosts: seq<StrandTask>
    var posts: seq<Task>

    ghost function State(): Acceptor
      reads this
    {
      Acceptor(open, sm, accepting)
    }

    constructor ()
      ensures State() == Acceptor(false, Uninitialized, None) && strandPosts == [] && posts == []
    {
      open, sm, accepting, strandPosts, posts := false, Uninitialized, None, [], [];
    }

    method ProcessStateChange(ev: ListenerEvent)
      requires Transition(sm, ev).Some?
      modifies this`sm
      ensures Some(sm) == Transition(old(sm), ev)
    {
      sm := Transition(sm, ev).value;
    }

    method DoAccept()
      requires StrandReady(State(), StrandTask.DoAccept)
      modifies this`posts
      ensures posts == old(posts) + RunStrandTask(State(), StrandTask.DoAccept, Configured).posts
      ensures posts == old(posts) + if open then [Allocate] else []
    {
      if !open {
        return;
      }
      assert sm == Started;
      posts := posts + [Allocate];
    }

    /** The first check lets a paused listener through, but the table has no way from there to `Started`. */
    method ConfigureAndRunAcceptor(outcome: ConfigureOutcome) returns (ok: bool)
      requires StrandReady(State(), Configure) && (outcome == Configured ==> Transition(sm, Start).Some?)
      modifies this`open, this`sm, this`posts
      ensures State() == RunStrandTask(old(State()), Configure, outcome).acceptor
      ensures posts == old(posts) + RunStrandTask(old(State()), Configure, outcome).posts
      ensures ok <==> outcome == Configured
      ensures open <==> old(open) || outcome != OpenFails
      ensures sm == if outcome == Configured then Started else old(sm)
      ensures posts == old(posts) + if outcome == Configured then [Allocate] else []
    {
      if outcome == OpenFails {
        return false;
      }
      open := true;
      if outcome == BindFails {
        return false;
      }
      ProcessStateChange(Start);
      DoAccept();
      return true;
    }

    method AsyncAccept(e: Entity)
      requires StrandReady(State(), StrandTask.AsyncAccept(e))
      modifies this`accepting
      ensures State() == RunStrandTask(old(State()), StrandTask.AsyncAccept(e), Configured).acceptor
      ensures accepting == if open then Some(e) else old(accepting)
    {
      if !open {
        return;
      }
      assert sm == Started && accepting.None?;
      accepting := Some(e);
    }

    /** The result goes to the registry, and the loop goes on, whatever the outcome. */
    method OnAccept(ec: bool, socket: Socket)
      requires accepting.Some?
      modifies this`accepting, this`posts, this`strandPosts
      ensures State() == Accepted(old(State()), ec, socket).acceptor
      ensures posts == old(posts) + Accepted(old(State()), ec, socket).posts
      ensures accepting.None? && posts == old(posts) + [SetAccept(old(accepting).value, ec, socket)]
      ensures strandPosts == old(strandPosts) + [StrandTask.DoAccept]
    {
      posts := posts + [SetAccept(accepting.value, ec, socket)];
      strandPosts := strandPosts + [StrandTask.DoAccept];
      accepting := None;
    }

    method StopAcceptor()
      requires StrandReady(State(), Stop)
      modifies this`open, this`sm
      ensures State() == RunStrandTask(old(State()), Stop, Configured).acceptor
      ensures !open && Some(sm) == Transition(old(sm), Terminate)
    {
      ProcessStateChange(Terminate);
      if !open {
        return;
      }
      open := false;
    }
  }
}
