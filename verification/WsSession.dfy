/** One WebSocket session, as far as its reads and its end are concerned. */
module WsSession {
  import opened Wrappers
  import opened Sockets

  datatype Op = NoOp | Accepting | Reading | Closing

  datatype Channel = Channel(stream: Option<Socket>, op: Op)

  datatype ReadOutcome = ReadFailed | EmptyMessage | TooBigMessage | MessageRead

  /** `stillOpen` is what `ws_.is_open()` reports if the handler reaches `doEof`. */
  datatype Completion =
    | AcceptDone(failed: bool, stillOpen: bool)
    | ReadDone(outcome: ReadOutcome, stillOpen: bool)
    | CloseDone(failed: bool, stillOpen: bool)

  datatype Post = NoPost | PostReceived | PostMarkUnused

  datatype Effect = Effect(channel: Channel, post: Post)

  function Fresh(stream: Option<Socket>): Channel {
    Channel(stream, Accepting)
  }

  predicate Possible(ch: Channel, c: Completion) {
    match c
    case AcceptDone(_, _) => ch.op == Accepting
    case ReadDone(_, _) => ch.op == Reading
    case CloseDone(_, _) => ch.op == Closing
  }

  /** `doEof`: closes an open connection and always posts mark-unused. */
  function Eof(ch: Channel, stillOpen: bool): Effect {
    Effect(ch.(op := if stillOpen then Closing else NoOp), PostMarkUnused)
  }

  function Complete(ch: Channel, c: Completion): Effect
    requires Possible(ch, c)
  {
    match c
    case AcceptDone(failed, stillOpen) =>
      if failed then Eof(ch, stillOpen) else Effect(ch.(op := Reading), NoPost)
    case ReadDone(outcome, stillOpen) =>
      (match outcome
       case ReadFailed => Eof(ch, stillOpen)
       case EmptyMessage => Effect(ch.(op := NoOp), NoPost)
       case TooBigMessage => Effect(ch.(op := NoOp), NoPost)
       case MessageRead => Effect(ch, PostReceived))
    case CloseDone(failed, stillOpen) =>
      if failed then Eof(ch, stillOpen) else Effect(ch.(op := NoOp), NoPost)
  }

  /** The channel and all its posts, in order, after the completions in `run`. */
  ghost function After(stream: Socket, run: seq<Completion>): Option<(Channel, seq<Post>)> {
    if run == [] then Some((Fresh(Some(stream)), []))
    else
      var s := After(stream, run[..|run| - 1]);
      var c := run[|run| - 1];
      if s.Some? && Possible(s.value.0, c) then
        var next := Complete(s.value.0, c);
        Some((next.channel, if next.post == NoPost then s.value.1 else s.value.1 + [next.post]))
      else None
  }

  /** Unlike HTTP, a WebSocket may post mark-unused several times; but no received message is posted
      after the first of them, and while reading goes on none has been posted. The stream never
      leaves the channel. */
  lemma {:induction false} MessagesPrecedeMarkUnused(stream: Socket, run: seq<Completion>)
    requires After(stream, run).Some?
    ensures var (ch, posts) := After(stream, run).value;
            && ch.stream == Some(stream)
            && (ch.op == Accepting || ch.op == Reading ==> forall i :: 0 <= i < |posts| ==> posts[i] == PostReceived)
            && (ch.op == Closing ==> PostMarkUnused in posts)
            && forall i, j :: 0 <= i < j < |posts| && posts[i] == PostMarkUnused ==> posts[j] == PostMarkUnused
  {
    if run != [] {
      MessagesPrecedeMarkUnused(stream, run[..|run| - 1]);
    }
  }

  predicate Failed(c: Completion) {
    match c
    case AcceptDone(failed, _) => failed
    case ReadDone(outcome, _) => outcome == ReadFailed
    case CloseDone(failed, _) => failed
  }

  predicate Stalls(c: Completion) {
    c.ReadDone? && (c.outcome == EmptyMessage || c.outcome == TooBigMessage)
  }

  predicate Continues(c: Completion) {
    match c
    case AcceptDone(failed, _) => !failed
    case ReadDone(outcome, _) => outcome == MessageRead
    case CloseDone(_, _) => false
  }

  /** Which completion does what, in every session: its last one alone says whether it reads on, closes or
      has nothing outstanding. */
  lemma LastCompletionDecides(stream: Socket, run: seq<Completion>)
    requires After(stream, run).Some?
    ensures var op := After(stream, run).value.0.op;
            && (op == Accepting <==> run == [])
            && (op == Reading <==> run != [] && Continues(run[|run| - 1]))
            && (op == Closing <==> run != [] && Failed(run[|run| - 1]) && run[|run| - 1].stillOpen)
  {
  }

  ghost function CountOf<T(!new)>(q: seq<T>, p: T -> bool): nat {
    if q == [] then 0 else CountOf(q[..|q| - 1], p) + if p(q[|q| - 1]) then 1 else 0
  }

  /** Every failure posts one mark-unused, every message read one message, and nothing else is posted. */
  lemma {:induction false} PostsAreCounted(stream: Socket, run: seq<Completion>)
    requires After(stream, run).Some?
    ensures var posts := After(stream, run).value.1;
            && multiset(posts)[PostMarkUnused] == CountOf(run, Failed)
            && multiset(posts)[PostReceived] == CountOf(run, (c: Completion) => c.ReadDone? && c.outcome == MessageRead)
            && |posts| == multiset(posts)[PostMarkUnused] + multiset(posts)[PostReceived]
  {
    if run != [] {
      PostsAreCounted(stream, run[..|run| - 1]);
    }
  }

  /** A session has nothing outstanding although no mark-unused was posted exactly when its last completion
      read an empty or too big message. */
  lemma {:induction false} StalledExactlyWhen(stream: Socket, run: seq<Completion>)
    requires After(stream, run).Some?
    ensures var (ch, posts) := After(stream, run).value;
            ch.op == NoOp && PostMarkUnused !in posts <==> run != [] && Stalls(run[|run| - 1])
  {
    MessagesPrecedeMarkUnused(stream, run);
    if run != [] {
      MessagesPrecedeMarkUnused(stream, run[..|run| - 1]);
    }
  }

  // ---------------------------------------------------------------------------------------------
  // A session that may also be ended from outside, while an operation of its own is outstanding.

  datatype Step = Own(c: Completion) | OutsideEof(stillOpen: bool)

  /** `op` is the outstanding accept or read, `closings` the number of outstanding closes. */
  datatype Session = Session(op: Op, closings: nat)

  predicate CanTake(x: Session, st: Step) {
    match st
    case Own(AcceptDone(_, _)) => x.op == Accepting
    case Own(ReadDone(_, _)) => x.op == Reading
    case Own(CloseDone(_, _)) => x.closings > 0
    case OutsideEof(_) => true
  }

  function Ended(x: Session, stillOpen: bool): (Session, Post) {
    (x.(closings := x.closings + if stillOpen then 1 else 0), PostMarkUnused)
  }

  function Take(x: Session, st: Step): (Session, Post)
    requires CanTake(x, st)
  {
    match st
    case Own(AcceptDone(failed, stillOpen)) =>
      if failed then Ended(x.(op := NoOp), stillOpen) else (x.(op := Reading), NoPost)
    case Own(ReadDone(outcome, stillOpen)) =>
      (match outcome
       case ReadFailed => Ended(x.(op := NoOp), stillOpen)
       case EmptyMessage => (x.(op := NoOp), NoPost)
       case TooBigMessage => (x.(op := NoOp), NoPost)
       case MessageRead => (x, PostReceived))
    case Own(CloseDone(failed, stillOpen)) =>
      var rest := x.(closings := x.closings - 1);
      if failed then Ended(rest, stillOpen) else (rest, NoPost)
    case OutsideEof(stillOpen) => Ended(x, stillOpen)
  }

  ghost function Taken(steps: seq<Step>): Option<(Session, seq<Post>)> {
    if steps == [] then Some((Session(Accepting, 0), []))
    else
      var s := Taken(steps[..|steps| - 1]);
      var st := steps[|steps| - 1];
      if s.Some? && CanTake(s.value.0, st) then
        var (next, post) := Take(s.value.0, st);
        Some((next, if post == NoPost then s.value.1 else s.value.1 + [post]))
      else None
  }

  function OwnSteps(run: seq<Completion>): seq<Step> {
    seq(|run|, i requires 0 <= i < |run| => Own(run[i]))
  }

  /** Without an eof from outside it is the session above: the same completions are possible and the same
      tasks posted, and a close is outstanding when that session closes. */
  lemma {:induction false} OwnStepsAreTheSession(stream: Socket, run: seq<Completion>)
    ensures Taken(OwnSteps(run)).Some? <==> After(stream, run).Some?
    ensures Taken(OwnSteps(run)).Some? ==>
              var (x, posts) := Taken(OwnSteps(run)).value;
              var (ch, all) := After(stream, run).value;
              && posts == all
              && (if ch.op == Closing then x == Session(NoOp, 1) else x == Session(ch.op, 0))
  {
    if run != [] {
      var n := |run| - 1;
      OwnStepsAreTheSession(stream, run[..n]);
      assert OwnSteps(run)[..n] == OwnSteps(run[..n]);
    }
  }

  predicate EndsByStep(st: Step) {
    st.OutsideEof? || Failed(st.c)
  }

  predicate StartsClose(st: Step) {
    EndsByStep(st) && if st.OutsideEof? then st.stillOpen else st.c.stillOpen
  }

  predicate EndsClose(st: Step) {
    st.Own? && st.c.CloseDone?
  }

  /** Every failure and every eof from outside posts one mark-unused, and starts one close if the stream is
      still open; closes are outstanding until they complete. */
  lemma {:induction false} EofsAreCounted(steps: seq<Step>)
    requires Taken(steps).Some?
    ensures var (x, posts) := Taken(steps).value;
            && multiset(posts)[PostMarkUnused] == CountOf(steps, EndsByStep)
            && multiset(posts)[PostReceived] == CountOf(steps, ReadsMessage)
            && x.closings + CountOf(steps, EndsClose) == CountOf(steps, StartsClose)
  {
    if steps != [] {
      EofsAreCounted(steps[..|steps| - 1]);
    }
  }

  predicate ReadsMessage(st: Step) {
    st.Own? && st.c.ReadDone? && st.c.outcome == MessageRead
  }

  ghost predicate MessageAfterMark(posts: seq<Post>) {
    exists i, j :: 0 <= i < j < |posts| && posts[i] == PostMarkUnused && posts[j] == PostReceived
  }

  ghost predicate MessageAfterOutsideEof(steps: seq<Step>) {
    exists i, j :: 0 <= i < j < |steps| && steps[i].OutsideEof? && ReadsMessage(steps[j])
  }

  ghost predicate EndedFromOutside(steps: seq<Step>) {
    exists i :: 0 <= i < |steps| && steps[i].OutsideEof?
  }

  /** Only an eof from outside leaves an operation outstanding behind a mark-unused. */
  lemma {:induction false} MarkedWhileReading(steps: seq<Step>)
    requires Taken(steps).Some?
    ensures var (x, posts) := Taken(steps).value;
            && (x.closings > 0 || EndedFromOutside(steps) ==> PostMarkUnused in posts)
            && (PostMarkUnused in posts && x.op != NoOp ==> EndedFromOutside(steps))
  {
    if steps != [] {
      var n := |steps| - 1;
      MarkedWhileReading(steps[..n]);
      assert steps == steps[..n] + [steps[n]];
      if EndedFromOutside(steps[..n]) {
        var i :| 0 <= i < n && steps[..n][i].OutsideEof?;
        assert steps[i].OutsideEof?;
      }
    }
  }

  lemma OneMorePost(posts: seq<Post>, post: Post)
    ensures MessageAfterMark(posts + [post]) <==> MessageAfterMark(posts) || (post == PostReceived && PostMarkUnused in posts)
  {
    var all := posts + [post];
    if MessageAfterMark(posts) {
      var i, j :| 0 <= i < j < |posts| && posts[i] == PostMarkUnused && posts[j] == PostReceived;
      assert all[i] == PostMarkUnused && all[j] == PostReceived;
    }
    if post == PostReceived && PostMarkUnused in posts {
      var i :| 0 <= i < |posts| && posts[i] == PostMarkUnused;
      assert all[i] == PostMarkUnused && all[|posts|] == PostReceived;
    }
  }

  lemma OneMoreStep(steps: seq<Step>)
    requires steps != []
    ensures var before := steps[..|steps| - 1];
            MessageAfterOutsideEof(steps) <==>
              MessageAfterOutsideEof(before) || (ReadsMessage(steps[|steps| - 1]) && EndedFromOutside(before))
  {
    var n := |steps| - 1;
    var before := steps[..n];
    if MessageAfterOutsideEof(before) {
      var i, j :| 0 <= i < j < n && before[i].OutsideEof? && ReadsMessage(before[j]);
      assert steps[i].OutsideEof? && ReadsMessage(steps[j]);
    }
    if ReadsMessage(steps[n]) && EndedFromOutside(before) {
      var i :| 0 <= i < n && before[i].OutsideEof?;
      assert steps[i].OutsideEof?;
    }
    if MessageAfterOutsideEof(steps) {
      var i, j :| 0 <= i < j <= n && steps[i].OutsideEof? && ReadsMessage(steps[j]);
      assert before[i].OutsideEof? && (j < n ==> ReadsMessage(before[j]));
    }
  }

  /** A message is posted behind a mark-unused exactly when an eof from outside came before a message was
      read. */
  lemma {:induction false} MessageFollowsMarkExactlyWhen(steps: seq<Step>)
    requires Taken(steps).Some?
    ensures MessageAfterMark(Taken(steps).value.1) <==> MessageAfterOutsideEof(steps)
  {
    if steps != [] {
      var n := |steps| - 1;
      MessageFollowsMarkExactlyWhen(steps[..n]);
      MarkedWhileReading(steps[..n]);
      OneMoreStep(steps);
      var (x, posts) := Taken(steps[..n]).value;
      OneMorePost(posts, Take(x, steps[n]).1);
    }
  }

  /** The channel object, with the tasks it posted so far. */
  class WsChannel {
    var stream: Option<Socket>
    var op: Op
    var posts: seq<Post>

    ghost function State(): Channel
      reads this
    {
      Channel(stream, op)
    }

    constructor (socket: Socket)
      ensures State() == Fresh(Some(socket)) && posts == []
    {
      stream, op, posts := Some(socket), Accepting, [];
    }

    method DoEof(stillOpen: bool)
      modifies this`op, this`posts
      ensures State() == Eof(old(State()), stillOpen).channel && posts == old(posts) + [PostMarkUnused]
      ensures op == if stillOpen then Closing else NoOp
    {
      op := if stillOpen then Closing else NoOp;
      posts := posts + [PostMarkUnused];
    }

    method DoRead()
      modifies this`op
      ensures State() == old(State()).(op := Reading)
    {
      op := Reading;
    }

    method OnAccept(failed: bool, stillOpen: bool)
      requires op == Accepting
      modifies this
      ensures State() == Complete(old(State()), AcceptDone(failed, stillOpen)).channel
      ensures op == if !failed then Reading else if stillOpen then Closing else NoOp
      ensures posts == old(posts) + if failed then [PostMarkUnused] else []
    {
      if failed {
        DoEof(stillOpen);
      } else {
        DoRead();
      }
    }

    method OnRead(outcome: ReadOutcome, stillOpen: bool)
      requires op == Reading
      modifies this
      ensures State() == Complete(old(State()), ReadDone(outcome, stillOpen)).channel
      ensures op == match outcome
                    case ReadFailed => if stillOpen then Closing else NoOp
                    case EmptyMessage | TooBigMessage => NoOp
                    case MessageRead => Reading
      ensures posts == old(posts) + (match outcome
                                     case ReadFailed => [PostMarkUnused]
                                     case MessageRead => [PostReceived]
                                     case _ => [])
    {
      op := NoOp;
      match outcome {
        case ReadFailed => DoEof(stillOpen);
        case EmptyMessage =>
        case TooBigMessage =>
        case MessageRead =>
          posts := posts + [PostReceived];
          DoRead();
      }
    }

    method OnClose(failed: bool, stillOpen: bool)
      requires op == Closing
      modifies this
      ensures State() == Complete(old(State()), CloseDone(failed, stillOpen)).channel
      ensures op == if failed && stillOpen then Closing else NoOp
      ensures posts == old(posts) + if failed then [PostMarkUnused] else []
    {
      op := NoOp;
      if failed {
        DoEof(stillOpen);
      }
    }
  }
}
