/** One HTTP session: which asynchronous operations its completion handlers start, and how it ends. */
module HttpSession {
  import opened Wrappers
  import opened Sockets

  /** `pendingReads` and `pendingWrites` count the operations posted or outstanding on the connection strand;
      `stream` is `None` once moved out. */
  datatype Channel = Channel(
    stream: Option<Socket>, streamValid: bool, canSchedule: bool, pendingReads: nat, pendingWrites: nat)

  /** Tasks posted on the registry sequence. */
  datatype Post = PostMarkUnused | PostUpgrade(stream: Option<Socket>)

  datatype ReadOutcome = EndOfStream | ReadFailed | UpgradeRequested | RequestRead

  datatype Completion = ReadDone(outcome: ReadOutcome) | WriteDone(failed: bool, closeInResponse: bool)

  datatype Effect = Effect(channel: Channel, posts: seq<Post>)

  /** A new channel whose first read is posted by `startReadAsync`. */
  function Fresh(stream: Option<Socket>): Channel {
    Channel(stream, true, true, 1, 0)
  }

  predicate Possible(ch: Channel, c: Completion) {
    if c.ReadDone? then ch.pendingReads > 0 else ch.pendingWrites > 0
  }

  function Eof(ch: Channel): Effect {
    Effect(ch.(canSchedule := false, stream := Closed(ch.stream)), [PostMarkUnused])
  }

  /** What the handler of `c` does to a channel on which that operation was outstanding. */
  function Complete(ch: Channel, c: Completion): Effect
    requires Possible(ch, c)
  {
    match c
    case ReadDone(outcome) =>
      var idle := ch.(pendingReads := ch.pendingReads - 1);
      (match outcome
       case EndOfStream => Eof(idle)
       case ReadFailed => Eof(idle)
       case UpgradeRequested => Effect(idle.(streamValid := false, stream := None), [PostUpgrade(idle.stream)])
       case RequestRead => Effect(idle.(pendingWrites := idle.pendingWrites + 1), []))
    case WriteDone(failed, closeInResponse) =>
      var idle := ch.(pendingWrites := ch.pendingWrites - 1);
      if failed || closeInResponse then Eof(idle) else Effect(idle.(pendingReads := idle.pendingReads + 1), [])
  }

  /** Where a session can be: one operation under way, ended by eof, or handed over. */
  ghost predicate Active(ch: Channel) {
    ch.pendingReads + ch.pendingWrites == 1 && ch.streamValid && ch.canSchedule && ch.stream.Some?
  }

  ghost predicate EndedByEof(ch: Channel) {
    && ch.pendingReads + ch.pendingWrites == 0 && ch.streamValid && !ch.canSchedule
    && ch.stream.Some? && !ch.stream.value.open
  }

  ghost predicate EndedByUpgrade(ch: Channel) {
    ch.pendingReads + ch.pendingWrites == 0 && !ch.streamValid && ch.stream.None?
  }

  /** The channel and all tasks it posted after the completions in `run`, if each was possible. */
  ghost function After(stream: Socket, run: seq<Completion>): Option<Effect> {
    if run == [] then Some(Effect(Fresh(Some(stream)), []))
    else
      var s := After(stream, run[..|run| - 1]);
      var c := run[|run| - 1];
      if s.Some? && Possible(s.value.channel, c) then
        var next := Complete(s.value.channel, c);
        Some(Effect(next.channel, s.value.posts + next.posts))
      else None
  }

  /** Half-duplex, and ended at most once: over every sequence of completions either exactly one
      operation is under way and nothing was posted, or the session ended by eof with the socket
      closed and one mark-unused posted, or it ended by handing over the socket it was given, with
      no mark-unused. */
  lemma {:induction false} SessionEndsOnce(stream: Socket, run: seq<Completion>)
    requires After(stream, run).Some?
    ensures var s := After(stream, run).value;
            || (Active(s.channel) && s.channel.stream == Some(stream) && s.posts == [])
            || (EndedByEof(s.channel) && s.channel.stream == Closed(Some(stream)) && s.posts == [PostMarkUnused])
            || (EndedByUpgrade(s.channel) && s.posts == [PostUpgrade(Some(stream))])
  {
    if run != [] {
      SessionEndsOnce(stream, run[..|run| - 1]);
    }
  }

  lemma {:induction false} PrefixIsRun(stream: Socket, run: seq<Completion>, n: nat)
    requires After(stream, run).Some? && n <= |run|
    ensures After(stream, run[..n]).Some?
  {
    if n < |run| {
      PrefixIsRun(stream, run[..|run| - 1], n);
      assert run[..|run| - 1][..n] == run[..n];
    } else {
      assert run[..n] == run;
    }
  }

  lemma NothingIsPossibleAfterPosting(stream: Socket, run: seq<Completion>, c: Completion)
    requires After(stream, run).Some? && After(stream, run).value.posts != []
    ensures After(stream, run + [c]).None?
  {
    SessionEndsOnce(stream, run);
    assert (run + [c])[..|run|] == run;
  }

  /** Nothing happens after the end: the completion that posts is the last one. */
  lemma PostingEndsTheRun(stream: Socket, run: seq<Completion>, more: seq<Completion>)
    requires After(stream, run).Some? && After(stream, run).value.posts != [] && more != []
    ensures After(stream, run + more).None?
  {
    NothingIsPossibleAfterPosting(stream, run, more[0]);
    assert (run + more)[..|run| + 1] == run + [more[0]];
    if After(stream, run + more).Some? {
      PrefixIsRun(stream, run + more, |run| + 1);
    }
  }

  /** The completions that end a session by eof: the peer is gone, or the response asked to close. */
  predicate EndsSession(c: Completion) {
    match c
    case ReadDone(outcome) => outcome == EndOfStream || outcome == ReadFailed
    case WriteDone(failed, closeInResponse) => failed || closeInResponse
  }

  /** Which completion does what, in every session: its last one alone says whether it ended by eof, was
      handed over, or answers the request it read, or reads the next one. */
  lemma LastCompletionDecides(stream: Socket, run: seq<Completion>)
    requires After(stream, run).Some? && run != []
    ensures var s, c := After(stream, run).value, run[|run| - 1];
            && (EndedByEof(s.channel) <==> EndsSession(c))
            && (EndedByUpgrade(s.channel) <==> c == ReadDone(UpgradeRequested))
            && (Active(s.channel) && s.channel.pendingWrites == 1 <==> c == ReadDone(RequestRead))
            && (Active(s.channel) && s.channel.pendingReads == 1 <==> c == WriteDone(false, false))
  {
    SessionEndsOnce(stream, run[..|run| - 1]);
  }

  /** While a session goes on, an even number of completions means that a read is under way. */
  lemma {:induction false} ReadAfterEven(stream: Socket, run: seq<Completion>)
    requires After(stream, run).Some?
    ensures After(stream, run).value.posts == [] ==>
              After(stream, run).value.channel.pendingReads == if |run| % 2 == 0 then 1 else 0
  {
    if run != [] {
      ReadAfterEven(stream, run[..|run| - 1]);
      SessionEndsOnce(stream, run[..|run| - 1]);
    }
  }

  /** Reads and writes alternate: completion `i` is a read exactly when `i` is even. */
  lemma ReadsAndWritesAlternate(stream: Socket, run: seq<Completion>, i: nat)
    requires After(stream, run).Some? && i < |run|
    ensures run[i].ReadDone? <==> i % 2 == 0
  {
    PrefixIsRun(stream, run, i + 1);
    assert run[..i + 1][..i] == run[..i];
    SessionEndsOnce(stream, run[..i]);
    ReadAfterEven(stream, run[..i]);
  }

  /** The channel object. A `DCHECK` of a handler is a `requires` here; `Active` channels meet them all. */
  class HttpChannel {
    var stream: Option<Socket>
    var streamValid: bool
    var canSchedule: bool
    var pendingReads: nat
    var pendingWrites: nat
    var posts: seq<Post>

    ghost function State(): Channel
      reads this
    {
      Channel(stream, streamValid, canSchedule, pendingReads, pendingWrites)
    }

    constructor (socket: Socket)
      ensures State() == Fresh(Some(socket)) && posts == []
    {
      stream, streamValid, canSchedule := Some(socket), true, true;
      pendingReads, pendingWrites, posts := 1, 0, [];
    }

    method DoRead()
      requires streamValid && canSchedule
      modifies this`pendingReads
      ensures pendingReads == old(pendingReads) + 1
    {
      pendingReads := pendingReads + 1;
    }

    method DoEof()
      requires streamValid
      modifies this`stream, this`canSchedule, this`posts
      ensures State() == Eof(old(State())).channel && posts == old(posts) + Eof(old(State())).posts
      ensures stream == Closed(old(stream)) && !canSchedule && posts == old(posts) + [PostMarkUnused]
    {
      canSchedule := false;
      stream := Closed(stream);
      posts := posts + [PostMarkUnused];
    }

    method OnRead(outcome: ReadOutcome)
      requires Active(State()) && pendingReads > 0
      modifies this
      ensures State() == Complete(old(State()), ReadDone(outcome)).channel
      ensures posts == old(posts) + Complete(old(State()), ReadDone(outcome)).posts
      ensures EndedByEof(State()) <==> outcome == EndOfStream || outcome == ReadFailed
      ensures EndedByUpgrade(State()) <==> outcome == UpgradeRequested
      ensures Active(State()) <==> outcome == RequestRead
      ensures posts == old(posts) + (match outcome
                                     case EndOfStream | ReadFailed => [PostMarkUnused]
                                     case UpgradeRequested => [PostUpgrade(old(stream))]
                                     case RequestRead => [])
      ensures outcome == RequestRead ==> pendingReads == 0 && pendingWrites == 1 && stream == old(stream)
    {
      pendingReads := pendingReads - 1;
      match outcome {
        case EndOfStream => DoEof();
        case ReadFailed => DoEof();
        case UpgradeRequested =>
          posts := posts + [PostUpgrade(stream)];
          stream := None;
          streamValid := false;
        case RequestRead =>
          pendingWrites := pendingWrites + 1;
      }
    }

    method OnWrite(failed: bool, closeInResponse: bool)
      requires Active(State()) && pendingWrites > 0
      modifies this
      ensures State() == Complete(old(State()), WriteDone(failed, closeInResponse)).channel
      ensures posts == old(posts) + Complete(old(State()), WriteDone(failed, closeInResponse)).posts
      ensures EndedByEof(State()) <==> failed || closeInResponse
      ensures Active(State()) <==> !failed && !closeInResponse
      ensures posts == old(posts) + if failed || closeInResponse then [PostMarkUnused] else []
      ensures !failed && !closeInResponse ==> pendingReads == 1 && pendingWrites == 0 && stream == old(stream)
    {
      pendingWrites := pendingWrites - 1;
      if failed || closeInResponse {
        DoEof();
      } else {
        DoRead();
      }
    }
  }
}
