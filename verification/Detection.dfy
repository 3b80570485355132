/** The detect channel of a connection: one detection, whose result carries the stream away. */
module Detection {
  import opened Wrappers
  import opened Sockets
  import opened Entities
  import opened RegistryTasks

  predicate DetectPossible(ch: DetectChannel) {
    ch.stream.Some? && !ch.detected
  }

  /** The task posted when detection completes; `stillOpen` is what the socket's `is_open()` reports then. */
  function ResultTask(e: Entity, ch: DetectChannel, ec: bool, handshake: bool, stillOpen: bool): Task
    requires DetectPossible(ch)
  {
    var s := ch.stream.value;
    SetDetect(e, ec, handshake, Some(s.(open := stillOpen)), !stillOpen)
  }

  const DETECTED := DetectChannel(None, true)

  class Detector {
    const entity: Entity
    var stream: Option<Socket>
    var streamValid: bool
    var detected: bool
    var posts: seq<Task>

    ghost function State(): DetectChannel
      reads this
    {
      DetectChannel(stream, detected)
    }

    ghost predicate Valid()
      reads this
    {
      streamValid <==> !detected && stream.Some?
    }

    constructor (e: Entity, socket: Socket)
      ensures Valid() && entity == e && State() == DetectChannel(Some(socket), false) && posts == []
    {
      entity, stream, streamValid, detected, posts := e, Some(socket), true, false, [];
    }

    /** The checks at the head of the handler hold exactly until it has run once. */
    method OnDetected(ec: bool, handshake: bool, stillOpen: bool)
      requires Valid() && DetectPossible(State())
      modifies this
      ensures Valid() && State() == DETECTED
      ensures posts == old(posts) + [ResultTask(entity, old(State()), ec, handshake, stillOpen)]
      ensures posts[|old(posts)|]
           == SetDetect(entity, ec, handshake, Some(Socket(old(stream).value.id, stillOpen)), !stillOpen)
    {
      assert streamValid && !detected;
      stream := Some(stream.value.(open := stillOpen));
      detected := true;
      var forceClosing := stream.None? || !stream.value.open;
      posts := posts + [SetDetect(entity, ec, handshake, stream, forceClosing)];
      stream := None;
      streamValid := false;
    }
  }
}
