/** Where a connection is in its life, what its entity then looks like, and why every step keeps it so. */
module Connections {
  import opened Wrappers
  import opened Sockets
  import opened Entities
  import opened Detection
  import Http = HttpSession
  import Ws = WsSession

  /** `Posted`, `Accepting` and `AcceptTask`: the entity waits for `asyncAccept`, is given to it, has its
      result queued; `Orphan`: `asyncAccept` found the acceptor closed. A connection is at a `...Task`
      stage while the task of that name is queued and at a `...Recorded` stage while the result waits in
      the registry. An ended session is `marked` once its entity is tagged unused. */
  datatype Stage =
    | Posted | Accepting | Orphan | AcceptTask | AcceptRecorded
    | Detecting | DetectTask | DetectRecorded
    | Http | HttpEnded(marked: bool) | UpgradeTask
    | Ws | WsEnded(marked: bool)
    | Gone

  /** Allocated, but without a recorded accept result. */
  predicate Lacking(st: Stage) {
    st.Posted? || st.Accepting? || st.Orphan? || st.AcceptTask?
  }

  predicate Ended(st: Stage) {
    st.HttpEnded? || st.WsEnded?
  }

  predicate Marked(st: Stage) {
    Ended(st) && st.marked
  }

  /** No operation is outstanding on what the entity keeps from an earlier session. */
  predicate IdleDetector(x: Ent) {
    x.detector.None? || x.detector.value == DETECTED
  }

  predicate IdleHttp(x: Ent) {
    x.http.None? || x.http.value.pendingReads + x.http.value.pendingWrites == 0
  }

  predicate IdleWs(x: Ent) {
    x.ws.None? || x.ws.value.op.NoOp?
  }

  predicate HasWs(x: Ent) {
    x.ws.Some? && x.ws.value.stream.Some?
  }

  /** A result still holds its socket exactly when it was not handled. */
  ghost predicate ResultsOwn(x: Ent) {
    && (x.accept.Some? ==> (x.accept.value.socket.Some? <==> !x.acceptUsed))
    && (x.detect.Some? ==> (x.detect.value.stream.Some? <==> !x.detectUsed))
  }

  /** The channels at each stage: at most one has an operation outstanding. */
  ghost predicate Under(st: Stage, x: Ent) {
    match st
    case Posted | Accepting | Orphan | AcceptTask | AcceptRecorded | DetectTask | DetectRecorded =>
      IdleDetector(x) && IdleHttp(x) && IdleWs(x)
    case Detecting => x.detector.Some? && DetectPossible(x.detector.value) && IdleHttp(x) && IdleWs(x)
    case Http => IdleDetector(x) && x.http.Some? && Http.Active(x.http.value) && IdleWs(x)
    case HttpEnded(_) => IdleDetector(x) && x.http.Some? && Http.EndedByEof(x.http.value) && IdleWs(x)
    case UpgradeTask => IdleDetector(x) && x.http.Some? && Http.EndedByUpgrade(x.http.value) && IdleWs(x)
    case Ws => IdleDetector(x) && IdleHttp(x) && HasWs(x) && !x.ws.value.op.Closing?
    case WsEnded(_) => IdleDetector(x) && IdleHttp(x) && HasWs(x) && (x.ws.value.op.Closing? || x.ws.value.op.NoOp?)
    case Gone => false
  }

  /** What the entity of a connection looks like at each stage. */
  ghost predicate Fits(st: Stage, x: Ent) {
    && Settled(x) && x.tcp && x.strand && !x.message
    && ResultsOwn(x) && Under(st, x)
    && (x.unused <==> Marked(st))
    && (AcceptPending(x) <==> st.AcceptRecorded?)
    && (DetectPending(x) <==> st.DetectRecorded?)
    && (x.delayed || x.justDone ==> Lacking(st) || st.AcceptRecorded?)
  }

  // ---------------------------------------------------------------------------------------------
  // Tasks and completions, entity by entity.

  lemma NewFits()
    ensures Fits(Posted, WithStrand(NEW_CONNECTION))
  {
  }

  lemma ReuseFits(st: Stage, x: Ent)
    requires Fits(st, x) && Reusable(x) && IdleWs(x)
    ensures Fits(Posted, WithStrand(Reuse(x)))
  {
  }

  lemma SameEntityFits(st: Stage, next: Stage, x: Ent)
    requires Fits(st, x) && Lacking(st) && Lacking(next)
    ensures Fits(next, x)
  {
  }

  lemma RecordAcceptFits(x: Ent, ec: bool, socket: Socket)
    requires Fits(AcceptTask, x)
    ensures Fits(AcceptRecorded, RecordAccept(x, ec, socket))
  {
  }

  lemma DetectedFits(x: Ent)
    requires Fits(Detecting, x)
    ensures Fits(DetectTask, x.(detector := Some(DETECTED)))
  {
  }

  lemma RecordDetectFits(x: Ent, ec: bool, handshake: bool, stream: Option<Socket>, needClose: bool)
    requires Fits(DetectTask, x) && stream.Some?
    ensures Fits(DetectRecorded, RecordDetect(x, ec, handshake, stream, needClose))
  {
  }

  /** The stage a completion leaves an HTTP session at. */
  function HttpStage(ch: Http.Channel): Stage {
    if ch.pendingReads + ch.pendingWrites > 0 then Stage.Http
    else if ch.streamValid then HttpEnded(false)
    else UpgradeTask
  }

  lemma HttpFits(x: Ent, c: Http.Completion)
    requires Fits(Stage.Http, x) && Http.Possible(x.http.value, c)
    ensures var eff := Http.Complete(x.http.value, c);
            var st := HttpStage(eff.channel);
            && Fits(st, x.(http := Some(eff.channel)))
            && eff.posts == (match st
                             case HttpEnded(_) => [Http.PostMarkUnused]
                             case UpgradeTask => [Http.PostUpgrade(x.http.value.stream)]
                             case _ => [])
  {
  }

  lemma UpgradeFits(x: Ent, stream: Option<Socket>)
    requires Fits(UpgradeTask, x) && stream.Some?
    ensures Fits(Stage.Ws, UpgradeToWs(x, stream))
  {
  }

  function WsStage(st: Stage, post: Ws.Post): Stage {
    if post.PostMarkUnused? && st.Ws? then WsEnded(false) else st
  }

  lemma WsFits(st: Stage, x: Ent, c: Ws.Completion)
    requires Fits(st, x) && x.ws.Some? && Ws.Possible(x.ws.value, c)
    ensures var eff := Ws.Complete(x.ws.value, c);
            && (st.Ws? || st.WsEnded?)
            && Fits(WsStage(st, eff.post), x.(ws := Some(eff.channel)))
            && (eff.post.PostReceived? ==> st.Ws?)
  {
  }

  function MarkedStage(st: Stage): Stage {
    match st
    case HttpEnded(_) => HttpEnded(true)
    case WsEnded(_) => WsEnded(true)
    case _ => st
  }

  lemma MarkFits(st: Stage, x: Ent)
    requires Fits(st, x) && Ended(st)
    ensures Fits(MarkedStage(st), x.(unused := true))
  {
  }

  // ---------------------------------------------------------------------------------------------
  // An update tick.

  /** The stage of a connection that survives a tick. */
  function SurvivorStage(st: Stage, x: Ent): Stage {
    if st.AcceptRecorded? && !x.delayed then Detecting
    else if st.DetectRecorded? then Stage.Http
    else st
  }

  lemma SurvivorFits(st: Stage, x: Ent)
    requires Fits(st, x) && !Results(x).unused
    ensures Fits(SurvivorStage(st, x), Survivor(x))
  {
  }

  /** Only ended sessions and connections with a failed result are lost. */
  lemma LostWasEnded(st: Stage, x: Ent)
    requires Fits(st, x) && Results(x).unused
    ensures Marked(st) || st.AcceptRecorded? || st.DetectRecorded?
  {
  }
}
