/** Network entities: the components each one carries, what each system of an update tick does to
    them, and what one whole tick does to the registry. */
module Entities {
  import opened Wrappers
  import opened Sockets
  import Http = HttpSession
  import Ws = WsSession

  type Entity = nat

  /** `ec` tells whether the operation failed; a moved-out socket or stream is `None`. */
  datatype AcceptResult = AcceptResult(ec: bool, socket: Option<Socket>, needClose: bool)

  datatype DetectResult = DetectResult(ec: bool, handshake: bool, stream: Option<Socket>, needClose: bool)

  datatype DetectChannel = DetectChannel(stream: Option<Socket>, detected: bool)

  /** The components of one entity. `tcp` to `doomed` are tags or plain components (`dying` is
      `NeedToDestroyTag`, `doomed` is `Internal_ChildrenToDestroy`, `message` is `RecievedData`);
      `strand`, `detector`, `http` and `ws` live in the context of `TcpConnection`. */
  datatype Ent = Ent(
    tcp: bool, strand: bool, message: bool,
    delayed: bool, justDone: bool, unused: bool, dying: bool, doomed: bool,
    accept: Option<AcceptResult>, acceptUsed: bool,
    detect: Option<DetectResult>, detectUsed: bool,
    detector: Option<DetectChannel>, http: Option<Http.Channel>, ws: Option<Ws.Channel>)

  const BLANK := Ent(false, false, false, false, false, false, false, false, None, false, None, false, None, None, None)

  const MESSAGE := BLANK.(message := true)

  type Ents = map<Entity, Ent>

  type Children = map<Entity, seq<Entity>>

  /** The registry as the systems see it: components, and the list of children of each parent. */
  datatype Registry = Registry(ents: Ents, children: Children)

  function MapEnts(ents: Ents, f: Ent -> Ent): Ents {
    map e | e in ents :: f(ents[e])
  }

  // ---------------------------------------------------------------------------------------------
  // The seven systems, in the order of a tick.

  predicate Constructed(x: Ent) {
    !x.delayed && !x.dying
  }

  predicate AcceptPending(x: Ent) {
    x.accept.Some? && !x.acceptUsed
  }

  predicate DetectPending(x: Ent) {
    x.detect.Some? && !x.detectUsed
  }

  /** 1: an accept result becomes a detect channel, or its socket is closed and the entity unused. */
  function HandleAccept(x: Ent): Ent {
    if AcceptPending(x) && Constructed(x) then
      var r := x.accept.value;
      if r.ec || r.needClose then
        x.(accept := Some(r.(socket := Closed(r.socket))), acceptUsed := true, unused := true)
      else
        x.(accept := Some(r.(socket := None)), acceptUsed := true, detector := Some(DetectChannel(r.socket, false)))
    else x
  }

  /** 2: a detect result becomes an HTTP channel, or its stream is closed and the entity unused. */
  function HandleDetect(x: Ent): Ent {
    if DetectPending(x) && Constructed(x) then
      var r := x.detect.value;
      if r.needClose || r.ec then
        x.(detect := Some(r.(stream := Closed(r.stream))), detectUsed := true, unused := true)
      else
        x.(detect := Some(r.(stream := None)), detectUsed := true, http := Some(Http.Fresh(r.stream)))
    else x
  }

  /** What is promised of an entity `x` with a pending accept result, which becomes `y`: a failed or closed
      socket is closed and the entity unused, any other one gets a detect channel of its own. */
  ghost predicate AcceptDecided(x: Ent, y: Ent)
    requires x.accept.Some?
  {
    var r := x.accept.value;
    && y.acceptUsed && y.accept.Some? && y.tcp == x.tcp && y.detect == x.detect && y.http == x.http && y.ws == x.ws
    && (r.ec || r.needClose ==> y.unused && y.accept.value.socket == Closed(r.socket) && y.detector == x.detector)
    && (!r.ec && !r.needClose ==> y.unused == x.unused && y.accept.value.socket.None?
                                  && y.detector == Some(DetectChannel(r.socket, false)))
  }

  /** The same for a detect result, whose stream becomes that of an HTTP channel about to read. */
  ghost predicate DetectDecided(x: Ent, y: Ent)
    requires x.detect.Some?
  {
    var r := x.detect.value;
    && y.detectUsed && y.detect.Some? && y.tcp == x.tcp && y.accept == x.accept && y.ws == x.ws
    && y.detect.value.handshake == r.handshake
    && (r.ec || r.needClose ==> y.unused && y.detect.value.stream == Closed(r.stream) && y.http == x.http)
    && (!r.ec && !r.needClose ==> y.unused == x.unused && y.detect.value.stream.None?
                                  && y.http == Some(Http.Channel(r.stream, true, true, 1, 0)))
  }

  /** 3: parents whose children are reclaimed, and those children. */
  function Reclaimable(reg: Registry): set<Entity> {
    set p | p in reg.ents && p in reg.children && reg.ents[p].unused && Constructed(reg.ents[p])
  }

  function ChildrenOf(children: Children, parents: set<Entity>): set<Entity> {
    set p, c | p in parents && p in children && c in children[p] :: c
  }

  function Reclaim(reg: Registry): Registry {
    var parents := Reclaimable(reg);
    var kids := ChildrenOf(reg.children, parents);
    Registry(map e | e in reg.ents :: if e in kids then reg.ents[e].(dying := true) else reg.ents[e],
             reg.children - parents)
  }

  /** The same in the three phases of `updateUnusedChildList`: tag the children, turn the tag into
      `NeedToDestroyTag`, then empty the lists of the parents that are still not dying. */
  function WithDoomed(ents: Ents, kids: set<Entity>): Ents {
    map e | e in ents :: if e in kids then ents[e].(doomed := true) else ents[e]
  }

  function PromoteDoomed(x: Ent): Ent {
    if x.doomed then x.(doomed := false, dying := true) else x
  }

  function Emptied(ents: Ents): set<Entity> {
    set p | p in ents && ents[p].unused && Constructed(ents[p])
  }

  function ThreePhaseReclaim(reg: Registry): Registry {
    var tagged := WithDoomed(reg.ents, ChildrenOf(reg.children, Reclaimable(reg)));
    var promoted := MapEnts(tagged, PromoteDoomed);
    Registry(promoted, reg.children - Emptied(promoted))
  }

  /** 4 and 5: finish the construction announced one tick ago, announce the delayed ones. */
  function ForgetJustDone(x: Ent): Ent {
    if x.justDone && !x.dying then x.(justDone := false) else x
  }

  function FinishConstruction(x: Ent): Ent {
    if x.delayed && !x.dying then x.(delayed := false, justDone := true) else x
  }

  /** 6: unused entities are to be destroyed. */
  function DoomUnused(x: Ent): Ent {
    if x.unused && !x.dying then x.(dying := true) else x
  }

  /** 7: tagged entities are destroyed. */
  function Cleanup(reg: Registry): Registry {
    Registry(map e | e in reg.ents && !reg.ents[e].dying :: reg.ents[e], reg.children)
  }

  function AfterResults(ents: Ents): Ents {
    MapEnts(MapEnts(ents, HandleAccept), HandleDetect)
  }

  function AfterTags(ents: Ents): Ents {
    MapEnts(MapEnts(MapEnts(ents, ForgetJustDone), FinishConstruction), DoomUnused)
  }

  /** `updateOnRegistryThread`. */
  function Tick(reg: Registry): Registry {
    var reclaimed := Reclaim(reg.(ents := AfterResults(reg.ents)));
    Cleanup(reclaimed.(ents := AfterTags(reclaimed.ents)))
  }

  // ---------------------------------------------------------------------------------------------
  // The other registry tasks, on the entity they concern.

  /** A connection entity just created, or taken over from an unused one, by the allocator. */
  const NEW_CONNECTION := BLANK.(tcp := true, delayed := true)

  function Reuse(x: Ent): Ent {
    x.(delayed := true, unused := false)
  }

  predicate Reusable(x: Ent) {
    x.tcp && x.unused && !x.dying
  }

  function WithStrand(x: Ent): Ent {
    x.(strand := true)
  }

  function RecordAccept(x: Ent, ec: bool, socket: Socket): Ent {
    x.(acceptUsed := false, accept := Some(AcceptResult(ec, Some(socket), !socket.open)))
  }

  function RecordDetect(x: Ent, ec: bool, handshake: bool, stream: Option<Socket>, needClose: bool): Ent {
    x.(detectUsed := false, detect := Some(DetectResult(ec, handshake, stream, needClose)))
  }

  function UpgradeToWs(x: Ent, stream: Option<Socket>): Ent
    requires x.http.Some?
  {
    x.(ws := Some(Ws.Fresh(stream)), http := Some(x.http.value.(streamValid := false)))
  }

  function MarkUnused(ents: Ents, e: Entity): Ents {
    if e in ents then ents[e := ents[e].(unused := true)] else ents
  }

  // ---------------------------------------------------------------------------------------------
  // What holds between registry tasks.

  /** Between tasks nothing is half destroyed; construction tags exclude each other and `unused`; an
      unhandled result holds its socket and belongs to a connection with a strand. */
  ghost predicate Settled(x: Ent) {
    && !x.dying && !x.doomed
    && !(x.delayed && x.justDone)
    && !(x.delayed && x.unused)
    && (x.unused ==> x.tcp)
    && (AcceptPending(x) ==> x.tcp && x.strand && x.accept.value.socket.Some?)
    && (DetectPending(x) ==> x.tcp && x.detect.value.stream.Some?)
    && !(AcceptPending(x) && DetectPending(x))
  }

  ghost predicate NoRepeats(s: seq<Entity>) {
    forall i, j :: 0 <= i < j < |s| ==> s[i] != s[j]
  }

  /** No entity is in two lists, or twice in one. */
  ghost predicate Distinct(children: Children) {
    && (forall p :: p in children ==> NoRepeats(children[p]))
    && (forall p, q, c :: p in children && q in children && c in children[p] && c in children[q] ==> p == q)
  }

  /** Children are received messages and nothing else. */
  ghost predicate ChildrenAreMessages(reg: Registry) {
    forall p, c :: p in reg.children && c in reg.children[p] ==> c in reg.ents && reg.ents[c] == MESSAGE
  }

  ghost predicate ParentsAreConnections(reg: Registry) {
    forall p :: p in reg.children ==> p in reg.ents && reg.ents[p].tcp && !reg.ents[p].delayed
  }

  ghost predicate Consistent(reg: Registry) {
    && (forall e :: e in reg.ents ==> Settled(reg.ents[e]))
    && ParentsAreConnections(reg)
    && ChildrenAreMessages(reg)
    && Distinct(reg.children)
  }

  // ---------------------------------------------------------------------------------------------
  // One tick, entity by entity.

  function Results(x: Ent): Ent {
    HandleDetect(HandleAccept(x))
  }

  /** All systems on one entity, which is or is not a child of a reclaimed parent. */
  function TickEnt(x: Ent, kid: bool): Ent {
    var y := if kid then Results(x).(dying := true) else Results(x);
    DoomUnused(FinishConstruction(ForgetJustDone(y)))
  }

  /** What becomes of the components of an entity that survives. */
  function Survivor(x: Ent): Ent {
    FinishConstruction(ForgetJustDone(Results(x)))
  }

  /** The connections a tick finds or makes unused. */
  ghost function Failing(ents: Ents): set<Entity> {
    set e | e in ents && Results(ents[e]).unused
  }

  lemma HandleAcceptKeeps(x: Ent)
    requires Settled(x)
    ensures var y := HandleAccept(x);
            && !y.dying && y.delayed == x.delayed && y.justDone == x.justDone && y.tcp == x.tcp && y.strand == x.strand
            && (y.unused ==> x.tcp) && (x == MESSAGE ==> y == MESSAGE)
            && y.detect == x.detect && y.detectUsed == x.detectUsed
  {
  }

  lemma ResultsKeep(x: Ent)
    requires Settled(x)
    ensures !Results(x).dying && Results(x).delayed == x.delayed && Results(x).justDone == x.justDone
    ensures Results(x).tcp == x.tcp && Results(x).strand == x.strand
    ensures Results(x).unused ==> x.tcp
    ensures x == MESSAGE ==> Results(x) == MESSAGE
  {
    HandleAcceptKeeps(x);
  }

  lemma TickEntOutcome(x: Ent, kid: bool)
    requires Settled(x)
    ensures TickEnt(x, kid).dying <==> kid || Results(x).unused
    ensures !TickEnt(x, kid).dying ==> TickEnt(x, kid) == Survivor(x)
  {
    ResultsKeep(x);
  }

  lemma SurvivorIsSettled(x: Ent)
    requires Settled(x) && !Results(x).unused
    ensures Settled(Survivor(x)) && !Survivor(x).unused && !Survivor(x).delayed
    ensures Survivor(x).justDone == x.delayed && Survivor(x).tcp == x.tcp
    ensures x == MESSAGE ==> Survivor(x) == MESSAGE
  {
    ResultsKeep(x);
  }

  lemma ReclaimableIsFailing(reg: Registry)
    requires Consistent(reg)
    ensures Reclaimable(reg.(ents := AfterResults(reg.ents))) == Failing(reg.ents) * reg.children.Keys
  {
    var handled := reg.(ents := AfterResults(reg.ents));
    forall p
      ensures p in Reclaimable(handled) <==> p in Failing(reg.ents) && p in reg.children
    {
      if p in reg.children {
        assert p in reg.ents && !reg.ents[p].delayed;
        ResultsKeep(reg.ents[p]);
      }
    }
  }

  /** A tick is the systems applied to each entity by itself, given which parents are reclaimed. */
  lemma TickPointwise(reg: Registry, e: Entity)
    ensures var parents := Reclaimable(reg.(ents := AfterResults(reg.ents)));
            var kid := e in ChildrenOf(reg.children, parents);
            && (e in Tick(reg).ents <==> e in reg.ents && !TickEnt(reg.ents[e], kid).dying)
            && (e in Tick(reg).ents ==> Tick(reg).ents[e] == TickEnt(reg.ents[e], kid))
            && Tick(reg).children == reg.children - parents
  {
  }

  /** What one tick does to one entity. */
  lemma TickAt(reg: Registry, e: Entity)
    requires Consistent(reg)
    ensures e in Tick(reg).ents <==>
      e in reg.ents && !Results(reg.ents[e]).unused && e !in ChildrenOf(reg.children, Failing(reg.ents))
    ensures e in Tick(reg).ents ==> Tick(reg).ents[e] == Survivor(reg.ents[e])
  {
    TickPointwise(reg, e);
    ReclaimableIsFailing(reg);
    var failing := Failing(reg.ents);
    assert ChildrenOf(reg.children, failing * reg.children.Keys) == ChildrenOf(reg.children, failing);
    if e in reg.ents {
      TickEntOutcome(reg.ents[e], e in ChildrenOf(reg.children, failing));
    }
  }

  /** Which entities and which lists are left, when the connections in `failing` go. */
  ghost predicate Leaves(reg: Registry, next: Registry, failing: set<Entity>) {
    && (forall e :: e in failing ==> e in reg.ents && reg.ents[e].tcp)
    && next.ents.Keys == reg.ents.Keys - failing - ChildrenOf(reg.children, failing)
    && next.children == reg.children - failing
  }

  lemma TickLeaves(reg: Registry)
    requires Consistent(reg)
    ensures Leaves(reg, Tick(reg), Failing(reg.ents))
  {
    var failing := Failing(reg.ents);
    forall e | e in failing
      ensures reg.ents[e].tcp
    {
      ResultsKeep(reg.ents[e]);
    }
    forall e
      ensures e in Tick(reg).ents <==> e in reg.ents.Keys - failing - ChildrenOf(reg.children, failing)
    {
      TickAt(reg, e);
    }
    TickPointwise(reg, 0);
    ReclaimableIsFailing(reg);
    assert reg.children - failing * reg.children.Keys == reg.children - failing;
  }

  lemma ChildFollowsParent(reg: Registry, failing: set<Entity>, p: Entity, c: Entity)
    requires Consistent(reg) && p in reg.children && c in reg.children[p]
    ensures c in ChildrenOf(reg.children, failing) <==> p in failing
  {
    if c in ChildrenOf(reg.children, failing) {
      var q :| q in failing && q in reg.children && c in reg.children[q];
    }
  }

  lemma ConnectionIsNoChild(reg: Registry, parents: set<Entity>, p: Entity)
    requires Consistent(reg) && p in reg.ents && reg.ents[p].tcp
    ensures p !in ChildrenOf(reg.children, parents)
  {
  }

  lemma FamiliesStayTogether(reg: Registry, next: Registry, failing: set<Entity>)
    requires Consistent(reg) && Leaves(reg, next, failing)
    ensures forall p, c :: p in reg.children && c in reg.children[p] ==> (p in next.ents <==> c in next.ents)
    ensures forall p :: p in next.children ==> p in next.ents
  {
    forall p, c | p in reg.children && c in reg.children[p]
      ensures p in next.ents <==> c in next.ents
    {
      ConnectionIsNoChild(reg, failing, p);
      ChildFollowsParent(reg, failing, p, c);
      assert reg.ents[c] == MESSAGE && !reg.ents[c].tcp;
    }
    forall p | p in next.children
      ensures p in next.ents
    {
      ConnectionIsNoChild(reg, failing, p);
    }
  }

  /** One tick leaves no garbage and no orphan: afterwards no entity is unused or tagged for
      destruction; exactly the unused connections and their children are gone; children survive
      exactly when their parent does; the lists of surviving parents are untouched. */
  lemma TickLeavesNoGarbage(reg: Registry)
    requires Consistent(reg)
    ensures forall e :: e in Tick(reg).ents ==> !Tick(reg).ents[e].unused && !Tick(reg).ents[e].dying
    ensures Tick(reg).ents.Keys == reg.ents.Keys - Failing(reg.ents) - ChildrenOf(reg.children, Failing(reg.ents))
    ensures forall p, c :: p in reg.children && c in reg.children[p] ==> (p in Tick(reg).ents <==> c in Tick(reg).ents)
    ensures Tick(reg).children == reg.children - Failing(reg.ents)
  {
    TickLeaves(reg);
    FamiliesStayTogether(reg, Tick(reg), Failing(reg.ents));
    forall e | e in Tick(reg).ents
      ensures !Tick(reg).ents[e].unused && !Tick(reg).ents[e].dying
    {
      TickAt(reg, e);
      SurvivorIsSettled(reg.ents[e]);
    }
  }

  lemma LeavingKeepsConsistent(reg: Registry, next: Registry, failing: set<Entity>)
    requires Consistent(reg) && Leaves(reg, next, failing)
    requires forall e :: e in next.ents ==> Settled(next.ents[e])
    requires forall e :: e in next.ents ==> next.ents[e].tcp == reg.ents[e].tcp && !next.ents[e].delayed
    requires forall e :: e in next.ents && reg.ents[e] == MESSAGE ==> next.ents[e] == MESSAGE
    ensures Consistent(next)
  {
    FamiliesStayTogether(reg, next, failing);
    assert ParentsAreConnections(next);
    assert ChildrenAreMessages(next) by {
      forall p, c | p in next.children && c in next.children[p]
        ensures c in next.ents && next.ents[c] == MESSAGE
      {
        assert p in reg.children && c in reg.children[p];
      }
    }
  }

  lemma TickKeepsConsistent(reg: Registry)
    requires Consistent(reg)
    ensures Consistent(Tick(reg))
  {
    var next := Tick(reg);
    TickLeaves(reg);
    forall e | e in next.ents
      ensures Settled(next.ents[e])
      ensures next.ents[e].tcp == reg.ents[e].tcp && !next.ents[e].delayed
      ensures reg.ents[e] == MESSAGE ==> next.ents[e] == MESSAGE
    {
      TickAt(reg, e);
      SurvivorIsSettled(reg.ents[e]);
    }
    LeavingKeepsConsistent(reg, next, Failing(reg.ents));
  }

  /** The survivors that just finished construction are those that were delayed when the tick began,
      and none is still delayed. */
  lemma ConstructionTakesOneTick(reg: Registry, e: Entity)
    requires Consistent(reg) && e in Tick(reg).ents
    ensures Tick(reg).ents[e].justDone <==> reg.ents[e].delayed
    ensures !Tick(reg).ents[e].delayed
  {
    TickAt(reg, e);
    SurvivorIsSettled(reg.ents[e]);
  }

  /** A pending result of a constructed connection is handled in the very next tick, and that of a
      delayed one is left alone. */
  lemma PendingIsHandledOnceConstructed(x: Ent)
    requires Settled(x)
    ensures !x.delayed ==> !AcceptPending(Results(x)) && !DetectPending(Results(x))
    ensures x.delayed ==> Results(x) == x
  {
  }

  // ---------------------------------------------------------------------------------------------
  // How many entities a tick destroys.

  ghost function TotalChildren(children: Children, parents: set<Entity>): nat {
    if parents == {} then 0
    else
      var p :| p in parents;
      (if p in children then |children[p]| else 0) + TotalChildren(children, parents - {p})
  }

  function Members(s: seq<Entity>): set<Entity> {
    set c | c in s
  }

  lemma {:induction false} DistinctSeqSize(s: seq<Entity>)
    requires NoRepeats(s)
    ensures |Members(s)| == |s|
  {
    if s != [] {
      var n := |s| - 1;
      DistinctSeqSize(s[..n]);
      assert s == s[..n] + [s[n]];
      assert Members(s) == Members(s[..n]) + {s[n]};
    }
  }

  lemma {:induction false} ChildrenAddUp(children: Children, parents: set<Entity>)
    requires Distinct(children)
    ensures |ChildrenOf(children, parents)| == TotalChildren(children, parents)
    decreases parents
  {
    if parents != {} {
      var p :| p in parents && TotalChildren(children, parents)
               == (if p in children then |children[p]| else 0) + TotalChildren(children, parents - {p});
      var rest := parents - {p};
      ChildrenAddUp(children, rest);
      if p in children {
        DistinctSeqSize(children[p]);
        assert ChildrenOf(children, parents) == ChildrenOf(children, rest) + Members(children[p]);
      } else {
        assert ChildrenOf(children, parents) == ChildrenOf(children, rest);
      }
    }
  }

  lemma LeavesAccounting(reg: Registry, next: Registry, failing: set<Entity>)
    requires Leaves(reg, next, failing) && Distinct(reg.children) && ChildrenAreMessages(reg)
    ensures |reg.ents.Keys| == |next.ents.Keys| + |failing| + TotalChildren(reg.children, failing)
  {
    assert failing <= reg.ents.Keys;
    var kids := ChildrenOf(reg.children, failing);
    ChildrenAddUp(reg.children, failing);
    ChildrenAreNotFailing(reg, failing);
    SizesAddUp(reg.ents.Keys, next.ents.Keys, failing, kids);
  }

  lemma ChildrenAreNotFailing(reg: Registry, failing: set<Entity>)
    requires ChildrenAreMessages(reg)
    requires forall e :: e in failing ==> e in reg.ents && reg.ents[e].tcp
    ensures ChildrenOf(reg.children, failing) <= reg.ents.Keys && failing !! ChildrenOf(reg.children, failing)
  {
    forall c | c in ChildrenOf(reg.children, failing)
      ensures c in reg.ents && c !in failing
    {
      var p :| p in failing && p in reg.children && c in reg.children[p];
      assert reg.ents[c] == MESSAGE;
    }
  }

  lemma SizesAddUp(all: set<Entity>, left: set<Entity>, a: set<Entity>, b: set<Entity>)
    requires left == all - a - b && a <= all && b <= all && a !! b
    ensures |all| == |left| + |a| + |b|
  {
    assert all == left + a + b;
    assert |left + a| == |left| + |a|;
  }

  /** Conservation: the entities lost in a tick are the unused connections plus all their children. */
  lemma TickAccounting(reg: Registry)
    requires Consistent(reg)
    ensures |reg.ents.Keys| ==
      |Tick(reg).ents.Keys| + |Failing(reg.ents)| + TotalChildren(reg.children, Failing(reg.ents))
  {
    TickLeaves(reg);
    LeavesAccounting(reg, Tick(reg), Failing(reg.ents));
  }

  /** The three phases amount to the simple reclaim exactly when no parent being reclaimed is itself
      a child being reclaimed (its list would then be kept); no internal tag is left either way. */
  lemma ThreePhasesReclaimExactlyWhen(reg: Registry)
    requires forall e :: e in reg.ents ==> !reg.ents[e].doomed
    ensures ThreePhaseReclaim(reg).ents == Reclaim(reg).ents
    ensures forall e :: e in reg.ents ==> !ThreePhaseReclaim(reg).ents[e].doomed
    ensures ThreePhaseReclaim(reg) == Reclaim(reg) <==> Reclaimable(reg) !! ChildrenOf(reg.children, Reclaimable(reg))
  {
    var parents := Reclaimable(reg);
    var kids := ChildrenOf(reg.children, parents);
    var three := ThreePhaseReclaim(reg);
    forall e | e in reg.ents
      ensures three.ents[e] == Reclaim(reg).ents[e] && !three.ents[e].doomed
    {
    }
    assert three.ents == Reclaim(reg).ents;
    forall p | p in reg.children
      ensures p in Emptied(three.ents) <==> p in parents && p !in kids
    {
    }
    if p :| p in parents && p in kids {
      assert p in three.children && p !in Reclaim(reg).children;
    } else {
      assert three.children == Reclaim(reg).children;
    }
  }
}
