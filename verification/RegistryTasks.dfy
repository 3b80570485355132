/** The tasks posted on the registry sequence, and what each one does to the registry. */
module RegistryTasks {
  import opened Wrappers
  import opened Sockets
  import opened Entities
  import opened ChildLinks
  import opened NetworkRegistry

  datatype Task =
    | Allocate
    | SetAccept(e: Entity, ec: bool, socket: Socket)
    | Update
    | SetDetect(e: Entity, ec: bool, handshake: bool, stream: Option<Socket>, needClose: bool)
    | Upgrade(e: Entity, stream: Option<Socket>)
    | Receive(e: Entity)
    | MarkUnused(e: Entity)

  function Replace(reg: Registry, e: Entity, x: Ent): Registry {
    reg.(ents := reg.ents[e := x])
  }

  /** The entity an allocation yields: the unused one taken over, or `newId`. */
  function Allocated(newId: Entity, reused: Option<Entity>): Entity {
    if reused.Some? then reused.value else newId
  }

  /** `findEntity` yields an unused connection whenever there is one. */
  predicate Choosable(reg: Registry, reused: Option<Entity>) {
    match reused
    case None => Candidates(reg.ents) == {}
    case Some(c) => c in Candidates(reg.ents)
  }

  /** The checks a task makes of the registry it finds. */
  ghost predicate Ready(reg: Registry, t: Task, reused: Option<Entity>) {
    match t
    case Allocate => reused.Some? ==>
      reused.value in reg.ents && ReuseReady(reg.ents[reused.value]) && reused.value !in reg.children
    case SetAccept(e, _, _) => e in reg.ents && reg.ents[e].tcp && reg.ents[e].strand
    case Update => Consistent(reg)
    case SetDetect(e, _, _, _, _) => e in reg.ents
    case Upgrade(e, _) => e in reg.ents && reg.ents[e].tcp && reg.ents[e].http.Some?
    case Receive(e) => e in reg.ents
    case MarkUnused(_) => true
  }

  /** The registry after a task, which may use the new id `newId`. A task that is not ready has no effect. */
  function Perform(reg: Registry, newId: Entity, t: Task, reused: Option<Entity>): Registry {
    match t
    case Allocate =>
      (match reused
       case None => Replace(reg, newId, WithStrand(NEW_CONNECTION))
       case Some(c) => if c in reg.ents then Replace(reg, c, WithStrand(Reuse(reg.ents[c]))) else reg)
    case SetAccept(e, ec, socket) =>
      if e in reg.ents then Replace(reg, e, RecordAccept(reg.ents[e], ec, socket)) else reg
    case Update => Tick(reg)
    case SetDetect(e, ec, handshake, stream, needClose) =>
      if e in reg.ents then Replace(reg, e, RecordDetect(reg.ents[e], ec, handshake, stream, needClose)) else reg
    case Upgrade(e, stream) =>
      if e in reg.ents && reg.ents[e].http.Some? then Replace(reg, e, UpgradeToWs(reg.ents[e], stream)) else reg
    case Receive(e) =>
      if e in reg.ents then Registry(reg.ents[newId := MESSAGE], Prepended(reg.children, e, newId)) else reg
    case MarkUnused(e) => reg.(ents := Entities.MarkUnused(reg.ents, e))
  }

  function NextId(newId: Entity, t: Task, reused: Option<Entity>): Entity {
    if t.Receive? || (t.Allocate? && reused.None?) then newId + 1 else newId
  }

  lemma LinkedAreAlive(links: Links, reg: Registry)
    requires forall c :: c in links.parent ==> Claimed(links, reg.children, c)
    requires ChildrenAreMessages(reg)
    ensures forall c :: c in links.parent ==> c in reg.ents
  {
  }

  method AllocateWithStrand(registry: SafeRegistry) returns (reused: Option<Entity>)
    requires registry.Valid()
    requires forall c :: c in Candidates(registry.ents) ==> ReuseReady(registry.ents[c]) && c !in registry.children
    modifies registry
    ensures registry.Valid() && Choosable(old(registry.View()), reused)
    ensures registry.View() == Perform(old(registry.View()), old(registry.nextId), Allocate, reused)
    ensures registry.nextId == NextId(old(registry.nextId), Allocate, reused)
  {
    var e, usedCache := registry.AllocateTcpEntity();
    registry.ResetStrand(e);
    reused := if usedCache then Some(e) else None;
  }

  /** Runs one task on the registry object. The object settles which entity is taken over or created,
      and does what `Perform` says about that choice. */
  method RunTask(registry: SafeRegistry, t: Task) returns (reused: Option<Entity>)
    requires registry.Valid() && Consistent(registry.View())
    requires !t.Allocate? ==> Ready(registry.View(), t, None)
    requires t.Allocate? ==> forall c :: c in Candidates(registry.ents) ==> Ready(registry.View(), t, Some(c))
    modifies registry
    ensures registry.Valid()
    ensures t.Allocate? ==> Choosable(old(registry.View()), reused)
    ensures registry.View() == Perform(old(registry.View()), old(registry.nextId), t, reused)
    ensures registry.nextId == NextId(old(registry.nextId), t, reused)
  {
    reused := None;
    match t {
      case Allocate =>
        reused := AllocateWithStrand(registry);
      case SetAccept(e, ec, socket) =>
        registry.SetAcceptConnectionResult(e, ec, socket);
      case Update =>
        registry.UpdateOnRegistryThread();
      case SetDetect(e, ec, handshake, stream, needClose) =>
        registry.SetSSLDetectResult(e, ec, handshake, stream, needClose);
      case Upgrade(e, stream) =>
        registry.HandleWebsocketUpgrade(e, stream);
      case Receive(e) =>
        LinkedAreAlive(registry.links, registry.View());
        var _ := registry.AllocateReceivedData(e);
      case MarkUnused(e) =>
        registry.MarkAsUnused(e);
    }
  }
}
