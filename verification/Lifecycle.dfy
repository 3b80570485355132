/** Every connection at a stage has an entity that looks like it: what each step keeps of the registry. */
module Lifecycle {
  import opened Wrappers
  import opened Sockets
  import opened Entities
  import opened ChildLinks
  import opened RegistryTasks
  import opened Connections
  import opened Server

  type Stages = map<Entity, Stage>

  /** A connection is gone or its entity fits its stage; every other entity is a received message. */
  ghost predicate Known(stage: Stages, ents: Ents, e: Entity) {
    && (e in stage ==> if stage[e].Gone? then e !in ents else e in ents && Fits(stage[e], ents[e]))
    && (e in ents && e !in stage ==> ents[e] == MESSAGE)
  }

  ghost predicate RegistryInv(stage: Stages, reg: Registry, nextId: Entity) {
    && Consistent(reg)
    && (forall e :: Known(stage, reg.ents, e))
    && (forall e :: e in stage || e in reg.ents ==> e < nextId)
  }

  lemma KnownConnection(stage: Stages, reg: Registry, nextId: Entity, e: Entity)
    requires RegistryInv(stage, reg, nextId)
    ensures e in reg.ents && reg.ents[e] != MESSAGE ==> e in stage
    ensures e in stage ==> if stage[e].Gone? then e !in reg.ents else e in reg.ents && Fits(stage[e], reg.ents[e])
  {
    assert Known(stage, reg.ents, e);
  }

  lemma ConsistentAfterChange(reg: Registry, e: Entity, x: Ent)
    requires Consistent(reg) && e in reg.ents && reg.ents[e].tcp
    requires Settled(x) && x.tcp && (x.delayed ==> e !in reg.children)
    ensures Consistent(Replace(reg, e, x))
  {
    assert reg.ents[e] != MESSAGE;
  }

  /** A step that changes one connection keeps the invariant if the entity fits its new stage. */
  lemma ConnectionChanges(stage: Stages, reg: Registry, nextId: Entity, e: Entity, st: Stage, x: Ent)
    requires RegistryInv(stage, reg, nextId) && e in stage && !stage[e].Gone?
    requires Fits(st, x) && (x.delayed ==> e !in reg.children)
    ensures RegistryInv(stage[e := st], Replace(reg, e, x), nextId)
  {
    KnownConnection(stage, reg, nextId, e);
    ConsistentAfterChange(reg, e, x);
    var after, ents := stage[e := st], reg.ents[e := x];
    forall d
      ensures Known(after, ents, d)
    {
      assert Known(stage, reg.ents, d);
    }
  }

  lemma StageChanges(stage: Stages, reg: Registry, nextId: Entity, e: Entity, st: Stage)
    requires RegistryInv(stage, reg, nextId) && e in stage && Lacking(stage[e]) && Lacking(st)
    ensures RegistryInv(stage[e := st], reg, nextId)
  {
    KnownConnection(stage, reg, nextId, e);
    SameEntityFits(stage[e], st, reg.ents[e]);
    var after := stage[e := st];
    forall d
      ensures Known(after, reg.ents, d)
    {
      assert Known(stage, reg.ents, d);
    }
  }

  lemma NewConnection(stage: Stages, reg: Registry, nextId: Entity)
    requires RegistryInv(stage, reg, nextId)
    ensures RegistryInv(stage[nextId := Posted], Replace(reg, nextId, WithStrand(NEW_CONNECTION)), nextId + 1)
  {
    NewFits();
    var x := WithStrand(NEW_CONNECTION);
    var after, ents := stage[nextId := Posted], reg.ents[nextId := x];
    forall d
      ensures Known(after, ents, d)
    {
      assert Known(stage, reg.ents, d);
    }
    assert Consistent(Replace(reg, nextId, x)) by {
      assert nextId !in reg.ents && nextId !in reg.children;
    }
  }

  lemma PrependedKeepsDistinct(children: Children, p: Entity, m: Entity)
    requires Distinct(children) && forall q :: q in children ==> m !in children[q]
    ensures Distinct(Prepended(children, p, m))
    ensures forall q, c :: q in Prepended(children, p, m) && c in Prepended(children, p, m)[q] ==>
      (c == m && q == p) || (c != m && q in children && c in children[q])
  {
  }

  lemma PrependedKeepsConsistent(reg: Registry, p: Entity, m: Entity)
    requires Consistent(reg) && m !in reg.ents && p in reg.ents && reg.ents[p].tcp && !reg.ents[p].delayed
    ensures Consistent(Registry(reg.ents[m := MESSAGE], Prepended(reg.children, p, m)))
  {
    PrependedKeepsDistinct(reg.children, p, m);
  }

  lemma NewMessage(stage: Stages, reg: Registry, nextId: Entity, p: Entity)
    requires RegistryInv(stage, reg, nextId) && p in stage && (stage[p].Ws? || stage[p] == WsEnded(false))
    ensures p in reg.ents
    ensures RegistryInv(stage, Registry(reg.ents[nextId := MESSAGE], Prepended(reg.children, p, nextId)), nextId + 1)
  {
    KnownConnection(stage, reg, nextId, p);
    PrependedKeepsConsistent(reg, p, nextId);
    var ents := reg.ents[nextId := MESSAGE];
    forall d
      ensures Known(stage, ents, d)
    {
      assert Known(stage, reg.ents, d);
    }
  }

  // ---------------------------------------------------------------------------------------------
  // A tick.

  /** How a tick may move a connection. */
  predicate TickMoves(st: Stage, next: Stage) {
    match st
    case AcceptRecorded => next.AcceptRecorded? || next.Detecting? || next.Gone?
    case DetectRecorded => next.Http? || next.Gone?
    case HttpEnded(marked) => next == if marked then Gone else st
    case WsEnded(marked) => next == if marked then Gone else st
    case _ => next == st
  }

  lemma TickMovesOne(stage: Stages, reg: Registry, nextId: Entity, e: Entity)
    requires RegistryInv(stage, reg, nextId) && e in stage
    ensures TickMoves(stage[e], AfterTick(stage, reg)[e])
    ensures Known(AfterTick(stage, reg), Tick(reg).ents, e)
  {
    KnownConnection(stage, reg, nextId, e);
    TickAt(reg, e);
    if e in reg.ents {
      ConnectionIsNoChild(reg, Failing(reg.ents), e);
      FittingMoves(stage[e], reg.ents[e]);
    }
  }

  lemma FittingMoves(st: Stage, x: Ent)
    requires Fits(st, x)
    ensures Results(x).unused ==> TickMoves(st, Gone)
    ensures !Results(x).unused ==> TickMoves(st, SurvivorStage(st, x)) && Fits(SurvivorStage(st, x), Survivor(x))
  {
    if Results(x).unused {
      LostWasEnded(st, x);
    } else {
      SurvivorFits(st, x);
    }
  }

  lemma TickKeepsRegistry(stage: Stages, reg: Registry, nextId: Entity)
    requires RegistryInv(stage, reg, nextId)
    ensures RegistryInv(AfterTick(stage, reg), Tick(reg), nextId)
    ensures forall e :: e in stage ==> TickMoves(stage[e], AfterTick(stage, reg)[e])
  {
    TickKeepsConsistent(reg);
    forall e
      ensures Known(AfterTick(stage, reg), Tick(reg).ents, e)
      ensures e in Tick(reg).ents ==> e in reg.ents
      ensures e in stage ==> TickMoves(stage[e], AfterTick(stage, reg)[e])
    {
      TickAt(reg, e);
      if e in stage {
        TickMovesOne(stage, reg, nextId, e);
      } else if e in reg.ents {
        assert Known(stage, reg.ents, e);
        MessageSurvives(reg.ents[e]);
      }
    }
  }

  lemma MessageSurvives(x: Ent)
    requires x == MESSAGE
    ensures Survivor(x) == MESSAGE
  {
  }
}
