/** The registry object: its components are changed in place by the child-list helpers, by the tasks
    posted on its sequence and by the systems of an update tick. A `DCHECK` or `CHECK` of the code is
    an `assert` in the body or a `requires`. */
module NetworkRegistry {
  import opened Wrappers
  import opened Sockets
  import opened Entities
  import opened ChildLinks
  import Http = HttpSession
  import Ws = WsSession

  // ---------------------------------------------------------------------------------------------
  // A loop over a view that changes each entity by itself.

  /** Entities outside `todo` went through `f`, the others are as they were. */
  ghost predicate Swept(was: Ents, now: Ents, f: Ent -> Ent, todo: set<Entity>) {
    && now.Keys == was.Keys
    && forall e :: e in was ==> now[e] == if e in todo then was[e] else f(was[e])
  }

  lemma SweepStarts(was: Ents, f: Ent -> Ent, view: set<Entity>)
    requires forall e :: e in was && e !in view ==> f(was[e]) == was[e]
    ensures Swept(was, was, f, view)
  {
  }

  lemma SweepAdvances(was: Ents, now: Ents, f: Ent -> Ent, todo: set<Entity>, e: Entity, x: Ent)
    requires Swept(was, now, f, todo) && e in todo && e in was && x == f(was[e])
    ensures Swept(was, now[e := x], f, todo - {e})
  {
  }

  lemma SweepEnds(was: Ents, now: Ents, f: Ent -> Ent)
    requires Swept(was, now, f, {})
    ensures now == MapEnts(was, f)
  {
  }

  // ---------------------------------------------------------------------------------------------
  // The views the systems iterate over, and what they demand of each entity.

  function AcceptView(ents: Ents): set<Entity> {
    set e | e in ents && AcceptPending(ents[e]) && Constructed(ents[e])
  }

  lemma AcceptsAreDecided(ents: Ents)
    ensures var next := MapEnts(ents, HandleAccept);
            && (forall e :: e in AcceptView(ents) ==> AcceptDecided(ents[e], next[e]))
            && (forall e :: e in ents && e !in AcceptView(ents) ==> next[e] == ents[e])
  {
    forall e | e in AcceptView(ents)
      ensures AcceptDecided(ents[e], HandleAccept(ents[e]))
    {
      AcceptIsDecided(ents[e]);
    }
  }

  lemma AcceptIsDecided(x: Ent)
    requires AcceptPending(x) && Constructed(x)
    ensures AcceptDecided(x, HandleAccept(x))
  {
  }

  lemma DetectIsDecided(x: Ent)
    requires DetectPending(x) && Constructed(x)
    ensures DetectDecided(x, HandleDetect(x))
  {
  }

  lemma DetectsAreDecided(ents: Ents)
    ensures var next := MapEnts(ents, HandleDetect);
            && (forall e :: e in DetectView(ents) ==> DetectDecided(ents[e], next[e]))
            && (forall e :: e in ents && e !in DetectView(ents) ==> next[e] == ents[e])
  {
    forall e | e in DetectView(ents)
      ensures DetectDecided(ents[e], HandleDetect(ents[e]))
    {
      DetectIsDecided(ents[e]);
    }
  }

  function DetectView(ents: Ents): set<Entity> {
    set e | e in ents && DetectPending(ents[e]) && Constructed(ents[e])
  }

  function DyingView(ents: Ents): set<Entity> {
    set e | e in ents && ents[e].dying
  }

  ghost predicate AcceptReady(x: Ent) {
    AcceptPending(x) && Constructed(x) ==> x.tcp && x.strand && x.accept.value.socket.Some?
  }

  ghost predicate DetectReady(x: Ent) {
    DetectPending(x) && Constructed(x) ==> x.tcp && x.detect.value.stream.Some?
  }

  /** Children about to be reclaimed exist and are not already being destroyed. */
  ghost predicate ReclaimReady(reg: Registry) {
    && (forall e :: e in reg.ents ==> !reg.ents[e].doomed)
    && forall c :: c in ChildrenOf(reg.children, Reclaimable(reg)) ==> c in reg.ents && !reg.ents[c].dying
  }

  ghost predicate ForgetReady(x: Ent) {
    x.justDone && !x.dying ==> !x.delayed
  }

  ghost predicate FinishReady(x: Ent) {
    x.delayed && !x.dying ==> !x.justDone
  }

  /** What the allocator's checks demand of an entity it takes over. */
  ghost predicate ReuseReady(x: Ent) {
    && !x.delayed
    && (x.detect.Some? ==> x.detectUsed)
    && (x.accept.Some? ==> x.acceptUsed)
  }

  // ---------------------------------------------------------------------------------------------
  // Within a tick every system finds what it demands.

  lemma ResultsAreReady(x: Ent)
    requires Settled(x)
    ensures AcceptReady(x) && DetectReady(HandleAccept(x)) && !Results(x).doomed && ForgetReady(Results(x))
  {
    HandleAcceptKeeps(x);
    ResultsKeep(x);
  }

  lemma TaggingIsReady(x: Ent, kid: bool)
    requires Settled(x)
    ensures var y := if kid then Results(x).(dying := true) else Results(x);
            ForgetReady(y) && FinishReady(ForgetJustDone(y))
  {
    ResultsKeep(x);
  }

  lemma KidsAreReady(reg: Registry, handled: Registry, parents: set<Entity>)
    requires Consistent(reg) && handled == reg.(ents := AfterResults(reg.ents))
    requires parents <= reg.children.Keys
    ensures forall c :: c in ChildrenOf(reg.children, parents) ==> c in handled.ents && !handled.ents[c].dying
    ensures parents !! ChildrenOf(reg.children, parents)
  {
    forall c | c in ChildrenOf(reg.children, parents)
      ensures c in handled.ents && !handled.ents[c].dying && c !in parents
    {
      var p :| p in parents && p in reg.children && c in reg.children[p];
      assert reg.ents[c] == MESSAGE;
      ResultsKeep(reg.ents[c]);
    }
  }

  lemma ReclaimIsReady(reg: Registry, handled: Registry)
    requires Consistent(reg) && handled == reg.(ents := AfterResults(reg.ents))
    ensures ReclaimReady(handled) && ThreePhaseReclaim(handled) == Reclaim(handled)
  {
    forall e | e in reg.ents
      ensures !handled.ents[e].doomed
    {
      ResultsAreReady(reg.ents[e]);
    }
    KidsAreReady(reg, handled, Reclaimable(handled));
    ThreePhasesReclaimExactlyWhen(handled);
  }

  ghost function Kids(reg: Registry): set<Entity> {
    ChildrenOf(reg.children, Failing(reg.ents))
  }

  /** The registry after the third system. */
  ghost function Reclaimed(reg: Registry): Registry {
    Registry(map e | e in reg.ents ::
               if e in Kids(reg) then Results(reg.ents[e]).(dying := true) else Results(reg.ents[e]),
             reg.children - Failing(reg.ents))
  }

  lemma ReclaimGives(reg: Registry)
    requires Consistent(reg)
    ensures Reclaim(reg.(ents := AfterResults(reg.ents))) == Reclaimed(reg)
    ensures Tick(reg) == Cleanup(Reclaimed(reg).(ents := AfterTags(Reclaimed(reg).ents)))
  {
    var failing := Failing(reg.ents);
    ReclaimableIsFailing(reg);
    assert ChildrenOf(reg.children, failing * reg.children.Keys) == Kids(reg);
    assert reg.children - failing * reg.children.Keys == reg.children - failing;
  }

  /** What is about to be destroyed is in nobody's list and has no list. */
  lemma DyingIsDetached(reg: Registry, e: Entity)
    requires Consistent(reg) && e in reg.ents
    requires TickEnt(reg.ents[e], e in ChildrenOf(reg.children, Failing(reg.ents))).dying
    ensures e !in reg.children - Failing(reg.ents)
    ensures forall p :: p in reg.children && p !in Failing(reg.ents) ==> e !in reg.children[p]
  {
    var kid := e in ChildrenOf(reg.children, Failing(reg.ents));
    TickEntOutcome(reg.ents[e], kid);
    ResultsKeep(reg.ents[e]);
    if e in reg.children {
      ConnectionIsNoChild(reg, Failing(reg.ents), e);
    }
    forall p | p in reg.children && p !in Failing(reg.ents)
      ensures e !in reg.children[p]
    {
      if e in reg.children[p] {
        ChildFollowsParent(reg, Failing(reg.ents), p, e);
      }
    }
  }

  /** Destroying these entities leaves no dangling list component behind. */
  ghost predicate DyingDetached(ents: Ents, links: Links) {
    forall e :: e in ents && ents[e].dying ==> e !in links.first && e !in links.parent
  }

  lemma TaggedAreDetached(reg: Registry, tagged: Ents, links: Links)
    requires Consistent(reg) && Represents(links, reg.children - Failing(reg.ents))
    requires tagged == map e | e in reg.ents :: TickEnt(reg.ents[e], e in Kids(reg))
    ensures DyingDetached(tagged, links)
  {
    forall e | e in tagged && tagged[e].dying
      ensures e !in links.first && e !in links.parent
    {
      assert e in links.parent ==> Claimed(links, reg.children - Failing(reg.ents), e);
      DyingIsDetached(reg, e);
    }
  }

  lemma DetachedAreUnlinked(links: Links, children: Children, view: set<Entity>)
    requires Represents(links, children)
    requires forall e :: e in view ==> e !in links.first && e !in links.parent
    ensures links ==
      Links(links.first - view, links.count - view, links.parent - view, links.next - view, links.prev - view)
  {
    assert links.first.Keys !! view && links.parent.Keys !! view;
    assert links.first - view == links.first && links.count - view == links.count;
    assert links.parent - view == links.parent;
    assert links.next - view == links.next && links.prev - view == links.prev;
  }

  ghost predicate TagsReady(ents: Ents) {
    forall e :: e in ents ==> ForgetReady(ents[e]) && FinishReady(ForgetJustDone(ents[e]))
  }

  lemma AfterTagsPointwise(ents: Ents)
    ensures AfterTags(ents).Keys == ents.Keys
    ensures forall e :: e in ents ==> AfterTags(ents)[e] == DoomUnused(FinishConstruction(ForgetJustDone(ents[e])))
  {
  }

  lemma ReclaimedAreTagged(reg: Registry)
    ensures AfterTags(Reclaimed(reg).ents) == map e | e in reg.ents :: TickEnt(reg.ents[e], e in Kids(reg))
  {
    AfterTagsPointwise(Reclaimed(reg).ents);
  }

  lemma ReclaimedIsReady(reg: Registry)
    requires Consistent(reg)
    ensures TagsReady(Reclaimed(reg).ents)
  {
    forall e | e in reg.ents
      ensures ForgetReady(Reclaimed(reg).ents[e]) && FinishReady(ForgetJustDone(Reclaimed(reg).ents[e]))
    {
      TaggingIsReady(reg.ents[e], e in Kids(reg));
    }
  }

  /** The intermediate states of a tick, each fit for the systems that come next. */
  lemma TickStages(reg: Registry) returns (handled: Registry, reclaimed: Registry, tagged: Ents)
    requires Consistent(reg)
    ensures handled == Registry(AfterResults(reg.ents), reg.children)
    ensures ReclaimReady(handled) && reclaimed == ThreePhaseReclaim(handled)
    ensures TagsReady(reclaimed.ents) && tagged == AfterTags(reclaimed.ents)
    ensures forall links :: Represents(links, reclaimed.children) ==> DyingDetached(tagged, links)
    ensures Cleanup(Registry(tagged, reclaimed.children)) == Tick(reg)
  {
    handled := Registry(AfterResults(reg.ents), reg.children);
    ReclaimIsReady(reg, handled);
    ReclaimGives(reg);
    reclaimed := Reclaimed(reg);
    ReclaimedIsReady(reg);
    ReclaimedAreTagged(reg);
    tagged := AfterTags(reclaimed.ents);
    forall links | Represents(links, reclaimed.children)
      ensures DyingDetached(tagged, links)
    {
      TaggedAreDetached(reg, tagged, links);
    }
  }

  function Candidates(ents: Ents): set<Entity> {
    set c | c in ents && Reusable(ents[c])
  }

  class SafeRegistry {
    var ents: Ents
    var links: Links
    var nextId: Entity
    var acceptHandled: nat
    var detectHandled: nat
    var cleanedUp: nat
    ghost var children: Children

    ghost predicate Valid()
      reads this
    {
      Represents(links, children) && forall e :: e in ents ==> e < nextId
    }

    ghost function View(): Registry
      reads this
    {
      Registry(ents, children)
    }

    constructor ()
      ensures Valid() && View() == Registry(map[], map[]) && cleanedUp == 0
    {
      ents, links, children, nextId := map[], NO_LINKS, map[], 0;
      acceptHandled, detectHandled, cleanedUp := 0, 0, 0;
    }

    // -------------------------------------------------------------------------------------------
    // Child lists.

    method PrependChildEntity(p: Entity, c: Entity)
      requires Valid() && c !in links.parent
      modifies this`links, this`children
      ensures Valid() && children == Prepended(old(children), p, c)
    {
      PrependKeepsRepresentation(links, children, p, c);
      var first, count, prev := links.first, links.count, links.prev;
      var head: Option<Entity> := None;
      if p in first {
        head := Some(first[p]);
        prev := prev[first[p] := Some(c)];
        count := count[p := count[p] + 1];
      } else {
        count := count[p := 1];
      }
      links := Links(first[p := c], count, links.parent[c := p], links.next[c := head], prev[c := None]);
      children := Prepended(children, p, c);
    }

    /** Visits the children of `p` in list order. */
    method ForeachTopLevelChild(p: Entity) returns (visited: seq<Entity>)
      requires Valid()
      ensures visited == ListOf(children, p)
    {
      visited := [];
      if p !in links.first {
        return;
      }
      var cur := Some(links.first[p]);
      ghost var list := children[p];
      assert ListAt(links, p, list);
      while cur.Some?
        invariant |visited| <= |list| && visited == list[..|visited|] && cur == At(list, |visited|)
        decreases |list| - |visited|
      {
        assert NodeAt(links, p, list, |visited|);
        visited := visited + [cur.value];
        cur := links.next[cur.value];
      }
    }

    method HasChildAtTopLevel(p: Entity, c: Entity) returns (found: bool)
      requires Valid()
      ensures found <==> c in ListOf(children, p)
    {
      if p !in links.first {
        return false;
      }
      var cur := Some(links.first[p]);
      ghost var list, n := children[p], 0;
      assert ListAt(links, p, list);
      while cur.Some?
        invariant 0 <= n <= |list| && cur == At(list, n) && c !in list[..n]
        decreases |list| - n
      {
        assert NodeAt(links, p, list, n);
        if cur.value == c {
          return true;
        }
        cur := links.next[cur.value];
        n := n + 1;
      }
      return false;
    }

    /** Joins the neighbours of `c` and drops its components, and with the last child those of `p`. */
    method UnlinkChild(p: Entity, c: Entity)
      requires c in links.next && c in links.prev && p in links.count && links.count[p] > 0
      modifies this`links
      ensures links == Unlink(old(links), p, c)
    {
      var next, prev := links.next[c], links.prev[c];
      var first, nexts, prevs := links.first, links.next, links.prev;
      if prev.Some? {
        nexts := nexts[prev.value := next];
      } else if next.Some? {
        first := first[p := next.value];
      }
      if next.Some? {
        prevs := prevs[next.value := prev];
      }
      if links.count[p] == 1 {
        links := Links(links.first - {p}, links.count - {p}, links.parent - {c}, nexts - {c}, prevs - {c});
      } else {
        links := Links(first, links.count[p := links.count[p] - 1], links.parent - {c}, nexts - {c}, prevs - {c});
      }
    }

    /** Deletes exactly `c`, or returns false and changes nothing. */
    method RemoveChildFromTopLevel(p: Entity, c: Entity) returns (removed: bool)
      requires Valid()
      modifies this`links, this`children
      ensures Valid() && (removed <==> c in ListOf(old(children), p))
      ensures removed ==> children == Removed(old(children), p, c)
      ensures !removed ==> links == old(links) && children == old(children)
    {
      removed := HasChildAtTopLevel(p, c);
      if removed {
        RemoveKeepsRepresentation(links, children, p, c);
        UnlinkChild(p, c);
        children := Removed(children, p, c);
      }
    }

    /** Drops the relationship components of one parent and of all its children. */
    method RemoveAllChildren(p: Entity)
      requires Valid() && p in links.first
      modifies this`links, this`children
      ensures Valid() && children == old(children) - {p}
    {
      var kids := ForeachTopLevelChild(p);
      DropKeepsRepresentation(links, children, p);
      ghost var was := links;
      for i := 0 to |kids|
        invariant links == Links(was.first, was.count, was.parent - Members(kids[..i]),
                                 was.next - Members(kids[..i]), was.prev - Members(kids[..i]))
        invariant children == old(children) && ents == old(ents)
      {
        var c := kids[i];
        assert Members(kids[..i + 1]) == Members(kids[..i]) + {c};
        links := Links(links.first, links.count, links.parent - {c}, links.next - {c}, links.prev - {c});
      }
      assert kids[..|kids|] == kids;
      links := Links(links.first - {p}, links.count - {p}, links.parent, links.next, links.prev);
      children := children - {p};
    }

    /** Empties the list of every entity in `view`. */
    method RemoveTopLevelChildrenFromView(view: set<Entity>)
      requires Valid()
      modifies this`links, this`children
      ensures Valid() && children == old(children) - view
    {
      var todo := view * links.first.Keys;
      while todo != {}
        invariant Valid() && todo == view * links.first.Keys
        invariant children == old(children) - (view - todo)
      {
        var p :| p in todo;
        ghost var before := children;
        RemoveAllChildren(p);
        assert children == before - {p};
        todo := todo - {p};
      }
      assert old(children) - view == children;
    }

    // -------------------------------------------------------------------------------------------
    // The systems of an update tick.

    method HandleAcceptResult(e: Entity)
      requires e in ents && AcceptPending(ents[e]) && Constructed(ents[e]) && AcceptReady(ents[e])
      modifies this`ents, this`acceptHandled
      ensures ents == old(ents)[e := HandleAccept(old(ents)[e])] && AcceptDecided(old(ents)[e], ents[e])
      ensures acceptHandled == old(acceptHandled) + 1
    {
      acceptHandled := acceptHandled + 1;
      var x := ents[e];
      var r := x.accept.value;
      if r.ec || r.needClose {
        x := x.(accept := Some(r.(socket := Closed(r.socket))));
        if !x.unused {
          x := x.(unused := true);
        }
      } else {
        x := x.(detector := Some(DetectChannel(r.socket, false)), accept := Some(r.(socket := None)));
        assert !x.detector.value.detected;
      }
      if !x.acceptUsed {
        x := x.(acceptUsed := true);
      }
      ents := ents[e := x];
    }

    /** System 1. */
    method UpdateNewConnections()
      requires forall e :: e in ents ==> AcceptReady(ents[e])
      modifies this`ents, this`acceptHandled
      ensures ents == MapEnts(old(ents), HandleAccept)
      ensures forall e :: e in AcceptView(old(ents)) ==> AcceptDecided(old(ents)[e], ents[e])
      ensures forall e :: e in old(ents) && e !in AcceptView(old(ents)) ==> ents[e] == old(ents)[e]
      ensures acceptHandled == old(acceptHandled) + |AcceptView(old(ents))|
    {
      var view := AcceptView(ents);
      var todo := view;
      SweepStarts(ents, HandleAccept, view);
      while todo != {}
        invariant todo <= view
        invariant Swept(old(ents), ents, HandleAccept, todo)
        invariant acceptHandled + |todo| == old(acceptHandled) + |view|
      {
        var e :| e in todo;
        SweepAdvances(old(ents), ents, HandleAccept, todo, e, HandleAccept(old(ents)[e]));
        HandleAcceptResult(e);
        todo := todo - {e};
      }
      SweepEnds(old(ents), ents, HandleAccept);
      AcceptsAreDecided(old(ents));
    }

    method HandleSSLDetectResult(e: Entity)
      requires e in ents && DetectPending(ents[e]) && Constructed(ents[e]) && DetectReady(ents[e])
      modifies this`ents, this`detectHandled
      ensures ents == old(ents)[e := HandleDetect(old(ents)[e])] && DetectDecided(old(ents)[e], ents[e])
      ensures detectHandled == old(detectHandled) + 1
    {
      detectHandled := detectHandled + 1;
      var x := ents[e];
      var r := x.detect.value;
      if r.needClose || r.ec {
        x := x.(detect := Some(r.(stream := Closed(r.stream))));
        if !x.unused {
          x := x.(unused := true);
        }
      } else {
        x := x.(http := Some(Http.Fresh(r.stream)), detect := Some(r.(stream := None)));
      }
      if !x.detectUsed {
        x := x.(detectUsed := true);
      }
      ents := ents[e := x];
    }

    /** System 2. */
    method UpdateSSLDetection()
      requires forall e :: e in ents ==> DetectReady(ents[e])
      modifies this`ents, this`detectHandled
      ensures ents == MapEnts(old(ents), HandleDetect)
      ensures forall e :: e in DetectView(old(ents)) ==> DetectDecided(old(ents)[e], ents[e])
      ensures forall e :: e in old(ents) && e !in DetectView(old(ents)) ==> ents[e] == old(ents)[e]
      ensures detectHandled == old(detectHandled) + |DetectView(old(ents))|
    {
      var view := DetectView(ents);
      var todo := view;
      SweepStarts(ents, HandleDetect, view);
      while todo != {}
        invariant todo <= view
        invariant Swept(old(ents), ents, HandleDetect, todo)
        invariant detectHandled + |todo| == old(detectHandled) + |view|
      {
        var e :| e in todo;
        SweepAdvances(old(ents), ents, HandleDetect, todo, e, HandleDetect(old(ents)[e]));
        HandleSSLDetectResult(e);
        todo := todo - {e};
      }
      SweepEnds(old(ents), ents, HandleDetect);
      DetectsAreDecided(old(ents));
    }

    /** Tags every child of `p`; no child may be tagged already. */
    method TagChildren(p: Entity)
      requires Valid() && p in children
      requires forall c :: c in children[p] ==> c in ents && !ents[c].doomed
      modifies this`ents
      ensures ents == WithDoomed(old(ents), Members(children[p]))
    {
      var kids := ForeachTopLevelChild(p);
      assert NoRepeats(kids) by {
        assert ListAt(links, p, children[p]);
      }
      for i := 0 to |kids|
        invariant ents == WithDoomed(old(ents), Members(kids[..i]))
      {
        var c := kids[i];
        assert c in old(ents) && c !in kids[..i];
        assert !ents[c].doomed;
        assert Members(kids[..i + 1]) == Members(kids[..i]) + {c};
        ents := ents[c := ents[c].(doomed := true)];
      }
      assert kids[..|kids|] == kids;
    }

    method TagChildrenOfAll(parents: set<Entity>)
      requires Valid() && parents <= children.Keys
      requires forall e :: e in ents ==> !ents[e].doomed
      requires forall c :: c in ChildrenOf(children, parents) ==> c in ents
      modifies this`ents
      ensures ents == WithDoomed(old(ents), ChildrenOf(children, parents))
    {
      RepresentedIsDistinct(links, children);
      var todo := parents;
      while todo != {}
        invariant todo <= parents
        invariant ents == WithDoomed(old(ents), ChildrenOf(children, parents - todo))
      {
        var p :| p in todo;
        forall c | c in children[p]
          ensures c in ents && !ents[c].doomed
        {
          assert c in ChildrenOf(children, parents);
          assert c !in ChildrenOf(children, parents - todo);
        }
        TagChildren(p);
        assert ChildrenOf(children, parents - (todo - {p}))
            == ChildrenOf(children, parents - todo) + Members(children[p]);
        todo := todo - {p};
      }
      assert parents - todo == parents;
    }

    method PromoteOne(e: Entity)
      requires e in ents && ents[e].doomed && !ents[e].dying
      modifies this`ents
      ensures ents == old(ents)[e := PromoteDoomed(old(ents)[e])]
    {
      var x := ents[e].(dying := true);
      ents := ents[e := x.(doomed := false)];
    }

    /** The internal tag becomes `NeedToDestroyTag`. */
    method PromoteTagged()
      requires forall e :: e in ents && ents[e].doomed ==> !ents[e].dying
      modifies this`ents
      ensures ents == MapEnts(old(ents), PromoteDoomed)
    {
      var view := set e | e in ents && ents[e].doomed;
      var todo := view;
      SweepStarts(ents, PromoteDoomed, view);
      while todo != {}
        invariant todo <= view
        invariant Swept(old(ents), ents, PromoteDoomed, todo)
      {
        var e :| e in todo;
        SweepAdvances(old(ents), ents, PromoteDoomed, todo, e, PromoteDoomed(old(ents)[e]));
        PromoteOne(e);
        todo := todo - {e};
      }
      SweepEnds(old(ents), ents, PromoteDoomed);
    }

    /** System 3, in its three phases. */
    method UpdateUnusedChildList()
      requires Valid() && ReclaimReady(View())
      modifies this`ents, this`links, this`children
      ensures Valid() && View() == ThreePhaseReclaim(old(View()))
    {
      var parents := set p | p in ents && p in links.first && ents[p].unused && Constructed(ents[p]);
      assert parents == Reclaimable(View());
      TagChildrenOfAll(parents);
      PromoteTagged();
      var view := set p | p in ents && ents[p].unused && Constructed(ents[p]);
      RemoveTopLevelChildrenFromView(view);
    }

    /** System 4. */
    method UpdateDelayedConstructionJustDone()
      requires forall e :: e in ents ==> ForgetReady(ents[e])
      modifies this`ents
      ensures ents == MapEnts(old(ents), ForgetJustDone)
    {
      var view := set e | e in ents && ents[e].justDone && !ents[e].dying;
      var todo := view;
      SweepStarts(ents, ForgetJustDone, view);
      while todo != {}
        invariant todo <= view
        invariant Swept(old(ents), ents, ForgetJustDone, todo)
      {
        var e :| e in todo;
        SweepAdvances(old(ents), ents, ForgetJustDone, todo, e, ForgetJustDone(old(ents)[e]));
        assert !ents[e].delayed && ents[e].justDone;
        ents := ents[e := ents[e].(justDone := false)];
        todo := todo - {e};
      }
      SweepEnds(old(ents), ents, ForgetJustDone);
    }

    method FinishOne(e: Entity)
      requires e in ents && ents[e].delayed && !ents[e].dying && FinishReady(ents[e])
      modifies this`ents
      ensures ents == old(ents)[e := FinishConstruction(old(ents)[e])]
    {
      var x := ents[e].(delayed := false);
      assert !x.delayed && !x.justDone;
      ents := ents[e := x.(justDone := true)];
    }

    /** System 5. */
    method UpdateDelayedConstruction()
      requires forall e :: e in ents ==> FinishReady(ents[e])
      modifies this`ents
      ensures ents == MapEnts(old(ents), FinishConstruction)
    {
      var view := set e | e in ents && ents[e].delayed && !ents[e].dying;
      var todo := view;
      SweepStarts(ents, FinishConstruction, view);
      while todo != {}
        invariant todo <= view
        invariant Swept(old(ents), ents, FinishConstruction, todo)
      {
        var e :| e in todo;
        SweepAdvances(old(ents), ents, FinishConstruction, todo, e, FinishConstruction(old(ents)[e]));
        FinishOne(e);
        todo := todo - {e};
      }
      SweepEnds(old(ents), ents, FinishConstruction);
    }

    /** System 6. */
    method UpdateUnusedSystem()
      modifies this`ents
      ensures ents == MapEnts(old(ents), DoomUnused)
    {
      var view := set e | e in ents && ents[e].unused && !ents[e].dying;
      var todo := view;
      SweepStarts(ents, DoomUnused, view);
      while todo != {}
        invariant todo <= view
        invariant Swept(old(ents), ents, DoomUnused, todo)
      {
        var e :| e in todo;
        SweepAdvances(old(ents), ents, DoomUnused, todo, e, DoomUnused(old(ents)[e]));
        assert !ents[e].dying;
        ents := ents[e := ents[e].(dying := true)];
        todo := todo - {e};
      }
      SweepEnds(old(ents), ents, DoomUnused);
    }

    /** System 7. Destroying an entity that is still linked would leave dangling list components. */
    method UpdateCleanupSystem()
      requires Valid()
      requires DyingDetached(ents, links)
      modifies this`ents, this`links, this`cleanedUp
      ensures Valid() && View() == Cleanup(old(View()))
      ensures cleanedUp - old(cleanedUp) == |DyingView(old(ents))| == |old(ents).Keys| - |ents.Keys|
    {
      var view := DyingView(ents);
      cleanedUp := cleanedUp + |view|;
      ents := map e | e in ents && !ents[e].dying :: ents[e];
      assert old(ents).Keys == view + ents.Keys;
      DetachedAreUnlinked(links, children, view);
      links := Links(links.first - view, links.count - view, links.parent - view, links.next - view, links.prev - view);
    }

    method UpdateResults()
      requires forall e :: e in ents ==> Settled(ents[e])
      modifies this`ents, this`acceptHandled, this`detectHandled
      ensures ents == AfterResults(old(ents))
    {
      forall e | e in ents
        ensures AcceptReady(ents[e]) && DetectReady(HandleAccept(ents[e]))
      {
        ResultsAreReady(ents[e]);
      }
      UpdateNewConnections();
      UpdateSSLDetection();
    }

    method UpdateTags()
      requires TagsReady(ents)
      modifies this`ents
      ensures ents == AfterTags(old(ents))
    {
      UpdateDelayedConstructionJustDone();
      UpdateDelayedConstruction();
      UpdateUnusedSystem();
    }

    /** One update tick: the seven systems in order. */
    method UpdateOnRegistryThread()
      requires Valid() && Consistent(View())
      modifies this`ents, this`links, this`children, this`acceptHandled, this`detectHandled, this`cleanedUp
      ensures Valid() && View() == Tick(old(View()))
    {
      ghost var handled, reclaimed, tagged := TickStages(View());
      UpdateResults();
      UpdateUnusedChildList();
      UpdateTags();
      UpdateCleanupSystem();
    }

    // -------------------------------------------------------------------------------------------
    // The other tasks of the registry sequence.

    /** The allocator: takes over an unused connection if there is one, else creates one. */
    method AllocateTcpEntity() returns (e: Entity, usedCache: bool)
      requires Valid()
      requires forall c :: c in Candidates(ents) ==> ReuseReady(ents[c]) && c !in children
      modifies this`ents, this`nextId
      ensures Valid() && View().children == old(View()).children
      ensures usedCache <==> exists c :: c in old(ents) && old(ents)[c].tcp && old(ents)[c].unused && !old(ents)[c].dying
      ensures usedCache ==> e in Candidates(old(ents)) && old(ents)[e].unused
      ensures usedCache ==> ents == old(ents)[e := Reuse(old(ents)[e])]
      ensures usedCache ==> ents[e] == old(ents)[e].(delayed := true, unused := false)
      ensures !usedCache ==> e == old(nextId) && ents == old(ents)[e := NEW_CONNECTION]
      ensures nextId == if usedCache then old(nextId) else old(nextId) + 1
    {
      var candidates := Candidates(ents);
      if candidates == {} {
        e, usedCache := nextId, false;
        nextId := nextId + 1;
        ents := ents[e := NEW_CONNECTION];
      } else {
        usedCache := true;
        e :| e in candidates;
        assert !ents[e].delayed && e !in links.first;
        assert ents[e].detect.Some? ==> ents[e].detectUsed;
        assert ents[e].accept.Some? ==> ents[e].acceptUsed;
        ents := ents[e := ents[e].(unused := false, delayed := true)];
      }
    }

    method ResetStrand(e: Entity)
      requires Valid() && e in ents && ents[e].tcp
      modifies this`ents
      ensures Valid() && ents == old(ents)[e := WithStrand(old(ents)[e])] && ents[e].strand
    {
      ents := ents[e := ents[e].(strand := true)];
    }

    method SetAcceptConnectionResult(e: Entity, ec: bool, socket: Socket)
      requires Valid() && e in ents && ents[e].tcp && ents[e].strand
      modifies this`ents
      ensures Valid() && ents == old(ents)[e := RecordAccept(old(ents)[e], ec, socket)]
      ensures AcceptPending(ents[e]) && ents[e].accept == Some(AcceptResult(ec, Some(socket), !socket.open))
    {
      var forceClosing := !socket.open;
      ents := ents[e := ents[e].(acceptUsed := false, accept := Some(AcceptResult(ec, Some(socket), forceClosing)))];
    }

    method SetSSLDetectResult(e: Entity, ec: bool, handshake: bool, stream: Option<Socket>, needClose: bool)
      requires Valid() && e in ents
      modifies this`ents
      ensures Valid() && ents == old(ents)[e := RecordDetect(old(ents)[e], ec, handshake, stream, needClose)]
      ensures DetectPending(ents[e]) && ents[e].detect == Some(DetectResult(ec, handshake, stream, needClose))
    {
      var result := DetectResult(ec, handshake, stream, needClose);
      ents := ents[e := ents[e].(detectUsed := false, detect := Some(result))];
    }

    method HandleWebsocketUpgrade(e: Entity, stream: Option<Socket>)
      requires Valid() && e in ents && ents[e].tcp && ents[e].http.Some?
      modifies this`ents
      ensures Valid() && ents == old(ents)[e := UpgradeToWs(old(ents)[e], stream)]
      ensures ents[e].ws == Some(Ws.Channel(stream, Ws.Accepting)) && ents[e].http.Some? && !ents[e].http.value.streamValid
    {
      var http := ents[e].http.value.(streamValid := false);
      ents := ents[e := ents[e].(ws := Some(Ws.Fresh(stream)), http := Some(http))];
    }

    /** A received message becomes an entity of its own, first in the list of its connection. */
    method AllocateReceivedData(p: Entity) returns (m: Entity)
      requires Valid() && p in ents
      requires forall c :: c in links.parent ==> c in ents
      modifies this`ents, this`nextId, this`links, this`children
      ensures Valid() && m == old(nextId) && nextId == old(nextId) + 1
      ensures View() == Registry(old(ents)[m := MESSAGE], Prepended(old(children), p, m))
    {
      m := nextId;
      nextId := nextId + 1;
      ents := ents[m := MESSAGE];
      PrependChildEntity(p, m);
    }

    /** Idempotent, and harmless once the entity is gone. */
    method MarkAsUnused(e: Entity)
      requires Valid()
      modifies this`ents
      ensures Valid() && ents == MarkUnused(old(ents), e)
      ensures e !in old(ents) || old(ents)[e].unused ==> ents == old(ents)
      ensures e in old(ents) ==> ents[e] == old(ents)[e].(unused := true)
    {
      if e !in ents {
        return;
      }
      if !ents[e].unused {
        ents := ents[e := ents[e].(unused := true)];
      } else {
        assert ents[e := ents[e]] == ents;
      }
    }
  }
}
