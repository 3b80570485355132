/** The intrusive, doubly linked list of children that relationship components spread over a parent
    and its children. */
module ChildLinks {
  import opened Wrappers
  import opened Entities

  /** `first` and `count` are components of a parent (`FirstChildInLinkedList`,
      `TopLevelChildrenCount`); `parent`, `next` and `prev` of a child (`ParentEntity`,
      `ChildSiblings`, where `None` stands for `NULL_ENTITY`). */
  datatype Links = Links(
    first: map<Entity, Entity>, count: map<Entity, nat>,
    parent: map<Entity, Entity>, next: map<Entity, Option<Entity>>, prev: map<Entity, Option<Entity>>)

  const NO_LINKS := Links(map[], map[], map[], map[], map[])

  function At(s: seq<Entity>, i: int): Option<Entity> {
    if 0 <= i < |s| then Some(s[i]) else None
  }

  function ListOf(children: Children, p: Entity): seq<Entity> {
    if p in children then children[p] else []
  }

  ghost predicate NodeAt(l: Links, p: Entity, list: seq<Entity>, i: int)
    requires 0 <= i < |list|
  {
    var c := list[i];
    && c in l.parent && c in l.next && c in l.prev
    && l.parent[c] == p && l.next[c] == At(list, i + 1) && l.prev[c] == At(list, i - 1)
  }

  ghost predicate ListAt(l: Links, p: Entity, list: seq<Entity>) {
    && list != [] && NoRepeats(list)
    && p in l.first && l.first[p] == list[0]
    && p in l.count && l.count[p] == |list|
    && forall i :: 0 <= i < |list| ==> NodeAt(l, p, list, i)
  }

  ghost predicate Claimed(l: Links, children: Children, c: Entity) {
    c in l.parent && l.parent[c] in children && c in children[l.parent[c]]
  }

  /** The components say exactly what `children` says, and nothing about anyone else. */
  ghost predicate Represents(l: Links, children: Children) {
    && l.first.Keys == l.count.Keys == children.Keys
    && l.parent.Keys == l.next.Keys == l.prev.Keys
    && (forall p :: p in children ==> ListAt(l, p, children[p]))
    && (forall c :: c in l.parent ==> Claimed(l, children, c))
  }

  /** Lists represented by the components do not share children. */
  lemma RepresentedIsDistinct(l: Links, children: Children)
    requires Represents(l, children)
    ensures Distinct(children)
  {
    forall p, q, c | p in children && q in children && c in children[p] && c in children[q]
      ensures p == q
    {
      var i :| 0 <= i < |children[p]| && children[p][i] == c;
      var j :| 0 <= j < |children[q]| && children[q][j] == c;
      assert ListAt(l, p, children[p]) && ListAt(l, q, children[q]);
      assert NodeAt(l, p, children[p], i) && NodeAt(l, q, children[q], j);
    }
    forall p | p in children
      ensures NoRepeats(children[p])
    {
      assert ListAt(l, p, children[p]);
    }
  }

  lemma {:induction false} SamePrefix(l: Links, p: Entity, s: seq<Entity>, t: seq<Entity>, n: nat)
    requires ListAt(l, p, s) && ListAt(l, p, t) && n <= |s|
    ensures n <= |t| && s[..n] == t[..n]
  {
    if n == 1 {
      assert s[..1] == [s[0]] && t[..1] == [t[0]];
    } else if n > 1 {
      SamePrefix(l, p, s, t, n - 1);
      assert NodeAt(l, p, s, n - 2) && NodeAt(l, p, t, n - 2);
      assert s[n - 2] == s[..n - 1][n - 2] && t[n - 2] == t[..n - 1][n - 2];
      assert s[..n] == s[..n - 1] + [s[n - 1]] && t[..n] == t[..n - 1] + [t[n - 1]];
    }
  }

  /** The components determine the lists. */
  lemma RepresentationIsUnique(l: Links, x: Children, y: Children)
    requires Represents(l, x) && Represents(l, y)
    ensures x == y
  {
    assert x.Keys == y.Keys;
    forall p | p in x
      ensures x[p] == y[p]
    {
      assert ListAt(l, p, x[p]) && ListAt(l, p, y[p]);
      SamePrefix(l, p, x[p], y[p], |x[p]|);
      SamePrefix(l, p, y[p], x[p], |y[p]|);
    }
  }

  ghost predicate SameNode(l: Links, m: Links, c: Entity) {
    && c in l.parent && c in m.parent && m.parent[c] == l.parent[c]
    && c in l.next && c in m.next && m.next[c] == l.next[c]
    && c in l.prev && c in m.prev && m.prev[c] == l.prev[c]
  }

  /** A list is still represented if its parent's components and those of its members are unchanged. */
  lemma ListUntouched(l: Links, m: Links, p: Entity, list: seq<Entity>)
    requires ListAt(l, p, list)
    requires p in m.first && m.first[p] == l.first[p] && p in m.count && m.count[p] == l.count[p]
    requires forall c :: c in list ==> SameNode(l, m, c)
    ensures ListAt(m, p, list)
  {
    forall i | 0 <= i < |list|
      ensures NodeAt(m, p, list, i)
    {
      assert NodeAt(l, p, list, i);
      assert SameNode(l, m, list[i]);
    }
  }

  // ---------------------------------------------------------------------------------------------
  // What the operations do to the lists and to the components.

  function Prepended(children: Children, p: Entity, c: Entity): Children {
    children[p := [c] + ListOf(children, p)]
  }

  function Without(s: seq<Entity>, c: Entity): seq<Entity> {
    if s == [] then [] else if s[0] == c then s[1..] else [s[0]] + Without(s[1..], c)
  }

  /** Deleting the last child deletes the parent's entry. */
  function Removed(children: Children, p: Entity, c: Entity): Children
    requires p in children
  {
    var rest := Without(children[p], c);
    if rest == [] then children - {p} else children[p := rest]
  }

  lemma {:induction false} WithoutDeletesOne(s: seq<Entity>, i: nat)
    requires NoRepeats(s) && i < |s|
    ensures Without(s, s[i]) == s[..i] + s[i + 1..]
  {
    if i > 0 {
      WithoutDeletesOne(s[1..], i - 1);
      assert s[1..][..i - 1] == s[1..i] && s[1..][i..] == s[i + 1..];
      assert [s[0]] + s[1..i] == s[..i];
    }
  }

  /** The components after linking `c` in front of the list of `p`. */
  function LinkInFront(l: Links, p: Entity, c: Entity): Links {
    var head := if p in l.first then Some(l.first[p]) else None;
    var prev := if head.Some? then l.prev[head.value := Some(c)] else l.prev;
    Links(l.first[p := c], l.count[p := 1 + if p in l.count then l.count[p] else 0],
          l.parent[c := p], l.next[c := head], prev[c := None])
  }

  lemma PrependLengthens(l: Links, p: Entity, list: seq<Entity>, c: Entity)
    requires if list == [] then p !in l.first && p !in l.count else ListAt(l, p, list)
    requires c !in l.parent
    ensures ListAt(LinkInFront(l, p, c), p, [c] + list)
  {
    var m, longer := LinkInFront(l, p, c), [c] + list;
    forall i | 0 <= i < |list|
      ensures list[i] != c
    {
      assert NodeAt(l, p, list, i);
    }
    forall i | 0 <= i < |longer|
      ensures NodeAt(m, p, longer, i)
    {
      if i > 0 {
        assert NodeAt(l, p, list, i - 1);
      }
    }
  }

  lemma PrependKeepsRepresentation(l: Links, children: Children, p: Entity, c: Entity)
    requires Represents(l, children) && c !in l.parent
    ensures Represents(LinkInFront(l, p, c), Prepended(children, p, c))
  {
    var m, after := LinkInFront(l, p, c), Prepended(children, p, c);
    var list := ListOf(children, p);
    PrependLengthens(l, p, list, c);
    if p in children {
      assert NodeAt(l, p, list, 0);
    }
    assert m.parent.Keys == m.next.Keys == m.prev.Keys;
    forall q | q in after && q != p
      ensures ListAt(m, q, after[q])
    {
      OthersAreElsewhere(l, children, p, q);
      ListUntouched(l, m, q, children[q]);
    }
    forall d | d in m.parent
      ensures Claimed(m, after, d)
    {
      if d != c {
        assert Claimed(l, children, d);
      }
    }
  }

  lemma MembersAreLinked(l: Links, children: Children, p: Entity)
    requires Represents(l, children) && p in children
    ensures forall c :: c in children[p] ==> c in l.parent && l.parent[c] == p
  {
    assert ListAt(l, p, children[p]);
    forall c | c in children[p]
      ensures c in l.parent && l.parent[c] == p
    {
      var i :| 0 <= i < |children[p]| && children[p][i] == c;
      assert NodeAt(l, p, children[p], i);
    }
  }

  /** The members of another parent's list are linked, and are not in `p`'s list. */
  lemma OthersAreElsewhere(l: Links, children: Children, p: Entity, q: Entity)
    requires Represents(l, children) && q in children && q != p
    ensures forall c :: c in children[q] ==> c in l.parent && l.parent[c] == q
    ensures p in children ==> forall c :: c in children[p] ==> c in l.parent && l.parent[c] == p
  {
    MembersAreLinked(l, children, q);
    if p in children {
      MembersAreLinked(l, children, p);
    }
  }

  /** The components after unlinking `c` from the list of `p`. */
  function Unlink(l: Links, p: Entity, c: Entity): Links
    requires c in l.next && c in l.prev && p in l.count && l.count[p] > 0
  {
    var next, prev := l.next[c], l.prev[c];
    var nexts := if prev.Some? then l.next[prev.value := next] else l.next;
    var prevs := if next.Some? then l.prev[next.value := prev] else l.prev;
    var firsts := if prev.None? && next.Some? then l.first[p := next.value] else l.first;
    if l.count[p] == 1 then
      Links(l.first - {p}, l.count - {p}, l.parent - {c}, nexts - {c}, prevs - {c})
    else
      Links(firsts, l.count[p := l.count[p] - 1], l.parent - {c}, nexts - {c}, prevs - {c})
  }

  lemma UnlinkShortens(l: Links, p: Entity, list: seq<Entity>, i: nat)
    requires ListAt(l, p, list) && i < |list| && |list| > 1
    ensures NodeAt(l, p, list, i)
    ensures ListAt(Unlink(l, p, list[i]), p, list[..i] + list[i + 1..])
  {
    var c := list[i];
    assert NodeAt(l, p, list, i);
    var m, rest := Unlink(l, p, c), list[..i] + list[i + 1..];
    forall j | 0 <= j < |rest|
      ensures NodeAt(m, p, rest, j)
    {
      var k := if j < i then j else j + 1;
      assert rest[j] == list[k] && NodeAt(l, p, list, k);
      assert At(rest, j + 1) == (if j + 1 < i then At(list, k + 1)
                                 else if j + 1 == i then At(list, i + 1)
                                 else At(list, k + 1));
      assert At(rest, j - 1) == (if j < i then At(list, k - 1)
                                 else if j == i then At(list, i - 1)
                                 else At(list, k - 1));
    }
    if i == 0 {
      assert rest[0] == list[1];
    }
  }

  lemma RemoveKeepsRepresentation(l: Links, children: Children, p: Entity, c: Entity)
    requires Represents(l, children) && p in children && c in children[p]
    ensures c in l.next && c in l.prev && p in l.count && l.count[p] > 0
    ensures Represents(Unlink(l, p, c), Removed(children, p, c))
  {
    var list := children[p];
    assert ListAt(l, p, list);
    var i :| 0 <= i < |list| && list[i] == c;
    assert NodeAt(l, p, list, i);
    NeighboursAreSiblings(l, p, list, i);
    WithoutDeletesOne(list, i);
    if |list| > 1 {
      UnlinkShortens(l, p, list, i);
    }
    UnlinkAt(l, children, p, i);
  }

  /** Unlinking touches the components of the child, its neighbours and its parent only. */
  lemma UnlinkTouchesOnlyTheList(l: Links, p: Entity, list: seq<Entity>, i: nat)
    requires ListAt(l, p, list) && i < |list|
    requires l.parent.Keys == l.next.Keys == l.prev.Keys && forall c :: c in list ==> c in l.parent
    ensures NodeAt(l, p, list, i)
    ensures var m := Unlink(l, p, list[i]);
            && m.parent.Keys == m.next.Keys == m.prev.Keys == l.parent.Keys - {list[i]}
            && (forall d :: d in l.parent && d !in list ==> SameNode(l, m, d))
            && (forall d :: d in m.parent ==> m.parent[d] == l.parent[d])
            && (forall q :: q != p ==> (q in m.first <==> q in l.first) && (q in m.count <==> q in l.count))
            && (forall q :: q != p && q in l.first ==> m.first[q] == l.first[q])
            && (forall q :: q != p && q in l.count ==> m.count[q] == l.count[q])
            && (|list| == 1 ==> p !in m.first && p !in m.count)
  {
    assert NodeAt(l, p, list, i);
    NeighboursAreSiblings(l, p, list, i);
  }

  lemma UnlinkAt(l: Links, children: Children, p: Entity, i: nat)
    requires Represents(l, children) && p in children && i < |children[p]| && NodeAt(l, p, children[p], i)
    requires var rest := children[p][..i] + children[p][i + 1..];
             Without(children[p], children[p][i]) == rest
             && (|children[p]| > 1 ==> ListAt(Unlink(l, p, children[p][i]), p, rest))
    ensures Represents(Unlink(l, p, children[p][i]), Removed(children, p, children[p][i]))
  {
    var list, c := children[p], children[p][i];
    assert ListAt(l, p, list);
    var m, after := Unlink(l, p, c), Removed(children, p, c);
    MembersAreLinked(l, children, p);
    UnlinkTouchesOnlyTheList(l, p, list, i);
    assert m.first.Keys == m.count.Keys == after.Keys;
    forall q | q in after && q != p
      ensures ListAt(m, q, after[q])
    {
      OthersAreElsewhere(l, children, p, q);
      forall d | d in children[q]
        ensures SameNode(l, m, d)
      {
        assert d !in list;
      }
      ListUntouched(l, m, q, children[q]);
    }
    forall d | d in m.parent
      ensures Claimed(m, after, d)
    {
      ClaimSurvives(l, m, children, p, i, d);
    }
  }

  lemma ClaimSurvives(l: Links, m: Links, children: Children, p: Entity, i: nat, d: Entity)
    requires p in children && i < |children[p]| && Claimed(l, children, d) && d != children[p][i]
    requires Without(children[p], children[p][i]) == children[p][..i] + children[p][i + 1..]
    requires d in m.parent && m.parent[d] == l.parent[d]
    ensures Claimed(m, Removed(children, p, children[p][i]), d)
  {
    var list := children[p];
    if l.parent[d] == p {
      var k :| 0 <= k < |list| && list[k] == d;
      assert |list| > 1 && d == (list[..i] + list[i + 1..])[if k < i then k else k - 1];
    }
  }

  lemma NeighboursAreSiblings(l: Links, p: Entity, list: seq<Entity>, i: nat)
    requires ListAt(l, p, list) && i < |list| && NodeAt(l, p, list, i)
    ensures l.next[list[i]].Some? ==> l.next[list[i]].value in list
    ensures l.prev[list[i]].Some? ==> l.prev[list[i]].value in list
  {
  }

  /** The components after dropping the whole list of `p`, whose members are `list`. */
  function DropList(l: Links, p: Entity, list: seq<Entity>): Links {
    var gone := Members(list);
    Links(l.first - {p}, l.count - {p}, l.parent - gone, l.next - gone, l.prev - gone)
  }

  lemma DropKeepsRepresentation(l: Links, children: Children, p: Entity)
    requires Represents(l, children) && p in children
    ensures Represents(DropList(l, p, children[p]), children - {p})
  {
    var m, after := DropList(l, p, children[p]), children - {p};
    forall q | q in after
      ensures ListAt(m, q, after[q])
    {
      OthersAreElsewhere(l, children, p, q);
      ListUntouched(l, m, q, children[q]);
    }
    forall d | d in m.parent
      ensures Claimed(m, after, d)
    {
      assert Claimed(l, children, d);
    }
  }
}
