/** The order in which `std::map<std::string, ...>` keeps and visits its keys. */
module NameOrder {
  import opened Wrappers

  /** `a` comes strictly before `b`, as `std::less<std::string>` decides. */
  predicate Before(a: string, b: string) {
    b != [] && (a == [] || a[0] < b[0] || (a[0] == b[0] && Before(a[1..], b[1..])))
  }

  predicate AtMost(a: string, b: string) {
    a == b || Before(a, b)
  }

  lemma {:induction false} BeforeIsTotal(a: string, b: string)
    ensures a == b || Before(a, b) || Before(b, a)
  {
    if a != [] && b != [] && a[0] == b[0] {
      BeforeIsTotal(a[1..], b[1..]);
      assert a == [a[0]] + a[1..] && b == [b[0]] + b[1..];
    }
  }

  lemma {:induction false} BeforeIsIrreflexive(a: string)
    ensures !Before(a, a)
  {
    if a != [] {
      BeforeIsIrreflexive(a[1..]);
    }
  }

  lemma {:induction false} BeforeIsTransitive(a: string, b: string, c: string)
    requires Before(a, b) && Before(b, c)
    ensures Before(a, c)
  {
    if a != [] && a[0] == b[0] && b[0] == c[0] {
      BeforeIsTransitive(a[1..], b[1..], c[1..]);
    }
  }

  ghost predicate IsLeast(k: string, keys: set<string>) {
    k in keys && forall j :: j in keys ==> AtMost(k, j)
  }

  lemma {:induction false} LeastExists(keys: set<string>) returns (k: string)
    requires keys != {}
    ensures IsLeast(k, keys)
    decreases keys
  {
    var first :| first in keys;
    var rest := keys - {first};
    assert keys == rest + {first};
    k := first;
    if rest != {} {
      var l := LeastExists(rest);
      BeforeIsTotal(first, l);
      k := if Before(l, first) then l else first;
      forall j | j in keys
        ensures AtMost(k, j)
      {
        if j != first {
          assert j in rest && AtMost(l, j);
          if k == first && first != l && l != j {
            BeforeIsTransitive(first, l, j);
          }
        }
      }
    }
  }

  /** The keys a map iterator standing on `cur` has still to visit. */
  function Later(keys: set<string>, cur: Option<string>): set<string> {
    set k | k in keys && (cur.None? || Before(cur.value, k))
  }

  /** `++it` (or `begin()` when `cur` is `None`): the least key still to visit. */
  method NextKey(keys: set<string>, cur: Option<string>) returns (k: string)
    requires Later(keys, cur) != {}
    ensures IsLeast(k, Later(keys, cur))
  {
    var later := Later(keys, cur);
    ghost var least := LeastExists(later);
    k :| k in later && forall j :: j in later ==> AtMost(k, j);
  }

  /** Advancing past the least later key leaves exactly the other later keys. */
  lemma AdvanceSkipsNothing(keys: set<string>, cur: Option<string>, k: string)
    requires IsLeast(k, Later(keys, cur))
    ensures Later(keys, Some(k)) == Later(keys, cur) - {k}
  {
    BeforeIsIrreflexive(k);
    forall j
      ensures j in Later(keys, Some(k)) <==> j in Later(keys, cur) - {k}
    {
      if j in Later(keys, Some(k)) && cur.Some? {
        BeforeIsTransitive(cur.value, k, j);
      }
    }
  }

  ghost predicate Ascending(s: seq<string>) {
    forall i, j :: 0 <= i < j < |s| ==> Before(s[i], s[j])
  }

  /** All keys in the order a range-for over the map visits them. */
  method KeysInOrder(keys: set<string>) returns (s: seq<string>)
    ensures Ascending(s)
    ensures forall k :: k in s <==> k in keys
  {
    s := [];
    var cur: Option<string> := None;
    while Later(keys, cur) != {}
      invariant Ascending(s)
      invariant forall k :: k in s <==> k in keys && k !in Later(keys, cur)
      invariant cur.Some? ==> forall k :: k in s ==> AtMost(k, cur.value)
      decreases Later(keys, cur)
    {
      var k := NextKey(keys, cur);
      AdvanceSkipsNothing(keys, cur, k);
      forall j | j in s
        ensures Before(j, k)
      {
        if j != cur.value {
          BeforeIsTransitive(j, cur.value, k);
        }
      }
      s := s + [k];
      cur := Some(k);
    }
  }
}
