/** Reachability in a finite directed graph given by its successor sets. */
module Paths {
  type Edges<T> = map<T, set<T>>

  /** p leads from a to b along edges. */
  ghost predicate IsPath<T>(edges: Edges<T>, a: T, b: T, p: seq<T>) {
    if p == [] then a == b
    else
      var last := p[|p| - 1];
      IsPath(edges, a, last, p[..|p| - 1]) && last in edges && b in edges[last]
  }

  ghost predicate Reaches<T(!new)>(edges: Edges<T>, a: T, b: T) {
    exists p :: IsPath(edges, a, b, p)
  }

  lemma ReachesItself<T(!new)>(edges: Edges<T>, a: T)
    ensures Reaches(edges, a, a)
  {
    assert IsPath(edges, a, a, []);
  }

  lemma ReachesFurther<T(!new)>(edges: Edges<T>, a: T, b: T, c: T)
    requires Reaches(edges, a, b) && b in edges && c in edges[b]
    ensures Reaches(edges, a, c)
  {
    var p :| IsPath(edges, a, b, p);
    assert (p + [b])[..|p|] == p;
    assert IsPath(edges, a, c, p + [b]);
  }

  lemma {:induction false} PathStaysIn<T(!new)>(edges: Edges<T>, S: set<T>, a: T, b: T, p: seq<T>)
    requires a in S && IsPath(edges, a, b, p)
    requires forall x, y :: x in S && x in edges && y in edges[x] ==> y in S
    ensures b in S
  {
    if p == [] {
    } else {
      PathStaysIn(edges, S, a, p[|p| - 1], p[..|p| - 1]);
    }
  }

  /** A set that is closed under successors holds whatever its members reach. */
  lemma ClosedHoldsReached<T(!new)>(edges: Edges<T>, S: set<T>, a: T, b: T)
    requires a in S && Reaches(edges, a, b)
    requires forall x, y :: x in S && x in edges && y in edges[x] ==> y in S
    ensures b in S
  {
    var p :| IsPath(edges, a, b, p);
    PathStaysIn(edges, S, a, b, p);
  }
}
