/** Depth-first walks over a graph given by ordered lists of successors. */
module Walks {
  import opened Collections

  type Successors<T> = map<T, seq<T>>

  lemma Unvisited<T>(succ: Successors<T>, seen: set<T>, t: T, more: set<T>)
    requires t in succ && t !in seen
    ensures |succ.Keys - (seen + {t} + more)| < |succ.Keys - seen|
  {
    Smaller(succ.Keys - (seen + {t} + more), succ.Keys - seen);
  }

  /** Parents first, from the last of the list to its first: each new node, then what is reached through
      it, before the walk goes on with the rest of the list. */
  ghost function Preorder<T>(succ: Successors<T>, list: seq<T>, seen: set<T>): seq<T>
    decreases |succ.Keys - seen|, |list|
  {
    if list == [] then []
    else
      var t, rest := list[|list| - 1], list[..|list| - 1];
      if t in seen || t !in succ then Preorder(succ, rest, seen)
      else
        Unvisited(succ, seen, t, {});
        var below := Preorder(succ, succ[t], seen + {t});
        Unvisited(succ, seen, t, Elements(below));
        [t] + below + Preorder(succ, rest, seen + {t} + Elements(below))
  }

  /** Children first, from the first of the list to its last: what is reached through each new node, then
      the node. */
  ghost function Postorder<T>(succ: Successors<T>, list: seq<T>, seen: set<T>): seq<T>
    decreases |succ.Keys - seen|, |list|
  {
    if list == [] then []
    else
      var t, rest := list[0], list[1..];
      if t in seen || t !in succ then Postorder(succ, rest, seen)
      else
        Unvisited(succ, seen, t, {});
        var below := Postorder(succ, succ[t], seen + {t});
        Unvisited(succ, seen, t, Elements(below));
        below + [t] + Postorder(succ, rest, seen + {t} + Elements(below))
  }

  lemma PreorderNew<T>(succ: Successors<T>, rest: seq<T>, t: T, seen: set<T>)
    requires t in succ && t !in seen
    ensures var below := Preorder(succ, succ[t], seen + {t});
            Preorder(succ, rest + [t], seen) == [t] + below + Preorder(succ, rest, seen + {t} + Elements(below))
  {
    assert (rest + [t])[..|rest|] == rest;
    Unvisited(succ, seen, t, {});
  }

  lemma PreorderOld<T>(succ: Successors<T>, rest: seq<T>, t: T, seen: set<T>)
    requires t in seen || t !in succ
    ensures Preorder(succ, rest + [t], seen) == Preorder(succ, rest, seen)
  {
    assert (rest + [t])[..|rest|] == rest;
  }

  lemma PostorderNew<T>(succ: Successors<T>, t: T, rest: seq<T>, seen: set<T>)
    requires t in succ && t !in seen
    ensures var below := Postorder(succ, succ[t], seen + {t});
            Postorder(succ, [t] + rest, seen) == below + [t] + Postorder(succ, rest, seen + {t} + Elements(below))
  {
    assert ([t] + rest)[1..] == rest;
    Unvisited(succ, seen, t, {});
  }

  lemma PostorderOld<T>(succ: Successors<T>, t: T, rest: seq<T>, seen: set<T>)
    requires t in seen || t !in succ
    ensures Postorder(succ, [t] + rest, seen) == Postorder(succ, rest, seen)
  {
    assert ([t] + rest)[1..] == rest;
  }

  lemma EmptyWalk<T>(succ: Successors<T>, seen: set<T>)
    ensures Preorder(succ, [], seen) == [] && Postorder(succ, [], seen) == []
  {
  }

  lemma NothingWalked<T>(succ: Successors<T>, list: seq<T>, seen: set<T>)
    ensures Preorder(succ, [], seen) == [] && Postorder(succ, [], seen) == []
    ensures seen + Elements<T>([]) == seen && list + [] == list && [] + list == list
  {
    hide Preorder, Postorder;
    EmptyWalk(succ, seen);
  }

  lemma SplitHead<T>(a: seq<T>, b: seq<T>)
    requires a != []
    ensures a == [a[0]] + a[1..] && a + b == [a[0]] + (a[1..] + b)
  {
  }

  lemma SeenParts<T>(seen: set<T>, a: seq<T>, b: seq<T>)
    ensures seen + Elements(a + b) == seen + Elements(a) + Elements(b)
  {
    ElementsOf(a, b);
  }

  lemma SeenNode<T>(seen: set<T>, below: seq<T>, t: T)
    ensures seen + Elements([t] + below) == seen + {t} + Elements(below)
    ensures seen + Elements(below + [t]) == seen + {t} + Elements(below)
  {
    ElementsOf([t], below);
    ElementsOf(below, [t]);
    assert Elements([t]) == {t};
  }

  lemma PreorderConcatNew<T>(succ: Successors<T>, a: seq<T>, rest: seq<T>, t: T, seen: set<T>)
    requires t in succ && t !in seen
    requires var after := seen + {t} + Elements(Preorder(succ, succ[t], seen + {t}));
             var first := Preorder(succ, rest, after);
             Preorder(succ, a + rest, after) == first + Preorder(succ, a, after + Elements(first))
    ensures var first := Preorder(succ, rest + [t], seen);
            Preorder(succ, a + rest + [t], seen) == first + Preorder(succ, a, seen + Elements(first))
  {
    hide Preorder, Elements;
    var below := Preorder(succ, succ[t], seen + {t});
    var first := Preorder(succ, rest, seen + {t} + Elements(below));
    PreorderNew(succ, rest, t, seen);
    PreorderNew(succ, a + rest, t, seen);
    SeenNode(seen, below, t);
    SeenParts(seen, [t] + below, first);
    AssociateThree([t] + below, first, Preorder(succ, a, seen + {t} + Elements(below) + Elements(first)));
  }

  lemma PostorderConcatNew<T>(succ: Successors<T>, t: T, rest: seq<T>, b: seq<T>, seen: set<T>)
    requires t in succ && t !in seen
    requires var after := seen + {t} + Elements(Postorder(succ, succ[t], seen + {t}));
             var first := Postorder(succ, rest, after);
             Postorder(succ, rest + b, after) == first + Postorder(succ, b, after + Elements(first))
    ensures var first := Postorder(succ, [t] + rest, seen);
            Postorder(succ, [t] + (rest + b), seen) == first + Postorder(succ, b, seen + Elements(first))
  {
    hide Postorder, Elements;
    var below := Postorder(succ, succ[t], seen + {t});
    var first := Postorder(succ, rest, seen + {t} + Elements(below));
    PostorderNew(succ, t, rest, seen);
    PostorderNew(succ, t, rest + b, seen);
    SeenNode(seen, below, t);
    SeenParts(seen, below + [t], first);
    AssociateThree(below + [t], first, Postorder(succ, b, seen + {t} + Elements(below) + Elements(first)));
  }

  /** A walk over two lists is a walk over the second, and then one over the first with what is left. */
  lemma {:induction false} PreorderConcat<T>(succ: Successors<T>, a: seq<T>, b: seq<T>, seen: set<T>)
    ensures var first := Preorder(succ, b, seen);
            Preorder(succ, a + b, seen) == first + Preorder(succ, a, seen + Elements(first))
    decreases |succ.Keys - seen|, |b|
  {
    hide Preorder, Elements;
    if b == [] {
      NothingWalked(succ, a, seen);
      NothingWalked(succ, Preorder(succ, a, seen), seen);
    } else {
      var t, rest := b[|b| - 1], b[..|b| - 1];
      SplitLast(b);
      AssociateThree(a, rest, [t]);
      if t in seen || t !in succ {
        PreorderOld(succ, rest, t, seen);
        PreorderOld(succ, a + rest, t, seen);
        PreorderConcat(succ, a, rest, seen);
      } else {
        var below := Preorder(succ, succ[t], seen + {t});
        Unvisited(succ, seen, t, Elements(below));
        PreorderConcat(succ, a, rest, seen + {t} + Elements(below));
        PreorderConcatNew(succ, a, rest, t, seen);
      }
    }
  }

  lemma {:induction false} PostorderConcat<T>(succ: Successors<T>, a: seq<T>, b: seq<T>, seen: set<T>)
    ensures var first := Postorder(succ, a, seen);
            Postorder(succ, a + b, seen) == first + Postorder(succ, b, seen + Elements(first))
    decreases |succ.Keys - seen|, |a|
  {
    hide Postorder, Elements;
    if a == [] {
      NothingWalked(succ, b, seen);
      NothingWalked(succ, Postorder(succ, b, seen), seen);
    } else {
      var t, rest := a[0], a[1..];
      SplitHead(a, b);
      if t in seen || t !in succ {
        PostorderOld(succ, t, rest, seen);
        PostorderOld(succ, t, rest + b, seen);
        PostorderConcat(succ, rest, b, seen);
      } else {
        var below := Postorder(succ, succ[t], seen + {t});
        Unvisited(succ, seen, t, Elements(below));
        PostorderConcat(succ, rest, b, seen + {t} + Elements(below));
        PostorderConcatNew(succ, t, rest, b, seen);
      }
    }
  }

  /** A stack that a new node leaves, and its successors enter, holds the rest of the same walk. */
  lemma PreorderOnStack<T>(succ: Successors<T>, rest: seq<T>, t: T, seen: set<T>)
    requires t in succ && t !in seen
    ensures Preorder(succ, rest + [t], seen) == [t] + Preorder(succ, rest + succ[t], seen + {t})
  {
    hide Preorder;
    PreorderNew(succ, rest, t, seen);
    PreorderConcat(succ, rest, succ[t], seen + {t});
  }
}
