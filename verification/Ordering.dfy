/** The generator's passes over types: collecting the types below a type, and ordering
    structures and aliases by what they refer to. */
module Ordering {
  import opened Collections
  import opened Paths
  import opened Walks

  /** A type is known by its identity: two types of equal shape are different nodes. */
  type TypeId = nat

  datatype TypeNode =
    | Leaf
    | Reference(name: string)
    | ArrayType(element: TypeId)
    | MapType(key: TypeId, value: TypeId)
    | AndType(items: seq<TypeId>)
    | OrType(items: seq<TypeId>)
    | TupleType(items: seq<TypeId>)
  {
    /** The i-th type that this one is directly built from is u: an array is built from its element, a
        map from its key and then its value, the others from their items. */
    ghost predicate IsPart(i: nat, u: TypeId) {
      || (ArrayType? && i == 0 && element == u)
      || (MapType? && i == 0 && key == u)
      || (MapType? && i == 1 && value == u)
      || ((AndType? || OrType? || TupleType?) && i < |items| && items[i] == u)
    }

    /** The types this one is directly built from, in the order of its declaration. */
    function SubTypes(): (parts: seq<TypeId>)
      ensures forall i: nat, u :: i < |parts| && parts[i] == u <==> IsPart(i, u)
    {
      match this
      case Leaf => []
      case Reference(_) => []
      case ArrayType(element) => [element]
      case MapType(key, value) => [key, value]
      case AndType(items) => items
      case OrType(items) => items
      case TupleType(items) => items
    }

    ghost predicate Contains(u: TypeId) { exists i :: IsPart(i, u) }
  }

  type Types = map<TypeId, TypeNode>

  ghost predicate Closed(g: Types) {
    forall t, u :: t in g && g[t].Contains(u) ==> u in g
  }

  /** Which types are directly built from which. */
  ghost function PartEdges(g: Types): Edges<TypeId> {
    map t | t in g :: set u | u in g && g[t].Contains(u)
  }

  /** The same, in order. */
  ghost function PartLists(g: Types): Successors<TypeId> {
    map t | t in g :: g[t].SubTypes()
  }

  lemma ClosedEdges(g: Types, t: TypeId)
    requires Closed(g) && t in g
    ensures PartEdges(g)[t] == Elements(g[t].SubTypes()) && PartEdges(g)[t] <= g.Keys
  {
    var parts := g[t].SubTypes();
    forall u ensures u in parts <==> g[t].Contains(u) {
      if u in parts {
        var i: nat :| i < |parts| && parts[i] == u;
        assert g[t].IsPart(i, u);
      }
      if g[t].Contains(u) {
        var i: nat :| g[t].IsPart(i, u);
        assert parts[i] == u;
      }
    }
  }

  /** Midway: everything found is reachable from t0, and what a seen type contains is seen or
      waits on the stack. */
  ghost predicate Exploring(edges: Edges<TypeId>, t0: TypeId, waiting: set<TypeId>, seen: set<TypeId>) {
    && t0 in waiting + seen && waiting + seen <= edges.Keys
    && (forall u :: u in waiting + seen ==> Reaches(edges, t0, u))
    && (forall x :: x in seen ==> edges[x] <= waiting + seen)
  }

  lemma Explore(edges: Edges<TypeId>, t0: TypeId, waiting: set<TypeId>, t: TypeId, seen: set<TypeId>)
    requires Exploring(edges, t0, waiting + {t}, seen) && edges[t] <= edges.Keys
    ensures Exploring(edges, t0, waiting + edges[t], seen + {t})
  {
    forall u | u in edges[t] ensures Reaches(edges, t0, u) {
      ReachesFurther(edges, t0, t, u);
    }
  }

  lemma NothingExplored(g: Types, t0: TypeId)
    requires Closed(g) && t0 in g
    ensures Exploring(PartEdges(g), t0, Elements([t0]), {}) && Unique<TypeId>([]) && Elements<TypeId>([]) == {}
  {
    ReachesItself(PartEdges(g), t0);
  }

  lemma WaitingIsKnown(g: Types, t0: TypeId, rest: seq<TypeId>, t: TypeId, seen: set<TypeId>)
    requires Exploring(PartEdges(g), t0, Elements(rest + [t]), seen)
    ensures t in g && PartEdges(g).Keys == g.Keys
  {
    hide Reaches;
    assert t in Elements(rest + [t]);
  }

  lemma SeenMayGo(edges: Edges<TypeId>, t0: TypeId, waiting: set<TypeId>, t: TypeId, seen: set<TypeId>)
    requires Exploring(edges, t0, waiting + {t}, seen) && t in seen
    ensures Exploring(edges, t0, waiting, seen)
  {
    assert waiting + {t} + seen == waiting + seen;
  }

  lemma Explored(g: Types, t0: TypeId, seen: set<TypeId>, types: seq<TypeId>)
    requires Exploring(PartEdges(g), t0, Elements<TypeId>([]), seen) && Elements(types) == seen
    ensures forall u :: u in types <==> Reaches(PartEdges(g), t0, u)
    ensures forall u :: u in types ==> u in g
  {
    var edges := PartEdges(g);
    assert Elements<TypeId>([]) == {};
    forall u | Reaches(edges, t0, u) ensures u in seen {
      ClosedHoldsReached(edges, seen, t0, u);
    }
    assert forall u :: u in types <==> u in Elements(types);
  }

  /** The types t0 contains, itself included: exactly those reachable through SubTypes, each
      once, however the types share parts or lead back to themselves. */
  method RecursiveTypesOf(g: Types, t0: TypeId) returns (types: seq<TypeId>)
    requires Closed(g) && t0 in g
    ensures Unique(types)
    ensures forall u :: u in types <==> Reaches(PartEdges(g), t0, u)
    ensures forall u :: u in types ==> u in g
    ensures types == Preorder(PartLists(g), [t0], {})
  {
    hide Exploring, Reaches, PartEdges, Unique, Elements, Preorder;
    ghost var edges, parts := PartEdges(g), PartLists(g);
    var stack, seen: set<TypeId> := [t0], {};
    types := [];
    NothingExplored(g, t0);
    while stack != []
      invariant Exploring(edges, t0, Elements(stack), seen)
      invariant Unique(types) && Elements(types) == seen
      invariant types + Preorder(parts, stack, seen) == Preorder(parts, [t0], {})
      decreases |g.Keys - seen|, |stack|
    {
      var t, rest := stack[|stack| - 1], stack[..|stack| - 1];
      SplitLast(stack);
      Push(rest, t);
      stack := rest;
      if t !in seen {
        WaitingIsKnown(g, t0, rest, t, seen);
        ClosedEdges(g, t);
        Explore(edges, t0, Elements(rest), t, seen);
        Smaller(g.Keys - (seen + {t}), g.Keys - seen);
        ElementsOf(rest, g[t].SubTypes());
        Push(types, t);
        PreorderOnStack(parts, rest, t, seen);
        AssociateThree(types, [t], Preorder(parts, rest + g[t].SubTypes(), seen + {t}));
        seen := seen + {t};
        types := types + [t];
        stack := stack + g[t].SubTypes();
      } else {
        SeenMayGo(edges, t0, Elements(rest), t, seen);
        PreorderOld(parts, rest, t, seen);
      }
    }
    EmptyWalk(parts, seen);
    Explored(g, t0, seen, types);
  }

  // ---- Declarations with names ----

  /** A structure (its bases and the types of its properties) or an alias (one type). */
  datatype Declared = Declared(name: string, bases: seq<TypeId>, types: seq<TypeId>)

  ghost predicate InGraph(g: Types, d: Declared) {
    && (forall t :: t in d.bases ==> t in g)
    && (forall t :: t in d.types ==> t in g)
  }

  ghost predicate UniqueNames(ds: seq<Declared>) {
    forall i, j :: 0 <= i < j < |ds| ==> ds[i].name != ds[j].name
  }

  ghost function Names(ds: seq<Declared>): set<string> {
    set d | d in ds :: d.name
  }

  /** Type t is, or contains, a reference to `name`. */
  ghost predicate Mentions(g: Types, t: TypeId, name: string) {
    exists u :: Reaches(PartEdges(g), t, u) && u in g && g[u] == Reference(name)
  }

  /** The names among `names` that d refers to: as a base, or anywhere below its types. */
  ghost function Needs(g: Types, names: set<string>, d: Declared): set<string> {
    set n | n in names &&
      ((exists t :: t in d.bases && t in g && g[t] == Reference(n)) || exists t :: t in d.types && Mentions(g, t, n))
  }

  ghost function NameList(ds: seq<Declared>): (r: seq<string>)
    ensures |r| == |ds|
  {
    seq(|ds|, i requires 0 <= i < |ds| => ds[i].name)
  }

  lemma NameListPush(ds: seq<Declared>, d: Declared)
    ensures NameList(ds + [d]) == NameList(ds) + [d.name]
  {
  }

  lemma NameListConcat(a: seq<Declared>, b: seq<Declared>)
    ensures NameList(a + b) == NameList(a) + NameList(b)
  {
  }

  /** The names among `names` that the types refer to, in order. */
  ghost function NamesIn(g: Types, names: set<string>, ts: seq<TypeId>): seq<string> {
    if ts == [] then []
    else
      var t := ts[|ts| - 1];
      NamesIn(g, names, ts[..|ts| - 1]) +
      if t in g && g[t].Reference? && g[t].name in names then [g[t].name] else []
  }

  /** The names that are found below the types, one type after the other. */
  ghost function NamesBelow(g: Types, names: set<string>, ts: seq<TypeId>): seq<string> {
    if ts == [] then []
    else
      NamesBelow(g, names, ts[..|ts| - 1]) + NamesIn(g, names, Preorder(PartLists(g), [ts[|ts| - 1]], {}))
  }

  /** The names that d refers to, in the order they are found: its bases, then what is below its types. */
  ghost function NeedsInOrder(g: Types, names: set<string>, d: Declared): seq<string> {
    NamesIn(g, names, d.bases) + NamesBelow(g, names, d.types)
  }

  ghost function NeedLists(g: Types, table: map<string, Declared>): Successors<string> {
    map n | n in table :: NeedsInOrder(g, table.Keys, table[n])
  }

  lemma NamesInOneMore(g: Types, names: set<string>, ts: seq<TypeId>, i: nat)
    requires i < |ts| && ts[i] in g
    ensures NamesIn(g, names, ts[..i + 1]) ==
            NamesIn(g, names, ts[..i]) + if g[ts[i]].Reference? && g[ts[i]].name in names then [g[ts[i]].name] else []
  {
    assert ts[..i + 1][..i] == ts[..i];
  }

  lemma PushName(ds: seq<Declared>, d: Declared)
    ensures Names(ds + [d]) == Names(ds) + {d.name}
    ensures UniqueNames(ds) && d.name !in Names(ds) ==> UniqueNames(ds + [d])
  {
    forall x | x in ds ensures x.name in Names(ds) {}
    assert d in ds + [d];
    forall n | n in Names(ds) ensures n in Names(ds + [d]) {
      var x :| x in ds && x.name == n;
      assert x in ds + [d];
    }
  }

  lemma NamesConcat(a: seq<Declared>, b: seq<Declared>)
    ensures Names(a + b) == Names(a) + Names(b)
  {
    forall n | n in Names(a) + Names(b) ensures n in Names(a + b) {
      var x :| (x in a || x in b) && x.name == n;
      assert x in a + b;
    }
  }

  ghost predicate IsTable(ds: seq<Declared>, table: map<string, Declared>) {
    && (forall d :: d in ds ==> d.name in table && table[d.name] == d)
    && (forall n :: n in table ==> table[n] in ds && table[n].name == n)
  }

  /** The table from names to declarations. */
  method Tabulate(ds: seq<Declared>) returns (table: map<string, Declared>)
    requires UniqueNames(ds)
    ensures IsTable(ds, table)
  {
    table := map[];
    var i := 0;
    while i < |ds|
      invariant i <= |ds|
      invariant forall j :: 0 <= j < i ==> ds[j].name in table && table[ds[j].name] == ds[j]
      invariant forall n :: n in table ==> exists j :: 0 <= j < i && ds[j].name == n
    {
      table := table[ds[i].name := ds[i]];
      i := i + 1;
    }
  }

  ghost function TableOf(ds: seq<Declared>): (table: map<string, Declared>)
    requires UniqueNames(ds)
    ensures IsTable(ds, table)
  {
    map d | d in ds :: d.name := d
  }

  lemma OneTable(ds: seq<Declared>, a: map<string, Declared>, b: map<string, Declared>)
    requires IsTable(ds, a) && IsTable(ds, b)
    ensures a == b
  {
    forall n | n in a ensures n in b && a[n] == b[n] {
      assert a[n] in ds;
    }
    forall n | n in b ensures n in a {
      assert b[n] in ds;
    }
  }

  /** Lists of the same names, drawn from one table, hold the same elements equally often. */
  lemma SameNamesPermute(a: seq<Declared>, b: seq<Declared>, table: map<string, Declared>)
    requires UniqueNames(a) && UniqueNames(b) && Names(a) == Names(b)
    requires forall d :: d in a || d in b ==> d.name in table && table[d.name] == d
    ensures multiset(a) == multiset(b)
  {
    forall d ensures multiset(a)[d] == multiset(b)[d] {
      CountOfUnique(a, d);
      CountOfUnique(b, d);
      if d in a {
        assert d.name in Names(b);
      }
      if d in b {
        assert d.name in Names(a);
      }
    }
  }
}
