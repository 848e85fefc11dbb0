/** The depth-first ordering of structures, on a graph that may have cycles. */
module StructureOrder {
  import opened Paths
  import opened Walks
  import opened Collections
  import opened Ordering

  /** Who needs whom, by name. */
  ghost function NeedEdges(g: Types, table: map<string, Declared>): Edges<string> {
    map n | n in table :: Needs(g, table.Keys, table[n])
  }

  /** A type graph and the structures declared over it. */
  datatype Schema = Schema(g: Types, table: map<string, Declared>) {
    ghost predicate Ok() {
      Closed(g) && forall n :: n in table ==> table[n].name == n && InGraph(g, table[n])
    }

    ghost function Graph(): Edges<string> { NeedEdges(g, table) }

    ghost function Lists(): Successors<string> { NeedLists(g, table) }
  }

  type OkSchema = s: Schema | s.Ok() ghost witness Schema(map[], map[])

  /** Whatever an element needs comes before it, unless the two form a cycle. */
  ghost predicate NeededFirst(edges: Edges<string>, ds: seq<Declared>) {
    forall i, n :: 0 <= i < |ds| && ds[i].name in edges && n in edges[ds[i].name] ==>
      n in Names(ds[..i]) || Reaches(edges, n, ds[i].name)
  }

  /** ds lists different structures of the schema, and each was placed after all it needs. */
  ghost predicate Placed(s: Schema, ds: seq<Declared>) {
    ds == [] ||
    (var before, d := ds[..|ds| - 1], ds[|ds| - 1];
     && Placed(s, before)
     && d.name in s.table && s.table[d.name] == d && d.name !in Names(before)
     && forall n :: n in s.Graph()[d.name] ==> n in Names(before) || Reaches(s.Graph(), n, d.name))
  }

  lemma NeededFirstOneMore(edges: Edges<string>, before: seq<Declared>, d: Declared)
    requires NeededFirst(edges, before)
    requires d.name in edges ==> forall n :: n in edges[d.name] ==> n in Names(before) || Reaches(edges, n, d.name)
    ensures NeededFirst(edges, before + [d])
  {
    hide Names, Reaches;
    var ds := before + [d];
    forall i, n | 0 <= i < |ds| && ds[i].name in edges && n in edges[ds[i].name]
      ensures n in Names(ds[..i]) || Reaches(edges, n, ds[i].name)
    {
      assert ds[..i] == before[..i];
      assert before[..|before|] == before;
    }
  }

  lemma NothingIsPlaced(s: Schema)
    ensures UniqueNames([]) && NeededFirst(s.Graph(), [])
  {
  }

  lemma {:induction false} PlacedIs(s: Schema, ds: seq<Declared>)
    requires Placed(s, ds)
    ensures UniqueNames(ds) && NeededFirst(s.Graph(), ds)
    ensures forall d :: d in ds ==> d.name in s.table && s.table[d.name] == d
  {
    hide Schema.Graph, Reaches, Names, UniqueNames, NeededFirst;
    if ds == [] {
      NothingIsPlaced(s);
    } else {
      var before, d := ds[..|ds| - 1], ds[|ds| - 1];
      PlacedIs(s, before);
      SplitLast(ds);
      PushName(before, d);
      NeededFirstOneMore(s.Graph(), before, d);
    }
  }

  // The closure `visit` captures two variables: the names seen and the list sorted so far.
  // Each method below takes and returns their values.
  /** Structures whose visit has begun and not ended. */
  ghost function Open(seen: set<string>, sorted: seq<Declared>): set<string> { seen - Names(sorted) }

  ghost predicate Progress(schema: OkSchema, seen: set<string>, sorted: seq<Declared>) {
    Names(sorted) <= seen <= schema.table.Keys && Placed(schema, sorted)
  }

  ghost predicate Declares(schema: Schema, s: Declared) {
    s.name in schema.table && schema.table[s.name] == s
  }

  /** The visit of a structure may start while others are open, if all of those reach it. */
  ghost predicate AllReach(schema: Schema, open: set<string>, name: string) {
    forall n :: n in open ==> Reaches(schema.Graph(), n, name)
  }

  /** If t refers to a structure, that structure has been seen. */
  ghost predicate Visited(schema: Schema, seen: set<string>, t: TypeId) {
    t in schema.g && schema.g[t].Reference? && schema.g[t].name in schema.table ==> schema.g[t].name in seen
  }

  ghost predicate ContentsVisited(schema: Schema, seen: set<string>, t: TypeId) {
    forall u :: Reaches(PartEdges(schema.g), t, u) ==> Visited(schema, seen, u)
  }

  /** What was visited stays visited. */
  lemma OneMoreVisited(schema: Schema, before: set<string>, after: set<string>, ts: seq<TypeId>, i: nat)
    requires before <= after && i < |ts| && Visited(schema, after, ts[i])
    requires forall j :: 0 <= j < i ==> Visited(schema, before, ts[j])
    ensures forall j :: 0 <= j < i + 1 ==> Visited(schema, after, ts[j])
  {
  }

  lemma StillVisited(schema: Schema, before: set<string>, after: set<string>, t: TypeId)
    requires before <= after && ContentsVisited(schema, before, t)
    ensures ContentsVisited(schema, after, t)
  {
  }

  /** Beginning the visit of s opens s, which reaches itself. */
  lemma Begin(schema: OkSchema, s: Declared, seen: set<string>, sorted: seq<Declared>)
    requires Progress(schema, seen, sorted) && Declares(schema, s) && s.name !in seen
    requires AllReach(schema, Open(seen, sorted), s.name)
    ensures Progress(schema, seen + {s.name}, sorted)
    ensures Open(seen + {s.name}, sorted) == Open(seen, sorted) + {s.name}
    ensures AllReach(schema, Open(seen + {s.name}, sorted), s.name)
    ensures |schema.table.Keys - (seen + {s.name})| < |schema.table.Keys - seen|
  {
    hide Schema.Graph, Reaches, Placed;
    ReachesItself(schema.Graph(), s.name);
    Smaller(schema.table.Keys - (seen + {s.name}), schema.table.Keys - seen);
  }

  /** Ending the visit of s places s. */
  lemma End(schema: OkSchema, s: Declared, open: set<string>, seen: set<string>, sorted: seq<Declared>)
    requires Progress(schema, seen, sorted) && Declares(schema, s) && s.name !in open
    requires Open(seen, sorted) == open + {s.name}
    requires forall n :: n in schema.Graph()[s.name] ==> n in Names(sorted) || Reaches(schema.Graph(), n, s.name)
    ensures Progress(schema, seen, sorted + [s]) && Open(seen, sorted + [s]) == open
  {
    var ds := sorted + [s];
    assert ds[..|ds| - 1] == sorted;
    PushName(sorted, s);
    assert s.name in Open(seen, sorted);
  }

  lemma NeededSeen(schema: OkSchema, s: Declared, before: set<string>, seen: set<string>, n: string)
    requires Declares(schema, s) && before <= seen && n in schema.Graph()[s.name]
    requires forall j :: 0 <= j < |s.bases| ==> Visited(schema, before, s.bases[j])
    requires forall j :: 0 <= j < |s.types| ==> ContentsVisited(schema, seen, s.types[j])
    ensures n in seen
  {
    if t :| t in s.bases && t in schema.g && schema.g[t] == Reference(n) {
      assert Visited(schema, before, t);
    } else {
      var t :| t in s.types && Mentions(schema.g, t, n);
      var u :| Reaches(PartEdges(schema.g), t, u) && u in schema.g && schema.g[u] == Reference(n);
      assert Visited(schema, seen, u);
    }
  }

  lemma AllNeededSeen(schema: OkSchema, s: Declared, before: set<string>, seen: set<string>, sorted: seq<Declared>)
    requires Declares(schema, s) && AllReach(schema, Open(seen, sorted), s.name) && before <= seen
    requires forall j :: 0 <= j < |s.bases| ==> Visited(schema, before, s.bases[j])
    requires forall j :: 0 <= j < |s.types| ==> ContentsVisited(schema, seen, s.types[j])
    ensures forall n :: n in schema.Graph()[s.name] ==> n in Names(sorted) || Reaches(schema.Graph(), n, s.name)
  {
    hide Visited, ContentsVisited, Reaches, Mentions;
    forall n | n in schema.Graph()[s.name] ensures n in Names(sorted) || Reaches(schema.Graph(), n, s.name) {
      NeededSeen(schema, s, before, seen, n);
    }
  }

  // ---- The order of the visits ----

  /** From one state of the closure to the other, the walk over `list` was made. */
  ghost predicate Walked(lists: Successors<string>, list: seq<string>, seen0: set<string>, sorted0: seq<Declared>,
                         seen: set<string>, sorted: seq<Declared>)
  {
    var walk := Postorder(lists, list, seen0);
    NameList(sorted) == NameList(sorted0) + walk && seen == seen0 + Elements(walk)
  }

  lemma WalkedNothing(lists: Successors<string>, seen: set<string>, sorted: seq<Declared>)
    ensures Walked(lists, [], seen, sorted, seen, sorted)
  {
    hide Postorder, NameList;
    NothingWalked(lists, NameList(sorted), seen);
  }

  lemma WalkedOn(lists: Successors<string>, a: seq<string>, b: seq<string>, seen0: set<string>, sorted0: seq<Declared>,
                 seen1: set<string>, sorted1: seq<Declared>, seen: set<string>, sorted: seq<Declared>)
    requires Walked(lists, a, seen0, sorted0, seen1, sorted1) && Walked(lists, b, seen1, sorted1, seen, sorted)
    ensures Walked(lists, a + b, seen0, sorted0, seen, sorted)
  {
    hide Postorder, NameList, Elements;
    var first, second := Postorder(lists, a, seen0), Postorder(lists, b, seen1);
    PostorderConcat(lists, a, b, seen0);
    AssociateThree(NameList(sorted0), first, second);
    SeenParts(seen0, first, second);
  }

  lemma WalkedOld(lists: Successors<string>, name: string, seen: set<string>, sorted: seq<Declared>)
    requires name in seen
    ensures Walked(lists, [name], seen, sorted, seen, sorted)
  {
    hide Postorder, NameList, Elements;
    NothingWalked(lists, [name], seen);
    NothingWalked(lists, NameList(sorted), seen);
    PostorderOld(lists, name, [], seen);
  }

  lemma WalkedNew(lists: Successors<string>, s: Declared, seen0: set<string>, sorted0: seq<Declared>,
                  seen: set<string>, sorted: seq<Declared>)
    requires s.name in lists && s.name !in seen0
    requires Walked(lists, lists[s.name], seen0 + {s.name}, sorted0, seen, sorted)
    ensures Walked(lists, [s.name], seen0, sorted0, seen, sorted + [s])
  {
    hide Postorder, NameList, Elements;
    var below := Postorder(lists, lists[s.name], seen0 + {s.name});
    NothingWalked(lists, [s.name], seen0 + {s.name} + Elements(below));
    NothingWalked(lists, below + [s.name], seen0);
    PostorderNew(lists, s.name, [], seen0);
    NameListPush(sorted, s);
    AssociateThree(NameList(sorted0), below, [s.name]);
    SeenNode(seen0, below, s.name);
  }

  /** What is visited because of one type. */
  lemma NamesOfOne(g: Types, names: set<string>, ts: seq<TypeId>, i: nat)
    requires i < |ts|
    ensures NamesIn(g, names, ts[..i + 1]) == NamesIn(g, names, ts[..i]) + NamesIn(g, names, [ts[i]])
    ensures NamesBelow(g, names, ts[..i + 1]) ==
            NamesBelow(g, names, ts[..i]) + NamesIn(g, names, Preorder(PartLists(g), [ts[i]], {}))
  {
    hide Preorder;
    assert ts[..i + 1][..i] == ts[..i] && [ts[i]][..0] == [];
  }

  /** The walks over the bases and over the properties make up the visit. */
  lemma AllWalked(schema: OkSchema, s: Declared, seen0: set<string>, sorted0: seq<Declared>, seen1: set<string>,
                  sorted1: seq<Declared>, seen: set<string>, sorted: seq<Declared>)
    requires Declares(schema, s) && s.name !in seen0
    requires Walked(schema.Lists(), NamesIn(schema.g, schema.table.Keys, s.bases), seen0 + {s.name}, sorted0, seen1,
                    sorted1)
    requires Walked(schema.Lists(), NamesBelow(schema.g, schema.table.Keys, s.types), seen1, sorted1, seen, sorted)
    ensures Walked(schema.Lists(), [s.name], seen0, sorted0, seen, sorted + [s])
  {
    hide Walked, NamesIn, NamesBelow;
    WalkedOn(schema.Lists(), NamesIn(schema.g, schema.table.Keys, s.bases),
             NamesBelow(schema.g, schema.table.Keys, s.types), seen0 + {s.name}, sorted0, seen1, sorted1, seen, sorted);
    WalkedNew(schema.Lists(), s, seen0, sorted0, seen, sorted);
  }

  lemma NoNames(g: Types, names: set<string>, ts: seq<TypeId>)
    ensures NamesIn(g, names, ts[..0]) == [] && NamesBelow(g, names, ts[..0]) == []
  {
    hide Preorder;
  }

  lemma NameOfReference(g: Types, names: set<string>, t: TypeId)
    requires t in g
    ensures NamesIn(g, names, [t]) == if g[t].Reference? && g[t].name in names then [g[t].name] else []
  {
    assert [t][..0] == [];
  }

  method Visit(schema: OkSchema, s: Declared, seen0: set<string>, sorted0: seq<Declared>)
    returns (seen: set<string>, sorted: seq<Declared>)
    requires Progress(schema, seen0, sorted0) && Declares(schema, s)
    requires AllReach(schema, Open(seen0, sorted0), s.name)
    ensures Progress(schema, seen, sorted) && seen0 + {s.name} <= seen
    ensures Open(seen, sorted) == Open(seen0, sorted0)
    ensures Walked(schema.Lists(), [s.name], seen0, sorted0, seen, sorted)
    decreases |schema.table.Keys - seen0|, 0
  {
    hide Walked, Progress, AllReach, Visited, ContentsVisited, NamesIn, NamesBelow, Reaches;
    seen, sorted := seen0, sorted0;
    if s.name in seen {
      WalkedOld(schema.Lists(), s.name, seen, sorted);
      return;
    }
    Begin(schema, s, seen, sorted);
    seen := seen + {s.name};
    seen, sorted := VisitBases(schema, s, seen, sorted);
    ghost var visited, before := seen, sorted;
    NotLarger(schema.table.Keys - seen, schema.table.Keys - (seen0 + {s.name}));
    seen, sorted := VisitTypes(schema, s, seen, sorted);
    AllNeededSeen(schema, s, visited, seen, sorted);
    End(schema, s, Open(seen0, sorted0), seen, sorted);
    AllWalked(schema, s, seen0, sorted0, visited, before, seen, sorted);
    sorted := sorted + [s];
  }

  lemma BaseNeeded(schema: OkSchema, s: Declared, t: TypeId)
    requires s.name in schema.table && schema.table[s.name] == s && t in s.bases
    ensures t in schema.g && s.name in schema.Graph()
    ensures schema.g[t].Reference? && schema.g[t].name in schema.table ==>
              schema.g[t].name in schema.Graph()[s.name]
  {
  }

  /** The loop over the extended structures. */
  method VisitBases(schema: OkSchema, s: Declared, seen0: set<string>, sorted0: seq<Declared>)
    returns (seen: set<string>, sorted: seq<Declared>)
    requires Progress(schema, seen0, sorted0) && Declares(schema, s)
    requires AllReach(schema, Open(seen0, sorted0), s.name)
    ensures Progress(schema, seen, sorted) && seen0 <= seen
    ensures Open(seen, sorted) == Open(seen0, sorted0)
    ensures forall j :: 0 <= j < |s.bases| ==> Visited(schema, seen, s.bases[j])
    ensures Walked(schema.Lists(), NamesIn(schema.g, schema.table.Keys, s.bases), seen0, sorted0, seen, sorted)
    decreases |schema.table.Keys - seen0|, 2
  {
    hide Progress, Open, AllReach, Visited, Walked, NamesIn, Schema.Graph, Schema.Lists;
    seen, sorted := seen0, sorted0;
    ghost var lists, names := schema.Lists(), schema.table.Keys;
    NoNames(schema.g, names, s.bases);
    WalkedNothing(lists, seen, sorted);
    var i := 0;
    while i < |s.bases|
      invariant i <= |s.bases| && Progress(schema, seen, sorted) && seen0 <= seen
      invariant Open(seen, sorted) == Open(seen0, sorted0)
      invariant forall j :: 0 <= j < i ==> Visited(schema, seen, s.bases[j])
      invariant Walked(lists, NamesIn(schema.g, names, s.bases[..i]), seen0, sorted0, seen, sorted)
    {
      BaseNeeded(schema, s, s.bases[i]);
      NotLarger(schema.table.Keys - seen, schema.table.Keys - seen0);
      ghost var before, sortedBefore := seen, sorted;
      seen, sorted := VisitReference(schema, s.bases[i], s, seen, sorted);
      OneMoreVisited(schema, before, seen, s.bases, i);
      NamesOfOne(schema.g, names, s.bases, i);
      WalkedOn(lists, NamesIn(schema.g, names, s.bases[..i]), NamesIn(schema.g, names, [s.bases[i]]),
               seen0, sorted0, before, sortedBefore, seen, sorted);
      i := i + 1;
    }
    assert s.bases[..i] == s.bases;
  }

  /** The loop over the properties. */
  method VisitTypes(schema: OkSchema, s: Declared, seen0: set<string>, sorted0: seq<Declared>)
    returns (seen: set<string>, sorted: seq<Declared>)
    requires Progress(schema, seen0, sorted0) && Declares(schema, s)
    requires AllReach(schema, Open(seen0, sorted0), s.name)
    ensures Progress(schema, seen, sorted) && seen0 <= seen
    ensures Open(seen, sorted) == Open(seen0, sorted0)
    ensures forall j :: 0 <= j < |s.types| ==> ContentsVisited(schema, seen, s.types[j])
    ensures Walked(schema.Lists(), NamesBelow(schema.g, schema.table.Keys, s.types), seen0, sorted0, seen, sorted)
    decreases |schema.table.Keys - seen0|, 3
  {
    hide Progress, Open, AllReach, ContentsVisited, Walked, NamesIn, NamesBelow, Preorder;
    seen, sorted := seen0, sorted0;
    ghost var lists, names := schema.Lists(), schema.table.Keys;
    NoNames(schema.g, names, s.types);
    WalkedNothing(lists, seen, sorted);
    var i := 0;
    while i < |s.types|
      invariant i <= |s.types| && Progress(schema, seen, sorted) && seen0 <= seen
      invariant Open(seen, sorted) == Open(seen0, sorted0)
      invariant forall j :: 0 <= j < i ==> ContentsVisited(schema, seen, s.types[j])
      invariant Walked(lists, NamesBelow(schema.g, names, s.types[..i]), seen0, sorted0, seen, sorted)
    {
      ghost var before, sortedBefore := seen, sorted;
      NotLarger(schema.table.Keys - seen, schema.table.Keys - seen0);
      seen, sorted := VisitContents(schema, s.types[i], s, seen, sorted);
      forall j | 0 <= j < i ensures ContentsVisited(schema, seen, s.types[j]) {
        StillVisited(schema, before, seen, s.types[j]);
      }
      NamesOfOne(schema.g, names, s.types, i);
      WalkedOn(lists, NamesBelow(schema.g, names, s.types[..i]),
               NamesIn(schema.g, names, Preorder(PartLists(schema.g), [s.types[i]], {})),
               seen0, sorted0, before, sortedBefore, seen, sorted);
      i := i + 1;
    }
    assert s.types[..i] == s.types;
  }

  lemma TypeNeeded(schema: OkSchema, s: Declared, t: TypeId, u: TypeId)
    requires s.name in schema.table && schema.table[s.name] == s && t in s.types
    requires u in schema.g && Reaches(PartEdges(schema.g), t, u)
    ensures schema.g[u].Reference? && schema.g[u].name in schema.table ==>
              schema.g[u].name in schema.Graph()[s.name]
  {
    if schema.g[u].Reference? {
      assert Mentions(schema.g, t, schema.g[u].name);
    }
  }

  /** The loop over the types contained in one property's type. */
  method VisitContents(schema: OkSchema, t: TypeId, s: Declared, seen0: set<string>, sorted0: seq<Declared>)
    returns (seen: set<string>, sorted: seq<Declared>)
    requires Progress(schema, seen0, sorted0) && Declares(schema, s) && t in s.types
    requires AllReach(schema, Open(seen0, sorted0), s.name)
    ensures Progress(schema, seen, sorted) && seen0 <= seen
    ensures Open(seen, sorted) == Open(seen0, sorted0)
    ensures ContentsVisited(schema, seen, t)
    ensures Walked(schema.Lists(), NamesIn(schema.g, schema.table.Keys, Preorder(PartLists(schema.g), [t], {})),
                   seen0, sorted0, seen, sorted)
    decreases |schema.table.Keys - seen0|, 2
  {
    hide Progress, Open, AllReach, Visited, Walked, NamesIn, Preorder;
    seen, sorted := seen0, sorted0;
    ghost var lists, names := schema.Lists(), schema.table.Keys;
    var types := RecursiveTypesOf(schema.g, t);
    NoNames(schema.g, names, types);
    WalkedNothing(lists, seen, sorted);
    var i := 0;
    while i < |types|
      invariant i <= |types| && Progress(schema, seen, sorted) && seen0 <= seen
      invariant Open(seen, sorted) == Open(seen0, sorted0)
      invariant forall j :: 0 <= j < i ==> Visited(schema, seen, types[j])
      invariant Walked(lists, NamesIn(schema.g, names, types[..i]), seen0, sorted0, seen, sorted)
    {
      assert types[i] in types;
      TypeNeeded(schema, s, t, types[i]);
      NotLarger(schema.table.Keys - seen, schema.table.Keys - seen0);
      ghost var before, sortedBefore := seen, sorted;
      seen, sorted := VisitReference(schema, types[i], s, seen, sorted);
      OneMoreVisited(schema, before, seen, types, i);
      NamesOfOne(schema.g, names, types, i);
      WalkedOn(lists, NamesIn(schema.g, names, types[..i]), NamesIn(schema.g, names, [types[i]]),
               seen0, sorted0, before, sortedBefore, seen, sorted);
      i := i + 1;
    }
    assert types[..i] == types;
  }

  /** Visits what t refers to, if that is a structure. */
  method VisitReference(schema: OkSchema, t: TypeId, s: Declared, seen0: set<string>, sorted0: seq<Declared>)
    returns (seen: set<string>, sorted: seq<Declared>)
    requires Progress(schema, seen0, sorted0) && Declares(schema, s) && t in schema.g
    requires AllReach(schema, Open(seen0, sorted0), s.name)
    requires schema.g[t].Reference? && schema.g[t].name in schema.table ==>
               schema.g[t].name in schema.Graph()[s.name]
    ensures Progress(schema, seen, sorted) && seen0 <= seen
    ensures Open(seen, sorted) == Open(seen0, sorted0)
    ensures Visited(schema, seen, t)
    ensures Walked(schema.Lists(), NamesIn(schema.g, schema.table.Keys, [t]), seen0, sorted0, seen, sorted)
    decreases |schema.table.Keys - seen0|, 1
  {
    hide Progress, Open, Reaches, Walked, NamesIn;
    seen, sorted := seen0, sorted0;
    NameOfReference(schema.g, schema.table.Keys, t);
    WalkedNothing(schema.Lists(), seen, sorted);
    if schema.g[t].Reference? && schema.g[t].name in schema.table {
      var dep := schema.table[schema.g[t].name];
      forall n | n in Open(seen, sorted) ensures Reaches(schema.Graph(), n, dep.name) {
        ReachesFurther(schema.Graph(), n, s.name, dep.name);
      }
      seen, sorted := Visit(schema, dep, seen, sorted);
    }
  }

  lemma NothingSorted(schema: OkSchema)
    ensures Progress(schema, {}, []) && Open({}, []) == {}
  {
  }

  lemma Finished(g: Types, input: seq<Declared>, table: map<string, Declared>, seen: set<string>, sorted: seq<Declared>)
    requires UniqueNames(input) && IsTable(input, table) && Placed(Schema(g, table), sorted)
    requires seen - Names(sorted) == {} && Names(sorted) <= seen <= table.Keys
    requires forall j :: 0 <= j < |input| ==> input[j].name in seen
    ensures multiset(sorted) == multiset(input)
    ensures NeededFirst(NeedEdges(g, TableOf(input)), sorted)
  {
    PlacedIs(Schema(g, table), sorted);
    assert Names(input) == table.Keys;
    forall n | n in seen ensures n in Names(sorted) {
      assert n !in seen - Names(sorted);
    }
    SameNamesPermute(sorted, input, table);
    OneTable(input, table, TableOf(input));
  }

  lemma NoneListed(lists: Successors<string>, input: seq<Declared>)
    ensures Walked(lists, NameList(input[..0]), {}, [], {}, [])
  {
    WalkedNothing(lists, {}, []);
    assert NameList(input[..0]) == [];
  }

  lemma NameListUpTo(ds: seq<Declared>, i: nat)
    requires i < |ds|
    ensures NameList(ds[..i + 1]) == NameList(ds[..i]) + [ds[i].name]
  {
    assert ds[..i + 1] == ds[..i] + [ds[i]];
  }

  lemma WalkedFromNothing(lists: Successors<string>, list: seq<string>, seen: set<string>, sorted: seq<Declared>)
    requires Walked(lists, list, {}, [], seen, sorted)
    ensures NameList(sorted) == Postorder(lists, list, {})
  {
    hide Postorder;
  }

  /** Orders uniquely named structures: a permutation in which every structure comes after the
      ones it extends or mentions, except those that lead back to it. */
  method SortStructures(g: Types, input: seq<Declared>) returns (sorted: seq<Declared>)
    requires Closed(g) && UniqueNames(input) && forall d :: d in input ==> InGraph(g, d)
    ensures multiset(sorted) == multiset(input)
    ensures NeededFirst(NeedEdges(g, TableOf(input)), sorted)
    ensures NameList(sorted) == Postorder(NeedLists(g, TableOf(input)), NameList(input), {})
  {
    hide Closed, InGraph, UniqueNames, Names, Placed, NeededFirst, Reaches, NeedEdges, NameList, NeedLists, Walked;
    var structures := Tabulate(input);
    var schema := Schema(g, structures);
    var seen: set<string> := {};
    sorted := [];
    NothingSorted(schema);
    NoneListed(schema.Lists(), input);
    var i := 0;
    while i < |input|
      invariant i <= |input| && Progress(schema, seen, sorted) && Open(seen, sorted) == {}
      invariant forall j :: 0 <= j < i ==> input[j].name in seen
      invariant Walked(schema.Lists(), NameList(input[..i]), {}, [], seen, sorted)
    {
      ghost var before, sortedBefore := seen, sorted;
      seen, sorted := Visit(schema, input[i], seen, sorted);
      NameListUpTo(input, i);
      WalkedOn(schema.Lists(), NameList(input[..i]), [input[i].name], {}, [], before, sortedBefore, seen, sorted);
      i := i + 1;
    }
    assert input[..i] == input;
    WalkedFromNothing(schema.Lists(), NameList(input), seen, sorted);
    Finished(g, input, structures, seen, sorted);
    OneTable(input, structures, TableOf(input));
  }
}
