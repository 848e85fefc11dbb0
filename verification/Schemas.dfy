/** The types the generator emits, the values they hold, and what a freshly constructed
    value of each type looks like. */
module Schemas {
  import opened Results
  import opened Json

  datatype Literal = IntLiteral(i: int) | StringLiteral(s: string)

  /** A C++ type of the generated code. `Named` is a structure or a type alias; a `Named`
      alias of a OneOf also covers LSPAny, which derives from its OneOf. */
  datatype Schema =
    | TNull
    | TBoolean
    | TInteger
    | TUinteger
    | TDecimal
    | TString
    | TEnum(base: Schema, literals: seq<Literal>)
    | TVector(element: Schema)
    | TTuple(items: seq<Schema>)
    | TMap(value: Schema)
    | TOneOf(alternatives: seq<Schema>)
    | TNamed(name: string)

  datatype Property = Property(name: string, optional: bool, ty: Schema)

  datatype Declaration =
    | Structure(kind: Option<string>, properties: seq<Property>, parents: seq<string>)
    | Alias(ty: Schema)

  /** A member of a structure: an optional one may hold no value. */
  datatype Field = Absent | Present(value: Value)

  /** A C++ object. `VOneOf` records which alternative is held, by the first index of its type,
      `VEmpty` is a OneOf that holds none. A structure has one field per property and one subobject per base. */
  datatype Value =
    | VNull
    | VBoolean(b: bool)
    | VInteger(i: int)
    | VUinteger(u: int)
    | VDecimal(d: Decimal)
    | VString(s: string)
    | VEnum(index: nat)
    | VVector(elements: seq<Value>)
    | VTuple(elements: seq<Value>)
    | VMap(entries: map<string, Value>)
    | VEmpty
    | VOneOf(choice: nat, payload: Value)
    | VStruct(fields: seq<Field>, bases: seq<Value>)

  function IndexOf<T(==)>(s: seq<T>, x: T): (i: nat)
    ensures i <= |s|
    ensures i < |s| ==> s[i] == x
    ensures forall j :: 0 <= j < i ==> s[j] != x
  {
    if s == [] || s[0] == x then 0 else 1 + IndexOf(s[1..], x)
  }

  lemma IndexOfFirst<T>(s: seq<T>, i: nat)
    requires i < |s| && forall j :: 0 <= j < i ==> s[j] != s[i]
    ensures IndexOf(s, s[i]) == i
  {
  }

  function Max(a: nat, b: nat): nat { if a < b then b else a }

  /** The declarations, and two numberings that witness what C++ demands of them:
      `ranks` that no alias or base chain returns to its start, `sizes` that no structure
      contains itself by value. */
  datatype Env = Env(
    declarations: map<string, Declaration>,
    ranks: map<string, nat>,
    sizes: map<string, nat>,
    accessors: Accessors)
  {
    function Rank(name: string): nat { if name in ranks then ranks[name] else 0 }

    function Size(name: string): nat { if name in sizes then sizes[name] else 0 }

    /** Bounds the declarations a decoder can pass through without leaving the JSON value. */
    function Level(t: Schema): nat {
      match t
      case TOneOf(alternatives) => LevelOf(alternatives)
      case TNamed(name) => Rank(name)
      case _ => 0
    }

    function LevelOf(ts: seq<Schema>): (r: nat)
      ensures forall i :: 0 <= i < |ts| ==> Level(ts[i]) <= r
    {
      if ts == [] then 0 else Max(Level(ts[0]), LevelOf(ts[1..]))
    }

    /** Bounds the declarations a value of the type contains by value. */
    function Bulk(t: Schema): nat {
      match t
      case TTuple(items) => BulkOf(items)
      case TNamed(name) => Size(name)
      case _ => 0
    }

    function BulkOf(ts: seq<Schema>): (r: nat)
      ensures forall i :: 0 <= i < |ts| ==> Bulk(ts[i]) <= r
    {
      if ts == [] then 0 else Max(Bulk(ts[0]), BulkOf(ts[1..]))
    }

    predicate IsAlias(name: string) {
      name in declarations && declarations[name].Alias?
    }

    predicate IsStruct(name: string) {
      name in declarations && declarations[name].Structure?
    }

    ghost predicate DeclarationOk(name: string)
      requires name in declarations
    {
      match declarations[name]
      case Alias(ty) => Level(ty) < Rank(name) && Bulk(ty) < Size(name)
      case Structure(kind, properties, parents) =>
        && (forall i :: 0 <= i < |properties| && !properties[i].optional ==>
              Bulk(properties[i].ty) < Size(name))
        && (forall i :: 0 <= i < |parents| ==>
              IsStruct(parents[i]) && Rank(parents[i]) < Rank(name) && Size(parents[i]) < Size(name))
    }

    ghost predicate WellFormed() {
      forall name :: name in declarations ==> DeclarationOk(name)
    }
  }

  /** The value x is an object of type t. Enumerators may be out of range, as in C++. */
  ghost predicate HasType(env: Env, t: Schema, x: Value)
    requires env.WellFormed()
    decreases x, env.Level(t), t
  {
    match t
    case TNull => x.VNull?
    case TBoolean => x.VBoolean?
    case TInteger => x.VInteger? && IsI64(x.i)
    case TUinteger => x.VUinteger? && IsU64(x.u)
    case TDecimal => x.VDecimal?
    case TString => x.VString?
    case TEnum(_, _) => x.VEnum?
    case TVector(e) => x.VVector? && forall i :: 0 <= i < |x.elements| ==> HasType(env, e, x.elements[i])
    case TTuple(ts) =>
      x.VTuple? && |x.elements| == |ts| &&
      forall i :: 0 <= i < |ts| ==> HasType(env, ts[i], x.elements[i])
    case TMap(e) => x.VMap? && forall k :: k in x.entries ==> HasType(env, e, x.entries[k])
    case TOneOf(ts) =>
      || x.VEmpty?
      || (&& x.VOneOf? && x.choice < |ts| && x.choice == IndexOf(ts, ts[x.choice])
          && HasType(env, ts[x.choice], x.payload))
    case TNamed(n) =>
      if n !in env.declarations then x.VNull?
      else match env.declarations[n]
        case Alias(ty) => HasType(env, ty, x)
        case Structure(_, _, _) => StructHasType(env, n, x)
  }

  lemma AliasHasType(env: Env, n: string, x: Value)
    requires env.WellFormed() && env.IsAlias(n)
    ensures HasType(env, TNamed(n), x) <==> HasType(env, env.declarations[n].ty, x)
  {
  }

  ghost predicate StructHasType(env: Env, n: string, x: Value)
    requires env.WellFormed() && env.IsStruct(n)
    decreases x, env.Rank(n), TNamed(n), 0
  {
    var Structure(_, ps, exts) := env.declarations[n];
    && x.VStruct? && |x.fields| == |ps| && |x.bases| == |exts|
    && (forall i :: 0 <= i < |ps| ==> FieldHasType(env, ps[i], x.fields[i]))
    && (forall i :: 0 <= i < |exts| ==> env.IsStruct(exts[i]) && StructHasType(env, exts[i], x.bases[i]))
  }

  lemma StructureHasType(env: Env, n: string, x: Value)
    requires env.WellFormed() && env.IsStruct(n)
    ensures HasType(env, TNamed(n), x) <==> StructHasType(env, n, x)
  {
    hide StructHasType;
  }

  lemma VectorHasType(env: Env, e: Schema, x: Value)
    requires env.WellFormed()
    ensures HasType(env, TVector(e), x) <==>
            x.VVector? && forall i :: 0 <= i < |x.elements| ==> HasType(env, e, x.elements[i])
  {
  }

  lemma TupleHasType(env: Env, ts: seq<Schema>, x: Value)
    requires env.WellFormed()
    ensures HasType(env, TTuple(ts), x) <==>
            x.VTuple? && |x.elements| == |ts| && forall i :: 0 <= i < |ts| ==> HasType(env, ts[i], x.elements[i])
  {
  }

  lemma MapHasType(env: Env, e: Schema, x: Value)
    requires env.WellFormed()
    ensures HasType(env, TMap(e), x) <==> x.VMap? && forall k :: k in x.entries ==> HasType(env, e, x.entries[k])
  {
  }

  ghost predicate FieldHasType(env: Env, p: Property, f: Field)
    requires env.WellFormed()
    decreases f
  {
    match f
    case Absent => p.optional
    case Present(y) => HasType(env, p.ty, y)
  }

  lemma FieldAtHasType(env: Env, n: string, x: Value, i: nat)
    requires env.WellFormed() && env.IsStruct(n) && StructHasType(env, n, x) && i < |env.declarations[n].properties|
    ensures x.VStruct? && |x.fields| == |env.declarations[n].properties|
    ensures FieldHasType(env, env.declarations[n].properties[i], x.fields[i])
  {
    hide FieldHasType;
  }

  /** The subobject of a base has the type of that base. */
  lemma BaseHasType(env: Env, n: string, x: Value, i: nat)
    requires env.WellFormed() && env.IsStruct(n) && StructHasType(env, n, x) && i < |env.declarations[n].parents|
    ensures x.VStruct? && |x.bases| == |env.declarations[n].parents| && env.IsStruct(env.declarations[n].parents[i])
    ensures StructHasType(env, env.declarations[n].parents[i], x.bases[i])
    ensures env.Rank(env.declarations[n].parents[i]) < env.Rank(n)
  {
    assert env.DeclarationOk(n);
  }

  /** A value-initialised object of type t. */
  function Default(env: Env, t: Schema): (x: Value)
    requires env.WellFormed()
    ensures HasType(env, t, x)
    decreases env.Bulk(t), t
  {
    match t
    case TNull => VNull
    case TBoolean => VBoolean(false)
    case TInteger => VInteger(0)
    case TUinteger => VUinteger(0)
    case TDecimal => VDecimal(Decimal(0))
    case TString => VString("")
    case TEnum(_, _) => VEnum(0)
    case TVector(_) => VVector([])
    case TTuple(ts) => VTuple(seq(|ts|, i requires 0 <= i < |ts| => Default(env, ts[i])))
    case TMap(_) => VMap(map[])
    case TOneOf(_) => VEmpty
    case TNamed(n) =>
      if n !in env.declarations then VNull
      else
        assert env.DeclarationOk(n);
        match env.declarations[n]
        case Alias(ty) => Default(env, ty)
        case Structure(_, _, _) => DefaultStruct(env, n)
  }

  function DefaultStruct(env: Env, n: string): (x: Value)
    requires env.WellFormed() && env.IsStruct(n)
    ensures StructHasType(env, n, x)
    decreases env.Size(n), TNamed(n), 0
  {
    assert env.DeclarationOk(n);
    var Structure(_, ps, exts) := env.declarations[n];
    VStruct(
      seq(|ps|, i requires 0 <= i < |ps| => if ps[i].optional then Absent else Present(Default(env, ps[i].ty))),
      seq(|exts|, i requires 0 <= i < |exts| => Default(env, TNamed(exts[i]))))
  }

  lemma TupleDefault(env: Env, ts: seq<Schema>)
    requires env.WellFormed()
    ensures Default(env, TTuple(ts)) == VTuple(seq(|ts|, i requires 0 <= i < |ts| => Default(env, ts[i])))
  {
    hide HasType;
  }

  lemma AliasDefault(env: Env, n: string)
    requires env.WellFormed() && env.IsAlias(n)
    ensures Default(env, TNamed(n)) == Default(env, env.declarations[n].ty)
  {
    hide HasType;
    assert env.DeclarationOk(n);
  }

  lemma StructureDefault(env: Env, n: string)
    requires env.WellFormed() && env.IsStruct(n)
    ensures Default(env, TNamed(n)) == DefaultStruct(env, n)
  {
    hide HasType, StructHasType, DefaultStruct;
  }

  /** The object an element, entry or member is decoded into: the one already there, or a
      fresh one. */
  function Slot(env: Env, t: Schema, xs: seq<Value>, i: nat): (x: Value)
    requires env.WellFormed()
    requires forall j :: 0 <= j < |xs| ==> HasType(env, t, xs[j])
    ensures HasType(env, t, x)
  {
    if i < |xs| then xs[i] else Default(env, t)
  }

  function EntrySlot(env: Env, t: Schema, entries: map<string, Value>, k: string): (x: Value)
    requires env.WellFormed()
    requires forall j :: j in entries ==> HasType(env, t, entries[j])
    ensures HasType(env, t, x)
  {
    if k in entries then entries[k] else Default(env, t)
  }

  function FieldSlot(env: Env, p: Property, f: Field): (x: Value)
    requires env.WellFormed() && FieldHasType(env, p, f)
    ensures HasType(env, p.ty, x)
  {
    // An optional member is decoded into a fresh value and then moved into place.
    if p.optional then Default(env, p.ty) else f.value
  }
}
