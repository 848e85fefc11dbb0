/** Which JSON value an object is written as, said of the value: independently of how it is
    computed. */
module Rendering {
  import opened Results
  import opened Json
  import opened Schemas
  import opened Encoding

  /** j is what x is written as: a number by the maker of its type, an enumerator as its literal, a
      OneOf as what it holds, a structure as an object that holds, under each name that anything in it
      writes, what is written there last. */
  ghost predicate Renders(env: Env, t: Schema, x: Value, j: Json)
    requires env.WellFormed() && HasType(env, t, x)
    decreases x, env.Level(t) + 1, t, 2
  {
    match t
    case TNull => j == Null
    case TBoolean => j == Bool(x.b)
    case TInteger => j == Num(I64(x.i))
    case TUinteger => j == Num(U64(x.u))
    case TDecimal => j == Num(F64(x.d))
    case TString => j == Str(x.s)
    case TEnum(_, literals) =>
      x.index < |literals| &&
      (match literals[x.index]
       case IntLiteral(i) => j == Num(I64(i))
       case StringLiteral(s) => j == Str(s))
    case TVector(e) =>
      && j.Arr? && |j.elems| == |x.elements|
      && forall i :: 0 <= i < |x.elements| ==> Renders(env, e, x.elements[i], j.elems[i])
    case TTuple(ts) =>
      && j.Arr? && |j.elems| == |ts|
      && forall i :: 0 <= i < |ts| ==> Renders(env, ts[i], x.elements[i], j.elems[i])
    case TMap(e) =>
      && j.Obj? && j.members.Keys == x.entries.Keys
      && forall k :: k in x.entries ==> Renders(env, e, x.entries[k], j.members[k])
    case TOneOf(ts) => x.VOneOf? && Renders(env, ts[x.choice], x.payload, j)
    case TNamed(n) =>
      n in env.declarations && env.DeclarationOk(n) &&
      (match env.declarations[n]
       case Alias(ty) => Renders(env, ty, x, j)
       case Structure(_, _, _) => j.Obj? && StructRenders(env, n, x, j.members))
  }

  /** The last of the first k members that goes by this name and is there. */
  ghost function LastField(env: Env, n: string, x: Value, k: nat, name: string): (i: Option<nat>)
    requires env.WellFormed() && env.IsStruct(n) && StructHasType(env, n, x) && k <= |env.declarations[n].properties|
    ensures match i
            case Some(i) =>
              && i < k && env.declarations[n].properties[i].name == name && x.fields[i].Present?
              && forall j :: i < j < k && env.declarations[n].properties[j].name == name ==> x.fields[j].Absent?
            case None =>
              forall j :: 0 <= j < k && env.declarations[n].properties[j].name == name ==> x.fields[j].Absent?
    decreases k
  {
    if k == 0 then None
    else if env.declarations[n].properties[k - 1].name == name && x.fields[k - 1].Present? then Some(k - 1)
    else LastField(env, n, x, k - 1, name)
  }

  /** Something is written under this name: as the tag, as a member, or by a base. */
  ghost predicate Writes(env: Env, n: string, x: Value, name: string)
    requires env.WellFormed() && env.IsStruct(n) && StructHasType(env, n, x)
    decreases x
  {
    var Structure(kind, ps, exts) := env.declarations[n];
    || (kind.Some? && name == "kind")
    || LastField(env, n, x, |ps|, name).Some?
    || LastBase(env, n, x, |exts|, name).Some?
  }

  /** Everything in structure x can be written, and m holds what is written under each name. */
  ghost predicate StructRenders(env: Env, n: string, x: Value, m: map<string, Json>)
    requires env.WellFormed() && env.IsStruct(n) && StructHasType(env, n, x)
    decreases x, env.Rank(n) + 1, TNamed(n), 1
  {
    && EncodableStruct(env, n, x)
    && (forall name :: name in m <==> Writes(env, n, x, name))
    && (forall name :: name in m ==> WritesLast(env, n, x, name, m[name]))
  }

  /** The last of the first k bases that writes this name. */
  ghost function LastBase(env: Env, n: string, x: Value, k: nat, name: string): (i: Option<nat>)
    requires env.WellFormed() && env.IsStruct(n) && StructHasType(env, n, x) && k <= |env.declarations[n].parents|
    ensures i.Some? ==> i.value < k
    decreases x, k
  {
    if k == 0 then None
    else if Writes(env, env.declarations[n].parents[k - 1], x.bases[k - 1], name) then Some(k - 1)
    else LastBase(env, n, x, k - 1, name)
  }

  /** What is written last under this name is w: bases come after members, and those after the tag. */
  ghost predicate WritesLast(env: Env, n: string, x: Value, name: string, w: Json)
    requires env.WellFormed() && env.IsStruct(n) && StructHasType(env, n, x)
    decreases x, 0
  {
    var Structure(kind, ps, exts) := env.declarations[n];
    match (LastBase(env, n, x, |exts|, name), LastField(env, n, x, |ps|, name))
    case (Some(i), _) => WritesLast(env, exts[i], x.bases[i], name, w)
    case (None, Some(i)) =>
      assert FieldHasType(env, ps[i], x.fields[i]);
      Renders(env, ps[i].ty, x.fields[i].value, w)
    case (None, None) => kind.Some? && name == "kind" && w == Str(kind.value)
  }

  // ---- Encoding computes it ----

  /** Encoding makes j of x exactly when j is what x is written as. */
  lemma {:induction false} EncodedIffRenders(env: Env, t: Schema, x: Value, j: Json)
    requires env.WellFormed() && HasType(env, t, x)
    ensures Encoded(env, t, x) == Some(j) <==> Renders(env, t, x, j)
    decreases x, env.Level(t) + 1, t, 3
  {
    hide StructHasType, StructRenders, Written;
    match t
    case TVector(e) => VectorRenders(env, e, x, j);
    case TTuple(ts) => TupleRenders(env, ts, x, j);
    case TMap(e) => MapRenders(env, e, x, j);
    case TOneOf(ts) =>
      if x.VOneOf? {
        EncodedIffRenders(env, ts[x.choice], x.payload, j);
      }
    case TNamed(n) => NamedRenders(env, n, x, j);
    case _ =>
  }

  lemma {:induction false} VectorRenders(env: Env, e: Schema, x: Value, j: Json)
    requires env.WellFormed() && HasType(env, TVector(e), x)
    ensures Encoded(env, TVector(e), x) == Some(j) <==> Renders(env, TVector(e), x, j)
    decreases x, 0
  {
    if j.Arr? && |j.elems| == |x.elements| {
      forall i | 0 <= i < |x.elements|
        ensures Encoded(env, e, x.elements[i]) == Some(j.elems[i]) <==> Renders(env, e, x.elements[i], j.elems[i])
      {
        EncodedIffRenders(env, e, x.elements[i], j.elems[i]);
      }
      if Renders(env, TVector(e), x, j) {
        assert Encoded(env, TVector(e), x).value.elems == j.elems;
      }
    }
  }

  lemma {:induction false} TupleRenders(env: Env, ts: seq<Schema>, x: Value, j: Json)
    requires env.WellFormed() && HasType(env, TTuple(ts), x)
    ensures Encoded(env, TTuple(ts), x) == Some(j) <==> Renders(env, TTuple(ts), x, j)
    decreases x, 0
  {
    if j.Arr? && |j.elems| == |ts| {
      forall i | 0 <= i < |ts|
        ensures Encoded(env, ts[i], x.elements[i]) == Some(j.elems[i]) <==>
                Renders(env, ts[i], x.elements[i], j.elems[i])
      {
        EncodedIffRenders(env, ts[i], x.elements[i], j.elems[i]);
      }
      if Renders(env, TTuple(ts), x, j) {
        assert Encoded(env, TTuple(ts), x).value.elems == j.elems;
      }
    }
  }

  lemma MapEncoded(env: Env, e: Schema, x: Value, j: Json)
    requires env.WellFormed() && HasType(env, TMap(e), x)
    ensures Encoded(env, TMap(e), x) == Some(j) <==>
            && j.Obj? && j.members.Keys == x.entries.Keys
            && forall k :: k in x.entries ==> Encoded(env, e, x.entries[k]) == Some(j.members[k])
  {
    if j.Obj? && Encoded(env, TMap(e), x).Some? && j.members.Keys == x.entries.Keys {
      var m := Encoded(env, TMap(e), x).value.members;
      if forall k :: k in x.entries ==> m[k] == j.members[k] {
        assert m == j.members;
      }
    }
  }

  lemma {:induction false} MapRenders(env: Env, e: Schema, x: Value, j: Json)
    requires env.WellFormed() && HasType(env, TMap(e), x)
    ensures Encoded(env, TMap(e), x) == Some(j) <==> Renders(env, TMap(e), x, j)
    decreases x, 0
  {
    hide Encoded;
    MapEncoded(env, e, x, j);
    if j.Obj? && j.members.Keys == x.entries.Keys {
      forall k | k in x.entries
        ensures Encoded(env, e, x.entries[k]) == Some(j.members[k]) <==> Renders(env, e, x.entries[k], j.members[k])
      {
        EncodedIffRenders(env, e, x.entries[k], j.members[k]);
      }
    }
  }

  lemma AliasRenders(env: Env, n: string, x: Value, j: Json)
    requires env.WellFormed() && env.IsAlias(n) && HasType(env, TNamed(n), x) && HasType(env, env.declarations[n].ty, x)
    ensures Renders(env, TNamed(n), x, j) <==> Renders(env, env.declarations[n].ty, x, j)
  {
    hide HasType;
    assert env.DeclarationOk(n);
  }

  lemma StructureRenders(env: Env, n: string, x: Value, j: Json)
    requires env.WellFormed() && env.IsStruct(n) && HasType(env, TNamed(n), x) && StructHasType(env, n, x)
    ensures Renders(env, TNamed(n), x, j) <==> j.Obj? && StructRenders(env, n, x, j.members)
  {
    hide HasType, StructHasType, StructRenders;
    assert env.DeclarationOk(n);
  }

  lemma {:induction false} NamedRenders(env: Env, n: string, x: Value, j: Json)
    requires env.WellFormed() && HasType(env, TNamed(n), x)
    ensures Encoded(env, TNamed(n), x) == Some(j) <==> Renders(env, TNamed(n), x, j)
    decreases x, env.Rank(n) + 1, TNamed(n), 2
  {
    if env.IsAlias(n) {
      hide HasType, Encoded, Renders;
      assert env.DeclarationOk(n);
      AliasHasType(env, n, x);
      AliasEncoded(env, n, x);
      AliasRenders(env, n, x, j);
      EncodedIffRenders(env, env.declarations[n].ty, x, j);
    } else if env.IsStruct(n) {
      hide HasType, StructHasType, Encoded, Written, Renders, StructRenders;
      StructureHasType(env, n, x);
      StructureEncoded(env, n, x);
      StructureRenders(env, n, x, j);
      if j.Obj? {
        WrittenIffRenders(env, n, x, j.members);
      }
    }
  }

  /** The object of a structure under one name. */
  lemma WrittenParts(env: Env, n: string, x: Value, name: string)
    requires env.WellFormed() && env.IsStruct(n) && StructHasType(env, n, x) && Written(env, n, x).Some?
    ensures var Structure(kind, ps, exts) := env.declarations[n];
            var m, own, inherited :=
              Written(env, n, x).value, WrittenFields(env, n, x, |ps|), WrittenBases(env, n, x, |exts|);
            && own.Some? && inherited.Some?
            && (name in m <==> name in inherited.value || name in own.value || (kind.Some? && name == "kind"))
            && (name in m ==>
                 m[name] == if name in inherited.value then inherited.value[name]
                            else if name in own.value then own.value[name]
                            else Str(kind.value))
  {
    hide StructHasType, WrittenFields, WrittenBases;
  }

  /** What the first k members write. */
  lemma {:induction false} FieldsLast(env: Env, n: string, x: Value, k: nat, name: string)
    requires env.WellFormed() && env.IsStruct(n) && StructHasType(env, n, x)
    requires k <= |env.declarations[n].properties| && WrittenFields(env, n, x, k).Some?
    ensures var m, i := WrittenFields(env, n, x, k).value, LastField(env, n, x, k, name);
            && (name in m <==> i.Some?)
            && (i.Some? ==>
                 && x.VStruct? && i.value < |x.fields| && x.fields[i.value].Present?
                 && FieldHasType(env, env.declarations[n].properties[i.value], x.fields[i.value])
                 && Encoded(env, env.declarations[n].properties[i.value].ty, x.fields[i.value].value) == Some(m[name]))
    decreases k
  {
    hide StructHasType, Encoded, HasType;
    if k == 0 {
    } else {
      FieldAtHasType(env, n, x, k - 1);
      FieldsLast(env, n, x, k - 1, name);
    }
  }

  lemma {:induction false} NamesWritten(env: Env, n: string, x: Value, name: string)
    requires env.WellFormed() && env.IsStruct(n) && StructHasType(env, n, x) && Written(env, n, x).Some?
    ensures name in Written(env, n, x).value <==> Writes(env, n, x, name)
    decreases x, 0
  {
    hide StructHasType, Written, WrittenFields, WrittenBases, LastField, LastBase;
    WrittenParts(env, n, x, name);
    FieldsLast(env, n, x, |env.declarations[n].properties|, name);
    BasesLast(env, n, x, |env.declarations[n].parents|, name);
  }

  lemma {:induction false} WrittenIsRendered(env: Env, n: string, x: Value)
    requires env.WellFormed() && env.IsStruct(n) && StructHasType(env, n, x) && Written(env, n, x).Some?
    ensures StructRenders(env, n, x, Written(env, n, x).value)
    decreases x, env.Rank(n) + 1, TNamed(n), 0
  {
    hide StructHasType, Written, Writes, WritesLast, EncodableStruct;
    WrittenIffEncodable(env, n, x);
    var w := Written(env, n, x).value;
    forall name ensures name in w <==> Writes(env, n, x, name) {
      NamesWritten(env, n, x, name);
    }
    forall name | name in w ensures WritesLast(env, n, x, name, w[name]) {
      WrittenLast(env, n, x, name, w[name]);
    }
  }

  lemma {:induction false} RenderedIsWritten(env: Env, n: string, x: Value, m: map<string, Json>)
    requires env.WellFormed() && env.IsStruct(n) && StructHasType(env, n, x) && StructRenders(env, n, x, m)
    ensures Written(env, n, x) == Some(m)
    decreases x, env.Rank(n) + 1, TNamed(n), 0
  {
    hide StructHasType, Written, Writes, WritesLast, EncodableStruct;
    WrittenIffEncodable(env, n, x);
    var w := Written(env, n, x).value;
    forall name ensures name in w <==> name in m {
      NamesWritten(env, n, x, name);
    }
    forall name | name in m ensures w[name] == m[name] {
      WrittenLast(env, n, x, name, m[name]);
    }
    assert m == w;
  }

  /** The object of a structure is the one that holds, under each name, what is written there last. */
  lemma {:induction false} WrittenIffRenders(env: Env, n: string, x: Value, m: map<string, Json>)
    requires env.WellFormed() && env.IsStruct(n) && StructHasType(env, n, x)
    ensures Written(env, n, x) == Some(m) <==> StructRenders(env, n, x, m)
    decreases x, env.Rank(n) + 1, TNamed(n), 1
  {
    hide StructHasType, Written, StructRenders;
    if Written(env, n, x) == Some(m) {
      WrittenIsRendered(env, n, x);
    } else if StructRenders(env, n, x, m) {
      RenderedIsWritten(env, n, x, m);
    }
  }

  /** What the first k bases write. */
  lemma {:induction false} BasesLast(env: Env, n: string, x: Value, k: nat, name: string)
    requires env.WellFormed() && env.IsStruct(n) && StructHasType(env, n, x)
    requires k <= |env.declarations[n].parents| && WrittenBases(env, n, x, k).Some?
    ensures var m, i := WrittenBases(env, n, x, k).value, LastBase(env, n, x, k, name);
            && (name in m <==> i.Some?)
            && (i.Some? ==>
                 var base := env.declarations[n].parents[i.value];
                 && x.VStruct? && i.value < |x.bases|
                 && env.IsStruct(base) && StructHasType(env, base, x.bases[i.value])
                 && Written(env, base, x.bases[i.value]).Some?
                 && name in Written(env, base, x.bases[i.value]).value
                 && Written(env, base, x.bases[i.value]).value[name] == m[name])
    decreases x, 0, k
  {
    hide StructHasType, Written, Writes;
    if k == 0 {
    } else {
      BaseHasType(env, n, x, k - 1);
      BasesLast(env, n, x, k - 1, name);
      NamesWritten(env, env.declarations[n].parents[k - 1], x.bases[k - 1], name);
    }
  }

  lemma {:induction false} WrittenLast(env: Env, n: string, x: Value, name: string, w: Json)
    requires env.WellFormed() && env.IsStruct(n) && StructHasType(env, n, x) && Written(env, n, x).Some?
    requires name in Written(env, n, x).value
    ensures Written(env, n, x).value[name] == w <==> WritesLast(env, n, x, name, w)
    decreases x, 0
  {
    hide StructHasType, Written, WrittenFields, WrittenBases, LastField, LastBase, Encoded, Renders;
    var Structure(kind, ps, exts) := env.declarations[n];
    WrittenParts(env, n, x, name);
    FieldsLast(env, n, x, |ps|, name);
    BasesLast(env, n, x, |exts|, name);
    match (LastBase(env, n, x, |exts|, name), LastField(env, n, x, |ps|, name))
    case (Some(i), _) => WrittenLast(env, exts[i], x.bases[i], name, w);
    case (None, Some(i)) => EncodedIffRenders(env, ps[i].ty, x.fields[i].value, w);
    case (None, None) =>
  }
}
