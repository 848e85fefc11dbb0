/** Which object a JSON value stands for at a type, said of the object: independently of how it is
    computed. */
module Meaning {
  import opened Results
  import opened Json
  import opened Schemas
  import opened Decoding

  /** As a value of the enum's base type, v is the literal l. */
  predicate IsLiteral(env: Env, base: Schema, v: Json, l: Literal) {
    match l
    case IntLiteral(i) =>
      || (base.TInteger? && v.Num? && env.accessors.i64(v.n) == Some(i))
      || (base.TUinteger? && v.Num? && env.accessors.u64(v.n) == Some(i))
    case StringLiteral(s) => base.TString? && v == Str(s)
  }

  /** x is what v says, and what `out` held where v says nothing. A number is what its accessor reads;
      an enumerator is the first whose literal v is; elements, entries and members are taken one by
      one, over those that were there; a OneOf holds the first alternative that v conforms to, and
      nothing of what it held. */
  ghost predicate Represents(env: Env, t: Schema, v: Json, out: Value, x: Value)
    requires env.WellFormed() && HasType(env, t, out)
    decreases v, env.Level(t) + 1, t, 2
  {
    match t
    case TNull => v == Null && x == VNull
    case TBoolean => x.VBoolean? && v == Bool(x.b)
    case TInteger => x.VInteger? && IsI64(x.i) && v.Num? && env.accessors.i64(v.n) == Some(x.i)
    case TUinteger => x.VUinteger? && IsU64(x.u) && v.Num? && env.accessors.u64(v.n) == Some(x.u)
    case TDecimal => x.VDecimal? && v.Num? && env.accessors.f64(v.n) == Some(x.d)
    case TString => x.VString? && v == Str(x.s)
    case TEnum(base, literals) =>
      && x.VEnum? && x.index < |literals| && IsLiteral(env, base, v, literals[x.index])
      && forall j :: 0 <= j < x.index ==> !IsLiteral(env, base, v, literals[j])
    case TVector(e) =>
      && v.Arr? && x.VVector? && |x.elements| == |v.elems|
      && forall i :: 0 <= i < |v.elems| ==>
           Represents(env, e, v.elems[i], if i < |out.elements| then out.elements[i] else Default(env, e),
                      x.elements[i])
    case TTuple(ts) =>
      && v.Arr? && x.VTuple? && |x.elements| == |v.elems| == |ts|
      && forall i :: 0 <= i < |ts| ==> Represents(env, ts[i], v.elems[i], out.elements[i], x.elements[i])
    case TMap(e) =>
      && v.Obj? && x.VMap? && x.entries.Keys == out.entries.Keys + v.members.Keys
      && (forall k :: k in v.members ==> EntryRepresents(env, e, v, out, k, x.entries[k]))
      && (forall k :: k in out.entries && k !in v.members ==> x.entries[k] == out.entries[k])
    case TOneOf(ts) => OneOfRepresents(env, ts, v, x)
    case TNamed(n) =>
      n in env.declarations && env.DeclarationOk(n) &&
      (match env.declarations[n]
       case Alias(ty) => Represents(env, ty, v, out, x)
       case Structure(_, _, _) => StructRepresents(env, n, v, out, x))
  }

  ghost predicate EntryRepresents(env: Env, e: Schema, v: Json, out: Value, k: string, entry: Value)
    requires env.WellFormed() && HasType(env, TMap(e), out) && v.Obj? && k in v.members
    decreases v, 0
  {
    Represents(env, e, v.members[k], if k in out.entries then out.entries[k] else Default(env, e), entry)
  }

  ghost predicate OneOfRepresents(env: Env, ts: seq<Schema>, v: Json, x: Value)
    requires env.WellFormed()
    decreases v, env.LevelOf(ts) + 1, TOneOf(ts), 0
  {
    && x.VOneOf? && x.choice < |ts|
    && Represents(env, ts[x.choice], v, Default(env, ts[x.choice]), x.payload)
    && forall j :: 0 <= j < x.choice ==> !Conforms(env, ts[j], v)
  }

  /** Every member of the structure and every base is what the one object v says of it. */
  ghost predicate StructRepresents(env: Env, n: string, v: Json, out: Value, x: Value)
    requires env.WellFormed() && env.IsStruct(n) && StructHasType(env, n, out)
    decreases v, env.Rank(n) + 1, TNamed(n), 0
  {
    assert env.DeclarationOk(n);
    var Structure(kind, ps, exts) := env.declarations[n];
    && v.Obj? && x.VStruct? && |x.fields| == |ps| && |x.bases| == |exts|
    && (kind.Some? ==> "kind" in v.members && v.members["kind"] == Str(kind.value))
    && (forall i :: 0 <= i < |ps| ==> FieldRepresents(env, ps[i], v, out.fields[i], x.fields[i]))
    && (forall i :: 0 <= i < |exts| ==> StructRepresents(env, exts[i], v, out.bases[i], x.bases[i]))
  }

  /** A member that v names is what v says, an optional one afresh; an optional one that it does not
      name stays as it was. */
  ghost predicate FieldRepresents(env: Env, p: Property, v: Json, f: Field, g: Field)
    requires env.WellFormed() && v.Obj? && FieldHasType(env, p, f)
    decreases v, 0, TNull, 0
  {
    if p.name in v.members then
      g.Present? &&
      Represents(env, p.ty, v.members[p.name], if p.optional then Default(env, p.ty) else f.value, g.value)
    else p.optional && g == f
  }

  // ---- Decoding computes it ----

  lemma LiteralIsRead(env: Env, base: Schema, v: Json, l: Literal)
    ensures IsLiteral(env, base, v, l) <==> ReadLiteral(env, base, v) == Some(l)
  {
  }

  lemma EnumRepresents(env: Env, base: Schema, literals: seq<Literal>, v: Json, x: Value)
    ensures DecodedPrimitive(env, TEnum(base, literals), v) == Some(x) <==>
            && x.VEnum? && x.index < |literals| && IsLiteral(env, base, v, literals[x.index])
            && forall j :: 0 <= j < x.index ==> !IsLiteral(env, base, v, literals[j])
  {
    hide IsLiteral, ReadLiteral;
    forall l ensures IsLiteral(env, base, v, l) <==> ReadLiteral(env, base, v) == Some(l) {
      LiteralIsRead(env, base, v, l);
    }
    if x.VEnum? && x.index < |literals| && IsLiteral(env, base, v, literals[x.index])
       && forall j :: 0 <= j < x.index ==> !IsLiteral(env, base, v, literals[j])
    {
      IndexOfFirst(literals, x.index);
    }
  }

  lemma PrimitiveRepresents(env: Env, t: Schema, v: Json, out: Value, x: Value)
    requires env.WellFormed() && HasType(env, t, out) && IsPrimitive(t)
    ensures DecodedPrimitive(env, t, v) == Some(x) <==> Represents(env, t, v, out, x)
  {
    if t.TEnum? {
      EnumRepresents(env, t.base, t.literals, v, x);
    }
  }

  /** Decoding v into an object leaves x there exactly when x is what v says over that object. */
  lemma {:induction false} DecodedIffRepresents(env: Env, t: Schema, v: Json, out: Value, x: Value)
    requires env.WellFormed() && HasType(env, t, out)
    ensures Decoded(env, t, v, out) == Some(x) <==> Represents(env, t, v, out, x)
    decreases v, env.Level(t) + 1, t, 1
  {
    hide HasType, DecodedVector, DecodedTuple, DecodedMap, DecodedFrom, DecodedStruct, DecodedPrimitive, Default;
    match t
    case TVector(e) => VectorRepresents(env, e, v, out, x);
    case TTuple(ts) => TupleRepresents(env, ts, v, out, x);
    case TMap(e) => MapRepresents(env, e, v, out, x);
    case TOneOf(ts) => FirstRepresents(env, ts, v, 0, x);
    case TNamed(n) => NamedRepresents(env, n, v, out, x);
    case _ => PrimitiveRepresents(env, t, v, out, x);
  }

  lemma {:induction false} VectorRepresents(env: Env, e: Schema, v: Json, out: Value, x: Value)
    requires env.WellFormed() && HasType(env, TVector(e), out)
    ensures DecodedVector(env, e, v, out) == Some(x) <==> Represents(env, TVector(e), v, out, x)
    decreases v, 0
  {
    hide Decoded, Default;
    if v.Arr? && x.VVector? && |x.elements| == |v.elems| {
      forall i | 0 <= i < |v.elems|
        ensures Decoded(env, e, v.elems[i], Slot(env, e, out.elements, i)) == Some(x.elements[i]) <==>
                Represents(env, e, v.elems[i], Slot(env, e, out.elements, i), x.elements[i])
      {
        DecodedIffRepresents(env, e, v.elems[i], Slot(env, e, out.elements, i), x.elements[i]);
      }
      if Represents(env, TVector(e), v, out, x) {
        assert DecodedVector(env, e, v, out).value.elements == x.elements;
      }
    }
  }

  lemma {:induction false} TupleRepresents(env: Env, ts: seq<Schema>, v: Json, out: Value, x: Value)
    requires env.WellFormed() && HasType(env, TTuple(ts), out)
    ensures DecodedTuple(env, ts, v, out) == Some(x) <==> Represents(env, TTuple(ts), v, out, x)
    decreases v, 0
  {
    hide Decoded;
    if v.Arr? && x.VTuple? && |x.elements| == |v.elems| == |ts| {
      forall i | 0 <= i < |ts|
        ensures Decoded(env, ts[i], v.elems[i], out.elements[i]) == Some(x.elements[i]) <==>
                Represents(env, ts[i], v.elems[i], out.elements[i], x.elements[i])
      {
        DecodedIffRepresents(env, ts[i], v.elems[i], out.elements[i], x.elements[i]);
      }
      if Represents(env, TTuple(ts), v, out, x) {
        assert DecodedTuple(env, ts, v, out).value.elements == x.elements;
      }
    }
  }

  lemma DecodedIsOverlaid(env: Env, e: Schema, v: Json, out: Value)
    requires env.WellFormed() && HasType(env, TMap(e), out) && DecodedMap(env, e, v, out).Some?
    ensures v.Obj? && Overlaid(env, e, v, out, {}, DecodedMap(env, e, v, out).value.entries)
  {
    hide HasType, Decoded, EntrySlot;
    MapHasType(env, e, out);
  }

  lemma DecodedIffOverlaid(env: Env, e: Schema, v: Json, out: Value, x: Value)
    requires env.WellFormed() && HasType(env, TMap(e), out)
    ensures DecodedMap(env, e, v, out) == Some(x) <==>
            v.Obj? && x.VMap? && Overlaid(env, e, v, out, {}, x.entries)
  {
    hide HasType, DecodedMap, Overlaid;
    if DecodedMap(env, e, v, out) == Some(x) {
      DecodedIsOverlaid(env, e, v, out);
      assert HasType(env, TMap(e), x);
      MapHasType(env, e, x);
    } else if v.Obj? && x.VMap? && Overlaid(env, e, v, out, {}, x.entries) {
      AllOverlaid(env, e, v, out, x.entries);
    }
  }

  lemma {:induction false} EntryIffRepresents(env: Env, e: Schema, v: Json, out: Value, k: string, entry: Value)
    requires env.WellFormed() && HasType(env, TMap(e), out) && v.Obj? && k in v.members
    ensures Decoded(env, e, v.members[k], EntrySlot(env, e, out.entries, k)) == Some(entry) <==>
            EntryRepresents(env, e, v, out, k, entry)
    decreases v, 0, TNull
  {
    hide Decoded, Represents, Default;
    DecodedIffRepresents(env, e, v.members[k], EntrySlot(env, e, out.entries, k), entry);
  }

  lemma {:induction false} MapRepresents(env: Env, e: Schema, v: Json, out: Value, x: Value)
    requires env.WellFormed() && HasType(env, TMap(e), out)
    ensures DecodedMap(env, e, v, out) == Some(x) <==> Represents(env, TMap(e), v, out, x)
    decreases v, 0
  {
    hide HasType, Decoded, DecodedMap, EntryRepresents, EntrySlot;
    MapHasType(env, e, out);
    DecodedIffOverlaid(env, e, v, out, x);
    if v.Obj? && x.VMap? && x.entries.Keys == out.entries.Keys + v.members.Keys {
      forall k | k in v.members
        ensures Decoded(env, e, v.members[k], EntrySlot(env, e, out.entries, k)) == Some(x.entries[k]) <==>
                EntryRepresents(env, e, v, out, k, x.entries[k])
      {
        EntryIffRepresents(env, e, v, out, k, x.entries[k]);
      }
    }
  }

  /** Type k is the first that v conforms to, so it is not among those before it. */
  lemma FirstOfItsType(env: Env, ts: seq<Schema>, v: Json, k: nat)
    requires env.WellFormed() && k < |ts| && Conforms(env, ts[k], v)
    requires forall j :: 0 <= j < k ==> !Conforms(env, ts[j], v)
    ensures IndexOf(ts, ts[k]) == k
  {
    hide Conforms;
    IndexOfFirst(ts, k);
  }

  lemma {:induction false} FirstRepresents(env: Env, ts: seq<Schema>, v: Json, k: nat, x: Value)
    requires env.WellFormed() && k <= |ts| && forall j :: 0 <= j < k ==> !Conforms(env, ts[j], v)
    ensures DecodedFrom(env, ts, v, k) == Some(x) <==> OneOfRepresents(env, ts, v, x)
    decreases v, env.LevelOf(ts) + 1, TOneOf(ts), 0, |ts| - k
  {
    hide HasType, Decoded, Represents, Conforms, Default;
    if x.VOneOf? && x.choice < |ts| {
      DecodedIffConforms(env, ts[x.choice], v, Default(env, ts[x.choice]));
      DecodedIffRepresents(env, ts[x.choice], v, Default(env, ts[x.choice]), x.payload);
    }
    if k == |ts| {
    } else {
      DecodedIffConforms(env, ts[k], v, Default(env, ts[k]));
      if Conforms(env, ts[k], v) {
        FirstOfItsType(env, ts, v, k);
      } else {
        FirstRepresents(env, ts, v, k + 1, x);
      }
    }
  }

  lemma AliasRepresents(env: Env, n: string, v: Json, out: Value, x: Value)
    requires env.WellFormed() && env.IsAlias(n) && HasType(env, TNamed(n), out)
    requires HasType(env, env.declarations[n].ty, out)
    ensures Represents(env, TNamed(n), v, out, x) <==> Represents(env, env.declarations[n].ty, v, out, x)
  {
    hide HasType;
    assert env.DeclarationOk(n);
  }

  lemma StructureRepresents(env: Env, n: string, v: Json, out: Value, x: Value)
    requires env.WellFormed() && env.IsStruct(n) && HasType(env, TNamed(n), out) && StructHasType(env, n, out)
    ensures Represents(env, TNamed(n), v, out, x) <==> StructRepresents(env, n, v, out, x)
  {
    hide HasType, StructHasType, StructRepresents;
    assert env.DeclarationOk(n);
  }

  lemma {:induction false} NamedRepresents(env: Env, n: string, v: Json, out: Value, x: Value)
    requires env.WellFormed() && HasType(env, TNamed(n), out)
    ensures Decoded(env, TNamed(n), v, out) == Some(x) <==> Represents(env, TNamed(n), v, out, x)
    decreases v, env.Rank(n) + 1, TNamed(n), 0
  {
    if env.IsAlias(n) {
      hide HasType, Decoded, Represents;
      assert env.DeclarationOk(n);
      AliasHasType(env, n, out);
      AliasDecoded(env, n, v, out);
      AliasRepresents(env, n, v, out, x);
      DecodedIffRepresents(env, env.declarations[n].ty, v, out, x);
    } else if env.IsStruct(n) {
      hide HasType, StructHasType, Decoded, DecodedStruct, Represents, StructRepresents;
      StructureHasType(env, n, out);
      StructureDecoded(env, n, v, out);
      StructureRepresents(env, n, v, out, x);
      DecodedStructIffRepresents(env, n, v, out, x);
    }
  }

  lemma DecodedStructParts(env: Env, n: string, v: Json, out: Value, x: Value)
    requires env.WellFormed() && env.IsStruct(n) && StructHasType(env, n, out)
    ensures DecodedStruct(env, n, v, out) == Some(x) <==>
            var kind := env.declarations[n].kind;
            && v.Obj? && x.VStruct? && (kind.Some? ==> "kind" in v.members && v.members["kind"] == Str(kind.value))
            && DecodedFields(env, env.declarations[n].properties, v, out.fields) == Some(x.fields)
            && DecodedBases(env, n, v, out.bases) == Some(x.bases)
  {
    hide DecodedFields, DecodedBases, FieldHasType;
  }

  lemma {:induction false} DecodedStructIffRepresents(env: Env, n: string, v: Json, out: Value, x: Value)
    requires env.WellFormed() && env.IsStruct(n) && StructHasType(env, n, out)
    ensures DecodedStruct(env, n, v, out) == Some(x) <==> StructRepresents(env, n, v, out, x)
    decreases v, env.Rank(n) + 1, TNamed(n), 0, 2
  {
    hide DecodedFields, DecodedBases, DecodedStruct, FieldHasType, FieldRepresents;
    assert env.DeclarationOk(n);
    DecodedStructParts(env, n, v, out, x);
    if v.Obj? && x.VStruct? {
      FieldsRepresent(env, env.declarations[n].properties, v, out.fields, x.fields);
      BasesRepresent(env, n, v, out, x.bases);
    }
  }

  lemma {:induction false} FieldsRepresent(env: Env, ps: seq<Property>, v: Json, fields: seq<Field>, gs: seq<Field>)
    requires env.WellFormed() && v.Obj? && |fields| == |ps|
    requires forall i :: 0 <= i < |ps| ==> FieldHasType(env, ps[i], fields[i])
    ensures DecodedFields(env, ps, v, fields) == Some(gs) <==>
            |gs| == |ps| && forall i :: 0 <= i < |ps| ==> FieldRepresents(env, ps[i], v, fields[i], gs[i])
    decreases v, 0, TNull, 1
  {
    hide FieldHasType, FieldRepresents, DecodedField;
    if |gs| == |ps| {
      forall i | 0 <= i < |ps|
        ensures DecodedField(env, ps[i], v, fields[i]) == Some(gs[i]) <==>
                FieldRepresents(env, ps[i], v, fields[i], gs[i])
      {
        DecodedFieldIffRepresents(env, ps[i], v, fields[i], gs[i]);
      }
      if forall i :: 0 <= i < |ps| ==> DecodedField(env, ps[i], v, fields[i]) == Some(gs[i]) {
        assert DecodedFields(env, ps, v, fields).value == gs;
      }
    }
  }

  lemma {:induction false} DecodedFieldIffRepresents(env: Env, p: Property, v: Json, f: Field, g: Field)
    requires env.WellFormed() && v.Obj? && FieldHasType(env, p, f)
    ensures DecodedField(env, p, v, f) == Some(g) <==> FieldRepresents(env, p, v, f, g)
    decreases v, 0, TNull, 0
  {
    hide HasType, Decoded, Represents, Default;
    if p.name in v.members && g.Present? {
      DecodedIffRepresents(env, p.ty, v.members[p.name], FieldSlot(env, p, f), g.value);
    }
  }

  lemma {:induction false} BasesRepresent(env: Env, n: string, v: Json, out: Value, bases: seq<Value>)
    requires env.WellFormed() && env.IsStruct(n) && StructHasType(env, n, out)
    ensures DecodedBases(env, n, v, out.bases) == Some(bases) <==>
            var exts := env.declarations[n].parents;
            |bases| == |exts| &&
            forall i :: 0 <= i < |exts| ==>
              && env.IsStruct(exts[i]) && StructHasType(env, exts[i], out.bases[i])
              && StructRepresents(env, exts[i], v, out.bases[i], bases[i])
    decreases v, env.Rank(n) + 1, TNamed(n), 0, 1
  {
    hide DecodedStruct, StructRepresents, FieldHasType;
    assert env.DeclarationOk(n);
    var exts := env.declarations[n].parents;
    if |bases| == |exts| {
      forall i | 0 <= i < |exts|
        ensures DecodedStruct(env, exts[i], v, out.bases[i]) == Some(bases[i]) <==>
                StructRepresents(env, exts[i], v, out.bases[i], bases[i])
      {
        DecodedStructIffRepresents(env, exts[i], v, out.bases[i], bases[i]);
      }
      if forall i :: 0 <= i < |exts| ==> DecodedStruct(env, exts[i], v, out.bases[i]) == Some(bases[i]) {
        assert DecodedBases(env, n, v, out.bases).value == bases;
      }
    }
  }

  /** Some object is what v says exactly when v conforms to the type, and then only one. */
  lemma RepresentedConforms(env: Env, t: Schema, v: Json, out: Value, x: Value)
    requires env.WellFormed() && HasType(env, t, out) && Represents(env, t, v, out, x)
    ensures Conforms(env, t, v)
  {
    hide *;
    DecodedIffConforms(env, t, v, out);
    DecodedIffRepresents(env, t, v, out, x);
  }

  lemma ConformingIsRepresented(env: Env, t: Schema, v: Json, out: Value) returns (x: Value)
    requires env.WellFormed() && HasType(env, t, out) && Conforms(env, t, v)
    ensures Represents(env, t, v, out, x)
  {
    hide *;
    DecodedIffConforms(env, t, v, out);
    x := Decoded(env, t, v, out).value;
    DecodedIffRepresents(env, t, v, out, x);
  }

  lemma RepresentsOne(env: Env, t: Schema, v: Json, out: Value, x: Value, y: Value)
    requires env.WellFormed() && HasType(env, t, out)
    requires Represents(env, t, v, out, x) && Represents(env, t, v, out, y)
    ensures x == y
  {
    hide HasType, Decoded, Represents;
    DecodedIffRepresents(env, t, v, out, x);
    DecodedIffRepresents(env, t, v, out, y);
  }

  // ---- A fresh object ----

  /** Every number in x is zero, every string, list, map and OneOf in it is empty, no optional member is
      there, and every enum is its first enumerator. */
  ghost predicate Blank(env: Env, t: Schema, x: Value)
    requires env.WellFormed() && HasType(env, t, x)
    decreases x, env.Level(t), t
  {
    match t
    case TNull => true
    case TBoolean => !x.b
    case TInteger => x.i == 0
    case TUinteger => x.u == 0
    case TDecimal => x.d.bits == 0
    case TString => x.s == ""
    case TEnum(_, _) => x.index == 0
    case TVector(_) => x.elements == []
    case TTuple(ts) => forall i :: 0 <= i < |ts| ==> Blank(env, ts[i], x.elements[i])
    case TMap(_) => x.entries.Keys == {}
    case TOneOf(_) => x.VEmpty?
    case TNamed(n) =>
      if n !in env.declarations then true
      else
        assert env.DeclarationOk(n);
        (match env.declarations[n]
         case Alias(ty) => Blank(env, ty, x)
         case Structure(_, _, _) => BlankStruct(env, n, x))
  }

  ghost predicate BlankStruct(env: Env, n: string, x: Value)
    requires env.WellFormed() && env.IsStruct(n) && StructHasType(env, n, x)
    decreases x, env.Rank(n), TNamed(n), 0
  {
    var Structure(_, ps, exts) := env.declarations[n];
    && (forall i :: 0 <= i < |ps| ==> BlankField(env, ps[i], x.fields[i]))
    && (forall i :: 0 <= i < |exts| ==> BlankStruct(env, exts[i], x.bases[i]))
  }

  ghost predicate BlankField(env: Env, p: Property, f: Field)
    requires env.WellFormed() && FieldHasType(env, p, f)
    decreases f
  {
    if p.optional then f.Absent? else Blank(env, p.ty, f.value)
  }

  lemma LeafDefaultIffBlank(env: Env, t: Schema, x: Value)
    requires env.WellFormed() && HasType(env, t, x) && !t.TTuple? && !t.TNamed?
    ensures x == Default(env, t) <==> Blank(env, t, x)
  {
  }

  /** A value-initialised object is blank, and the only one of its type that is. */
  lemma {:induction false} DefaultIffBlank(env: Env, t: Schema, x: Value)
    requires env.WellFormed() && HasType(env, t, x)
    ensures x == Default(env, t) <==> Blank(env, t, x)
    decreases x, env.Level(t) + 1, t, 1
  {
    hide HasType, Default, Blank;
    match t
    case TTuple(ts) => TupleDefaultIffBlank(env, ts, x);
    case TNamed(n) => NamedDefaultIffBlank(env, n, x);
    case _ => LeafDefaultIffBlank(env, t, x);
  }

  lemma {:induction false} TupleDefaultIffBlank(env: Env, ts: seq<Schema>, x: Value)
    requires env.WellFormed() && HasType(env, TTuple(ts), x)
    ensures x == Default(env, TTuple(ts)) <==> Blank(env, TTuple(ts), x)
    decreases x, 0
  {
    TupleDefault(env, ts);
    forall i | 0 <= i < |ts| ensures x.elements[i] == Default(env, ts[i]) <==> Blank(env, ts[i], x.elements[i]) {
      DefaultIffBlank(env, ts[i], x.elements[i]);
    }
    if Blank(env, TTuple(ts), x) {
      assert x.elements == Default(env, TTuple(ts)).elements;
    }
  }

  lemma {:induction false} NamedDefaultIffBlank(env: Env, n: string, x: Value)
    requires env.WellFormed() && HasType(env, TNamed(n), x)
    ensures x == Default(env, TNamed(n)) <==> Blank(env, TNamed(n), x)
    decreases x, env.Rank(n) + 1, TNamed(n), 0
  {
    hide StructHasType, BlankStruct, DefaultStruct;
    if env.IsAlias(n) {
      assert env.DeclarationOk(n);
      AliasHasType(env, n, x);
      AliasDefault(env, n);
      DefaultIffBlank(env, env.declarations[n].ty, x);
    } else if env.IsStruct(n) {
      StructureHasType(env, n, x);
      StructureDefault(env, n);
      StructDefaultIffBlank(env, n, x);
    }
  }

  lemma {:induction false} StructDefaultIffBlank(env: Env, n: string, x: Value)
    requires env.WellFormed() && env.IsStruct(n) && StructHasType(env, n, x)
    ensures x == DefaultStruct(env, n) <==> BlankStruct(env, n, x)
    decreases x, env.Rank(n), TNamed(n)
  {
    hide HasType, BlankField;
    assert env.DeclarationOk(n);
    var Structure(_, ps, exts) := env.declarations[n];
    var d := DefaultStruct(env, n);
    forall i | 0 <= i < |ps| ensures x.fields[i] == d.fields[i] <==> BlankField(env, ps[i], x.fields[i]) {
      FieldDefaultIffBlank(env, ps[i], x.fields[i]);
    }
    forall i | 0 <= i < |exts| ensures x.bases[i] == d.bases[i] <==> BlankStruct(env, exts[i], x.bases[i]) {
      StructureDefault(env, exts[i]);
      StructDefaultIffBlank(env, exts[i], x.bases[i]);
    }
    if BlankStruct(env, n, x) {
      assert x.fields == d.fields && x.bases == d.bases;
    }
  }

  lemma {:induction false} FieldDefaultIffBlank(env: Env, p: Property, f: Field)
    requires env.WellFormed() && FieldHasType(env, p, f)
    ensures f == (if p.optional then Absent else Present(Default(env, p.ty))) <==> BlankField(env, p, f)
    decreases f
  {
    hide HasType, Default, Blank;
    if !p.optional {
      DefaultIffBlank(env, p.ty, f.value);
    }
  }
}
