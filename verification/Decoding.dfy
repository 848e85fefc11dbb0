/** What decoding means: the value a JSON value denotes at a schema, and, written without
    reference to it, which JSON values conform to a schema. */
module Decoding {
  import opened Results
  import opened Json
  import opened Schemas

  /** The literal a JSON value holds, read through the accessor of the enum's base type. */
  function ReadLiteral(env: Env, base: Schema, v: Json): Option<Literal> {
    match (base, v)
    case (TInteger, Num(n)) => (match env.accessors.i64(n) case Some(i) => Some(IntLiteral(i)) case None => None)
    case (TUinteger, Num(n)) => (match env.accessors.u64(n) case Some(u) => Some(IntLiteral(u)) case None => None)
    case (TString, Str(s)) => Some(StringLiteral(s))
    case _ => None
  }

  predicate IsPrimitive(t: Schema) {
    t.TNull? || t.TBoolean? || t.TInteger? || t.TUinteger? || t.TDecimal? || t.TString? || t.TEnum?
  }

  /** Primitives and enums overwrite whatever they are decoded into. */
  function DecodedPrimitive(env: Env, t: Schema, v: Json): Option<Value>
    requires IsPrimitive(t)
  {
    match t
    case TNull => if v.Null? then Some(VNull) else None
    case TBoolean => if v.Bool? then Some(VBoolean(v.b)) else None
    case TInteger =>
      if v.Num? && env.accessors.i64(v.n).Some? && IsI64(env.accessors.i64(v.n).value)
      then Some(VInteger(env.accessors.i64(v.n).value)) else None
    case TUinteger =>
      if v.Num? && env.accessors.u64(v.n).Some? && IsU64(env.accessors.u64(v.n).value)
      then Some(VUinteger(env.accessors.u64(v.n).value)) else None
    case TDecimal =>
      if v.Num? && env.accessors.f64(v.n).Some? then Some(VDecimal(env.accessors.f64(v.n).value)) else None
    case TString => if v.Str? then Some(VString(v.s)) else None
    case TEnum(base, literals) =>
      var l := ReadLiteral(env, base, v);
      if l.Some? && IndexOf(literals, l.value) < |literals|
      then Some(VEnum(IndexOf(literals, l.value))) else None
  }

  /** The value that decoding v into an object holding `out` leaves there, or None when it
      fails. What `out` held shows through in absent optional members, in map entries v does
      not name, and below required members, vector elements and entries that were there. */
  ghost function Decoded(env: Env, t: Schema, v: Json, out: Value): (r: Option<Value>)
    requires env.WellFormed() && HasType(env, t, out)
    ensures r.Some? ==> HasType(env, t, r.value)
    decreases v, env.Level(t) + 1, t, 2
  {
    match t
    case TVector(e) => DecodedVector(env, e, v, out)
    case TTuple(ts) => DecodedTuple(env, ts, v, out)
    case TMap(e) => DecodedMap(env, e, v, out)
    case TOneOf(ts) => DecodedFrom(env, ts, v, 0)
    case TNamed(n) =>
      if n !in env.declarations then None
      else
        assert env.DeclarationOk(n);
        (match env.declarations[n]
         case Alias(ty) => Decoded(env, ty, v, out)
         case Structure(_, _, _) => DecodedStruct(env, n, v, out))
    case _ => DecodedPrimitive(env, t, v)
  }

  ghost function DecodedVector(env: Env, e: Schema, v: Json, out: Value): (r: Option<Value>)
    requires env.WellFormed() && HasType(env, TVector(e), out)
    ensures r.Some? ==> HasType(env, TVector(e), r.value)
    decreases v, 0
  {
    if v.Arr? && forall i :: 0 <= i < |v.elems| ==>
         Decoded(env, e, v.elems[i], Slot(env, e, out.elements, i)).Some?
    then
      Some(VVector(seq(|v.elems|, i requires 0 <= i < |v.elems| =>
        Decoded(env, e, v.elems[i], Slot(env, e, out.elements, i)).value)))
    else None
  }

  ghost function DecodedTuple(env: Env, ts: seq<Schema>, v: Json, out: Value): (r: Option<Value>)
    requires env.WellFormed() && HasType(env, TTuple(ts), out)
    ensures r.Some? ==> HasType(env, TTuple(ts), r.value)
    decreases v, 0
  {
    if v.Arr? && |v.elems| == |ts| && forall i :: 0 <= i < |ts| ==>
         Decoded(env, ts[i], v.elems[i], out.elements[i]).Some?
    then
      Some(VTuple(seq(|ts|, i requires 0 <= i < |ts| =>
        Decoded(env, ts[i], v.elems[i], out.elements[i]).value)))
    else None
  }

  ghost function DecodedMap(env: Env, e: Schema, v: Json, out: Value): (r: Option<Value>)
    requires env.WellFormed() && HasType(env, TMap(e), out)
    ensures r.Some? ==> HasType(env, TMap(e), r.value)
    decreases v, 0
  {
    if v.Obj? && forall k :: k in v.members ==>
         Decoded(env, e, v.members[k], EntrySlot(env, e, out.entries, k)).Some?
    then
      Some(VMap(map k | k in out.entries.Keys + v.members.Keys ::
        if k in v.members
        then Decoded(env, e, v.members[k], EntrySlot(env, e, out.entries, k)).value
        else out.entries[k]))
    else None
  }

  /** A structure's own members, then its bases, all read from the same object v. */
  ghost function DecodedStruct(env: Env, n: string, v: Json, out: Value): (r: Option<Value>)
    requires env.WellFormed() && env.IsStruct(n) && StructHasType(env, n, out)
    ensures r.Some? ==> StructHasType(env, n, r.value)
    decreases v, env.Rank(n) + 1, TNamed(n), 0, 1
  {
    var Structure(kind, ps, _) := env.declarations[n];
    if v.Obj? && (kind.Some? ==> "kind" in v.members && v.members["kind"] == Str(kind.value)) then
      var fields := DecodedFields(env, ps, v, out.fields);
      var bases := DecodedBases(env, n, v, out.bases);
      if fields.Some? && bases.Some? then Some(VStruct(fields.value, bases.value)) else None
    else None
  }

  ghost function DecodedFields(env: Env, ps: seq<Property>, v: Json, fields: seq<Field>): (r: Option<seq<Field>>)
    requires env.WellFormed() && v.Obj? && |fields| == |ps|
    requires forall i :: 0 <= i < |ps| ==> FieldHasType(env, ps[i], fields[i])
    ensures r.Some? ==> |r.value| == |ps| && forall i :: 0 <= i < |ps| ==> FieldHasType(env, ps[i], r.value[i])
    decreases v, 0, TNull, 1
  {
    if forall i :: 0 <= i < |ps| ==> DecodedField(env, ps[i], v, fields[i]).Some?
    then Some(seq(|ps|, i requires 0 <= i < |ps| => DecodedField(env, ps[i], v, fields[i]).value))
    else None
  }

  ghost predicate BasesHaveType(env: Env, n: string, bases: seq<Value>)
    requires env.WellFormed() && env.IsStruct(n)
  {
    var exts := env.declarations[n].parents;
    |bases| == |exts| &&
    forall i :: 0 <= i < |exts| ==> env.IsStruct(exts[i]) && StructHasType(env, exts[i], bases[i])
  }

  ghost function DecodedBases(env: Env, n: string, v: Json, bases: seq<Value>): (r: Option<seq<Value>>)
    requires env.WellFormed() && env.IsStruct(n) && BasesHaveType(env, n, bases)
    ensures r.Some? ==> BasesHaveType(env, n, r.value)
    decreases v, env.Rank(n) + 1, TNamed(n), 0, 0
  {
    assert env.DeclarationOk(n);
    var exts := env.declarations[n].parents;
    if forall i :: 0 <= i < |exts| ==> DecodedStruct(env, exts[i], v, bases[i]).Some?
    then Some(seq(|exts|, i requires 0 <= i < |exts| => DecodedStruct(env, exts[i], v, bases[i]).value))
    else None
  }

  ghost function DecodedField(env: Env, p: Property, v: Json, f: Field): (r: Option<Field>)
    requires env.WellFormed() && v.Obj? && FieldHasType(env, p, f)
    ensures r.Some? ==> FieldHasType(env, p, r.value)
    decreases v, 0, TNull, 0, 0
  {
    if p.name in v.members then
      var r := Decoded(env, p.ty, v.members[p.name], FieldSlot(env, p, f));
      if r.Some? then Some(Present(r.value)) else None
    else if p.optional then Some(f)
    else None
  }

  /** The first alternative from k on that decodes v, decoded into a fresh object. */
  ghost function DecodedFrom(env: Env, ts: seq<Schema>, v: Json, k: nat): (r: Option<Value>)
    requires env.WellFormed() && k <= |ts|
    ensures r.Some? ==> HasType(env, TOneOf(ts), r.value)
    decreases v, env.LevelOf(ts) + 1, TOneOf(ts), 0, |ts| - k
  {
    if k == |ts| then None
    else
      var r := Decoded(env, ts[k], v, Default(env, ts[k]));
      if r.Some? then Some(VOneOf(IndexOf(ts, ts[k]), r.value)) else DecodedFrom(env, ts, v, k + 1)
  }

  /** The entries after decoding the members of v outside `names` over those of out0. */
  ghost predicate Overlaid(env: Env, e: Schema, v: Json, out0: Value, names: set<string>, entries: map<string, Value>)
    requires env.WellFormed() && HasType(env, TMap(e), out0) && v.Obj?
  {
    && entries.Keys == out0.entries.Keys + (v.members.Keys - names)
    && (forall k :: k in v.members && k !in names ==>
         Decoded(env, e, v.members[k], EntrySlot(env, e, out0.entries, k)) == Some(entries[k]))
    && (forall k :: k in entries && (k in names || k !in v.members) ==> entries[k] == out0.entries[k])
  }

  lemma SomethingDecoded(env: Env, e: Schema, v: Json, out0: Value, entries: map<string, Value>)
    requires env.WellFormed() && HasType(env, TMap(e), out0) && v.Obj? && Overlaid(env, e, v, out0, {}, entries)
    ensures out0.VMap? && DecodedMap(env, e, v, out0).Some?
  {
    hide Decoded, EntrySlot;
  }

  lemma AllOverlaid(env: Env, e: Schema, v: Json, out0: Value, entries: map<string, Value>)
    requires env.WellFormed() && HasType(env, TMap(e), out0) && v.Obj? && Overlaid(env, e, v, out0, {}, entries)
    ensures DecodedMap(env, e, v, out0) == Some(VMap(entries))
  {
    hide HasType, Decoded, EntrySlot;
    SomethingDecoded(env, e, v, out0, entries);
    assert DecodedMap(env, e, v, out0).value.entries == entries;
  }

  lemma AliasDecoded(env: Env, n: string, v: Json, out: Value)
    requires env.WellFormed() && env.IsAlias(n) && HasType(env, TNamed(n), out)
    requires HasType(env, env.declarations[n].ty, out)
    ensures Decoded(env, TNamed(n), v, out) == Decoded(env, env.declarations[n].ty, v, out)
  {
    hide HasType;
  }

  lemma StructureDecoded(env: Env, n: string, v: Json, out: Value)
    requires env.WellFormed() && env.IsStruct(n) && HasType(env, TNamed(n), out) && StructHasType(env, n, out)
    ensures Decoded(env, TNamed(n), v, out) == DecodedStruct(env, n, v, out)
  {
    hide HasType, StructHasType, DecodedStruct;
  }

  /** Structure b is n itself or one of its direct or indirect bases. */
  ghost predicate Inherits(env: Env, n: string, b: string)
    requires env.WellFormed()
    decreases env.Rank(n)
  {
    n == b ||
    (env.IsStruct(n) && env.DeclarationOk(n) &&
     exists i :: 0 <= i < |env.declarations[n].parents| && Inherits(env, env.declarations[n].parents[i], b))
  }

  /** The JSON value v is a representation of some value of type t. A structure is described by
      all the members it has, its own and inherited ones alike, and its order of checks plays
      no part. */
  ghost predicate Conforms(env: Env, t: Schema, v: Json)
    requires env.WellFormed()
    decreases v, env.Level(t) + 1, t
  {
    match t
    case TNull => v.Null?
    case TBoolean => v.Bool?
    case TInteger => v.Num? && exists i :: IsI64(i) && env.accessors.i64(v.n) == Some(i)
    case TUinteger => v.Num? && exists u :: IsU64(u) && env.accessors.u64(v.n) == Some(u)
    case TDecimal => v.Num? && exists d :: env.accessors.f64(v.n) == Some(d)
    case TString => v.Str?
    case TEnum(base, literals) => exists l :: l in literals && ReadLiteral(env, base, v) == Some(l)
    case TVector(e) => v.Arr? && forall w :: w in v.elems ==> Conforms(env, e, w)
    case TTuple(ts) =>
      v.Arr? && |v.elems| == |ts| && forall i :: 0 <= i < |ts| ==> Conforms(env, ts[i], v.elems[i])
    case TMap(e) => v.Obj? && forall k :: k in v.members ==> Conforms(env, e, v.members[k])
    case TOneOf(ts) => exists j :: 0 <= j < |ts| && Conforms(env, ts[j], v)
    case TNamed(n) =>
      n in env.declarations && env.DeclarationOk(n) &&
      match env.declarations[n]
      case Alias(ty) => Conforms(env, ty, v)
      case Structure(_, _, _) => StructureConforms(env, n, v)
  }

  lemma AliasConforms(env: Env, n: string, v: Json)
    requires env.WellFormed() && env.IsAlias(n)
    ensures Conforms(env, TNamed(n), v) <==> Conforms(env, env.declarations[n].ty, v)
  {
    assert env.DeclarationOk(n);
  }

  ghost predicate StructureConforms(env: Env, n: string, v: Json)
    requires env.WellFormed()
    decreases v, 0, TNull, 1
  {
    v.Obj? && forall b :: Inherits(env, n, b) && env.IsStruct(b) ==> MembersConform(env, b, v)
  }

  lemma StructureConformsNamed(env: Env, n: string, v: Json)
    requires env.WellFormed() && env.IsStruct(n)
    ensures Conforms(env, TNamed(n), v) <==> StructureConforms(env, n, v)
  {
    hide StructureConforms;
    assert env.DeclarationOk(n);
  }

  /** The members structure n declares itself, and its `kind` tag. */
  ghost predicate MembersConform(env: Env, n: string, v: Json)
    requires env.WellFormed() && env.IsStruct(n) && v.Obj?
    decreases v, 0, TNull, 0
  {
    && (env.declarations[n].kind.Some? ==>
         "kind" in v.members && v.members["kind"] == Str(env.declarations[n].kind.value))
    && (forall i :: 0 <= i < |env.declarations[n].properties| ==>
         var p := env.declarations[n].properties[i];
         if p.name in v.members then Conforms(env, p.ty, v.members[p.name]) else p.optional)
  }

  /** A value conforms to a structure when its own members do and it conforms to every base. */
  lemma ConformsToBases(env: Env, n: string, v: Json)
    requires env.WellFormed() && env.IsStruct(n)
    ensures StructureConforms(env, n, v) <==>
            && v.Obj? && MembersConform(env, n, v)
            && forall i :: 0 <= i < |env.declarations[n].parents| ==>
                 StructureConforms(env, env.declarations[n].parents[i], v)
  {
    assert env.DeclarationOk(n);
    var exts := env.declarations[n].parents;
    if StructureConforms(env, n, v) {
      assert Inherits(env, n, n);
      forall i, b | 0 <= i < |exts| && Inherits(env, exts[i], b) ensures Inherits(env, n, b) {}
    }
    if v.Obj? && MembersConform(env, n, v) && forall i :: 0 <= i < |exts| ==> StructureConforms(env, exts[i], v) {
      forall b | Inherits(env, n, b) && env.IsStruct(b) ensures MembersConform(env, b, v) {
        if b != n {
          var i :| 0 <= i < |exts| && Inherits(env, exts[i], b);
          assert StructureConforms(env, exts[i], v);
        }
      }
    }
  }

  lemma PrimitiveIffConforms(env: Env, t: Schema, v: Json)
    requires env.WellFormed() && IsPrimitive(t)
    ensures DecodedPrimitive(env, t, v).Some? <==> Conforms(env, t, v)
  {
    if t.TEnum? {
      var l := ReadLiteral(env, t.base, v);
      if l.Some? {
        assert l.value in t.literals <==> IndexOf(t.literals, l.value) < |t.literals|;
      }
    }
  }

  /** Decoding succeeds exactly on the conforming values, whatever it decodes into. */
  lemma {:induction false} DecodedIffConforms(env: Env, t: Schema, v: Json, out: Value)
    requires env.WellFormed() && HasType(env, t, out)
    ensures Decoded(env, t, v, out).Some? <==> Conforms(env, t, v)
    decreases v, env.Level(t) + 1, t, 1
  {
    match t
    case TVector(e) => DecodedVectorIffConforms(env, e, v, out);
    case TTuple(ts) => DecodedTupleIffConforms(env, ts, v, out);
    case TMap(e) => DecodedMapIffConforms(env, e, v, out);
    case TOneOf(ts) => DecodedFromIffConforms(env, ts, v, 0);
    case TNamed(n) => DecodedNamedIffConforms(env, n, v, out);
    case _ => PrimitiveIffConforms(env, t, v);
  }

  lemma {:induction false} DecodedVectorIffConforms(env: Env, e: Schema, v: Json, out: Value)
    requires env.WellFormed() && HasType(env, TVector(e), out)
    ensures DecodedVector(env, e, v, out).Some? <==> Conforms(env, TVector(e), v)
    decreases v, 0
  {
    if v.Arr? {
      forall i | 0 <= i < |v.elems|
        ensures Decoded(env, e, v.elems[i], Slot(env, e, out.elements, i)).Some? <==>
                Conforms(env, e, v.elems[i])
      {
        DecodedIffConforms(env, e, v.elems[i], Slot(env, e, out.elements, i));
      }
    }
  }

  lemma {:induction false} DecodedTupleIffConforms(env: Env, ts: seq<Schema>, v: Json, out: Value)
    requires env.WellFormed() && HasType(env, TTuple(ts), out)
    ensures DecodedTuple(env, ts, v, out).Some? <==> Conforms(env, TTuple(ts), v)
    decreases v, 0
  {
    if v.Arr? && |v.elems| == |ts| {
      forall i | 0 <= i < |ts|
        ensures Decoded(env, ts[i], v.elems[i], out.elements[i]).Some? <==>
                Conforms(env, ts[i], v.elems[i])
      {
        DecodedIffConforms(env, ts[i], v.elems[i], out.elements[i]);
      }
    }
  }

  lemma {:induction false} DecodedMapIffConforms(env: Env, e: Schema, v: Json, out: Value)
    requires env.WellFormed() && HasType(env, TMap(e), out)
    ensures DecodedMap(env, e, v, out).Some? <==> Conforms(env, TMap(e), v)
    decreases v, 0
  {
    if v.Obj? {
      forall k | k in v.members
        ensures Decoded(env, e, v.members[k], EntrySlot(env, e, out.entries, k)).Some? <==>
                Conforms(env, e, v.members[k])
      {
        DecodedIffConforms(env, e, v.members[k], EntrySlot(env, e, out.entries, k));
      }
    }
  }

  lemma {:induction false} DecodedStructIffConforms(env: Env, n: string, v: Json, out: Value)
    requires env.WellFormed() && env.IsStruct(n) && StructHasType(env, n, out)
    ensures DecodedStruct(env, n, v, out).Some? <==> StructureConforms(env, n, v)
    decreases v, env.Rank(n) + 1, TNamed(n), 0, 0
  {
    hide Conforms, StructureConforms, FieldHasType, Decoded, DecodedField;
    assert env.DeclarationOk(n);
    var Structure(kind, ps, exts) := env.declarations[n];
    ConformsToBases(env, n, v);
    if !v.Obj? {
    } else {
      forall i | 0 <= i < |ps|
        ensures DecodedField(env, ps[i], v, out.fields[i]).Some? <==>
                if ps[i].name in v.members then Conforms(env, ps[i].ty, v.members[ps[i].name]) else ps[i].optional
      {
        DecodedFieldIffConforms(env, ps[i], v, out.fields[i]);
      }
      forall i | 0 <= i < |exts|
        ensures DecodedStruct(env, exts[i], v, out.bases[i]).Some? <==> StructureConforms(env, exts[i], v)
      {
        DecodedStructIffConforms(env, exts[i], v, out.bases[i]);
      }
    }
  }

  lemma {:induction false} DecodedFieldIffConforms(env: Env, p: Property, v: Json, f: Field)
    requires env.WellFormed() && v.Obj? && FieldHasType(env, p, f)
    ensures DecodedField(env, p, v, f).Some? <==>
            if p.name in v.members then Conforms(env, p.ty, v.members[p.name]) else p.optional
    decreases v, 0, TNull, 0, 0
  {
    if p.name in v.members {
      DecodedIffConforms(env, p.ty, v.members[p.name], FieldSlot(env, p, f));
    }
  }

  lemma {:induction false} DecodedFromIffConforms(env: Env, ts: seq<Schema>, v: Json, k: nat)
    requires env.WellFormed() && k <= |ts|
    ensures DecodedFrom(env, ts, v, k).Some? <==> exists j :: k <= j < |ts| && Conforms(env, ts[j], v)
    decreases v, env.LevelOf(ts) + 1, TOneOf(ts), 0, |ts| - k
  {
    hide Conforms, Decoded, HasType, Default;
    if k == |ts| {
    } else {
      DecodedIffConforms(env, ts[k], v, Default(env, ts[k]));
      DecodedFromIffConforms(env, ts, v, k + 1);
    }
  }

  lemma {:induction false} DecodedNamedIffConforms(env: Env, n: string, v: Json, out: Value)
    requires env.WellFormed() && HasType(env, TNamed(n), out)
    ensures Decoded(env, TNamed(n), v, out).Some? <==> Conforms(env, TNamed(n), v)
    decreases v, env.Rank(n) + 1, TNamed(n), 0
  {
    if env.IsAlias(n) {
      hide HasType, Decoded, Conforms;
      assert env.DeclarationOk(n);
      AliasHasType(env, n, out);
      AliasDecoded(env, n, v, out);
      AliasConforms(env, n, v);
      DecodedIffConforms(env, env.declarations[n].ty, v, out);
    } else if env.IsStruct(n) {
      hide HasType, StructHasType, Decoded, DecodedStruct, Conforms, StructureConforms;
      StructureHasType(env, n, out);
      StructureDecoded(env, n, v, out);
      StructureConformsNamed(env, n, v);
      DecodedStructIffConforms(env, n, v, out);
    }
  }

  /** A OneOf ends up holding its first conforming alternative, decoded afresh. */
  lemma {:induction false} FirstMatch(env: Env, ts: seq<Schema>, v: Json, k: nat)
    requires env.WellFormed() && k <= |ts| && DecodedFrom(env, ts, v, k).Some?
    requires forall j :: 0 <= j < k ==> !Conforms(env, ts[j], v)
    ensures var r := DecodedFrom(env, ts, v, k).value;
            && r.VOneOf? && k <= r.choice < |ts|
            && Decoded(env, ts[r.choice], v, Default(env, ts[r.choice])) == Some(r.payload)
            && forall j :: 0 <= j < r.choice ==> !Conforms(env, ts[j], v)
    decreases |ts| - k
  {
    DecodedIffConforms(env, ts[k], v, Default(env, ts[k]));
    if Decoded(env, ts[k], v, Default(env, ts[k])).None? {
      FirstMatch(env, ts, v, k + 1);
    } else {
      assert ts[IndexOf(ts, ts[k])] == ts[k];
    }
  }
}
