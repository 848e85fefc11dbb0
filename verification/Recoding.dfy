/** A value that was decoded, and is encoded and decoded again. */
module Recoding {
  import opened Results
  import opened Json
  import opened Schemas
  import opened Decoding
  import opened Encoding
  import opened RoundTrip

  /** What decoding v into a default object leaves there. */
  ghost function Fresh(env: Env, t: Schema, v: Json): (x: Option<Value>)
    requires env.WellFormed()
    ensures x.Some? ==> HasType(env, t, x.value)
  {
    Decoded(env, t, v, Default(env, t))
  }

  ghost function FreshStruct(env: Env, n: string, v: Json): (x: Option<Value>)
    requires env.WellFormed() && env.IsStruct(n)
    ensures x.Some? ==> StructHasType(env, n, x.value)
  {
    StructureHasType(env, n, Default(env, TNamed(n)));
    DecodedStruct(env, n, v, Default(env, TNamed(n)))
  }

  /** In v, wherever a OneOf is decoded, no alternative that refuses what is there accepts it once the
      alternative taken has been encoded again, without what that one ignores. */
  ghost predicate Steady(env: Env, t: Schema, v: Json)
    requires env.WellFormed()
    decreases v, env.Level(t) + 1, t, 1
  {
    match t
    case TVector(e) => v.Arr? ==> forall i :: 0 <= i < |v.elems| ==> Steady(env, e, v.elems[i])
    case TTuple(ts) =>
      v.Arr? && |v.elems| == |ts| ==> forall i :: 0 <= i < |ts| ==> Steady(env, ts[i], v.elems[i])
    case TMap(e) => v.Obj? ==> forall k :: k in v.members ==> Steady(env, e, v.members[k])
    case TOneOf(ts) =>
      var x := DecodedFrom(env, ts, v, 0);
      x.Some? && x.value.VOneOf? ==>
        Steady(env, ts[x.value.choice], v) && NoEarlierMatch(env, ts, x.value.choice, x.value.payload)
    case TNamed(n) =>
      if n !in env.declarations then true
      else
        assert env.DeclarationOk(n);
        (match env.declarations[n]
         case Alias(ty) => Steady(env, ty, v)
         case Structure(_, _, _) => SteadyStruct(env, n, v))
    case _ => true
  }

  ghost predicate SteadyStruct(env: Env, n: string, v: Json)
    requires env.WellFormed() && env.IsStruct(n)
    decreases v, env.Rank(n) + 1, TNamed(n), 0
  {
    assert env.DeclarationOk(n);
    var Structure(_, ps, exts) := env.declarations[n];
    v.Obj? ==>
      && (forall i :: 0 <= i < |ps| && ps[i].name in v.members ==> Steady(env, ps[i].ty, v.members[ps[i].name]))
      && (forall i :: 0 <= i < |exts| ==> SteadyStruct(env, exts[i], v))
  }

  // ---- A tag that is read is written again ----

  lemma AliasIsFresh(env: Env, n: string, v: Json)
    requires env.WellFormed() && env.IsAlias(n)
    ensures Fresh(env, TNamed(n), v) == Fresh(env, env.declarations[n].ty, v)
  {
    hide HasType, Decoded, Default;
    AliasDefault(env, n);
    AliasHasType(env, n, Default(env, TNamed(n)));
    AliasDecoded(env, n, v, Default(env, TNamed(n)));
  }

  /** A string is decoded to an object that is encoded as the same string. */
  lemma {:induction false} StringIsKept(env: Env, t: Schema, s: string, x: Value)
    requires env.WellFormed() && Fresh(env, t, Str(s)) == Some(x)
    ensures Encoded(env, t, x) == Some(Str(s))
    decreases env.Level(t), t
  {
    hide StructHasType, DecodedVector, DecodedTuple, DecodedMap, DecodedStruct, Written, Default;
    DecodedIffConforms(env, t, Str(s), Default(env, t));
    match t
    case TOneOf(ts) =>
      FirstMatch(env, ts, Str(s), 0);
      StringIsKept(env, ts[x.choice], s, x.payload);
    case TNamed(n) =>
      if env.IsAlias(n) {
        assert env.DeclarationOk(n);
        AliasIsFresh(env, n, Str(s));
        AliasHasType(env, n, x);
        AliasEncoded(env, n, x);
        StringIsKept(env, env.declarations[n].ty, s, x);
      }
    case _ =>
  }

  lemma OneOfIsFresh(env: Env, ts: seq<Schema>, v: Json)
    requires env.WellFormed()
    ensures Fresh(env, TOneOf(ts), v) == DecodedFrom(env, ts, v, 0)
  {
    hide HasType, DecodedFrom, Default;
  }

  lemma StructureIsFresh(env: Env, n: string, v: Json)
    requires env.WellFormed() && env.IsStruct(n)
    ensures Fresh(env, TNamed(n), v) == FreshStruct(env, n, v)
  {
    hide HasType, StructHasType, Decoded, DecodedStruct, Default;
    StructureHasType(env, n, Default(env, TNamed(n)));
    StructureDecoded(env, n, v, Default(env, TNamed(n)));
  }

  /** The members of a structure that was decoded, each decoded by itself. */
  lemma FreshFields(env: Env, n: string, m: map<string, Json>, x: Value)
    requires env.WellFormed() && env.IsStruct(n) && FreshStruct(env, n, Obj(m)) == Some(x)
    ensures var ps := env.declarations[n].properties;
            && x.VStruct? && |x.fields| == |ps|
            && forall i :: 0 <= i < |ps| ==>
                 if ps[i].name in m
                 then x.fields[i].Present? && Fresh(env, ps[i].ty, m[ps[i].name]) == Some(x.fields[i].value)
                 else x.fields[i].Absent?
  {
    hide Decoded;
    var ps, out := env.declarations[n].properties, Default(env, TNamed(n));
    StructureHasType(env, n, out);
    StructureDefault(env, n);
    DecodedFieldObjects(env, n, m, x);
    forall i | 0 <= i < |ps|
      ensures if ps[i].name in m
              then x.fields[i].Present? && Fresh(env, ps[i].ty, m[ps[i].name]) == Some(x.fields[i].value)
              else x.fields[i].Absent?
    {
      assert DecodedField(env, ps[i], Obj(m), out.fields[i]) == Some(x.fields[i]);
    }
  }

  lemma FreshBases(env: Env, n: string, m: map<string, Json>, x: Value)
    requires env.WellFormed() && env.IsStruct(n) && FreshStruct(env, n, Obj(m)) == Some(x)
    ensures var exts := env.declarations[n].parents;
            && x.VStruct? && |x.bases| == |exts|
            && forall i :: 0 <= i < |exts| ==>
                 && env.IsStruct(exts[i]) && env.Rank(exts[i]) < env.Rank(n)
                 && FreshStruct(env, exts[i], Obj(m)) == Some(x.bases[i])
  {
    hide HasType, StructHasType, DecodedStruct, Default;
    assert env.DeclarationOk(n);
    StructureHasType(env, n, Default(env, TNamed(n)));
    DecodedBaseObjects(env, n, m, x);
  }

  lemma FreshTag(env: Env, n: string, m: map<string, Json>)
    requires env.WellFormed() && env.IsStruct(n) && FreshStruct(env, n, Obj(m)).Some?
    ensures TagBack(env, n, m)
  {
    hide HasType, StructHasType, DecodedFields, DecodedBases, Default;
    StructureHasType(env, n, Default(env, TNamed(n)));
  }

  /** With no member of its name, the tag is what a structure writes. */
  lemma OwnKindOnly(env: Env, n: string, x: Value)
    requires env.WellFormed() && env.IsStruct(n) && StructHasType(env, n, x) && Written(env, n, x).Some?
    requires Owns(env, n, "kind") && !InheritsKind(env, n)
    requires forall i :: 0 <= i < |env.declarations[n].properties| ==> env.declarations[n].properties[i].name != "kind"
    ensures env.declarations[n].kind.Some?
    ensures var w := Written(env, n, x).value; "kind" in w && w["kind"] == Str(env.declarations[n].kind.value)
  {
    hide StructHasType, WrittenFields, WrittenBases;
    var Structure(_, ps, exts) := env.declarations[n];
    if "kind" in WrittenFields(env, n, x, |ps|).value {
      WrittenFieldIsOwned(env, n, x, |ps|, "kind");
    }
    if "kind" in WrittenBases(env, n, x, |exts|).value {
      WrittenBaseIsOwned(env, n, x, |exts|, "kind");
    }
  }

  /** A structure decoded from an object with the string s as its `kind` writes s there, wherever among
      the structure and its bases that name is known. */
  lemma {:induction false} KindIsKept(env: Env, R: set<string>, n: string, m: map<string, Json>, s: string, x: Value)
    requires Regular(env, R) && n in R && env.IsStruct(n) && FreshStruct(env, n, Obj(m)) == Some(x)
    requires "kind" in m && m["kind"] == Str(s) && Owns(env, n, "kind") && Written(env, n, x).Some?
    ensures "kind" in Written(env, n, x).value && Written(env, n, x).value["kind"] == Str(s)
    decreases env.Rank(n)
  {
    hide StructHasType, FreshStruct, Encoded, WrittenFields, WrittenBases, Owns, Clean;
    assert env.DeclarationOk(n);
    var Structure(kind, ps, exts) := env.declarations[n];
    if i :| 0 <= i < |ps| && ps[i].name == "kind" {
      FreshFields(env, n, m, x);
      StringIsKept(env, ps[i].ty, s, x.fields[i].value);
      FieldWritten(env, n, x, i);
      if "kind" in Inherited(env, n, x).value {
        WrittenBaseIsOwned(env, n, x, |exts|, "kind");
      }
    } else if i :| 0 <= i < |exts| && Owns(env, exts[i], "kind") {
      FreshBases(env, n, m, x);
      BaseIsWritten(env, n, x, i);
      KindIsKept(env, R, exts[i], m, s, x.bases[i]);
      BaseWritten(env, n, x, |exts|, i, "kind");
    } else {
      OwnKindOnly(env, n, x);
      FreshTag(env, n, m);
    }
  }

  /** What was decoded holds its tags. */
  lemma FreshTagIsSettled(env: Env, R: set<string>, n: string, m: map<string, Json>, x: Value)
    requires Regular(env, R) && n in R && env.IsStruct(n) && FreshStruct(env, n, Obj(m)) == Some(x)
    requires Written(env, n, x).Some?
    ensures TagSettled(env, n, x)
  {
    hide StructHasType, FreshStruct, Encoded, WrittenFields, WrittenBases, Owns, Clean;
    var Structure(kind, _, exts) := env.declarations[n];
    FreshTag(env, n, m);
    FreshBases(env, n, m, x);
    if kind.Some? && InheritsKind(env, n) {
      var i :| 0 <= i < |exts| && Owns(env, exts[i], "kind");
      BaseIsWritten(env, n, x, i);
      KindIsKept(env, R, exts[i], m, kind.value, x.bases[i]);
      BaseWritten(env, n, x, |exts|, i, "kind");
    }
  }

  // ---- The theorem ----

  /** What was decoded can be encoded; and it survives that exactly when what it was decoded from is
      steady. */
  lemma {:induction false} SettledIffSteady(env: Env, R: set<string>, t: Schema, v: Json, x: Value)
    requires Regular(env, R) && Clean(env, R, t) && Fresh(env, t, v) == Some(x)
    ensures Encodable(env, t, x) && (Settled(env, t, x) <==> Steady(env, t, v))
    decreases v, env.Level(t) + 1, t, 3
  {
    hide HasType, StructHasType, DecodedVector, DecodedTuple, DecodedMap, DecodedFrom, DecodedStruct, Default;
    match t
    case TVector(e) => VectorSettledIff(env, R, e, v, x);
    case TTuple(ts) => TupleSettledIff(env, R, ts, v, x);
    case TMap(e) => MapSettledIff(env, R, e, v, x);
    case TOneOf(ts) => OneOfSettledIff(env, R, ts, v, x);
    case TNamed(n) => NamedSettledIff(env, R, n, v, x);
    case _ =>
  }

  lemma FreshElements(env: Env, e: Schema, v: Json, x: Value)
    requires env.WellFormed() && Fresh(env, TVector(e), v) == Some(x)
    ensures v.Arr? && x.VVector? && |x.elements| == |v.elems|
    ensures forall i :: 0 <= i < |v.elems| ==> Fresh(env, e, v.elems[i]) == Some(x.elements[i])
  {
    hide HasType;
    var out := Default(env, TVector(e));
    VectorHasType(env, e, out);
    assert Decoded(env, TVector(e), v, out) == DecodedVector(env, e, v, out);
  }

  lemma {:induction false} VectorSettledIff(env: Env, R: set<string>, e: Schema, v: Json, x: Value)
    requires Regular(env, R) && Clean(env, R, e) && Fresh(env, TVector(e), v) == Some(x)
    ensures Encodable(env, TVector(e), x) && (Settled(env, TVector(e), x) <==> Steady(env, TVector(e), v))
    decreases v, 0
  {
    hide HasType, Fresh, Clean;
    FreshElements(env, e, v, x);
    forall i | 0 <= i < |v.elems|
      ensures Encodable(env, e, x.elements[i]) && (Settled(env, e, x.elements[i]) <==> Steady(env, e, v.elems[i]))
    {
      SettledIffSteady(env, R, e, v.elems[i], x.elements[i]);
    }
  }

  lemma FreshItems(env: Env, ts: seq<Schema>, v: Json, x: Value)
    requires env.WellFormed() && Fresh(env, TTuple(ts), v) == Some(x)
    ensures v.Arr? && x.VTuple? && |x.elements| == |v.elems| == |ts|
    ensures forall i :: 0 <= i < |ts| ==> Fresh(env, ts[i], v.elems[i]) == Some(x.elements[i])
  {
    hide HasType;
    var out := Default(env, TTuple(ts));
    TupleDefault(env, ts);
    TupleHasType(env, ts, out);
    assert Decoded(env, TTuple(ts), v, out) == DecodedTuple(env, ts, v, out);
  }

  lemma {:induction false} TupleSettledIff(env: Env, R: set<string>, ts: seq<Schema>, v: Json, x: Value)
    requires Regular(env, R) && Clean(env, R, TTuple(ts)) && Fresh(env, TTuple(ts), v) == Some(x)
    ensures Encodable(env, TTuple(ts), x) && (Settled(env, TTuple(ts), x) <==> Steady(env, TTuple(ts), v))
    decreases v, 0
  {
    hide HasType, Fresh;
    FreshItems(env, ts, v, x);
    forall i | 0 <= i < |ts|
      ensures Encodable(env, ts[i], x.elements[i])
      ensures Settled(env, ts[i], x.elements[i]) <==> Steady(env, ts[i], v.elems[i])
    {
      SettledIffSteady(env, R, ts[i], v.elems[i], x.elements[i]);
    }
  }

  lemma FreshEntries(env: Env, e: Schema, v: Json, x: Value)
    requires env.WellFormed() && Fresh(env, TMap(e), v) == Some(x)
    ensures v.Obj? && x.VMap? && x.entries.Keys == v.members.Keys
    ensures forall k :: k in v.members ==> Fresh(env, e, v.members[k]) == Some(x.entries[k])
  {
    hide HasType;
    var out := Default(env, TMap(e));
    MapHasType(env, e, out);
    assert Decoded(env, TMap(e), v, out) == DecodedMap(env, e, v, out);
  }

  lemma {:induction false} MapSettledIff(env: Env, R: set<string>, e: Schema, v: Json, x: Value)
    requires Regular(env, R) && Clean(env, R, e) && Fresh(env, TMap(e), v) == Some(x)
    ensures Encodable(env, TMap(e), x) && (Settled(env, TMap(e), x) <==> Steady(env, TMap(e), v))
    decreases v, 0
  {
    hide HasType, Fresh, Clean;
    FreshEntries(env, e, v, x);
    forall k | k in v.members
      ensures Encodable(env, e, x.entries[k]) && (Settled(env, e, x.entries[k]) <==> Steady(env, e, v.members[k]))
    {
      SettledIffSteady(env, R, e, v.members[k], x.entries[k]);
    }
  }

  lemma {:induction false} OneOfSettledIff(env: Env, R: set<string>, ts: seq<Schema>, v: Json, x: Value)
    requires Regular(env, R) && Clean(env, R, TOneOf(ts)) && Fresh(env, TOneOf(ts), v) == Some(x)
    ensures Encodable(env, TOneOf(ts), x) && (Settled(env, TOneOf(ts), x) <==> Steady(env, TOneOf(ts), v))
    decreases v, env.LevelOf(ts) + 1, TOneOf(ts), 2
  {
    hide Default, DecodedFrom, Conforms, NoEarlierMatch;
    FirstMatch(env, ts, v, 0);
    SettledIffSteady(env, R, ts[x.choice], v, x.payload);
  }

  lemma AliasSteady(env: Env, n: string, v: Json)
    requires env.WellFormed() && env.IsAlias(n)
    ensures Steady(env, TNamed(n), v) <==> Steady(env, env.declarations[n].ty, v)
  {
    assert env.DeclarationOk(n);
  }

  lemma StructureSteady(env: Env, n: string, v: Json)
    requires env.WellFormed() && env.IsStruct(n)
    ensures Steady(env, TNamed(n), v) <==> SteadyStruct(env, n, v)
  {
    hide SteadyStruct;
    assert env.DeclarationOk(n);
  }

  lemma UnknownIsNotDecoded(env: Env, n: string, v: Json)
    requires env.WellFormed() && n !in env.declarations
    ensures Fresh(env, TNamed(n), v) == None
  {
  }

  lemma {:induction false} NamedSettledIff(env: Env, R: set<string>, n: string, v: Json, x: Value)
    requires Regular(env, R) && n in R && Fresh(env, TNamed(n), v) == Some(x)
    ensures Encodable(env, TNamed(n), x) && (Settled(env, TNamed(n), x) <==> Steady(env, TNamed(n), v))
    decreases v, env.Rank(n) + 1, TNamed(n), 2
  {
    hide HasType, StructHasType, Fresh, FreshStruct, Encodable, EncodableStruct;
    hide Settled, SettledStruct, Steady, SteadyStruct;
    if env.IsAlias(n) {
      assert env.DeclarationOk(n);
      AliasIsFresh(env, n, v);
      AliasHasType(env, n, x);
      AliasEncodable(env, n, x);
      AliasSettled(env, n, x);
      AliasSteady(env, n, v);
      SettledIffSteady(env, R, env.declarations[n].ty, v, x);
    } else if env.IsStruct(n) {
      StructureIsFresh(env, n, v);
      StructureHasType(env, n, x);
      StructureEncodable(env, n, x);
      StructureSettled(env, n, x);
      StructureSteady(env, n, v);
      StructSettledIff(env, R, n, v, x);
    } else {
      UnknownIsNotDecoded(env, n, v);
    }
  }

  lemma FreshIsObject(env: Env, n: string, v: Json)
    requires env.WellFormed() && env.IsStruct(n) && FreshStruct(env, n, v).Some?
    ensures v.Obj?
  {
    hide HasType, StructHasType, DecodedFields, DecodedBases, Default;
    StructureHasType(env, n, Default(env, TNamed(n)));
  }

  lemma {:induction false} StructSettledIff(env: Env, R: set<string>, n: string, v: Json, x: Value)
    requires Regular(env, R) && n in R && env.IsStruct(n) && FreshStruct(env, n, v) == Some(x)
    ensures EncodableStruct(env, n, x) && (SettledStruct(env, n, x) <==> SteadyStruct(env, n, v))
    decreases v, env.Rank(n) + 1, TNamed(n), 1
  {
    hide FreshStruct, FieldHasType, TagSettled, Written, Clean, SettledField, EncodableField;
    FreshIsObject(env, n, v);
    FreshFields(env, n, v.members, x);
    FreshBases(env, n, v.members, x);
    var Structure(_, ps, exts) := env.declarations[n];
    forall i | 0 <= i < |ps|
      ensures EncodableField(env, ps[i], x.fields[i])
      ensures SettledField(env, ps[i], x.fields[i]) <==>
              (ps[i].name in v.members ==> Steady(env, ps[i].ty, v.members[ps[i].name]))
    {
      FieldSettledIff(env, R, ps[i], v, x.fields[i]);
    }
    forall i | 0 <= i < |exts|
      ensures EncodableStruct(env, exts[i], x.bases[i])
      ensures SettledStruct(env, exts[i], x.bases[i]) <==> SteadyStruct(env, exts[i], v)
    {
      StructSettledIff(env, R, exts[i], v, x.bases[i]);
    }
    WrittenIffEncodable(env, n, x);
    FreshTagIsSettled(env, R, n, v.members, x);
  }

  lemma {:induction false} FieldSettledIff(env: Env, R: set<string>, p: Property, v: Json, f: Field)
    requires Regular(env, R) && Clean(env, R, p.ty) && v.Obj? && FieldHasType(env, p, f)
    requires if p.name in v.members
             then f.Present? && Fresh(env, p.ty, v.members[p.name]) == Some(f.value)
             else f.Absent?
    ensures EncodableField(env, p, f)
    ensures SettledField(env, p, f) <==> (p.name in v.members ==> Steady(env, p.ty, v.members[p.name]))
    decreases v, 0
  {
    hide Fresh, Encodable, Settled, Steady, HasType, Clean;
    if p.name in v.members {
      SettledIffSteady(env, R, p.ty, v.members[p.name], f.value);
    }
  }

  /** Decoding, encoding and decoding again gives the same object exactly when v is steady. */
  lemma DecodedSurvivesIff(env: Env, R: set<string>, t: Schema, v: Json, x: Value)
    requires Regular(env, R) && Clean(env, R, t) && Fresh(env, t, v) == Some(x)
    ensures Encoded(env, t, x).Some?
    ensures RoundTrips(env, t, x) <==> Steady(env, t, v)
  {
    hide HasType, Fresh, Encodable, Encoded, Settled, Steady, Clean, RoundTrips;
    SettledIffSteady(env, R, t, v, x);
    EncodedIffEncodable(env, t, x);
    RoundTripIff(env, R, t, x);
  }

  /** With separated alternatives everything that can be decoded survives. */
  lemma SeparatedDecodedSurvives(env: Env, R: set<string>, t: Schema, v: Json, x: Value)
    requires Regular(env, R) && Clean(env, R, t) && Fresh(env, t, v) == Some(x)
    requires Separated(env, t) && SeparatedDeclarations(env, R)
    ensures RoundTrips(env, t, x)
  {
    hide HasType, Fresh, Encodable, Settled, Steady, Clean, Separated, SeparatedDeclarations, RoundTrips;
    SettledIffSteady(env, R, t, v, x);
    SeparatedRoundTrip(env, R, t, x);
  }
}
