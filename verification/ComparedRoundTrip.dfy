/** The round trip as the program itself can observe it, with operator==. */
module ComparedRoundTrip {
  import opened Collections
  import opened Results
  import opened Json
  import opened Schemas
  import opened Decoding
  import opened Encoding
  import opened RoundTrip
  import opened Equality

  lemma PrimitiveBackIsExact(env: Env, t: Schema, x: Value, v: Json, y: Value)
    requires env.WellFormed() && env.accessors.Lawful() && IsPrimitive(t) && HasType(env, t, x)
    requires Encoded(env, t, x) == Some(v) && DecodedPrimitive(env, t, v) == Some(y) && Canonical(x) == Canonical(y)
    ensures x == y
  {
  }

  /** What is decoded from the encoding of x cannot differ from x in the signs of zeros only. */
  lemma {:induction false} BackIsExact(env: Env, R: set<string>, t: Schema, x: Value, v: Json, y: Value)
    requires Regular(env, R) && Clean(env, R, t) && HasType(env, t, x) && Encoded(env, t, x) == Some(v)
    requires Decoded(env, t, v, Default(env, t)) == Some(y) && Canonical(x) == Canonical(y)
    ensures x == y
    decreases x, env.Level(t) + 1, t, 2
  {
    hide HasType, Canonical, DecodedVector, DecodedTuple, DecodedMap, DecodedFrom, DecodedStruct;
    match t
    case TVector(e) => VectorBackIsExact(env, R, e, x, v, y);
    case TTuple(ts) => TupleBackIsExact(env, R, ts, x, v, y);
    case TMap(e) => MapBackIsExact(env, R, e, x, v, y);
    case TOneOf(ts) => OneOfBackIsExact(env, R, ts, x, v, y);
    case TNamed(n) => NamedBackIsExact(env, R, n, x, v, y);
    case _ => PrimitiveBackIsExact(env, t, x, v, y);
  }

  lemma {:induction false} VectorBackIsExact(env: Env, R: set<string>, e: Schema, x: Value, v: Json, y: Value)
    requires Regular(env, R) && Clean(env, R, e) && HasType(env, TVector(e), x)
    requires Encoded(env, TVector(e), x) == Some(v)
    requires DecodedVector(env, e, v, VVector([])) == Some(y) && Canonical(x) == Canonical(y)
    ensures x == y
    decreases x, 0
  {
    hide HasType, Default, Clean;
    VectorHasType(env, e, x);
    VectorHasType(env, e, VVector([]));
    forall i | 0 <= i < |x.elements| ensures i < |y.elements| && x.elements[i] == y.elements[i] {
      assert CanonicalAll(x.elements)[i] == CanonicalAll(y.elements)[i];
      BackIsExact(env, R, e, x.elements[i], v.elems[i], y.elements[i]);
    }
    SameElements(x.elements, y.elements);
  }

  lemma {:induction false} TupleBackIsExact(env: Env, R: set<string>, ts: seq<Schema>, x: Value, v: Json, y: Value)
    requires Regular(env, R) && Clean(env, R, TTuple(ts)) && HasType(env, TTuple(ts), x)
    requires Encoded(env, TTuple(ts), x) == Some(v)
    requires DecodedTuple(env, ts, v, Default(env, TTuple(ts))) == Some(y) && Canonical(x) == Canonical(y)
    ensures x == y
    decreases x, 0
  {
    hide HasType, Default;
    TupleDefault(env, ts);
    TupleHasType(env, ts, x);
    forall i | 0 <= i < |x.elements| ensures i < |y.elements| && x.elements[i] == y.elements[i] {
      assert CanonicalAll(x.elements)[i] == CanonicalAll(y.elements)[i];
      BackIsExact(env, R, ts[i], x.elements[i], v.elems[i], y.elements[i]);
    }
    SameElements(x.elements, y.elements);
  }

  lemma EmptyMap(env: Env, e: Schema)
    requires env.WellFormed()
    ensures HasType(env, TMap(e), VMap(map[]))
  {
  }

  lemma EncodedEntries(env: Env, e: Schema, x: Value, v: Json)
    requires env.WellFormed() && HasType(env, TMap(e), x) && Encoded(env, TMap(e), x) == Some(v)
    ensures x.VMap? && v.Obj? && v.members.Keys == x.entries.Keys
    ensures forall k :: k in x.entries ==> HasType(env, e, x.entries[k])
    ensures forall k :: k in x.entries ==> Encoded(env, e, x.entries[k]) == Some(v.members[k])
  {
  }

  lemma DecodedEntries(env: Env, e: Schema, m: map<string, Json>, y: Value)
    requires env.WellFormed() && HasType(env, TMap(e), VMap(map[]))
    requires DecodedMap(env, e, Obj(m), VMap(map[])) == Some(y)
    ensures y.VMap? && y.entries.Keys == m.Keys
    ensures forall k :: k in m ==> Decoded(env, e, m[k], Default(env, e)) == Some(y.entries[k])
  {
    hide Decoded, Default;
  }

  lemma {:induction false} MapBackIsExact(env: Env, R: set<string>, e: Schema, x: Value, v: Json, y: Value)
    requires Regular(env, R) && Clean(env, R, e) && HasType(env, TMap(e), x) && Encoded(env, TMap(e), x) == Some(v)
    requires DecodedMap(env, e, v, VMap(map[])) == Some(y) && Canonical(x) == Canonical(y)
    ensures x == y
    decreases x, 0, TNull, 1
  {
    hide HasType, Encoded, Decoded, DecodedMap, Default, Canonical, Clean;
    EmptyMap(env, e);
    EncodedEntries(env, e, x, v);
    DecodedEntries(env, e, v.members, y);
    forall k | k in x.entries ensures x.entries[k] == y.entries[k] {
      EntryBackIsExact(env, R, e, x, v, y, k);
    }
    assert x.entries == y.entries;
  }

  lemma {:induction false} EntryBackIsExact(env: Env, R: set<string>, e: Schema, x: Value, v: Json, y: Value, k: string)
    requires Regular(env, R) && Clean(env, R, e) && x.VMap? && k in x.entries && HasType(env, e, x.entries[k])
    requires v.Obj? && k in v.members && Encoded(env, e, x.entries[k]) == Some(v.members[k])
    requires y.VMap? && k in y.entries && Decoded(env, e, v.members[k], Default(env, e)) == Some(y.entries[k])
    requires Canonical(x) == Canonical(y)
    ensures x.entries[k] == y.entries[k]
    decreases x, 0, TNull, 0
  {
    hide HasType, Encoded, Decoded, Default, Regular, Clean;
    assert Canonical(x).entries[k] == Canonical(y).entries[k];
    BackIsExact(env, R, e, x.entries[k], v.members[k], y.entries[k]);
  }

  lemma {:induction false} OneOfBackIsExact(env: Env, R: set<string>, ts: seq<Schema>, x: Value, v: Json, y: Value)
    requires Regular(env, R) && Clean(env, R, TOneOf(ts)) && HasType(env, TOneOf(ts), x)
    requires Encoded(env, TOneOf(ts), x) == Some(v)
    requires DecodedFrom(env, ts, v, 0) == Some(y) && Canonical(x) == Canonical(y)
    ensures x == y
    decreases x, 0
  {
    hide Decoded, DecodedFrom, Default, Conforms;
    FirstMatch(env, ts, v, 0);
    BackIsExact(env, R, ts[x.choice], x.payload, v, y.payload);
  }

  lemma {:induction false} NamedBackIsExact(env: Env, R: set<string>, n: string, x: Value, v: Json, y: Value)
    requires Regular(env, R) && n in R && HasType(env, TNamed(n), x) && Encoded(env, TNamed(n), x) == Some(v)
    requires Decoded(env, TNamed(n), v, Default(env, TNamed(n))) == Some(y) && Canonical(x) == Canonical(y)
    ensures x == y
    decreases x, env.Rank(n) + 1, TNamed(n), 1
  {
    if env.IsAlias(n) {
      hide HasType, Encoded, Decoded, Default, Canonical;
      assert env.DeclarationOk(n);
      AliasHasType(env, n, x);
      AliasHasType(env, n, Default(env, TNamed(n)));
      AliasEncoded(env, n, x);
      AliasDefault(env, n);
      AliasDecoded(env, n, v, Default(env, TNamed(n)));
      BackIsExact(env, R, env.declarations[n].ty, x, v, y);
    } else if env.IsStruct(n) {
      hide HasType, StructHasType, Encoded, Written, Decoded, DecodedStruct, Default, Canonical, Carries;
      StructureHasType(env, n, x);
      StructureHasType(env, n, Default(env, TNamed(n)));
      StructureEncoded(env, n, x);
      StructureDecoded(env, n, v, Default(env, TNamed(n)));
      WholeIsCarried(env, n, x);
      StructBackIsExact(env, R, n, x, v.members, y);
    }
  }

  lemma CanonicalMembers(x: Value, y: Value)
    requires x.VStruct? && y.VStruct? && Canonical(x) == Canonical(y)
    ensures |x.fields| == |y.fields|
    ensures forall i :: 0 <= i < |x.fields| ==> CanonicalField(x.fields[i]) == CanonicalField(y.fields[i])
  {
    forall i | 0 <= i < |x.fields|
      ensures |x.fields| == |y.fields| && CanonicalField(x.fields[i]) == CanonicalField(y.fields[i])
    {
      assert CanonicalFields(x.fields)[i] == CanonicalFields(y.fields)[i];
    }
  }

  lemma {:induction false} StructBackIsExact(env: Env, R: set<string>, n: string, x: Value, m: map<string, Json>,
                                             y: Value)
    requires Regular(env, R) && n in R && env.IsStruct(n) && StructHasType(env, n, x) && Carries(env, n, x, m)
    requires StructHasType(env, n, Default(env, TNamed(n)))
    requires DecodedStruct(env, n, Obj(m), Default(env, TNamed(n))) == Some(y) && Canonical(x) == Canonical(y)
    ensures x == y
    decreases x, 0, TNull, 1
  {
    hide HasType, DecodedStruct, Default, Canonical, Carries;
    DecodedFieldObjects(env, n, m, y);
    CanonicalMembers(x, y);
    forall i | 0 <= i < |x.fields| ensures x.fields[i] == y.fields[i] {
      FieldBackIsExact(env, R, n, x, m, i, y.fields[i]);
    }
    SameElements(x.fields, y.fields);
    BasesBackAreExact(env, R, n, x, m, y);
  }

  lemma CanonicalBases(x: Value, y: Value)
    requires x.VStruct? && y.VStruct? && Canonical(x) == Canonical(y)
    ensures |x.bases| == |y.bases| && forall i :: 0 <= i < |x.bases| ==> Canonical(x.bases[i]) == Canonical(y.bases[i])
  {
    forall i | 0 <= i < |x.bases| ensures |x.bases| == |y.bases| && Canonical(x.bases[i]) == Canonical(y.bases[i]) {
      assert CanonicalAll(x.bases)[i] == CanonicalAll(y.bases)[i];
    }
  }

  lemma {:induction false} CanonicalStruct(x: Value, y: Value)
    requires x.VStruct? && Canonical(x) == Canonical(y)
    ensures y.VStruct?
  {
    hide CanonicalAll, CanonicalFields;
  }

  lemma {:induction false} CanonicalSameMembers(env: Env, n: string, x: Value, y: Value)
    requires env.WellFormed() && env.IsStruct(n) && StructHasType(env, n, x)
    requires y.VStruct? && Canonical(x) == Canonical(y)
    ensures SameMembers(env, n, x, y)
    decreases env.Rank(n)
  {
    hide FieldHasType, Canonical;
    assert env.DeclarationOk(n);
    CanonicalMembers(x, y);
    CanonicalBases(x, y);
    var exts := env.declarations[n].parents;
    forall i | 0 <= i < |exts| ensures SameMembers(env, exts[i], x.bases[i], y.bases[i]) {
      CanonicalStruct(x.bases[i], y.bases[i]);
      CanonicalSameMembers(env, exts[i], x.bases[i], y.bases[i]);
    }
  }

  lemma CarriedIsWritten(env: Env, n: string, x: Value, m: map<string, Json>)
    requires env.WellFormed() && env.IsStruct(n) && StructHasType(env, n, x) && Carries(env, n, x, m)
    ensures Written(env, n, x).Some?
  {
  }

  lemma {:induction false} BasesBackAreExact(env: Env, R: set<string>, n: string, x: Value, m: map<string, Json>,
                                             y: Value)
    requires Regular(env, R) && n in R && env.IsStruct(n) && StructHasType(env, n, x) && Carries(env, n, x, m)
    requires StructHasType(env, n, Default(env, TNamed(n)))
    requires DecodedStruct(env, n, Obj(m), Default(env, TNamed(n))) == Some(y) && Canonical(x) == Canonical(y)
    ensures x.bases == y.bases
    decreases x, 0, TNull, 0
  {
    hide HasType, DecodedStruct, Default, Canonical, Carries, MembersDistinct, TagApart, TagHidden, TagYields, Clean;
    DecodedBaseObjects(env, n, m, y);
    CanonicalBases(x, y);
    if TagHidden(env, n, x) {
      HiddenTagShows(env, R, n, x, m, y);
      CanonicalSameMembers(env, n, x, y);
    } else {
      CarriedIsWritten(env, n, x, m);
      TagsYield(env, n, x);
    }
    forall i | 0 <= i < |x.bases| ensures x.bases[i] == y.bases[i] {
      CarriesBase(env, n, x, m, i);
      StructBackIsExact(env, R, env.declarations[n].parents[i], x.bases[i], m, y.bases[i]);
    }
    SameElements(x.bases, y.bases);
  }

  lemma {:induction false} FieldBackIsExact(env: Env, R: set<string>, n: string, x: Value, m: map<string, Json>,
                                            i: nat, g: Field)
    requires Regular(env, R) && n in R && env.IsStruct(n) && StructHasType(env, n, x) && Carries(env, n, x, m)
    requires i < |env.declarations[n].properties| && StructHasType(env, n, Default(env, TNamed(n)))
    requires DecodedField(env, env.declarations[n].properties[i], Obj(m), Default(env, TNamed(n)).fields[i]) == Some(g)
    requires CanonicalField(x.fields[i]) == CanonicalField(g)
    ensures x.fields[i] == g
    decreases x.fields[i]
  {
    hide Carries, MembersDistinct, TagApart, HasType, Encoded, Decoded, Canonical;
    var p := env.declarations[n].properties[i];
    CarriesField(env, n, x, m, i);
    StructureDefault(env, n);
    match x.fields[i]
    case Absent =>
    case Present(a) => BackIsExact(env, R, p.ty, a, m[p.name], g.value);
  }

  /** What is decoded from the encoding of x. */
  ghost function Back(env: Env, t: Schema, x: Value): (y: Option<Value>)
    requires env.WellFormed() && HasType(env, t, x)
    ensures y.Some? ==> HasType(env, t, y.value)
  {
    var v := Encoded(env, t, x);
    if v.Some? then Decoded(env, t, v.value, Default(env, t)) else None
  }

  /** The program sees no difference between x and what comes back. */
  ghost predicate ComesBackEqual(env: Env, t: Schema, x: Value)
    requires env.WellFormed() && HasType(env, t, x)
  {
    var y := Back(env, t, x);
    y.Some? && Equal(env, t, x, y.value)
  }

  /** What is decoded from the encoding of x compares equal to x exactly when x is settled and can be
      compared at all. */
  lemma RoundTripComparesEqual(env: Env, R: set<string>, t: Schema, x: Value)
    requires Regular(env, R) && Clean(env, R, t) && HasType(env, t, x)
    ensures ComesBackEqual(env, t, x) <==> Settled(env, t, x) && Comparable(x)
  {
    hide HasType, Settled, Equal, Encoded, Decoded, Default, Canonical, Comparable, Clean;
    RoundTripIff(env, R, t, x);
    EqualToItselfIff(env, t, x);
    var y := Back(env, t, x);
    if y.Some? && Equal(env, t, x, y.value) {
      EqualIff(env, t, x, y.value);
      BackIsExact(env, R, t, x, Encoded(env, t, x).value, y.value);
    }
  }
}
