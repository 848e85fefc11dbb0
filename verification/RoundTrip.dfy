/** When decoding what was encoded gives the object back. */
module RoundTrip {
  import opened Results
  import opened Json
  import opened Schemas
  import opened Decoding
  import opened Encoding

  /** The literals of an enum differ, and each is read back by the accessor of the base type. */
  ghost predicate ReadableEnum(env: Env, base: Schema, literals: seq<Literal>) {
    && (forall i, j :: 0 <= i < j < |literals| ==> literals[i] != literals[j])
    && (forall i :: 0 <= i < |literals| ==> ReadLiteral(env, base, LiteralJson(literals[i])) == Some(literals[i]))
  }

  /** Every enum in t is readable and every declaration t names is among R. */
  ghost predicate Clean(env: Env, R: set<string>, t: Schema) {
    match t
    case TEnum(base, literals) => ReadableEnum(env, base, literals)
    case TVector(e) => Clean(env, R, e)
    case TTuple(ts) => forall i :: 0 <= i < |ts| ==> Clean(env, R, ts[i])
    case TMap(e) => Clean(env, R, e)
    case TOneOf(ts) => forall i :: 0 <= i < |ts| ==> Clean(env, R, ts[i])
    case TNamed(n) => n in R
    case _ => true
  }

  /** Structure n or one of its bases writes or reads a member of this name. */
  ghost predicate Owns(env: Env, n: string, name: string)
    requires env.WellFormed() && env.IsStruct(n)
    decreases env.Rank(n)
  {
    assert env.DeclarationOk(n);
    var Structure(kind, ps, exts) := env.declarations[n];
    || (kind.Some? && name == "kind")
    || (exists i :: 0 <= i < |ps| && ps[i].name == name)
    || (exists i :: 0 <= i < |exts| && Owns(env, exts[i], name))
  }

  /** No JSON name is used twice over the members of a structure and of its bases. */
  ghost predicate MembersDistinct(env: Env, n: string)
    requires env.WellFormed() && env.IsStruct(n)
  {
    assert env.DeclarationOk(n);
    var Structure(_, ps, exts) := env.declarations[n];
    && (forall i, j :: 0 <= i < j < |ps| ==> ps[i].name != ps[j].name)
    && (forall i, j :: 0 <= i < |ps| && 0 <= j < |exts| ==> !Owns(env, exts[j], ps[i].name))
    && (forall i, j, name :: 0 <= i < j < |exts| && Owns(env, exts[i], name) ==> !Owns(env, exts[j], name))
  }

  /** The `kind` tag of structure n shares its name with none of its own members. */
  ghost predicate TagApart(env: Env, n: string)
    requires env.IsStruct(n)
  {
    var Structure(kind, ps, _) := env.declarations[n];
    forall i :: 0 <= i < |ps| && kind.Some? ==> ps[i].name != "kind"
  }

  /** A base of structure n writes or reads a member of the tag's name. */
  ghost predicate InheritsKind(env: Env, n: string)
    requires env.WellFormed() && env.IsStruct(n)
  {
    assert env.DeclarationOk(n);
    var exts := env.declarations[n].parents;
    exists i :: 0 <= i < |exts| && Owns(env, exts[i], "kind")
  }

  ghost predicate CleanMembers(env: Env, R: set<string>, n: string)
    requires env.IsStruct(n)
  {
    var Structure(_, ps, exts) := env.declarations[n];
    && (forall i :: 0 <= i < |ps| ==> Clean(env, R, ps[i].ty))
    && (forall i :: 0 <= i < |exts| ==> exts[i] in R)
  }

  /** The declarations R refer only to each other, have no members of the same JSON name, and use
      readable enums. A tag may share its name with a member of a base. */
  ghost predicate Regular(env: Env, R: set<string>) {
    && env.WellFormed() && env.accessors.Lawful()
    && forall n :: n in R && n in env.declarations ==>
         match env.declarations[n]
         case Alias(ty) => Clean(env, R, ty)
         case Structure(_, _, _) => MembersDistinct(env, n) && TagApart(env, n) && CleanMembers(env, R, n)
  }

  ghost predicate RoundTrips(env: Env, t: Schema, x: Value)
    requires env.WellFormed() && HasType(env, t, x)
  {
    var v := Encoded(env, t, x);
    v.Some? && Decoded(env, t, v.value, Default(env, t)) == Some(x)
  }

  ghost predicate NoEarlierMatch(env: Env, ts: seq<Schema>, choice: nat, payload: Value)
    requires env.WellFormed() && choice < |ts| && HasType(env, ts[choice], payload)
  {
    var v := Encoded(env, ts[choice], payload);
    v.Some? ==> forall j :: 0 <= j < choice ==> !Conforms(env, ts[j], v.value)
  }

  /** Every OneOf in x holds a value, and no alternative listed before the held one accepts the
      JSON that value is written as; every enumerator is a named one; and every structure in x whose
      base has a member of the tag's name holds the tag there. */
  ghost predicate Settled(env: Env, t: Schema, x: Value)
    requires env.WellFormed() && HasType(env, t, x)
    decreases x, env.Level(t) + 1, t, 2
  {
    match t
    case TEnum(_, literals) => x.index < |literals|
    case TVector(e) => forall i :: 0 <= i < |x.elements| ==> Settled(env, e, x.elements[i])
    case TTuple(ts) => forall i :: 0 <= i < |ts| ==> Settled(env, ts[i], x.elements[i])
    case TMap(e) => forall k :: k in x.entries ==> Settled(env, e, x.entries[k])
    case TOneOf(ts) =>
      && !x.VEmpty?
      && Settled(env, ts[x.choice], x.payload)
      && NoEarlierMatch(env, ts, x.choice, x.payload)
    case TNamed(n) =>
      n in env.declarations && env.DeclarationOk(n) &&
      (match env.declarations[n]
       case Alias(ty) => Settled(env, ty, x)
       case Structure(_, _, _) => SettledStruct(env, n, x))
    case _ => true
  }

  lemma AliasSettled(env: Env, n: string, x: Value)
    requires env.WellFormed() && env.IsAlias(n) && HasType(env, TNamed(n), x) && HasType(env, env.declarations[n].ty, x)
    ensures Settled(env, TNamed(n), x) <==> Settled(env, env.declarations[n].ty, x)
  {
    hide HasType;
    assert env.DeclarationOk(n);
  }

  /** What the bases of structure x write. */
  ghost function Inherited(env: Env, n: string, x: Value): Option<map<string, Json>>
    requires env.WellFormed() && env.IsStruct(n) && StructHasType(env, n, x)
  {
    WrittenBases(env, n, x, |env.declarations[n].parents|)
  }

  /** A base with a member of the tag's name writes it last, so it has to write the tag. */
  ghost predicate TagSettled(env: Env, n: string, x: Value)
    requires env.WellFormed() && env.IsStruct(n) && StructHasType(env, n, x)
  {
    var kind, w := env.declarations[n].kind, Inherited(env, n, x);
    kind.Some? && InheritsKind(env, n) ==> w.Some? && "kind" in w.value && w.value["kind"] == Str(kind.value)
  }

  ghost predicate SettledStruct(env: Env, n: string, x: Value)
    requires env.WellFormed() && env.IsStruct(n) && StructHasType(env, n, x)
    decreases x, env.Rank(n) + 1, TNamed(n), 1
  {
    TagSettled(env, n, x) && SettledParts(env, n, x)
  }

  /** The members and bases of structure x are settled. */
  ghost predicate SettledParts(env: Env, n: string, x: Value)
    requires env.WellFormed() && env.IsStruct(n) && StructHasType(env, n, x)
    decreases x, env.Rank(n) + 1, TNamed(n), 0
  {
    var Structure(_, ps, exts) := env.declarations[n];
    && (forall i :: 0 <= i < |ps| ==> SettledField(env, ps[i], x.fields[i]))
    && (forall i :: 0 <= i < |exts| ==> SettledStruct(env, exts[i], x.bases[i]))
  }

  lemma StructureSettled(env: Env, n: string, x: Value)
    requires env.WellFormed() && env.IsStruct(n) && HasType(env, TNamed(n), x) && StructHasType(env, n, x)
    ensures Settled(env, TNamed(n), x) <==> SettledStruct(env, n, x)
  {
    hide HasType, StructHasType, SettledStruct;
    assert env.DeclarationOk(n);
  }

  ghost predicate SettledField(env: Env, p: Property, f: Field)
    requires env.WellFormed() && FieldHasType(env, p, f)
    decreases f
  {
    f.Present? ==> Settled(env, p.ty, f.value)
  }

  lemma {:induction false} SettledIsEncodable(env: Env, t: Schema, x: Value)
    requires env.WellFormed() && HasType(env, t, x) && Settled(env, t, x)
    ensures Encodable(env, t, x)
    decreases x, env.Level(t) + 1, t, 3
  {
    hide StructHasType, NoEarlierMatch, EncodableStruct, SettledStruct;
    match t
    case TVector(e) =>
      forall i | 0 <= i < |x.elements| ensures Encodable(env, e, x.elements[i]) {
        SettledIsEncodable(env, e, x.elements[i]);
      }
    case TTuple(ts) =>
      forall i | 0 <= i < |ts| ensures Encodable(env, ts[i], x.elements[i]) {
        SettledIsEncodable(env, ts[i], x.elements[i]);
      }
    case TMap(e) =>
      forall k | k in x.entries ensures Encodable(env, e, x.entries[k]) {
        SettledIsEncodable(env, e, x.entries[k]);
      }
    case TOneOf(ts) => SettledIsEncodable(env, ts[x.choice], x.payload);
    case TNamed(n) => SettledNamedIsEncodable(env, n, x);
    case _ =>
  }

  lemma {:induction false} SettledNamedIsEncodable(env: Env, n: string, x: Value)
    requires env.WellFormed() && HasType(env, TNamed(n), x) && Settled(env, TNamed(n), x)
    ensures Encodable(env, TNamed(n), x)
    decreases x, env.Rank(n) + 1, TNamed(n), 2
  {
    hide HasType, StructHasType, EncodableStruct, SettledParts, TagSettled;
    match env.declarations[n]
    case Alias(ty) =>
      AliasHasType(env, n, x);
      SettledIsEncodable(env, ty, x);
    case Structure(_, _, _) =>
      StructureHasType(env, n, x);
      SettledPartsAreEncodable(env, n, x);
  }

  lemma {:induction false} SettledPartsAreEncodable(env: Env, n: string, x: Value)
    requires env.WellFormed() && env.IsStruct(n) && StructHasType(env, n, x) && SettledParts(env, n, x)
    ensures EncodableStruct(env, n, x)
    decreases x, env.Rank(n) + 1, TNamed(n), 1
  {
    var Structure(_, ps, exts) := env.declarations[n];
    forall i | 0 <= i < |ps| ensures EncodableField(env, ps[i], x.fields[i]) {
      assert SettledField(env, ps[i], x.fields[i]);
      if x.fields[i].Present? {
        SettledIsEncodable(env, ps[i].ty, x.fields[i].value);
      }
    }
    forall i | 0 <= i < |exts| ensures EncodableStruct(env, exts[i], x.bases[i]) {
      SettledPartsAreEncodable(env, exts[i], x.bases[i]);
    }
  }

  // ---- What a structure's object holds under each name ----

  /** With distinct names, the object of the first k members holds exactly those present. */
  lemma {:induction false} FieldsWritten(env: Env, n: string, x: Value, k: nat)
    requires env.WellFormed() && env.IsStruct(n) && StructHasType(env, n, x) && MembersDistinct(env, n)
    requires k <= |env.declarations[n].properties| && WrittenFields(env, n, x, k).Some?
    ensures var ps := env.declarations[n].properties;
            var m := WrittenFields(env, n, x, k).value;
            && (forall i :: 0 <= i < k && x.fields[i].Present? ==>
                 FieldHasType(env, ps[i], x.fields[i]) && ps[i].name in m &&
                 Encoded(env, ps[i].ty, x.fields[i].value) == Some(m[ps[i].name]))
            && (forall name :: name in m ==> exists i :: 0 <= i < k && ps[i].name == name && x.fields[i].Present?)
    decreases k
  {
    hide HasType, Encoded, Owns;
    if k == 0 {
    } else {
      FieldsWritten(env, n, x, k - 1);
      assert FieldHasType(env, env.declarations[n].properties[k - 1], x.fields[k - 1]);
    }
  }

  lemma FieldWritten(env: Env, n: string, x: Value, i: nat)
    requires env.WellFormed() && env.IsStruct(n) && StructHasType(env, n, x) && MembersDistinct(env, n)
    requires i < |env.declarations[n].properties|
    requires WrittenFields(env, n, x, |env.declarations[n].properties|).Some?
    ensures var p := env.declarations[n].properties[i];
            var m := WrittenFields(env, n, x, |env.declarations[n].properties|).value;
            && FieldHasType(env, p, x.fields[i])
            && (p.name in m <==> x.fields[i].Present?)
            && (p.name in m ==> Encoded(env, p.ty, x.fields[i].value) == Some(m[p.name]))
  {
    FieldsWritten(env, n, x, |env.declarations[n].properties|);
  }

  lemma {:induction false} WrittenFieldIsOwned(env: Env, n: string, x: Value, k: nat, name: string)
    requires env.WellFormed() && env.IsStruct(n) && StructHasType(env, n, x)
    requires k <= |env.declarations[n].properties|
    requires WrittenFields(env, n, x, k).Some? && name in WrittenFields(env, n, x, k).value
    ensures exists i :: 0 <= i < k && env.declarations[n].properties[i].name == name
    decreases k
  {
    if env.declarations[n].properties[k - 1].name == name {
    } else {
      WrittenFieldIsOwned(env, n, x, k - 1, name);
    }
  }

  lemma {:induction false} WrittenIsOwned(env: Env, n: string, x: Value, name: string)
    requires env.WellFormed() && env.IsStruct(n) && StructHasType(env, n, x)
    requires Written(env, n, x).Some? && name in Written(env, n, x).value
    ensures Owns(env, n, name)
    decreases x, 1
  {
    var Structure(kind, ps, exts) := env.declarations[n];
    if name in WrittenFields(env, n, x, |ps|).value {
      WrittenFieldIsOwned(env, n, x, |ps|, name);
    } else if name in WrittenBases(env, n, x, |exts|).value {
      WrittenBaseIsOwned(env, n, x, |exts|, name);
    }
  }

  lemma {:induction false} WrittenBaseIsOwned(env: Env, n: string, x: Value, k: nat, name: string)
    requires env.WellFormed() && env.IsStruct(n) && StructHasType(env, n, x)
    requires k <= |env.declarations[n].parents|
    requires WrittenBases(env, n, x, k).Some? && name in WrittenBases(env, n, x, k).value
    ensures exists i :: 0 <= i < k && Owns(env, env.declarations[n].parents[i], name)
    decreases x, 0, k
  {
    hide StructHasType, Written, Owns;
    var base := env.declarations[n].parents[k - 1];
    BaseHasType(env, n, x, k - 1);
    if name in Written(env, base, x.bases[k - 1]).value {
      WrittenIsOwned(env, base, x.bases[k - 1], name);
    } else {
      WrittenBaseIsOwned(env, n, x, k - 1, name);
    }
  }

  /** With distinct names, the object of the first k bases holds, under the names of one base,
      exactly what that base writes. */
  lemma {:induction false} BaseWritten(env: Env, n: string, x: Value, k: nat, i: nat, name: string)
    requires env.WellFormed() && env.IsStruct(n) && StructHasType(env, n, x) && MembersDistinct(env, n)
    requires i < k <= |env.declarations[n].parents| && WrittenBases(env, n, x, k).Some?
    requires Owns(env, env.declarations[n].parents[i], name)
    ensures var w := Written(env, env.declarations[n].parents[i], x.bases[i]);
            var m := WrittenBases(env, n, x, k).value;
            w.Some? && (name in w.value <==> name in m) && (name in m ==> w.value[name] == m[name])
    decreases k
  {
    hide StructHasType, Written, Owns;
    var last := env.declarations[n].parents[k - 1];
    BaseHasType(env, n, x, k - 1);
    BaseHasType(env, n, x, i);
    if i < k - 1 {
      BaseWritten(env, n, x, k - 1, i, name);
      if name in Written(env, last, x.bases[k - 1]).value {
        WrittenIsOwned(env, last, x.bases[k - 1], name);
        assert false;
      }
    } else if name in WrittenBases(env, n, x, k - 1).value {
      WrittenBaseIsOwned(env, n, x, k - 1, name);
    }
  }

  /** The object m holds what x writes, and nothing else under the names of structure n. It may
      hold anything under other names, as when n is a base of the object's structure. */
  ghost predicate Carries(env: Env, n: string, x: Value, m: map<string, Json>)
    requires env.WellFormed() && env.IsStruct(n) && StructHasType(env, n, x)
  {
    var w := Written(env, n, x);
    w.Some? && forall name :: Owns(env, n, name) ==>
      (name in m <==> name in w.value) && (name in m ==> m[name] == w.value[name])
  }

  lemma WholeIsCarried(env: Env, n: string, x: Value)
    requires env.WellFormed() && env.IsStruct(n) && StructHasType(env, n, x)
    ensures Written(env, n, x).Some? ==> Carries(env, n, x, Written(env, n, x).value)
  {
    hide StructHasType, Written;
  }

  /** The object m holds the tag of structure n. */
  predicate TagBack(env: Env, n: string, m: map<string, Json>)
    requires env.IsStruct(n)
  {
    env.declarations[n].kind.Some? ==> "kind" in m && m["kind"] == Str(env.declarations[n].kind.value)
  }

  /** The tag of structure n shares its name with a member of a base, which writes nothing. */
  ghost predicate TagHidden(env: Env, n: string, x: Value)
    requires env.WellFormed() && env.IsStruct(n) && StructHasType(env, n, x)
  {
    var w := Inherited(env, n, x);
    env.declarations[n].kind.Some? && InheritsKind(env, n) && (w.Some? ==> "kind" !in w.value)
  }

  /** What m holds under the tag's name: the tag, unless a base writes something there. */
  lemma CarriesKind(env: Env, n: string, x: Value, m: map<string, Json>)
    requires env.WellFormed() && env.IsStruct(n) && StructHasType(env, n, x) && TagApart(env, n)
    requires Carries(env, n, x, m) && env.declarations[n].kind.Some?
    ensures Inherited(env, n, x).Some? && "kind" in m
    ensures var w := Inherited(env, n, x).value;
            m["kind"] == if "kind" in w then w["kind"] else Str(env.declarations[n].kind.value)
  {
    hide StructHasType, WrittenFields, WrittenBases, Encoded;
    var ps := env.declarations[n].properties;
    assert Owns(env, n, "kind");
    if "kind" in WrittenFields(env, n, x, |ps|).value {
      WrittenFieldIsOwned(env, n, x, |ps|, "kind");
    }
  }

  lemma CarriesTagIff(env: Env, n: string, x: Value, m: map<string, Json>)
    requires env.WellFormed() && env.IsStruct(n) && StructHasType(env, n, x) && TagApart(env, n)
    requires Carries(env, n, x, m) && !TagHidden(env, n, x)
    ensures TagBack(env, n, m) <==> TagSettled(env, n, x)
  {
    hide StructHasType, Written, WrittenBases, Carries, TagApart, Owns;
    if env.declarations[n].kind.Some? {
      CarriesKind(env, n, x, m);
      if "kind" in Inherited(env, n, x).value {
        WrittenBaseIsOwned(env, n, x, |env.declarations[n].parents|, "kind");
      }
    }
  }

  lemma CarriesField(env: Env, n: string, x: Value, m: map<string, Json>, i: nat)
    requires env.WellFormed() && env.IsStruct(n) && StructHasType(env, n, x) && MembersDistinct(env, n)
    requires TagApart(env, n)
    requires Carries(env, n, x, m) && i < |env.declarations[n].properties|
    ensures var p := env.declarations[n].properties[i];
            && FieldHasType(env, p, x.fields[i])
            && (p.name in m <==> x.fields[i].Present?)
            && (p.name in m ==> Encoded(env, p.ty, x.fields[i].value) == Some(m[p.name]))
  {
    var Structure(kind, ps, exts) := env.declarations[n];
    assert Owns(env, n, ps[i].name);
    FieldWritten(env, n, x, i);
    if ps[i].name in WrittenBases(env, n, x, |exts|).value {
      WrittenBaseIsOwned(env, n, x, |exts|, ps[i].name);
    }
  }

  /** A tag that shares its name with a member of base i is overwritten by that member. */
  ghost predicate TagYields(env: Env, n: string, x: Value, i: nat)
    requires env.WellFormed() && env.IsStruct(n) && StructHasType(env, n, x)
    requires i < |env.declarations[n].parents|
  {
    var base := env.declarations[n].parents[i];
    env.declarations[n].kind.Some? && Owns(env, base, "kind") ==>
      Written(env, base, x.bases[i]).Some? && "kind" in Written(env, base, x.bases[i]).value
  }

  lemma {:induction false} BasesAreWritten(env: Env, n: string, x: Value, k: nat, i: nat)
    requires env.WellFormed() && env.IsStruct(n) && StructHasType(env, n, x)
    requires i < k <= |env.declarations[n].parents| && WrittenBases(env, n, x, k).Some?
    ensures Written(env, env.declarations[n].parents[i], x.bases[i]).Some?
    decreases k
  {
    if i == k - 1 {
    } else {
      BasesAreWritten(env, n, x, k - 1, i);
    }
  }

  lemma CarriesBase(env: Env, n: string, x: Value, m: map<string, Json>, i: nat)
    requires env.WellFormed() && env.IsStruct(n) && StructHasType(env, n, x) && MembersDistinct(env, n)
    requires Carries(env, n, x, m) && i < |env.declarations[n].parents|
    requires TagYields(env, n, x, i)
    ensures Carries(env, env.declarations[n].parents[i], x.bases[i], m)
  {
    var Structure(kind, ps, exts) := env.declarations[n];
    BasesAreWritten(env, n, x, |exts|, i);
    forall name | Owns(env, exts[i], name)
      ensures var w := Written(env, exts[i], x.bases[i]).value;
              (name in m <==> name in w) && (name in m ==> m[name] == w[name])
    {
      assert Owns(env, n, name);
      BaseWritten(env, n, x, |exts|, i, name);
      if name in WrittenFields(env, n, x, |ps|).value {
        WrittenFieldIsOwned(env, n, x, |ps|, name);
      }
    }
  }

  lemma BaseIsWritten(env: Env, n: string, x: Value, i: nat)
    requires env.WellFormed() && env.IsStruct(n) && StructHasType(env, n, x)
    requires i < |env.declarations[n].parents| && Written(env, n, x).Some?
    ensures Written(env, env.declarations[n].parents[i], x.bases[i]).Some?
  {
    hide StructHasType, WrittenFields, WrittenBases;
    BasesAreWritten(env, n, x, |env.declarations[n].parents|, i);
  }

  // ---- The theorem ----

  lemma PrimitiveRoundTripIff(env: Env, R: set<string>, t: Schema, x: Value)
    requires Regular(env, R) && Clean(env, R, t) && HasType(env, t, x) && IsPrimitive(t)
    ensures RoundTrips(env, t, x) <==> Settled(env, t, x)
  {
    hide Conforms;
    if t.TEnum? && x.index < |t.literals| {
      assert t.literals[x.index] in t.literals;
    }
  }

  /** In a schema without clashing names, an object survives encoding and decoding exactly when
      every OneOf in it holds the first alternative that accepts its encoding. */
  lemma {:induction false} RoundTripIff(env: Env, R: set<string>, t: Schema, x: Value)
    requires Regular(env, R) && Clean(env, R, t) && HasType(env, t, x)
    ensures RoundTrips(env, t, x) <==> Settled(env, t, x)
    decreases x, env.Level(t) + 1, t, 2
  {
    match t
    case TVector(e) => VectorRoundTripIff(env, R, e, x);
    case TTuple(ts) => TupleRoundTripIff(env, R, ts, x);
    case TMap(e) => MapRoundTripIff(env, R, e, x);
    case TOneOf(ts) => OneOfRoundTripIff(env, R, ts, x);
    case TNamed(n) => NamedRoundTripIff(env, R, n, x);
    case _ => PrimitiveRoundTripIff(env, R, t, x);
  }

  lemma VectorBack(env: Env, e: Schema, x: Value, js: seq<Json>)
    requires env.WellFormed() && HasType(env, TVector(e), x) && |js| == |x.elements|
    requires forall i :: 0 <= i < |js| ==> Encoded(env, e, x.elements[i]) == Some(js[i])
    ensures DecodedVector(env, e, Arr(js), VVector([])) == Some(x) <==>
            forall i :: 0 <= i < |x.elements| ==> RoundTrips(env, e, x.elements[i])
  {
    hide HasType, Encoded, Decoded, Default;
    VectorHasType(env, e, x);
    VectorHasType(env, e, VVector([]));
    var d := DecodedVector(env, e, Arr(js), VVector([]));
    if forall i :: 0 <= i < |x.elements| ==> RoundTrips(env, e, x.elements[i]) {
      assert d.value.elements == x.elements;
    }
    if d == Some(x) {
      forall i | 0 <= i < |js| ensures RoundTrips(env, e, x.elements[i]) {
        assert d.value.elements[i] == x.elements[i];
      }
    }
  }

  lemma {:induction false} VectorRoundTripIff(env: Env, R: set<string>, e: Schema, x: Value)
    requires Regular(env, R) && Clean(env, R, e) && HasType(env, TVector(e), x)
    ensures RoundTrips(env, TVector(e), x) <==> Settled(env, TVector(e), x)
    decreases x, 0
  {
    forall i | 0 <= i < |x.elements| ensures RoundTrips(env, e, x.elements[i]) <==> Settled(env, e, x.elements[i]) {
      RoundTripIff(env, R, e, x.elements[i]);
    }
    var v := Encoded(env, TVector(e), x);
    if v.Some? {
      VectorBack(env, e, x, v.value.elems);
    } else {
      assert !forall i :: 0 <= i < |x.elements| ==> RoundTrips(env, e, x.elements[i]);
    }
  }

  lemma TupleBack(env: Env, ts: seq<Schema>, x: Value, js: seq<Json>)
    requires env.WellFormed() && HasType(env, TTuple(ts), x) && |js| == |ts|
    requires forall i :: 0 <= i < |js| ==> Encoded(env, ts[i], x.elements[i]) == Some(js[i])
    ensures DecodedTuple(env, ts, Arr(js), Default(env, TTuple(ts))) == Some(x) <==>
            forall i :: 0 <= i < |ts| ==> RoundTrips(env, ts[i], x.elements[i])
  {
    hide HasType, Encoded, Decoded, Default;
    TupleHasType(env, ts, x);
    TupleHasType(env, ts, Default(env, TTuple(ts)));
    TupleDefault(env, ts);
    var d := DecodedTuple(env, ts, Arr(js), Default(env, TTuple(ts)));
    if forall i :: 0 <= i < |ts| ==> RoundTrips(env, ts[i], x.elements[i]) {
      assert d.value.elements == x.elements;
    }
    if d == Some(x) {
      forall i | 0 <= i < |ts| ensures RoundTrips(env, ts[i], x.elements[i]) {
        assert d.value.elements[i] == x.elements[i];
      }
    }
  }

  lemma {:induction false} TupleRoundTripIff(env: Env, R: set<string>, ts: seq<Schema>, x: Value)
    requires Regular(env, R) && Clean(env, R, TTuple(ts)) && HasType(env, TTuple(ts), x)
    ensures RoundTrips(env, TTuple(ts), x) <==> Settled(env, TTuple(ts), x)
    decreases x, 0
  {
    forall i | 0 <= i < |ts| ensures RoundTrips(env, ts[i], x.elements[i]) <==> Settled(env, ts[i], x.elements[i]) {
      RoundTripIff(env, R, ts[i], x.elements[i]);
    }
    var v := Encoded(env, TTuple(ts), x);
    if v.Some? {
      TupleBack(env, ts, x, v.value.elems);
    } else {
      assert !forall i :: 0 <= i < |ts| ==> RoundTrips(env, ts[i], x.elements[i]);
    }
  }

  lemma MapBackAll(env: Env, e: Schema, x: Value, m: map<string, Json>)
    requires env.WellFormed() && HasType(env, TMap(e), x) && m.Keys == x.entries.Keys
    requires forall k :: k in m ==> Encoded(env, e, x.entries[k]) == Some(m[k])
    requires forall k :: k in x.entries ==> RoundTrips(env, e, x.entries[k])
    ensures DecodedMap(env, e, Obj(m), VMap(map[])) == Some(x)
  {
    hide HasType, Encoded, Decoded, DecodedMap, Default;
    MapHasType(env, e, x);
    MapHasType(env, e, VMap(map[]));
    forall k | k in m ensures Decoded(env, e, m[k], EntrySlot(env, e, map[], k)) == Some(x.entries[k]) {
      assert RoundTrips(env, e, x.entries[k]);
    }
    AllOverlaid(env, e, Obj(m), VMap(map[]), x.entries);
  }

  lemma MapBackEach(env: Env, e: Schema, x: Value, m: map<string, Json>)
    requires env.WellFormed() && HasType(env, TMap(e), x) && m.Keys == x.entries.Keys
    requires forall k :: k in m ==> Encoded(env, e, x.entries[k]) == Some(m[k])
    requires DecodedMap(env, e, Obj(m), VMap(map[])) == Some(x)
    ensures forall k :: k in x.entries ==> RoundTrips(env, e, x.entries[k])
  {
    hide HasType, Encoded, Decoded, Default;
    MapHasType(env, e, x);
    MapHasType(env, e, VMap(map[]));
    var d := DecodedMap(env, e, Obj(m), VMap(map[])).value.entries;
    forall k | k in x.entries ensures RoundTrips(env, e, x.entries[k]) {
      assert d[k] == x.entries[k];
    }
  }

  lemma MapBack(env: Env, e: Schema, x: Value, m: map<string, Json>)
    requires env.WellFormed() && HasType(env, TMap(e), x) && m.Keys == x.entries.Keys
    requires forall k :: k in m ==> Encoded(env, e, x.entries[k]) == Some(m[k])
    ensures DecodedMap(env, e, Obj(m), VMap(map[])) == Some(x) <==>
            forall k :: k in x.entries ==> RoundTrips(env, e, x.entries[k])
  {
    if forall k :: k in x.entries ==> RoundTrips(env, e, x.entries[k]) {
      MapBackAll(env, e, x, m);
    }
    if DecodedMap(env, e, Obj(m), VMap(map[])) == Some(x) {
      MapBackEach(env, e, x, m);
    }
  }

  lemma {:induction false} MapRoundTripIff(env: Env, R: set<string>, e: Schema, x: Value)
    requires Regular(env, R) && Clean(env, R, e) && HasType(env, TMap(e), x)
    ensures RoundTrips(env, TMap(e), x) <==> Settled(env, TMap(e), x)
    decreases x, 0
  {
    forall k | k in x.entries ensures RoundTrips(env, e, x.entries[k]) <==> Settled(env, e, x.entries[k]) {
      RoundTripIff(env, R, e, x.entries[k]);
    }
    var v := Encoded(env, TMap(e), x);
    if v.Some? {
      MapBack(env, e, x, v.value.members);
    } else {
      assert !forall k :: k in x.entries ==> RoundTrips(env, e, x.entries[k]);
    }
  }

  /** Alternatives that do not accept v are passed over. */
  lemma {:induction false} SkipsTo(env: Env, ts: seq<Schema>, v: Json, k: nat, j: nat)
    requires env.WellFormed() && k <= j < |ts|
    requires forall i :: k <= i < j ==> !Conforms(env, ts[i], v)
    ensures DecodedFrom(env, ts, v, k) == DecodedFrom(env, ts, v, j)
    decreases j - k
  {
    if k == j {
    } else {
      DecodedIffConforms(env, ts[k], v, Default(env, ts[k]));
      SkipsTo(env, ts, v, k + 1, j);
    }
  }

  lemma OneOfBack(env: Env, ts: seq<Schema>, x: Value, v: Json)
    requires env.WellFormed() && HasType(env, TOneOf(ts), x) && x.VOneOf?
    requires Encoded(env, ts[x.choice], x.payload) == Some(v)
    ensures DecodedFrom(env, ts, v, 0) == Some(x) <==>
            RoundTrips(env, ts[x.choice], x.payload) && NoEarlierMatch(env, ts, x.choice, x.payload)
  {
    if DecodedFrom(env, ts, v, 0) == Some(x) {
      FirstMatch(env, ts, v, 0);
    }
    if RoundTrips(env, ts[x.choice], x.payload) && NoEarlierMatch(env, ts, x.choice, x.payload) {
      SkipsTo(env, ts, v, 0, x.choice);
    }
  }

  lemma {:induction false} OneOfRoundTripIff(env: Env, R: set<string>, ts: seq<Schema>, x: Value)
    requires Regular(env, R) && Clean(env, R, TOneOf(ts)) && HasType(env, TOneOf(ts), x)
    ensures RoundTrips(env, TOneOf(ts), x) <==> Settled(env, TOneOf(ts), x)
    decreases x, 0
  {
    if x.VOneOf? {
      RoundTripIff(env, R, ts[x.choice], x.payload);
      var v := Encoded(env, ts[x.choice], x.payload);
      if v.Some? {
        OneOfBack(env, ts, x, v.value);
      }
    }
  }

  lemma AliasRoundTrips(env: Env, n: string, x: Value)
    requires env.WellFormed() && env.IsAlias(n) && HasType(env, TNamed(n), x) && HasType(env, env.declarations[n].ty, x)
    ensures RoundTrips(env, TNamed(n), x) <==> RoundTrips(env, env.declarations[n].ty, x)
  {
    hide HasType, Encoded, Decoded;
    AliasEncoded(env, n, x);
    AliasDefault(env, n);
    var v := Encoded(env, TNamed(n), x);
    if v.Some? {
      AliasDecoded(env, n, v.value, Default(env, TNamed(n)));
    }
  }

  /** The object m is read as structure x. */
  ghost predicate StructureBack(env: Env, n: string, x: Value, m: map<string, Json>)
    requires env.WellFormed() && env.IsStruct(n)
  {
    DecodedStruct(env, n, Obj(m), Default(env, TNamed(n))) == Some(x)
  }

  /** What structure x writes is read back as x. */
  ghost predicate WholeBack(env: Env, n: string, x: Value)
    requires env.WellFormed() && env.IsStruct(n) && StructHasType(env, n, x)
  {
    var w := Written(env, n, x);
    w.Some? && StructureBack(env, n, x, w.value)
  }

  lemma StructureRoundTrips(env: Env, n: string, x: Value)
    requires env.WellFormed() && env.IsStruct(n) && HasType(env, TNamed(n), x) && StructHasType(env, n, x)
    ensures RoundTrips(env, TNamed(n), x) <==> WholeBack(env, n, x)
  {
    hide HasType, StructHasType, Encoded, Decoded, DecodedStruct, Written;
    StructureEncoded(env, n, x);
    var w := Written(env, n, x);
    if w.Some? {
      StructureHasType(env, n, Default(env, TNamed(n)));
      StructureDecoded(env, n, Obj(w.value), Default(env, TNamed(n)));
    }
  }

  lemma UnknownIsLost(env: Env, n: string, x: Value)
    requires env.WellFormed() && n !in env.declarations && HasType(env, TNamed(n), x)
    ensures !RoundTrips(env, TNamed(n), x) && !Settled(env, TNamed(n), x)
  {
  }

  ghost predicate FieldsBack(env: Env, n: string, x: Value, m: map<string, Json>)
    requires env.WellFormed() && env.IsStruct(n) && StructHasType(env, n, x)
  {
    DecodedFields(env, env.declarations[n].properties, Obj(m), Default(env, TNamed(n)).fields) == Some(x.fields)
  }

  ghost predicate FieldBack(env: Env, n: string, x: Value, m: map<string, Json>, i: nat)
    requires env.WellFormed() && env.IsStruct(n) && StructHasType(env, n, x) && i < |env.declarations[n].properties|
  {
    DecodedField(env, env.declarations[n].properties[i], Obj(m), Default(env, TNamed(n)).fields[i]) == Some(x.fields[i])
  }

  ghost predicate BasesBack(env: Env, n: string, x: Value, m: map<string, Json>)
    requires env.WellFormed() && env.IsStruct(n) && StructHasType(env, n, x)
  {
    DecodedBases(env, n, Obj(m), Default(env, TNamed(n)).bases) == Some(x.bases)
  }

  lemma {:induction false} NamedRoundTripIff(env: Env, R: set<string>, n: string, x: Value)
    requires Regular(env, R) && n in R && HasType(env, TNamed(n), x)
    ensures RoundTrips(env, TNamed(n), x) <==> Settled(env, TNamed(n), x)
    decreases x, env.Rank(n) + 1, TNamed(n), 1
  {
    hide HasType, StructHasType, Encoded, Written, Decoded, DecodedStruct, Settled, SettledStruct;
    if env.IsAlias(n) {
      assert env.DeclarationOk(n);
      AliasHasType(env, n, x);
      AliasRoundTrips(env, n, x);
      AliasSettled(env, n, x);
      RoundTripIff(env, R, env.declarations[n].ty, x);
    } else if env.IsStruct(n) {
      StructureHasType(env, n, x);
      StructureSettled(env, n, x);
      StructureRoundTrips(env, n, x);
      WholeRoundTripIff(env, R, n, x);
    } else {
      UnknownIsLost(env, n, x);
    }
  }

  lemma {:induction false} WholeRoundTripIff(env: Env, R: set<string>, n: string, x: Value)
    requires Regular(env, R) && n in R && env.IsStruct(n) && StructHasType(env, n, x)
    ensures WholeBack(env, n, x) <==> SettledStruct(env, n, x)
    decreases x, 0, TNull, 3
  {
    hide StructHasType, Written, StructureBack, Carries, SettledParts, TagSettled, EncodableStruct;
    var w := Written(env, n, x);
    if w.Some? {
      WholeIsCarried(env, n, x);
      StructRoundTripIff(env, R, n, x, w.value);
    } else if SettledParts(env, n, x) {
      SettledPartsAreEncodable(env, n, x);
      WrittenIffEncodable(env, n, x);
    }
  }

  /** Unless the tag is hidden, a base with a member of its name writes it. */
  lemma TagsYield(env: Env, n: string, x: Value)
    requires env.WellFormed() && env.IsStruct(n) && StructHasType(env, n, x) && MembersDistinct(env, n)
    requires Written(env, n, x).Some? && !TagHidden(env, n, x)
    ensures forall i :: 0 <= i < |env.declarations[n].parents| ==> TagYields(env, n, x, i)
  {
    hide StructHasType, WrittenFields, WrittenBases, Owns, MembersDistinct;
    var exts := env.declarations[n].parents;
    forall i | 0 <= i < |exts| ensures TagYields(env, n, x, i) {
      BaseHasType(env, n, x, i);
      if env.declarations[n].kind.Some? && Owns(env, exts[i], "kind") {
        BaseWritten(env, n, x, |exts|, i, "kind");
      }
    }
  }

  lemma PartsTogether(env: Env, n: string, x: Value, m: map<string, Json>)
    requires env.WellFormed() && env.IsStruct(n) && StructHasType(env, n, x)
    ensures StructureBack(env, n, x, m) <==> TagBack(env, n, m) && FieldsBack(env, n, x, m) && BasesBack(env, n, x, m)
  {
    hide FieldHasType, DecodedFields, DecodedBases, Default;
  }

  lemma DecodedFieldObjects(env: Env, n: string, m: map<string, Json>, y: Value)
    requires env.WellFormed() && env.IsStruct(n) && StructHasType(env, n, Default(env, TNamed(n)))
    requires DecodedStruct(env, n, Obj(m), Default(env, TNamed(n))) == Some(y)
    ensures var ps := env.declarations[n].properties;
            && y.VStruct? && |y.fields| == |ps|
            && forall i :: 0 <= i < |ps| ==>
                 DecodedField(env, ps[i], Obj(m), Default(env, TNamed(n)).fields[i]) == Some(y.fields[i])
  {
    hide DecodedBases, DecodedField, Default;
  }

  lemma DecodedBaseObjects(env: Env, n: string, m: map<string, Json>, y: Value)
    requires env.WellFormed() && env.IsStruct(n) && StructHasType(env, n, Default(env, TNamed(n)))
    requires DecodedStruct(env, n, Obj(m), Default(env, TNamed(n))) == Some(y)
    ensures var exts := env.declarations[n].parents;
            && y.VStruct? && |y.bases| == |exts|
            && forall i :: 0 <= i < |exts| ==>
                 && env.IsStruct(exts[i]) && StructHasType(env, exts[i], Default(env, TNamed(exts[i])))
                 && DecodedStruct(env, exts[i], Obj(m), Default(env, TNamed(exts[i]))) == Some(y.bases[i])
  {
    hide DecodedFields;
    assert env.DeclarationOk(n);
  }

  /** Objects of structure n with the same optional members present. */
  ghost predicate SameMembers(env: Env, n: string, x: Value, y: Value)
    requires env.WellFormed() && env.IsStruct(n)
    decreases env.Rank(n)
  {
    assert env.DeclarationOk(n);
    var Structure(_, ps, exts) := env.declarations[n];
    && x.VStruct? && y.VStruct? && |x.fields| == |y.fields| == |ps| && |x.bases| == |y.bases| == |exts|
    && (forall i :: 0 <= i < |ps| ==> (x.fields[i].Present? <==> y.fields[i].Present?))
    && (forall i :: 0 <= i < |exts| ==> SameMembers(env, exts[i], x.bases[i], y.bases[i]))
  }

  lemma {:induction false} SameAsItself(env: Env, n: string, x: Value)
    requires env.WellFormed() && env.IsStruct(n) && StructHasType(env, n, x)
    ensures SameMembers(env, n, x, x)
    decreases env.Rank(n)
  {
    hide FieldHasType;
    assert env.DeclarationOk(n);
    var exts := env.declarations[n].parents;
    forall i | 0 <= i < |exts| ensures SameMembers(env, exts[i], x.bases[i], x.bases[i]) {
      SameAsItself(env, exts[i], x.bases[i]);
    }
  }

  /** An object that holds something under a name where x writes nothing is read as something else. */
  lemma {:induction false} ExtraShows(env: Env, R: set<string>, n: string, x: Value, m: map<string, Json>, name: string,
                                      y: Value)
    requires Regular(env, R) && n in R && env.IsStruct(n) && StructHasType(env, n, x) && Owns(env, n, name)
    requires Written(env, n, x).Some? && name !in Written(env, n, x).value && name in m
    requires StructHasType(env, n, Default(env, TNamed(n)))
    requires DecodedStruct(env, n, Obj(m), Default(env, TNamed(n))) == Some(y)
    ensures !SameMembers(env, n, x, y)
    decreases env.Rank(n)
  {
    hide HasType, Encoded, Decoded, DecodedStruct, Default, Clean;
    var Structure(kind, ps, exts) := env.declarations[n];
    assert env.DeclarationOk(n);
    if i :| 0 <= i < |ps| && ps[i].name == name {
      FieldWritten(env, n, x, i);
      DecodedFieldObjects(env, n, m, y);
    } else {
      var i :| 0 <= i < |exts| && Owns(env, exts[i], name);
      BaseIsWritten(env, n, x, i);
      BaseWritten(env, n, x, |exts|, i, name);
      DecodedBaseObjects(env, n, m, y);
      ExtraShows(env, R, exts[i], x.bases[i], m, name, y.bases[i]);
    }
  }

  lemma HiddenTagShows(env: Env, R: set<string>, n: string, x: Value, m: map<string, Json>, y: Value)
    requires Regular(env, R) && n in R && env.IsStruct(n) && StructHasType(env, n, x) && Carries(env, n, x, m)
    requires TagHidden(env, n, x) && DecodedStruct(env, n, Obj(m), Default(env, TNamed(n))) == Some(y)
    ensures !SameMembers(env, n, x, y)
  {
    hide HasType, StructHasType, WrittenFields, WrittenBases, DecodedStruct, Default, Clean, Owns, MembersDistinct;
    var exts := env.declarations[n].parents;
    var i :| 0 <= i < |exts| && Owns(env, exts[i], "kind");
    StructureHasType(env, n, Default(env, TNamed(n)));
    CarriesKind(env, n, x, m);
    BaseHasType(env, n, x, i);
    BaseWritten(env, n, x, |exts|, i, "kind");
    DecodedBaseObjects(env, n, m, y);
    ExtraShows(env, R, exts[i], x.bases[i], m, "kind", y.bases[i]);
  }

  lemma HiddenTagIsLost(env: Env, R: set<string>, n: string, x: Value, m: map<string, Json>)
    requires Regular(env, R) && n in R && env.IsStruct(n) && StructHasType(env, n, x) && Carries(env, n, x, m)
    requires TagHidden(env, n, x)
    ensures !StructureBack(env, n, x, m) && !SettledStruct(env, n, x)
  {
    if StructureBack(env, n, x, m) {
      HiddenTagShows(env, R, n, x, m, x);
      SameAsItself(env, n, x);
    }
  }

  /** Structure n is read back from any object that carries it. */
  lemma {:induction false} StructRoundTripIff(env: Env, R: set<string>, n: string, x: Value, m: map<string, Json>)
    requires Regular(env, R) && n in R && env.IsStruct(n) && StructHasType(env, n, x) && Carries(env, n, x, m)
    ensures StructureBack(env, n, x, m) <==> SettledStruct(env, n, x)
    decreases x, 0, TNull, 2
  {
    hide StructHasType, Written, StructureBack, FieldsBack, BasesBack, SettledParts, TagSettled, TagHidden, TagYields;
    hide MembersDistinct, TagApart;
    if TagHidden(env, n, x) {
      HiddenTagIsLost(env, R, n, x, m);
    } else {
      TagsYield(env, n, x);
      CarriesTagIff(env, n, x, m);
      PartsRoundTripIff(env, R, n, x, m);
      PartsTogether(env, n, x, m);
    }
  }

  /** Members and bases are read back from an object that carries them, whatever becomes of the
      tag. */
  lemma {:induction false} PartsRoundTripIff(env: Env, R: set<string>, n: string, x: Value, m: map<string, Json>)
    requires Regular(env, R) && env.IsStruct(n) && StructHasType(env, n, x) && Carries(env, n, x, m)
    requires MembersDistinct(env, n) && TagApart(env, n) && CleanMembers(env, R, n)
    requires forall i :: 0 <= i < |env.declarations[n].parents| ==> TagYields(env, n, x, i)
    ensures FieldsBack(env, n, x, m) && BasesBack(env, n, x, m) <==> SettledParts(env, n, x)
    decreases x, 0, TNull, 1
  {
    hide StructHasType, FieldsBack, BasesBack, Carries, SettledField, TagYields;
    hide MembersDistinct, TagApart, CleanMembers;
    FieldsRoundTripIff(env, R, n, x, m);
    BasesRoundTripIff(env, R, n, x, m);
  }

  lemma FieldsTogether(env: Env, n: string, x: Value, m: map<string, Json>)
    requires env.WellFormed() && env.IsStruct(n) && StructHasType(env, n, x)
    ensures FieldsBack(env, n, x, m) <==>
            forall i :: 0 <= i < |env.declarations[n].properties| ==> FieldBack(env, n, x, m, i)
  {
    hide HasType, FieldHasType, DecodedField, Default;
    StructureHasType(env, n, Default(env, TNamed(n)));
    var ps := env.declarations[n].properties;
    var out := Default(env, TNamed(n)).fields;
    var d := DecodedFields(env, ps, Obj(m), out);
    if forall i :: 0 <= i < |ps| ==> FieldBack(env, n, x, m, i) {
      forall i | 0 <= i < |ps| ensures DecodedField(env, ps[i], Obj(m), out[i]) == Some(x.fields[i]) {
        assert FieldBack(env, n, x, m, i);
      }
      assert d.value == x.fields;
    }
    if d == Some(x.fields) {
      forall i | 0 <= i < |ps| ensures FieldBack(env, n, x, m, i) {
        assert d.value[i] == x.fields[i];
      }
    }
  }

  lemma {:induction false} FieldsRoundTripIff(env: Env, R: set<string>, n: string, x: Value, m: map<string, Json>)
    requires Regular(env, R) && env.IsStruct(n) && StructHasType(env, n, x) && Carries(env, n, x, m)
    requires MembersDistinct(env, n) && TagApart(env, n) && CleanMembers(env, R, n)
    ensures FieldsBack(env, n, x, m) <==>
            var ps := env.declarations[n].properties;
            forall i :: 0 <= i < |ps| ==> SettledField(env, ps[i], x.fields[i])
    decreases x, 0, TNull, 0
  {
    hide Carries, SettledField, MembersDistinct, TagApart, CleanMembers, FieldsBack, FieldBack, FieldHasType;
    forall i | 0 <= i < |env.declarations[n].properties|
      ensures FieldBack(env, n, x, m, i) <==> SettledField(env, env.declarations[n].properties[i], x.fields[i])
    {
      FieldRoundTripIff(env, R, n, x, m, i);
    }
    FieldsTogether(env, n, x, m);
  }

  lemma {:induction false} FieldRoundTripIff(env: Env, R: set<string>, n: string, x: Value, m: map<string, Json>,
                                             i: nat)
    requires Regular(env, R) && env.IsStruct(n) && StructHasType(env, n, x) && Carries(env, n, x, m)
    requires MembersDistinct(env, n) && TagApart(env, n) && CleanMembers(env, R, n)
    requires i < |env.declarations[n].properties|
    ensures FieldBack(env, n, x, m, i) <==> SettledField(env, env.declarations[n].properties[i], x.fields[i])
    decreases x.fields[i]
  {
    hide Carries, MembersDistinct, TagApart, Encoded, Decoded, Settled, HasType;
    var p := env.declarations[n].properties[i];
    CarriesField(env, n, x, m, i);
    StructureDefault(env, n);
    match x.fields[i]
    case Absent =>
    case Present(y) => RoundTripIff(env, R, p.ty, y);
  }

  lemma BasesTogether(env: Env, n: string, x: Value, m: map<string, Json>)
    requires env.WellFormed() && env.IsStruct(n) && StructHasType(env, n, x)
    ensures BasesBack(env, n, x, m) <==>
            var exts := env.declarations[n].parents;
            forall i :: 0 <= i < |exts| ==> env.IsStruct(exts[i]) && StructureBack(env, exts[i], x.bases[i], m)
  {
    hide FieldHasType, DecodedStruct;
    assert env.DeclarationOk(n);
    var exts := env.declarations[n].parents;
    StructureDefault(env, n);
    var d := DecodedBases(env, n, Obj(m), Default(env, TNamed(n)).bases);
    if forall i :: 0 <= i < |exts| ==> StructureBack(env, exts[i], x.bases[i], m) {
      assert d.value == x.bases;
    }
    if d == Some(x.bases) {
      forall i | 0 <= i < |exts| ensures StructureBack(env, exts[i], x.bases[i], m) {
        assert d.value[i] == x.bases[i];
      }
    }
  }

  lemma {:induction false} BasesRoundTripIff(env: Env, R: set<string>, n: string, x: Value, m: map<string, Json>)
    requires Regular(env, R) && env.IsStruct(n) && StructHasType(env, n, x) && Carries(env, n, x, m)
    requires MembersDistinct(env, n) && CleanMembers(env, R, n)
    requires forall i :: 0 <= i < |env.declarations[n].parents| ==> TagYields(env, n, x, i)
    ensures BasesBack(env, n, x, m) <==>
            var exts := env.declarations[n].parents;
            forall i :: 0 <= i < |exts| ==> SettledStruct(env, exts[i], x.bases[i])
    decreases x, 0, TNull, 0
  {
    hide Carries, SettledStruct, MembersDistinct, BasesBack, StructureBack, TagYields, FieldHasType;
    assert env.DeclarationOk(n);
    var exts := env.declarations[n].parents;
    forall i | 0 <= i < |exts|
      ensures StructureBack(env, exts[i], x.bases[i], m) <==> SettledStruct(env, exts[i], x.bases[i])
    {
      CarriesBase(env, n, x, m, i);
      StructRoundTripIff(env, R, exts[i], x.bases[i], m);
    }
    BasesTogether(env, n, x, m);
  }

  // ---- What follows for schemas ----

  /** No alternative of a OneOf in t itself accepts the encoding of a value of a later alternative. */
  ghost predicate Separated(env: Env, t: Schema)
    requires env.WellFormed()
  {
    match t
    case TVector(e) => Separated(env, e)
    case TTuple(ts) => forall i :: 0 <= i < |ts| ==> Separated(env, ts[i])
    case TMap(e) => Separated(env, e)
    case TOneOf(ts) =>
      && (forall i :: 0 <= i < |ts| ==> Separated(env, ts[i]))
      && (forall i, y :: 0 <= i < |ts| && HasType(env, ts[i], y) ==> NoEarlierMatch(env, ts, i, y))
    case _ => true
  }

  /** The same in every declaration among R; and no tag shares its name with a member of a base. */
  ghost predicate SeparatedDeclarations(env: Env, R: set<string>)
    requires env.WellFormed()
  {
    forall n :: n in R && n in env.declarations ==>
      match env.declarations[n]
      case Alias(ty) => Separated(env, ty)
      case Structure(kind, ps, _) =>
        && (kind.Some? ==> !InheritsKind(env, n))
        && forall i :: 0 <= i < |ps| ==> Separated(env, ps[i].ty)
  }

  lemma {:induction false} EncodableIsSettled(env: Env, R: set<string>, t: Schema, x: Value)
    requires Regular(env, R) && Clean(env, R, t) && Separated(env, t) && SeparatedDeclarations(env, R)
    requires HasType(env, t, x) && Encodable(env, t, x)
    ensures Settled(env, t, x)
    decreases x, env.Level(t) + 1, t, 3
  {
    hide StructHasType, Encoded, Conforms, NoEarlierMatch, EncodableStruct, SettledStruct, SeparatedDeclarations;
    match t
    case TVector(e) =>
      forall i | 0 <= i < |x.elements| ensures Settled(env, e, x.elements[i]) {
        EncodableIsSettled(env, R, e, x.elements[i]);
      }
    case TTuple(ts) =>
      forall i | 0 <= i < |ts| ensures Settled(env, ts[i], x.elements[i]) {
        EncodableIsSettled(env, R, ts[i], x.elements[i]);
      }
    case TMap(e) =>
      forall k | k in x.entries ensures Settled(env, e, x.entries[k]) {
        EncodableIsSettled(env, R, e, x.entries[k]);
      }
    case TOneOf(ts) => EncodableIsSettled(env, R, ts[x.choice], x.payload);
    case TNamed(n) => EncodableNamedIsSettled(env, R, n, x);
    case _ =>
  }

  lemma {:induction false} EncodableNamedIsSettled(env: Env, R: set<string>, n: string, x: Value)
    requires Regular(env, R) && n in R && SeparatedDeclarations(env, R)
    requires HasType(env, TNamed(n), x) && Encodable(env, TNamed(n), x)
    ensures Settled(env, TNamed(n), x)
    decreases x, env.Rank(n) + 1, TNamed(n), 2
  {
    hide HasType, StructHasType, EncodableStruct, SettledStruct, Clean, Separated;
    match env.declarations[n]
    case Alias(ty) =>
      AliasHasType(env, n, x);
      EncodableIsSettled(env, R, ty, x);
    case Structure(_, _, _) =>
      StructureHasType(env, n, x);
      EncodableStructIsSettled(env, R, n, x);
  }

  lemma {:induction false} EncodableStructIsSettled(env: Env, R: set<string>, n: string, x: Value)
    requires Regular(env, R) && n in R && SeparatedDeclarations(env, R)
    requires env.IsStruct(n) && StructHasType(env, n, x) && EncodableStruct(env, n, x)
    ensures SettledStruct(env, n, x)
    decreases x, env.Rank(n) + 1, TNamed(n), 1
  {
    var Structure(_, ps, exts) := env.declarations[n];
    forall i | 0 <= i < |ps| ensures SettledField(env, ps[i], x.fields[i]) {
      assert EncodableField(env, ps[i], x.fields[i]);
      if x.fields[i].Present? {
        EncodableIsSettled(env, R, ps[i].ty, x.fields[i].value);
      }
    }
    forall i | 0 <= i < |exts| ensures SettledStruct(env, exts[i], x.bases[i]) {
      EncodableStructIsSettled(env, R, exts[i], x.bases[i]);
    }
  }

  /** With distinct names, readable enums and separated alternatives, every value that can be
      encoded at all survives. */
  lemma SeparatedRoundTrip(env: Env, R: set<string>, t: Schema, x: Value)
    requires Regular(env, R) && Clean(env, R, t) && HasType(env, t, x)
    requires Separated(env, t) && SeparatedDeclarations(env, R)
    ensures RoundTrips(env, t, x) <==> Encodable(env, t, x)
  {
    hide HasType, Encoded, Decoded, Default, Settled, Encodable, Clean, Separated, SeparatedDeclarations;
    RoundTripIff(env, R, t, x);
    EncodedIffEncodable(env, t, x);
    if Encodable(env, t, x) {
      EncodableIsSettled(env, R, t, x);
    }
  }

  /** Structure n has a tag, and its only base has a required string member of the tag's name,
      at position j: CreateFile, RenameFile and DeleteFile. */
  ghost predicate TagTwice(env: Env, n: string, j: nat)
    requires env.WellFormed()
  {
    && env.IsStruct(n) && MembersDistinct(env, n) && TagApart(env, n)
    && env.declarations[n].kind.Some? && |env.declarations[n].parents| == 1
    && var base := env.declarations[n].parents[0];
       && env.IsStruct(base) && j < |env.declarations[base].properties|
       && env.declarations[base].properties[j] == Property("kind", false, TString)
  }

  ghost function BaseField(env: Env, n: string, x: Value, j: nat): Field
    requires env.WellFormed() && TagTwice(env, n, j) && StructHasType(env, n, x)
  {
    assert StructHasType(env, env.declarations[n].parents[0], x.bases[0]);
    x.bases[0].fields[j]
  }

  lemma BaseIsRegular(env: Env, R: set<string>, n: string, i: nat)
    requires Regular(env, R) && env.IsStruct(n) && CleanMembers(env, R, n) && i < |env.declarations[n].parents|
    ensures env.IsStruct(env.declarations[n].parents[i])
    ensures MembersDistinct(env, env.declarations[n].parents[i]) && TagApart(env, env.declarations[n].parents[i])
  {
    hide Clean, MembersDistinct, TagApart;
    assert env.DeclarationOk(n);
  }

  lemma BaseTagWritten(env: Env, R: set<string>, n: string, x: Value, j: nat)
    requires Regular(env, R) && n in R && TagTwice(env, n, j) && StructHasType(env, n, x)
    requires Written(env, n, x).Some?
    ensures var f, w := BaseField(env, n, x, j), Inherited(env, n, x);
            && f.Present? && f.value.VString?
            && w.Some? && "kind" in w.value && w.value["kind"] == Str(f.value.s)
  {
    hide StructHasType, Carries, MembersDistinct, TagApart, WrittenFields, Written;
    var base := env.declarations[n].parents[0];
    BaseHasType(env, n, x, 0);
    BaseIsWritten(env, n, x, 0);
    BaseIsRegular(env, R, n, 0);
    WholeIsCarried(env, base, x.bases[0]);
    CarriesField(env, base, x.bases[0], Written(env, base, x.bases[0]).value, j);
    BaseWritten(env, n, x, 1, 0, "kind");
  }

  lemma TagTwiceInherits(env: Env, n: string, j: nat)
    requires env.WellFormed() && TagTwice(env, n, j)
    ensures InheritsKind(env, n)
  {
    hide MembersDistinct;
    assert env.DeclarationOk(n);
    assert Owns(env, env.declarations[n].parents[0], "kind");
  }

  /** The base writes the shared name last, so such a structure survives exactly when the
      base's string equals the tag. */
  lemma TagTwiceRoundTripIff(env: Env, R: set<string>, n: string, x: Value, j: nat)
    requires Regular(env, R) && n in R && TagTwice(env, n, j) && StructHasType(env, n, x)
    ensures RoundTrips(env, TNamed(n), x) <==>
            SettledParts(env, n, x) && BaseField(env, n, x, j) == Present(VString(env.declarations[n].kind.value))
  {
    hide HasType, StructHasType, Encoded, Written, Decoded, WholeBack, SettledParts, EncodableStruct, BaseField, Owns;
    hide MembersDistinct, TagApart;
    StructureHasType(env, n, x);
    StructureRoundTrips(env, n, x);
    WholeRoundTripIff(env, R, n, x);
    TagTwiceInherits(env, n, j);
    if SettledParts(env, n, x) {
      SettledPartsAreEncodable(env, n, x);
      WrittenIffEncodable(env, n, x);
      BaseTagWritten(env, R, n, x, j);
    }
  }

  lemma {:induction false} InheritsIsTransitive(env: Env, n: string, b: string)
    requires env.WellFormed() && Inherits(env, n, b)
    ensures forall c :: Inherits(env, b, c) ==> Inherits(env, n, c)
    decreases env.Rank(n)
  {
    if n == b {
    } else {
      var i :| 0 <= i < |env.declarations[n].parents| && Inherits(env, env.declarations[n].parents[i], b);
      InheritsIsTransitive(env, env.declarations[n].parents[i], b);
    }
  }

  /** What conforms to a structure conforms to each of its bases. */
  lemma DerivedConforms(env: Env, n: string, b: string, v: Json)
    requires env.WellFormed() && env.IsStruct(n) && env.IsStruct(b) && Inherits(env, n, b)
    requires StructureConforms(env, n, v)
    ensures StructureConforms(env, b, v)
  {
    hide MembersConform;
    InheritsIsTransitive(env, n, b);
  }

  /** A structure listed after one of its own bases never survives: the base accepts it first. */
  lemma DerivedAfterBaseIsLost(env: Env, ts: seq<Schema>, j: nat, k: nat, x: Value)
    requires env.WellFormed() && j < k < |ts| && ts[j].TNamed? && ts[k].TNamed?
    requires env.IsStruct(ts[j].name) && env.IsStruct(ts[k].name) && Inherits(env, ts[k].name, ts[j].name)
    requires HasType(env, TOneOf(ts), x) && x.VOneOf? && x.choice == k
    ensures !RoundTrips(env, TOneOf(ts), x)
  {
    hide HasType, DecodedFrom, StructureConforms, Inherits;
    var v := Encoded(env, TOneOf(ts), x);
    if v.Some? && DecodedFrom(env, ts, v.value, 0) == Some(x) {
      FirstMatch(env, ts, v.value, 0);
      DecodedIffConforms(env, ts[k], v.value, Default(env, ts[k]));
      StructureConformsNamed(env, ts[k].name, v.value);
      StructureConformsNamed(env, ts[j].name, v.value);
      DerivedConforms(env, ts[k].name, ts[j].name, v.value);
    }
  }
}
