/** Types of the Language Server Protocol whose round trip is conditional. */
module LspSchemas {
  import opened Results
  import opened Json
  import opened Schemas
  import opened Decoding
  import opened Encoding
  import opened RoundTrip
  import opened Recoding
  import opened Equality
  import opened ComparedRoundTrip

  const LSP_ANY: seq<Schema> :=
    [TNamed("LSPObject"), TNamed("LSPArray"), TString, TInteger, TUinteger, TDecimal, TBoolean, TNull]

  ghost predicate DeclaresLspAny(env: Env) {
    && "LSPAny" in env.declarations && env.declarations["LSPAny"] == Alias(TOneOf(LSP_ANY))
    && "LSPObject" in env.declarations && env.declarations["LSPObject"] == Alias(TMap(TNamed("LSPAny")))
    && "LSPArray" in env.declarations && env.declarations["LSPArray"] == Alias(TVector(TNamed("LSPAny")))
  }

  function Unsigned(u: int): Value { VOneOf(4, VUinteger(u)) }

  /** An object of an alias of a OneOf, and when it is settled. */
  lemma AliasedOneOf(env: Env, n: string, ts: seq<Schema>, i: nat, y: Value)
    requires env.WellFormed() && n in env.declarations && env.declarations[n] == Alias(TOneOf(ts))
    requires i < |ts| && IndexOf(ts, ts[i]) == i && HasType(env, ts[i], y)
    ensures HasType(env, TNamed(n), VOneOf(i, y))
    ensures Settled(env, TNamed(n), VOneOf(i, y)) <==> Settled(env, ts[i], y) && NoEarlierMatch(env, ts, i, y)
  {
    hide NoEarlierMatch;
    assert env.DeclarationOk(n);
    assert HasType(env, TOneOf(ts), VOneOf(i, y));
  }

  lemma UnsignedIsFifth()
    ensures LSP_ANY[4] == TUinteger && IndexOf(LSP_ANY, TUinteger) == 4
  {
    IndexOfFirst(LSP_ANY, 4);
  }

  lemma NumberIsSettled(env: Env, u: int)
    requires env.WellFormed() && IsU64(u)
    ensures HasType(env, TUinteger, VUinteger(u)) && Settled(env, TUinteger, VUinteger(u))
  {
  }

  /** Of the alternatives before Uinteger, only Integer can accept a number. */
  lemma NumbersReachInteger(env: Env, v: Json)
    requires env.WellFormed() && DeclaresLspAny(env) && v.Num?
    ensures forall j :: 0 <= j < 4 && Conforms(env, LSP_ANY[j], v) ==> j == 3
  {
    assert !Conforms(env, TMap(TNamed("LSPAny")), v);
    assert !Conforms(env, TVector(TNamed("LSPAny")), v);
    assert !Conforms(env, LSP_ANY[0], v);
    assert !Conforms(env, LSP_ANY[1], v);
    assert !Conforms(env, LSP_ANY[2], v);
  }

  lemma UnsignedEarlier(env: Env, u: int)
    requires env.WellFormed() && DeclaresLspAny(env) && IsU64(u)
    requires LSP_ANY[4] == TUinteger && HasType(env, TUinteger, VUinteger(u))
    ensures NoEarlierMatch(env, LSP_ANY, 4, VUinteger(u)) <==> !Conforms(env, TInteger, Num(U64(u)))
  {
    NumbersReachInteger(env, Num(U64(u)));
    assert LSP_ANY[3] == TInteger;
    assert Encoded(env, TUinteger, VUinteger(u)) == Some(Num(U64(u)));
  }

  /** An unsigned value is settled unless Integer accepts its number. */
  lemma UnsignedSettled(env: Env, u: int)
    requires env.WellFormed() && DeclaresLspAny(env) && IsU64(u)
    ensures HasType(env, TNamed("LSPAny"), Unsigned(u))
    ensures Settled(env, TNamed("LSPAny"), Unsigned(u)) <==> !Conforms(env, TInteger, Num(U64(u)))
  {
    hide HasType, Settled, Conforms, NoEarlierMatch;
    UnsignedIsFifth();
    NumberIsSettled(env, u);
    AliasedOneOf(env, "LSPAny", LSP_ANY, 4, VUinteger(u));
    UnsignedEarlier(env, u);
  }

  lemma IntegerConformsIff(env: Env, v: Json)
    requires env.WellFormed() && v.Num?
    ensures Conforms(env, TInteger, v) <==> exists i :: IsI64(i) && env.accessors.i64(v.n) == Some(i)
  {
  }

  lemma RegularIsWellFormed(env: Env, R: set<string>)
    requires Regular(env, R)
    ensures env.WellFormed()
  {
  }

  /** LSPAny tries Integer before Uinteger, so an unsigned value keeps its type exactly when
      the signed accessor refuses the number it is written as. */
  lemma LspAnyUinteger(env: Env, R: set<string>, u: int)
    requires Regular(env, R) && DeclaresLspAny(env) && "LSPAny" in R && IsU64(u)
    ensures HasType(env, TNamed("LSPAny"), Unsigned(u))
    ensures RoundTrips(env, TNamed("LSPAny"), Unsigned(u)) <==>
            forall i :: IsI64(i) ==> env.accessors.i64(U64(u)) != Some(i)
  {
    RegularIsWellFormed(env, R);
    hide Regular, DeclaresLspAny, HasType, RoundTrips, Settled, Conforms;
    UnsignedSettled(env, u);
    IntegerConformsIff(env, Num(U64(u)));
    RoundTripIff(env, R, TNamed("LSPAny"), Unsigned(u));
  }

  ghost predicate DeclaresCreateFile(env: Env) {
    && "ResourceOperation" in env.declarations
    && env.declarations["ResourceOperation"] ==
         Structure(None, [Property("kind", false, TString), Property("annotationId", true, TString)], [])
    && "CreateFile" in env.declarations
    && env.declarations["CreateFile"] ==
         Structure(Some("create"),
                   [Property("uri", false, TString), Property("options", true, TNamed("CreateFileOptions"))],
                   ["ResourceOperation"])
    && "CreateFileOptions" in env.declarations
    && env.declarations["CreateFileOptions"] ==
         Structure(None, [Property("overwrite", true, TBoolean), Property("ignoreIfExists", true, TBoolean)], [])
  }

  lemma CreateFileTagsTwice(env: Env)
    requires env.WellFormed() && DeclaresCreateFile(env)
    ensures env.IsStruct("CreateFile") && TagTwice(env, "CreateFile", 0)
  {
    assert env.DeclarationOk("CreateFile");
  }

  const CREATE_FILES := {"CreateFile", "ResourceOperation", "CreateFileOptions"}

  /** A structure without tag and bases, whose members have different names. */
  lemma FlatIsRegular(env: Env, n: string, ps: seq<Property>)
    requires env.WellFormed() && n in env.declarations && env.declarations[n] == Structure(None, ps, [])
    requires forall i, j :: 0 <= i < j < |ps| ==> ps[i].name != ps[j].name
    ensures MembersDistinct(env, n) && TagApart(env, n)
  {
    hide Owns;
  }

  /** The doubled tag keeps no declaration from being regular. */
  lemma CreateFilesAreRegular(env: Env)
    requires env.WellFormed() && env.accessors.Lawful() && DeclaresCreateFile(env)
    ensures Regular(env, CREATE_FILES)
  {
    hide MembersDistinct, TagApart;
    CreateFileTagsTwice(env);
    FlatIsRegular(env, "ResourceOperation", env.declarations["ResourceOperation"].properties);
    FlatIsRegular(env, "CreateFileOptions", env.declarations["CreateFileOptions"].properties);
  }

  /** A CreateFile survives exactly when its options do and the kind string of its base reads
      "create", which nothing in the code sets. */
  lemma CreateFileRoundTrip(env: Env, R: set<string>, x: Value)
    requires Regular(env, R) && DeclaresCreateFile(env) && "CreateFile" in R
    requires StructHasType(env, "CreateFile", x)
    ensures TagTwice(env, "CreateFile", 0)
    ensures RoundTrips(env, TNamed("CreateFile"), x) <==>
            && SettledParts(env, "CreateFile", x)
            && BaseField(env, "CreateFile", x, 0) == Present(VString("create"))
  {
    CreateFileTagsTwice(env);
    hide StructHasType, TagTwice, MembersDistinct, TagApart, CleanMembers, RoundTrips, SettledParts, BaseField;
    TagTwiceRoundTripIff(env, R, "CreateFile", x, 0);
  }

  // ---- A value that changes its type ----

  const FILTER_ALTERNATIVES: seq<Schema> :=
    [TNamed("TextDocumentFilterLanguage"), TNamed("TextDocumentFilterScheme"), TNamed("TextDocumentFilterPattern")]

  /** The three structures share their members; each requires another one of them. */
  function FilterMembers(required: nat): seq<Property> {
    [Property("language", required != 0, TString), Property("scheme", required != 1, TString),
     Property("pattern", required != 2, TString)]
  }

  const CELL_MEMBERS :=
    [Property("notebook", false, TOneOf([TString, TNamed("NotebookDocumentFilter")])),
     Property("language", true, TString)]

  const DOCUMENT_FILTERS: seq<Schema> := [TNamed("TextDocumentFilter"), TNamed("NotebookCellTextDocumentFilter")]

  ghost predicate Declares(env: Env, n: string, d: Declaration) {
    n in env.declarations && env.declarations[n] == d
  }

  ghost predicate DeclaresDocumentFilter(env: Env) {
    && Declares(env, "TextDocumentFilterLanguage", Structure(None, FilterMembers(0), []))
    && Declares(env, "TextDocumentFilterScheme", Structure(None, FilterMembers(1), []))
    && Declares(env, "TextDocumentFilterPattern", Structure(None, FilterMembers(2), []))
    && Declares(env, "NotebookCellTextDocumentFilter", Structure(None, CELL_MEMBERS, []))
    && Declares(env, "TextDocumentFilter", Alias(TOneOf(FILTER_ALTERNATIVES)))
    && Declares(env, "DocumentFilter", Alias(TOneOf(DOCUMENT_FILTERS)))
  }

  /** A filter for notebook cells, with a `scheme` that is no string. */
  const CELL_FILTER := Obj(map["notebook" := Str("python"), "language" := Str("c"), "scheme" := Null])

  /** A structure without tag and bases. */
  lemma FlatConforms(env: Env, n: string, ps: seq<Property>, v: Json)
    requires env.WellFormed() && Declares(env, n, Structure(None, ps, [])) && v.Obj?
    ensures Conforms(env, TNamed(n), v) <==>
            forall i :: 0 <= i < |ps| ==>
              if ps[i].name in v.members then Conforms(env, ps[i].ty, v.members[ps[i].name]) else ps[i].optional
  {
    hide Conforms;
    StructureConformsNamed(env, n, v);
    ConformsToBases(env, n, v);
  }
  lemma StringConforms(env: Env, v: Json)
    requires env.WellFormed()
    ensures Conforms(env, TString, v) <==> v.Str?
  {
  }

  lemma OneOfConforms(env: Env, ts: seq<Schema>, v: Json)
    requires env.WellFormed()
    ensures Conforms(env, TOneOf(ts), v) <==> exists i :: 0 <= i < |ts| && Conforms(env, ts[i], v)
  {
  }

  /** A text filter is one of its three structures. */
  lemma TextFilterConforms(env: Env, v: Json)
    requires env.WellFormed() && DeclaresDocumentFilter(env)
    ensures Conforms(env, TNamed("TextDocumentFilter"), v) <==>
            exists i :: 0 <= i < 3 && Conforms(env, FILTER_ALTERNATIVES[i], v)
  {
    hide Conforms;
    AliasConforms(env, "TextDocumentFilter", v);
    OneOfConforms(env, FILTER_ALTERNATIVES, v);
  }

  lemma CellFilterIsDeclared(env: Env)
    requires DeclaresDocumentFilter(env)
    ensures Declares(env, "NotebookCellTextDocumentFilter", Structure(None, CELL_MEMBERS, []))
  {
  }

  lemma FilterIsDeclared(env: Env, i: nat)
    requires DeclaresDocumentFilter(env) && i < 3
    ensures FILTER_ALTERNATIVES[i].TNamed?
    ensures Declares(env, FILTER_ALTERNATIVES[i].name, Structure(None, FilterMembers(i), []))
  {
  }

  lemma FilterConforms(env: Env, i: nat, v: Json)
    requires env.WellFormed() && DeclaresDocumentFilter(env) && i < 3 && v.Obj?
    ensures var ps := FilterMembers(i);
            Conforms(env, FILTER_ALTERNATIVES[i], v) <==>
            forall k :: 0 <= k < 3 ==> if ps[k].name in v.members then v.members[ps[k].name].Str? else ps[k].optional
  {
    hide Conforms, DeclaresDocumentFilter;
    FilterIsDeclared(env, i);
    var ps := FilterMembers(i);
    FlatConforms(env, FILTER_ALTERNATIVES[i].name, ps, v);
    forall k | 0 <= k < 3 && ps[k].name in v.members
      ensures Conforms(env, ps[k].ty, v.members[ps[k].name]) <==> v.members[ps[k].name].Str?
    {
      StringConforms(env, v.members[ps[k].name]);
    }
  }

  /** None of the text filters accepts it, because of the `scheme`. */
  lemma TextFilterRefuses(env: Env)
    requires env.WellFormed() && DeclaresDocumentFilter(env)
    ensures !Conforms(env, TNamed("TextDocumentFilter"), CELL_FILTER)
  {
    hide Conforms, DeclaresDocumentFilter;
    TextFilterConforms(env, CELL_FILTER);
    forall i | 0 <= i < 3 ensures !Conforms(env, FILTER_ALTERNATIVES[i], CELL_FILTER) {
      FilterConforms(env, i, CELL_FILTER);
      assert FilterMembers(i)[1].name == "scheme";
    }
  }

  lemma CellFilterAccepts(env: Env)
    requires env.WellFormed() && DeclaresDocumentFilter(env)
    ensures Conforms(env, TNamed("NotebookCellTextDocumentFilter"), CELL_FILTER)
  {
    hide Conforms;
    StringConforms(env, Str("python"));
    StringConforms(env, Str("c"));
    var ts := [TString, TNamed("NotebookDocumentFilter")];
    assert ts[0] == TString;
    OneOfConforms(env, ts, Str("python"));
    FlatConforms(env, "NotebookCellTextDocumentFilter", CELL_MEMBERS, CELL_FILTER);
  }

  /** What a cell filter decoded from it writes holds its language, and neither scheme nor pattern. */
  lemma CellFilterForgets(env: Env, y: Value)
    requires env.WellFormed() && Declares(env, "NotebookCellTextDocumentFilter", Structure(None, CELL_MEMBERS, []))
    requires FreshStruct(env, "NotebookCellTextDocumentFilter", CELL_FILTER) == Some(y)
    requires Written(env, "NotebookCellTextDocumentFilter", y).Some?
    ensures var w := Written(env, "NotebookCellTextDocumentFilter", y).value;
            "language" in w && w["language"] == Str("c") && "scheme" !in w && "pattern" !in w
  {
    hide FreshStruct, StructHasType, WrittenFields, Encoded, Decoded, Owns, MembersDistinct;
    var n := "NotebookCellTextDocumentFilter";
    FlatIsRegular(env, n, CELL_MEMBERS);
    FreshFields(env, n, CELL_FILTER.members, y);
    FieldWritten(env, n, y, 1);
    StringIsKept(env, TString, "c", y.fields[1].value);
    var own := WrittenFields(env, n, y, 2).value;
    assert Written(env, n, y).value == own;
    if "scheme" in own {
      WrittenFieldIsOwned(env, n, y, 2, "scheme");
    }
    if "pattern" in own {
      WrittenFieldIsOwned(env, n, y, 2, "pattern");
    }
  }

  /** Any object with a language and neither scheme nor pattern is a text filter. */
  lemma TextFilterAccepts(env: Env, m: map<string, Json>)
    requires env.WellFormed() && DeclaresDocumentFilter(env)
    requires "language" in m && m["language"] == Str("c") && "scheme" !in m && "pattern" !in m
    ensures Conforms(env, TNamed("TextDocumentFilter"), Obj(m))
  {
    hide Conforms, DeclaresDocumentFilter;
    TextFilterConforms(env, Obj(m));
    FilterConforms(env, 0, Obj(m));
  }

  /** The filter is decoded as one for notebook cells. */
  lemma CellFilterIsTaken(env: Env) returns (y: Value)
    requires env.WellFormed() && DeclaresDocumentFilter(env)
    ensures DecodedFrom(env, DOCUMENT_FILTERS, CELL_FILTER, 0) == Some(VOneOf(1, y))
    ensures Fresh(env, DOCUMENT_FILTERS[1], CELL_FILTER) == Some(y)
  {
    hide Conforms, Decoded, DecodedFrom, Default, HasType, DeclaresDocumentFilter;
    TextFilterRefuses(env);
    CellFilterAccepts(env);
    assert DOCUMENT_FILTERS[0] == TNamed("TextDocumentFilter");
    assert DOCUMENT_FILTERS[1] == TNamed("NotebookCellTextDocumentFilter");
    DecodedFromIffConforms(env, DOCUMENT_FILTERS, CELL_FILTER, 0);
    FirstMatch(env, DOCUMENT_FILTERS, CELL_FILTER, 0);
    DecodedIffConforms(env, DOCUMENT_FILTERS[0], CELL_FILTER, Default(env, DOCUMENT_FILTERS[0]));
    y := DecodedFrom(env, DOCUMENT_FILTERS, CELL_FILTER, 0).value.payload;
  }

  /** What it is written as then is a text filter. */
  lemma RewrittenFilterIsText(env: Env, R: set<string>, y: Value)
    requires Regular(env, R) && DeclaresDocumentFilter(env) && "NotebookCellTextDocumentFilter" in R
    requires Fresh(env, TNamed("NotebookCellTextDocumentFilter"), CELL_FILTER) == Some(y)
    ensures HasType(env, TNamed("NotebookCellTextDocumentFilter"), y)
    ensures var v := Encoded(env, TNamed("NotebookCellTextDocumentFilter"), y);
            v.Some? && Conforms(env, TNamed("TextDocumentFilter"), v.value)
  {
    hide HasType, StructHasType, FreshStruct, Encodable, Encoded, Written, Settled, Steady, Conforms;
    hide Fresh, DeclaresDocumentFilter;
    var n := "NotebookCellTextDocumentFilter";
    CellFilterIsDeclared(env);
    StructureIsFresh(env, n, CELL_FILTER);
    SettledIffSteady(env, R, TNamed(n), CELL_FILTER, y);
    EncodedIffEncodable(env, TNamed(n), y);
    StructureHasType(env, n, y);
    StructureEncoded(env, n, y);
    CellFilterForgets(env, y);
    TextFilterAccepts(env, Written(env, n, y).value);
  }

  lemma DocumentFilterIsFresh(env: Env)
    requires env.WellFormed() && DeclaresDocumentFilter(env)
    ensures Fresh(env, TNamed("DocumentFilter"), CELL_FILTER) == DecodedFrom(env, DOCUMENT_FILTERS, CELL_FILTER, 0)
  {
    hide Fresh, DecodedFrom;
    AliasIsFresh(env, "DocumentFilter", CELL_FILTER);
    OneOfIsFresh(env, DOCUMENT_FILTERS, CELL_FILTER);
  }

  lemma DocumentFilterIsUnsteady(env: Env, y: Value)
    requires env.WellFormed() && DeclaresDocumentFilter(env)
    requires DecodedFrom(env, DOCUMENT_FILTERS, CELL_FILTER, 0) == Some(VOneOf(1, y))
    requires HasType(env, DOCUMENT_FILTERS[1], y) && Encoded(env, DOCUMENT_FILTERS[1], y).Some?
    requires Conforms(env, DOCUMENT_FILTERS[0], Encoded(env, DOCUMENT_FILTERS[1], y).value)
    ensures !Steady(env, TNamed("DocumentFilter"), CELL_FILTER)
  {
    hide Conforms, HasType, Decoded, DecodedFrom, Default, Encoded;
    assert !NoEarlierMatch(env, DOCUMENT_FILTERS, 1, y);
    AliasSteady(env, "DocumentFilter", CELL_FILTER);
  }

  /** So it comes back as a text filter. */
  lemma CellFilterChangesType(env: Env, R: set<string>)
    requires Regular(env, R) && DeclaresDocumentFilter(env)
    requires {"DocumentFilter", "NotebookCellTextDocumentFilter"} <= R
    ensures Fresh(env, TNamed("DocumentFilter"), CELL_FILTER).Some?
    ensures !RoundTrips(env, TNamed("DocumentFilter"), Fresh(env, TNamed("DocumentFilter"), CELL_FILTER).value)
  {
    hide Conforms, HasType, Fresh, DecodedFrom, Steady, RoundTrips, Encoded, DeclaresDocumentFilter;
    var y := CellFilterIsTaken(env);
    DocumentFilterIsFresh(env);
    RewrittenFilterIsText(env, R, y);
    DocumentFilterIsUnsteady(env, y);
    DecodedSurvivesIff(env, R, TNamed("DocumentFilter"), CELL_FILTER, VOneOf(1, y));
  }

  // ---- Doubles ----

  const NAN := Decimal(0x7FF8_0000_0000_0000)
  const ZERO := Decimal(0)
  const MINUS_ZERO := Decimal(SIGN_BIT)

  ghost predicate DeclaresColor(env: Env) {
    && "Color" in env.declarations
    && env.declarations["Color"] ==
         Structure(None,
                   seq(4, i requires 0 <= i < 4 => Property(["red", "green", "blue", "alpha"][i], false, TDecimal)),
                   [])
  }

  function Color(red: Decimal): Value {
    VStruct(seq(4, i => Present(VDecimal(if i == 0 then red else ZERO))), [])
  }

  lemma ColorHasType(env: Env, red: Decimal)
    requires env.WellFormed() && DeclaresColor(env)
    ensures HasType(env, TNamed("Color"), Color(red)) && StructHasType(env, "Color", Color(red))
  {
    var ps, fields := env.declarations["Color"].properties, Color(red).fields;
    forall i | 0 <= i < 4 ensures FieldHasType(env, ps[i], fields[i]) {
      assert HasType(env, TDecimal, fields[i].value);
    }
    StructureHasType(env, "Color", Color(red));
  }

  lemma SameColors()
    ensures Same(Color(ZERO), Color(MINUS_ZERO))
  {
    SameStructIff(Color(ZERO), Color(MINUS_ZERO));
  }

  /** Two different colours can compare equal. */
  lemma SignedZerosCompareEqual(env: Env)
    requires env.WellFormed() && DeclaresColor(env)
    ensures HasType(env, TNamed("Color"), Color(ZERO)) && HasType(env, TNamed("Color"), Color(MINUS_ZERO))
    ensures Color(ZERO) != Color(MINUS_ZERO)
    ensures Equal(env, TNamed("Color"), Color(ZERO), Color(MINUS_ZERO))
  {
    ColorHasType(env, ZERO);
    ColorHasType(env, MINUS_ZERO);
    assert Color(ZERO).fields[0] != Color(MINUS_ZERO).fields[0];
    SameColors();
    EqualIff(env, TNamed("Color"), Color(ZERO), Color(MINUS_ZERO));
  }

  lemma NaNColorIsIncomparable()
    ensures !Comparable(Color(NAN))
  {
    assert !ComparableField(Color(NAN).fields[0]);
  }

  lemma ColorIsSettled(env: Env, red: Decimal)
    requires env.WellFormed() && DeclaresColor(env)
    requires HasType(env, TNamed("Color"), Color(red)) && StructHasType(env, "Color", Color(red))
    ensures Settled(env, TNamed("Color"), Color(red))
  {
    var ps, fields := env.declarations["Color"].properties, Color(red).fields;
    forall i | 0 <= i < 4 ensures FieldHasType(env, ps[i], fields[i]) && SettledField(env, ps[i], fields[i]) {
      assert FieldHasType(env, ps[i], fields[i]);
      assert Settled(env, TDecimal, fields[i].value);
    }
    StructureSettled(env, "Color", Color(red));
  }

  /** A colour that is unequal to itself survives the round trip, but does not compare equal to what
      comes back. */
  lemma NaNComesBackUnequal(env: Env, R: set<string>)
    requires Regular(env, R) && DeclaresColor(env) && "Color" in R
    ensures HasType(env, TNamed("Color"), Color(NAN))
    ensures RoundTrips(env, TNamed("Color"), Color(NAN))
    ensures !Equal(env, TNamed("Color"), Color(NAN), Color(NAN)) && !ComesBackEqual(env, TNamed("Color"), Color(NAN))
  {
    ColorHasType(env, NAN);
    NaNColorIsIncomparable();
    ColorIsSettled(env, NAN);
    RoundTripIff(env, R, TNamed("Color"), Color(NAN));
    EqualToItselfIff(env, TNamed("Color"), Color(NAN));
    RoundTripComparesEqual(env, R, TNamed("Color"), Color(NAN));
  }
}
