/** Values that generated validators let through or throw at, and a specification whose code dangles. */
module CfnExamples {
  import opened Options
  import opened CfnSpec
  import opened CfnCode
  import opened CfnStructure
  import opened CfnGenerator
  import opened CfnRuntime
  import opened CfnMeaning
  import opened CfnNames
  import opened CfnAdmission
  import opened CfnVerdicts
  import opened CfnMappers

  // ---------------------------------------------------------------- what slips through

  const MAP_OF_STRINGS :=
    Property("labels", false, None, Some("Map"), None, Some("String"), None, None, None, None, None)

  const TIMESTAMP :=
    Property("created", false, Some("Timestamp"), None, None, None, None, None, None, None, None)

  lemma MapOfStrings(spec: Spec, resource: string)
    requires WellFormed(spec)
    ensures WellShaped(MAP_OF_STRINGS) && Inlines(spec, resource, MAP_OF_STRINGS, 0)
    ensures ScalarTypes(resource, MAP_OF_STRINGS) == [] && ItemTypes(resource, MAP_OF_STRINGS) == [Primitive("string")]
  {
    var p := MAP_OF_STRINGS;
    assert p.IsPrimitiveMap() && !p.IsMapOfListsOfPrimitives();
    assert ItemTypeNames(p) == ["String"] && ScalarTypeNames(p) == [];
    assert |"String"| == 6 && "String"[4..] != "[]" by { assert "String"[4..][0] == 'n'; }
    assert SpecTypeToCodeType(resource, "String") == Primitive("string");
  }

  /** A list of one string, a number and a string all pass for a map of strings. */
  lemma MapTakesOtherThings(spec: Spec, deep: nat, code: seq<Emitted>, resource: string, v: Js)
    requires IsCode(spec, deep, code) && v in [List([Text("a")]), Number(5.0), Text("abc")]
    ensures WellShaped(MAP_OF_STRINGS) && Inlines(spec, resource, MAP_OF_STRINGS, 0)
    ensures Run(code, Dispatch(spec, Validator, resource, MAP_OF_STRINGS, 0), v) == Pass
    ensures !Admits(spec, deep, resource, MAP_OF_STRINGS, v, 0)
  {
    MapOfStrings(spec, resource);
    ValidatorMeaning(spec, deep, code, resource, MAP_OF_STRINGS, v, 0);
    var ts := [Primitive("string")];
    forall i | 0 <= i < |Elements(v)|
      ensures Elements(v)[i].Text?
      ensures JudgeOneOf(spec, deep, resource, ts, Elements(v)[i], 0) == Pass
    {
      JudgedString(spec, deep, resource, Elements(v)[i]);
    }
    hide AliasesEnd, JudgeOneOf;
    var vs := seq(|Elements(v)|,
                  i requires 0 <= i < |Elements(v)| => JudgeOneOf(spec, deep, resource, ts, Elements(v)[i], 0));
    JudgedEntries(spec, deep, resource, ts, false, v, 0, vs);
    FirstOtherIs(vs, Pass);
  }

  const LIST_OF_STRINGS :=
    Property("names", false, None, Some("List"), None, Some("String"), None, None, None, None, None)

  /** An object with a `forEach` and no `length` passes for a list of anything, here of strings. But
      it has no function to map its items. */
  lemma ListTakesObject(spec: Spec, deep: nat, code: seq<Emitted>, resource: string, v: Js)
    requires IsCode(spec, deep, code) && v == Object([Entry("forEach", Boolean(true))])
    ensures WellShaped(LIST_OF_STRINGS) && Inlines(spec, resource, LIST_OF_STRINGS, 0)
    ensures Run(code, Dispatch(spec, Validator, resource, LIST_OF_STRINGS, 0), v) == Pass
    ensures !Admits(spec, deep, resource, LIST_OF_STRINGS, v, 0)
    ensures MapTo(code, Dispatch(spec, Mapper, resource, LIST_OF_STRINGS, 0), v) == Breaks
  {
    var p, t := LIST_OF_STRINGS, Primitive("string");
    assert p.IsPrimitiveList() && !p.IsMapOfListsOfPrimitives() && !p.IsMap();
    assert ItemTypeNames(p) == ["String"] && ScalarTypeNames(p) == [];
    assert |"String"| == 6 && "String"[4..] != "[]" by { assert "String"[4..][0] == 'n'; }
    assert SpecTypeToCodeType(resource, "String") == t;
    assert ItemTypes(resource, p) == [t] && ScalarTypes(resource, p) == [];
    ListLikeObject(v);
    ValidatorMeaning(spec, deep, code, resource, p, v, 0);
    assert InTurn([]) == Pass;
  }

  lemma ListLikeObject(v: Js)
    requires v == Object([Entry("forEach", Boolean(true))])
    ensures IsListLike(v) && Items(v) == [] && CanInspect(v)
  {
    assert |"forEach"| == 7 && |"length"| == 6 && |"Ref"| == 3 && "forEach"[0] == 'f' && "Fn::"[0] == 'F';
    assert v.entries[1..] == [];
    assert FieldOf(v, "length") == Undefined;
  }

  lemma JudgedString(spec: Spec, deep: nat, resource: string, v: Js)
    requires AliasesEnd(spec, deep) && v.Text?
    ensures JudgeOneOf(spec, deep, resource, [Primitive("string")], v, 0) == Pass
  {
    var t := Primitive("string");
    var vs := seq(1, i requires 0 <= i < 1 => JudgeType(spec, deep, resource, [t][i], v, 0));
    assert vs == [JudgeType(spec, deep, resource, t, v, 0)];
    EitherOne(vs[0]);
  }

  /** In a sound specification, a list or a date without a null and without anything to be replaced
      passes for a record that requires nothing, if no property has the name of something that
      lists have, as `length` is. */
  lemma RecordTakesList(spec: Spec, deep: nat, resource: string, t: CodeName, v: Js, n: nat)
    requires AliasesEnd(spec, deep) && SoundSpec(spec, deep) && InlinesAtom(spec, resource, t, n) && !IsAlias(spec, t)
    requires HasFunctions(spec, t) && (v.List? || v.Date?) && Calm(v)
    requires forall p :: p in PropertiesOf(spec, t) ==> !p.required && p.name != "length"
    ensures JudgeType(spec, deep, resource, t, v, n) == Pass && !TakesType(spec, deep, resource, t, v, n, true)
  {
    assert !TakesBuiltIn(t, v) && !IsBuiltIn(t);
    forall i | 0 <= i < |PropertiesOf(spec, t)| ensures FieldTaken(spec, deep, t, i, v) {
      var p := PropertiesOf(spec, t)[i];
      assert p in PropertiesOf(spec, t) && FieldOf(v, p.name) == Undefined;
      FieldSound(spec, deep, t, i);
      MissingFits(spec, deep, t.resource, p, Undefined, deep);
    }
    TypeExplained(spec, deep, resource, t, v, n);
    TypeCalm(spec, deep, resource, t, v, n);
    hide AliasesEnd, SoundSpec, FieldTaken, JudgeType, TripsType;
    TakesRecord(spec, deep, resource, t, v, n,
                seq(|PropertiesOf(spec, t)|, i requires 0 <= i < |PropertiesOf(spec, t)| =>
      FieldTaken(spec, deep, t, i, v)));
  }

  /** What is missing or to be replaced fits everywhere. */
  lemma {:induction false} MissingFits(spec: Spec, deep: nat, resource: string, p: Property, v: Js, n: nat)
    requires AliasesEnd(spec, deep) && WellShaped(p) && Inlines(spec, resource, p, n) && !CanInspect(v)
    ensures Fits(spec, deep, resource, p, v, n)
    decreases n
  {
    hide *;
    var scalars, items, parts := ScalarTypes(resource, p), ItemTypes(resource, p), Parts(resource, p).0;
    PartsOf(resource, p);
    TakesIs(spec, deep, resource, p, v, n, false);
    FitsIs(spec, deep, resource, p, v, n);
    if items == [] || scalars != [] {
      var t := scalars[0];
      assert t in parts;
      if IsAlias(spec, t) {
        AliasPlaced(spec, resource, t, n);
        MissingFits(spec, deep, resource, AliasOf(spec, t), v, n - 1);
      }
      MissingTakes(spec, deep, resource, t, v, n);
      FirstTakes(spec, deep, resource, scalars, v, n);
    } else {
      MissingTakesAll(spec, deep, resource, parts, p.IsMapOfListsOfPrimitives(), v, n);
    }
  }

  lemma FitsIs(spec: Spec, deep: nat, resource: string, p: Property, v: Js, n: nat)
    requires AliasesEnd(spec, deep) && WellShaped(p) && Inlines(spec, resource, p, n)
    ensures Fits(spec, deep, resource, p, v, n) == TakesProperty(spec, deep, resource, p, v, n, false)
    ensures WellFormed(spec)
  {
    hide TakesProperty, WellFormed;
  }

  lemma FirstTakes(spec: Spec, deep: nat, resource: string, ts: seq<CodeName>, v: Js, n: nat)
    requires AliasesEnd(spec, deep) && ts != [] && forall t :: t in ts ==> InlinesAtom(spec, resource, t, n)
    requires TakesType(spec, deep, resource, ts[0], v, n, false)
    ensures TakesOneOf(spec, deep, resource, ts, v, n, false)
  {
    hide AliasesEnd, InlinesAtom, TakesType;
  }

  lemma MissingTakesAll(spec: Spec, deep: nat, resource: string, ts: seq<CodeName>, lists: bool, v: Js, n: nat)
    requires AliasesEnd(spec, deep) && (forall t :: t in ts ==> InlinesAtom(spec, resource, t, n)) && !CanInspect(v)
    ensures TakesList(spec, deep, resource, ts, v, n, false) && TakesMap(spec, deep, resource, ts, lists, v, n, false)
  {
    hide AliasesEnd, InlinesAtom, TakesOneOf, CanInspect;
  }

  lemma AliasPlaced(spec: Spec, resource: string, t: CodeName, n: nat)
    requires WellFormed(spec) && InlinesAtom(spec, resource, t, n) && IsAlias(spec, t)
    ensures n > 0 && WellShaped(AliasOf(spec, t)) && Inlines(spec, resource, AliasOf(spec, t), n - 1)
  {
  }

  lemma MissingTakes(spec: Spec, deep: nat, resource: string, t: CodeName, v: Js, n: nat)
    requires AliasesEnd(spec, deep) && InlinesAtom(spec, resource, t, n) && !CanInspect(v)
    requires IsAlias(spec, t) ==>
               n > 0 && WellShaped(AliasOf(spec, t)) && Inlines(spec, resource, AliasOf(spec, t), n - 1)
               && Fits(spec, deep, resource, AliasOf(spec, t), v, n - 1)
    ensures TakesType(spec, deep, resource, t, v, n, false)
  {
    hide AliasesEnd, TakesProperty, Inlines;
  }

  /** The validator of a date asks a null, or what CloudFormation is to replace, for its time. */
  lemma TimestampThrows(spec: Spec, deep: nat, code: seq<Emitted>, resource: string, v: Js)
    requires IsCode(spec, deep, code) && (v.Null? || IsIntrinsic(v))
    ensures WellShaped(TIMESTAMP) && Inlines(spec, resource, TIMESTAMP, 0)
    ensures Run(code, Dispatch(spec, Validator, resource, TIMESTAMP, 0), v) == Throws
    ensures Admits(spec, deep, resource, TIMESTAMP, v, 0)
  {
    var p, t := TIMESTAMP, Primitive("Date");
    assert ScalarTypeNames(p) == ["Timestamp"] && ItemTypeNames(p) == [];
    assert |"Timestamp"| == 9 && "Timestamp"[7..] != "[]" by { assert "Timestamp"[7..][0] == 'm'; }
    assert SpecTypeToCodeType(resource, "Timestamp") == t;
    assert ScalarTypes(resource, p) == [t] && ItemTypes(resource, p) == [];
    ValidatorMeaning(spec, deep, code, resource, p, v, 0);
    var vs := seq(1, i requires 0 <= i < 1 => JudgeType(spec, deep, resource, [t][i], v, 0));
    assert vs == [JudgeType(spec, deep, resource, t, v, 0)] == [Throws];
    EitherOne(Throws);
    assert TakesType(spec, deep, resource, [t][0], v, 0, true);
  }

  const TAG := Property("tag", false, None, Some("Tag"), None, None, None, None, None, None, None)

  /** An optional tag that is missing passes, and its mapper asks it for its key. */
  lemma MissingTagBreaks(spec: Spec, deep: nat, code: seq<Emitted>, resource: string)
    requires IsCode(spec, deep, code)
    ensures WellShaped(TAG) && Inlines(spec, resource, TAG, 0)
    ensures Run(code, Dispatch(spec, Validator, resource, TAG, 0), Undefined) == Pass
    ensures MapTo(code, Dispatch(spec, Mapper, resource, TAG, 0), Undefined) == Breaks
  {
    assert |"Tag"| == 3 && |"Map"| == 3 && |"List"| == 4 && "Tag"[0] == 'T' && "Map"[0] == 'M';
    assert ScalarTypeNames(TAG) == ["Tag"] && ItemTypeNames(TAG) == [];
    assert "Tag"[1..] != "[]" by { assert "Tag"[1..][0] == 'a'; }
    assert SpecTypeToCodeType(resource, "Tag") == CfnTag;
    assert ScalarTypes(resource, TAG) == [CfnTag] && ItemTypes(resource, TAG) == [];
  }

  const NUMBER_OR_BOOLEAN :=
    Property("either", false, None, None, None, None, None, None, Some(["Integer", "Boolean"]), None, None)

  /** Without a validation ahead of it, the mapper of a union can run out of validators. */
  lemma UnmatchedUnvalidated(spec: Spec, code: seq<Emitted>, resource: string, s: string)
    requires WellFormed(spec)
    ensures WellShaped(NUMBER_OR_BOOLEAN) && Inlines(spec, resource, NUMBER_OR_BOOLEAN, 0)
    ensures MapTo(code, Dispatch(spec, Mapper, resource, NUMBER_OR_BOOLEAN, 0), Text(s)) == Unmatched
  {
    var p, ts := NUMBER_OR_BOOLEAN, [Primitive("number"), Primitive("boolean")];
    NumberOrBoolean(spec, resource);
    DispatchIs(spec, Mapper, resource, p, 0);
    hide Dispatch, Parts, ScalarTypes, ItemTypes, WellShaped, Inlines, WellFormed, MapTo;
    var validators, members := NamedValidators(ts), VisitAtoms(spec, Mapper, resource, ts, 0);
    assert forall k :: 0 <= k < 2 ==> Run(code, validators[k], Text(s)) == Fail;
    UnionChooses(code, validators, members, Text(s), 2);
  }

  lemma NumberOrBoolean(spec: Spec, resource: string)
    requires WellFormed(spec)
    ensures var p, ts := NUMBER_OR_BOOLEAN, [Primitive("number"), Primitive("boolean")];
      && WellShaped(p) && Inlines(spec, resource, p, 0) && !p.IsCollection()
      && ScalarTypes(resource, p) == ts && ItemTypes(resource, p) == [] && Parts(resource, p).0 == ts
  {
    var p, ts := NUMBER_OR_BOOLEAN, [Primitive("number"), Primitive("boolean")];
    PrimitiveName(resource, "Integer");
    PrimitiveName(resource, "Boolean");
    assert ScalarTypeNames(p) == ["Integer", "Boolean"] && ItemTypeNames(p) == [];
    hide SpecTypeToCodeType;
    assert ScalarTypes(resource, p) == ts && ItemTypes(resource, p) == [] && Parts(resource, p).0 == ts;
  }

  // ---------------------------------------------------------------- code that dangles

  const TEXT := Property("text", false, Some("String"), None, None, None, None, None, None, None, None)

  /** A name for strings, or a string. */
  const UNION := Property("either", false, None, None, None, None, None, Some(["Name"]), Some(["String"]), None, None)

  const UNION_SPEC :=
    Spec(["Resource"], map["Resource" := [UNION]], [TypeKey("Resource", "Name")],
         map[TypeKey("Resource", "Name") := Alias(TEXT)])

  lemma UnionSpecTypes(resource: string)
    ensures ScalarTypes(resource, TEXT) == [Primitive("string")] && ItemTypes(resource, TEXT) == []
    ensures ScalarTypes(resource, UNION) == [PropertyTypeName(resource, "Name"), Primitive("string")]
            && ItemTypes(resource, UNION) == []
    ensures WellShaped(TEXT) && WellShaped(UNION) && !TEXT.IsCollection() && !UNION.IsCollection()
  {
    assert |"String"| == 6 && "String"[4..] != "[]" by { assert "String"[4..][0] == 'n'; }
    assert |"Name"| == 4 && "Name"[2..] != "[]" by { assert "Name"[2..][0] == 'm'; }
    assert SpecTypeToCodeType(resource, "String") == Primitive("string");
    assert SpecTypeToCodeType(resource, "Name") == PropertyTypeName(resource, "Name") by { NameIsNoPrimitive(); }
    assert ScalarTypeNames(TEXT) == ["String"] && ScalarTypeNames(UNION) == ["Name", "String"];
    assert ItemTypeNames(TEXT) == [] && ItemTypeNames(UNION) == [];
  }

  lemma NameIsNoPrimitive()
    ensures "Name" !in {"Boolean", "Double", "Integer", "Json", "Long", "String", "Timestamp", "Tag"}
  {
    assert |"Name"| == |"Json"| == |"Long"| == 4 && "Name"[0] == 'N' && "Json"[0] == 'J' && "Long"[0] == 'L';
    assert |"Boolean"| == |"Integer"| == 7 && |"Double"| == |"String"| == 6 && |"Timestamp"| == 9 && |"Tag"| == 3;
  }

  lemma UnionSpecInlines()
    ensures AliasesEnd(UNION_SPEC, 1) && WellShaped(UNION) && Inlines(UNION_SPEC, "Resource", UNION, 1)
  {
    UnionSpecTypes("Resource");
    var spec := UNION_SPEC;
    assert WellFormed(spec);
    assert Parts("Resource", UNION).0 == ScalarTypes("Resource", UNION);
    assert Parts("Resource", TEXT).0 == ScalarTypes("Resource", TEXT);
    assert Inlines(spec, "Resource", TEXT, 0);
    assert Inlines(spec, "Resource", UNION, 1);
    forall t, p | HasFunctions(spec, t) && p in PropertiesOf(spec, t) ensures Inlines(spec, t.resource, p, 1) {
      assert t == Props("Resource") && p == UNION;
    }
  }

  /** Generated mappers name a validator for the alias in a union, which no code defines. */
  lemma AliasInUnionDangles(code: seq<Emitted>)
    requires IsCode(UNION_SPEC, 1, code)
    ensures !NoDangling(code)
  {
    var spec := UNION_SPEC;
    UnionSpecInlines();
    UnionSpecTypes("Resource");
    var t := PropertyTypeName("Resource", "Name");
    assert IsAlias(spec, t) && t in Parts("Resource", UNION).0 && Parts("Resource", UNION).1;
    assert !Sound(spec, "Resource", UNION, 1);
    assert HasFunctions(spec, Props("Resource")) && UNION in PropertiesOf(spec, Props("Resource"));
    assert !SoundSpec(spec, 1);
    NoDanglingIffSound(spec, code, 1);
  }

  /** What the union of the example is made of. */
  lemma UnionParts()
    ensures AliasesEnd(UNION_SPEC, 1) && WellShaped(UNION) && Inlines(UNION_SPEC, "Resource", UNION, 1)
    ensures ScalarTypes("Resource", UNION) == [PropertyTypeName("Resource", "Name"), Primitive("string")]
    ensures ItemTypes("Resource", UNION) == [] && !UNION.IsCollection()
    ensures var t := PropertyTypeName("Resource", "Name");
            IsAlias(UNION_SPEC, t) && AliasOf(UNION_SPEC, t) == TEXT && !HasFunctions(UNION_SPEC, t)
    ensures ScalarTypes("Resource", TEXT) == [Primitive("string")] && ItemTypes("Resource", TEXT) == []
  {
    UnionSpecInlines();
    UnionSpecTypes("Resource");
    hide AliasesEnd, WellShaped, Inlines, ScalarTypes, ItemTypes;
  }

  /** A text passes for the union, but the mapper calls the validator of the alias first. */
  lemma AliasInUnionBreaks(code: seq<Emitted>)
    requires IsCode(UNION_SPEC, 1, code)
    ensures WellShaped(UNION) && Inlines(UNION_SPEC, "Resource", UNION, 1)
    ensures Run(code, Dispatch(UNION_SPEC, Validator, "Resource", UNION, 1), Text("x")) == Pass
    ensures MapTo(code, Dispatch(UNION_SPEC, Mapper, "Resource", UNION, 1), Text("x")) == Breaks
  {
    var spec, v, t := UNION_SPEC, Text("x"), PropertyTypeName("Resource", "Name");
    UnionParts();
    var validators := NamedValidators([t, Primitive("string")]);
    AliasThrows(code, v);
    hide *;
    UnionMapper(spec);
    UnionPasses(code);
    FirstThrows(code, validators, Dispatch(spec, Mapper, "Resource", UNION, 1).members, v);
  }

  lemma AliasThrows(code: seq<Emitted>, v: Js)
    requires IsCode(UNION_SPEC, 1, code)
    ensures var validators := NamedValidators([PropertyTypeName("Resource", "Name"), Primitive("string")]);
            |validators| == 2 && Run(code, validators[0], v) == Throws
  {
    var t := PropertyTypeName("Resource", "Name");
    UnionParts();
    DefinesIfExpected(UNION_SPEC, code, Fn(Validator, t), 1);
    hide IsCode, AliasesEnd, WellShaped, Inlines;
  }

  lemma FirstThrows(code: seq<Emitted>, validators: seq<Expr>, members: seq<Expr>, v: Js)
    requires |validators| == |members| > 0 && CanInspect(v) && Run(code, validators[0], v) == Throws
    ensures MapTo(code, UnionOf(validators, members), v) == Breaks
  {
    var vs := seq(|validators|, i requires 0 <= i < |validators| => Run(code, validators[i], v));
    hide Run, MapTo, CanInspect;
    UnionEnds(code, validators, members, v, vs);
  }

  lemma UnionMapper(spec: Spec)
    requires spec == UNION_SPEC
    ensures WellFormed(spec) && WellShaped(UNION) && Inlines(spec, "Resource", UNION, 1) && CanInspect(Text("x"))
    ensures var e := Dispatch(spec, Mapper, "Resource", UNION, 1);
            && e.UnionOf? && |e.members| == 2
            && e.validators == NamedValidators([PropertyTypeName("Resource", "Name"), Primitive("string")])
  {
    UnionSpecInlines();
    UnionSpecTypes("Resource");
    DispatchIs(spec, Mapper, "Resource", UNION, 1);
  }

  lemma UnionPasses(code: seq<Emitted>)
    requires IsCode(UNION_SPEC, 1, code)
    ensures WellShaped(UNION) && Inlines(UNION_SPEC, "Resource", UNION, 1)
    ensures Run(code, Dispatch(UNION_SPEC, Validator, "Resource", UNION, 1), Text("x")) == Pass
  {
    UnionParts();
    hide IsCode, AliasesEnd, Run, Dispatch, JudgeProperty, Inlines, WellShaped;
    ValidatorMeaning(UNION_SPEC, 1, code, "Resource", UNION, Text("x"), 1);
    TextJudged(Text("x"));
  }

  lemma TextJudged(v: Js)
    requires v.Text?
    ensures AliasesEnd(UNION_SPEC, 1) && WellShaped(UNION) && Inlines(UNION_SPEC, "Resource", UNION, 1)
    ensures JudgeProperty(UNION_SPEC, 1, "Resource", UNION, v, 1) == Pass
  {
    var spec, t := UNION_SPEC, PropertyTypeName("Resource", "Name");
    UnionParts();
    JudgedString(spec, 1, "Resource", v);
    hide AliasesEnd, WellShaped, ScalarTypes, ItemTypes, JudgeList, JudgeMap, BuiltIn;
    var ts := [t, Primitive("string")];
    assert JudgeType(spec, 1, "Resource", t, v, 1) == JudgeOneOf(spec, 1, "Resource", [Primitive("string")], v, 0);
    var vs := seq(|ts|, i requires 0 <= i < |ts| => JudgeType(spec, 1, "Resource", ts[i], v, 1));
    assert vs[0] == Pass && FirstOther(vs, Fail) == Pass;
  }
}
