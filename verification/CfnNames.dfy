/** Generated validators in the specification's own words: what they say of a value, by the names
    that the specification gives to types and not by those of the generated code. */
module CfnNames {
  import opened Options
  import opened CfnSpec
  import opened CfnCode
  import opened CfnStructure
  import opened CfnGenerator
  import opened CfnRuntime
  import opened CfnMeaning

  /** A value that validators do not look at. */
  ghost predicate LeftAlone(v: Js) {
    || v.Undefined? || v.Null?
    || (v.Object? && |v.entries| == 1 && (v.entries[0].key == "Ref" || "Fn::" <= v.entries[0].key))
  }

  /** A property of a primitive type. */
  function Single(name: string): Property {
    Property("", false, Some(name), None, None, None, None, None, None, None, None)
  }

  /** A property of one of the named types. */
  function Choice(names: seq<string>): Property {
    Property("", false, None, None, None, None, None, Some(names), None, None, None)
  }

  const PRIMITIVES := {"Boolean", "Double", "Integer", "Json", "Long", "String", "Timestamp"}

  /** No primitive type, no tag, and no list of anything. */
  ghost predicate NamesPropertyType(name: string) {
    name !in PRIMITIVES && name != "Tag" && !(|name| >= 2 && name[|name| - 2..] == "[]")
  }

  // ---------------------------------------------------------------- code names

  lemma NoBrackets(name: string)
    requires name != "" && name[|name| - 1] != ']'
    ensures !(|name| >= 2 && name[|name| - 2..] == "[]")
  {
    assert |name| >= 2 ==> name[|name| - 2..][1] == name[|name| - 1] && "[]"[1] == ']';
  }

  lemma PrimitiveName(resource: string, name: string)
    requires name in PRIMITIVES
    ensures SpecTypeToCodeType(resource, name) ==
            Primitive(if name == "Boolean" then "boolean" else if name == "Json" then "any"
                      else if name == "String" then "string" else if name == "Timestamp" then "Date" else "number")
    ensures name != ""
  {
    assert |"Boolean"| == |"Integer"| == 7 && |"Double"| == |"String"| == 6 && |"Timestamp"| == 9;
    assert |"Json"| == |"Long"| == 4;
    assert "Boolean"[6] == 'n' && "Double"[5] == 'e' && "Integer"[6] == 'r' && "Json"[3] == 'n' && "Long"[3] == 'g';
    assert "String"[5] == 'g' && "Timestamp"[8] == 'p';
    NoBrackets(name);
  }

  lemma NamedType(resource: string, name: string)
    requires NamesPropertyType(name)
    ensures SpecTypeToCodeType(resource, name) == PropertyTypeName(resource, name)
  {
  }

  lemma TagName(resource: string)
    ensures SpecTypeToCodeType(resource, "Tag") == CfnTag
  {
    assert |"Tag"| == 3 && "Tag"[2] == 'g';
    NoBrackets("Tag");
  }

  /** The name of a list of primitives is that of the primitive with brackets. */
  lemma BracketName(resource: string, name: string)
    requires name in PRIMITIVES
    ensures ListElement(SpecTypeToCodeType(resource, name + "[]")) == SpecTypeToCodeType(resource, name)
  {
    PrimitiveName(resource, name);
    var t, list := SpecTypeToCodeType(resource, name), name + "[]";
    assert list[|list| - 2..] == "[]" && list[..|list| - 2] == name;
    assert SpecTypeToCodeType(resource, list) == Primitive(t.ClassName() + "[]");
    assert (t.name + "[]")[..|t.name + "[]"| - 2] == t.name;
  }

  // ---------------------------------------------------------------- single values

  /** Properties that name some types for a single value, and none for elements. */
  ghost predicate Scalars(p: Property, names: seq<string>) {
    !p.IsCollection() && ScalarTypeNames(p) == names && names != [] && ItemsNamed(p) && ItemTypeNames(p) == []
  }

  ghost predicate Ready(spec: Spec, deep: nat, code: seq<Emitted>, resource: string, p: Property, n: nat) {
    IsCode(spec, deep, code) && WellShaped(p) && Inlines(spec, resource, p, n)
  }

  /** What the validator that is generated for the property says of `v`. */
  ghost function Says(spec: Spec, deep: nat, code: seq<Emitted>, resource: string, p: Property, n: nat, v: Js): Verdict
    requires Ready(spec, deep, code, resource, p, n)
  {
    Run(code, Dispatch(spec, Validator, resource, p, n), v)
  }

  lemma ScalarsSay(spec: Spec, deep: nat, code: seq<Emitted>, resource: string, p: Property, names: seq<string>, n: nat,
                   v: Js)
    requires Ready(spec, deep, code, resource, p, n) && Scalars(p, names)
    ensures forall i :: 0 <= i < |names| ==> InlinesAtom(spec, resource, SpecTypeToCodeType(resource, names[i]), n)
    ensures Says(spec, deep, code, resource, p, n, v) ==
            Either(seq(|names|, i requires 0 <= i < |names| =>
              JudgeType(spec, deep, resource, SpecTypeToCodeType(resource, names[i]), v, n)))
  {
    ValidatorMeaning(spec, deep, code, resource, p, v, n);
    var ts := ScalarTypes(resource, p);
    assert ts == CodeTypes(resource, names) && ItemTypes(resource, p) == [];
    assert Parts(resource, p).0 == ts;
    hide IsCode, AliasesEnd, SpecTypeToCodeType, JudgeType, InlinesAtom;
    forall i | 0 <= i < |names| ensures InlinesAtom(spec, resource, SpecTypeToCodeType(resource, names[i]), n) {
      assert ts[i] in ts;
    }
    var vs := seq(|ts|, i requires 0 <= i < |ts| => JudgeType(spec, deep, resource, ts[i], v, n));
    assert vs == seq(|names|, i requires 0 <= i < |names| =>
      JudgeType(spec, deep, resource, SpecTypeToCodeType(resource, names[i]), v, n));
  }

  lemma ScalarSays(spec: Spec, deep: nat, code: seq<Emitted>, resource: string, p: Property, name: string, n: nat,
                   v: Js)
    requires Ready(spec, deep, code, resource, p, n) && Scalars(p, [name])
    ensures InlinesAtom(spec, resource, SpecTypeToCodeType(resource, name), n)
    ensures Says(spec, deep, code, resource, p, n, v)
            == JudgeType(spec, deep, resource, SpecTypeToCodeType(resource, name), v, n)
  {
    ScalarsSay(spec, deep, code, resource, p, [name], n, v);
    hide Says, JudgeType, SpecTypeToCodeType, InlinesAtom, Scalars, IsCode, AliasesEnd;
    assert [name][0] == name;
    var t := SpecTypeToCodeType(resource, name);
    assert InlinesAtom(spec, resource, t, n);
    var vs := seq(|[name]|, i requires 0 <= i < |[name]| =>
      JudgeType(spec, deep, resource, SpecTypeToCodeType(resource, [name][i]), v, n));
    assert vs == [JudgeType(spec, deep, resource, t, v, n)];
    EitherOne(vs[0]);
  }

  /** A validator of a primitive type passes what it does not look at and what is of that kind, and
      no other values; that of a timestamp throws at what is left alone, unless it is missing. */
  lemma PrimitiveSays(spec: Spec, deep: nat, code: seq<Emitted>, resource: string, p: Property, name: string, n: nat,
                      v: Js)
    requires IsCode(spec, deep, code) && name in PRIMITIVES
    requires p.primitiveType == Some(name) && p.typ == None
    requires p.types == None && p.primitiveTypes == None && p.itemTypes == None
    ensures Ready(spec, deep, code, resource, p, n)
    ensures var verdict := Says(spec, deep, code, resource, p, n, v);
      && (name in {"Double", "Integer", "Long"} ==> verdict == if LeftAlone(v) || v.Number? then Pass else Fail)
      && (name == "Boolean" ==> verdict == if LeftAlone(v) || v.Boolean? then Pass else Fail)
      && (name == "String" ==> verdict == if LeftAlone(v) || v.Text? then Pass else Fail)
      && (name == "Json" ==> verdict == if LeftAlone(v) || v.Object? || v.List? || v.Date? then Pass else Fail)
      && (name == "Timestamp" ==>
            verdict == if v.Undefined? then Pass else if LeftAlone(v) then Throws
                       else if v.Date? && v.valid then Pass else Fail)
  {
    PrimitiveName(resource, name);
    PrimitiveReady(spec, deep, code, resource, p, name, n);
    hide IsCode, AliasesEnd, SpecTypeToCodeType, Says, Ready;
    ScalarSays(spec, deep, code, resource, p, name, n, v);
    PrimitiveJudged(spec, deep, resource, SpecTypeToCodeType(resource, name), v, n);
  }

  lemma PrimitiveReady(spec: Spec, deep: nat, code: seq<Emitted>, resource: string, p: Property, name: string, n: nat)
    requires IsCode(spec, deep, code) && name in PRIMITIVES
    requires p.primitiveType == Some(name) && p.typ == None
    requires p.types == None && p.primitiveTypes == None && p.itemTypes == None
    ensures Ready(spec, deep, code, resource, p, n) && Scalars(p, [name])
  {
    PrimitiveName(resource, name);
    hide AliasesEnd, SpecTypeToCodeType;
    assert Scalars(p, [name]) && WellShaped(p);
    assert ScalarTypes(resource, p) == [SpecTypeToCodeType(resource, name)] && ItemTypes(resource, p) == [];
    assert Parts(resource, p).0 == [SpecTypeToCodeType(resource, name)];
    assert Inlines(spec, resource, p, n);
  }

  lemma PrimitiveJudged(spec: Spec, deep: nat, resource: string, t: CodeName, v: Js, n: nat)
    requires AliasesEnd(spec, deep) && t.Primitive? && t.name in {"boolean", "number", "string", "any", "Date"}
    ensures InlinesAtom(spec, resource, t, n)
    ensures var verdict := JudgeType(spec, deep, resource, t, v, n);
      && (t.name == "number" ==> verdict == if LeftAlone(v) || v.Number? then Pass else Fail)
      && (t.name == "boolean" ==> verdict == if LeftAlone(v) || v.Boolean? then Pass else Fail)
      && (t.name == "string" ==> verdict == if LeftAlone(v) || v.Text? then Pass else Fail)
      && (t.name == "any" ==> verdict == if LeftAlone(v) || v.Object? || v.List? || v.Date? then Pass else Fail)
      && (t.name == "Date" ==>
            verdict == if v.Undefined? then Pass else if LeftAlone(v) then Throws
                       else if v.Date? && v.valid then Pass else Fail)
  {
    hide AliasesEnd;
    assert CanInspect(v) <==> !LeftAlone(v);
  }

  // ---------------------------------------------------------------- lists

  /** A property of a single value of some types. */
  function Alternatives(named: Option<seq<string>>, primitive: Option<seq<string>>): Property {
    Property("", false, None, None, None, None, None, named, primitive, None, None)
  }

  /** Neither a single value nor a list besides what `typ` says. */
  ghost predicate Bare(p: Property) {
    p.primitiveType == None && p.types == None && p.primitiveTypes == None
  }

  ghost predicate NoUnion(p: Property) {
    Bare(p) && p.itemTypes == None && p.primitiveItemTypes == None
  }

  /** `p` is a list, and `q` is what it is a list of. */
  ghost predicate ListOfWhat(p: Property, q: Property) {
    || (NoUnion(p) && p.typ == Some("List") && p.itemType.Some? && p.itemType.value != ""
        && p.primitiveItemType == None && q == Choice([p.itemType.value]))
    || (NoUnion(p) && p.typ == Some("List") && p.itemType == None && p.primitiveItemType.Some?
        && p.primitiveItemType.value != "" && q == Single(p.primitiveItemType.value))
    || (Bare(p) && p.typ in {None, Some("List")} && p.itemType == None && p.primitiveItemType == None
        && p.itemTypes.Some? && p.itemTypes.value != [] && q == Alternatives(p.itemTypes, p.primitiveItemTypes))
  }

  /** `p` is a map of single values, and `q` is what it is a map of. */
  ghost predicate MapOfWhat(p: Property, q: Property) {
    NoUnion(p) && p.typ == Some("Map") &&
    if p.itemType.Some? then p.itemType.value != "List" && p.primitiveItemType == None
                             && q == Choice([p.itemType.value])
    else p.primitiveItemType.Some? && p.primitiveItemType.value != "" && q == Single(p.primitiveItemType.value)
  }

  lemma NotTheSame()
    ensures "List" != "Map"
  {
    assert |"List"| == 4 && |"Map"| == 3;
  }

  /** The names of what a collection holds. */
  lemma HoldsWhat(p: Property, q: Property) returns (names: seq<string>)
    requires ListOfWhat(p, q) || MapOfWhat(p, q)
    ensures Scalars(q, names) && ScalarTypeNames(p) == [] && ItemsNamed(p) && ItemTypeNames(p) == names
    ensures p.IsCollection() && !p.IsMapOfListsOfPrimitives() && WellShaped(p)
    ensures MapOfWhat(p, q) ==> p.IsMap()
    ensures ListOfWhat(p, q) ==> !p.IsMap()
  {
    NotTheSame();
    names := if p.itemType.Some? then [p.itemType.value]
             else if p.primitiveItemType.Some? then [p.primitiveItemType.value]
             else p.itemTypes.value + if p.primitiveItemTypes.Some? then p.primitiveItemTypes.value else [];
  }

  /** What is held is ready as well, and its validator judges by the types of elements. */
  lemma ElementSays(spec: Spec, deep: nat, code: seq<Emitted>, resource: string, p: Property, q: Property,
                    names: seq<string>, n: nat, v: Js)
    requires Ready(spec, deep, code, resource, p, n) && Scalars(q, names)
    requires Parts(resource, p).0 == CodeTypes(resource, names)
    ensures var ts := CodeTypes(resource, names);
      && AliasesEnd(spec, deep) && (forall t :: t in ts ==> InlinesAtom(spec, resource, t, n))
      && Ready(spec, deep, code, resource, q, n)
      && Says(spec, deep, code, resource, q, n, v) == JudgeOneOf(spec, deep, resource, ts, v, n)
  {
    var ts := CodeTypes(resource, names);
    assert forall t :: t in ts ==> InlinesAtom(spec, resource, t, n);
    ElementReady(spec, deep, code, resource, q, names, n);
    CodeIs(spec, deep, code, resource, q, n);
    hide Ready, SpecTypeToCodeType, Says, IsCode, AliasesEnd, WellFormed, InlinesAtom, Parts, JudgeType, Scalars;
    ScalarsSay(spec, deep, code, resource, q, names, n, v);
    var vs := seq(|ts|, i requires 0 <= i < |ts| => JudgeType(spec, deep, resource, ts[i], v, n));
    assert vs == seq(|names|, i requires 0 <= i < |names| =>
      JudgeType(spec, deep, resource, SpecTypeToCodeType(resource, names[i]), v, n));
  }

  lemma CodeIs(spec: Spec, deep: nat, code: seq<Emitted>, resource: string, p: Property, n: nat)
    requires Ready(spec, deep, code, resource, p, n)
    ensures IsCode(spec, deep, code) && AliasesEnd(spec, deep) && WellFormed(spec)
    ensures WellShaped(p) && Inlines(spec, resource, p, n)
  {
    hide WellFormed, Expected, WellShaped, Inlines;
  }

  lemma ElementReady(spec: Spec, deep: nat, code: seq<Emitted>, resource: string, q: Property, names: seq<string>,
                     n: nat)
    requires IsCode(spec, deep, code) && Scalars(q, names)
    requires forall t :: t in CodeTypes(resource, names) ==> InlinesAtom(spec, resource, t, n)
    ensures Ready(spec, deep, code, resource, q, n)
  {
    hide AliasesEnd, SpecTypeToCodeType, InlinesAtom;
    assert WellShaped(q);
    assert ScalarTypes(resource, q) == CodeTypes(resource, names) && ItemTypes(resource, q) == [];
    assert Parts(resource, q).0 == CodeTypes(resource, names);
  }

  /** All verdicts are to pass, or the verdict is the first that is not. */
  ghost predicate AllInTurn(verdict: Verdict, vs: seq<Verdict>) {
    || (verdict == Pass && forall i :: 0 <= i < |vs| ==> vs[i] == Pass)
    || exists i :: 0 <= i < |vs| && vs[i] == verdict != Pass && forall k :: 0 <= k < i ==> vs[k] == Pass
  }

  /** The validator of a list says of a list what it says of the elements in turn. What is neither
      left alone nor an object nor a list fails. */
  lemma ListSays(spec: Spec, deep: nat, code: seq<Emitted>, resource: string, p: Property, q: Property, n: nat, v: Js)
    requires Ready(spec, deep, code, resource, p, n) && ListOfWhat(p, q)
    ensures Ready(spec, deep, code, resource, q, n)
    ensures var verdict := Says(spec, deep, code, resource, p, n, v);
      && (LeftAlone(v) ==> verdict == Pass)
      && (!LeftAlone(v) && !v.List? && !v.Object? ==> verdict == Fail)
      && (v.List? ==> AllInTurn(verdict, seq(|v.items|, i requires 0 <= i < |v.items| =>
            Says(spec, deep, code, resource, q, n, v.items[i]))))
  {
    var names := HoldsWhat(p, q);
    ListIs(spec, deep, code, resource, p, q, names, n, v);
    hide Ready, Says, IsCode, AliasesEnd, WellFormed, InlinesAtom, Parts, JudgeOneOf, JudgeList, AllInTurn,
         SpecTypeToCodeType, CodeTypes, ListOfWhat, Scalars, LeftAlone;
    if v.List? { ElementsSay(spec, deep, code, resource, p, q, names, n, v); }
  }

  /** An object passes for a list if it has a truthy `forEach`; of one with a numeric length it says
      what it says in turn of its fields for the indices below that. */
  lemma ListLikeSays(spec: Spec, deep: nat, code: seq<Emitted>, resource: string, p: Property, q: Property, n: nat,
                     v: Js, x: real, length: nat)
    requires Ready(spec, deep, code, resource, p, n) && ListOfWhat(p, q) && v.Object? && !LeftAlone(v)
    requires FieldOf(v, "length") == Number(x)
    requires (length as real - 1.0 < x || length == 0) && x <= length as real
    ensures Ready(spec, deep, code, resource, q, n)
    ensures FieldOf(v, "forEach") in {Undefined, Null, Text(""), Number(0.0), Boolean(false)} ==>
              Says(spec, deep, code, resource, p, n, v) == Fail
    ensures FieldOf(v, "forEach") !in {Undefined, Null, Text(""), Number(0.0), Boolean(false)} ==>
              AllInTurn(Says(spec, deep, code, resource, p, n, v), seq(length, i requires 0 <= i < length =>
                Says(spec, deep, code, resource, q, n, FieldOf(v, Decimal(i)))))
  {
    var names := HoldsWhat(p, q);
    ListIs(spec, deep, code, resource, p, q, names, n, v);
    hide Ready, Says, IsCode, AliasesEnd, WellFormed, InlinesAtom, Parts, JudgeOneOf, JudgeList, AllInTurn, FieldOf,
         SpecTypeToCodeType, CodeTypes, ListOfWhat, Scalars, LeftAlone, CountUpTo, Decimal;
    ListLikeJudged(spec, deep, resource, CodeTypes(resource, names), v, n);
    assert Says(spec, deep, code, resource, p, n, v)
        == JudgeList(spec, deep, resource, CodeTypes(resource, names), v, n);
    if IsTruthy(FieldOf(v, "forEach")) {
      var items := IndexedItems(v, x, length);
      ItemsSay(spec, deep, code, resource, p, q, names, n, items);
      var ts := CodeTypes(resource, names);
      assert seq(|items|, i requires 0 <= i < |items| => JudgeOneOf(spec, deep, resource, ts, items[i], n))
          == seq(|Items(v)|, i requires 0 <= i < |Items(v)| =>
               JudgeOneOf(spec, deep, resource, ts, Items(v)[i], n));
      assert seq(|items|, i requires 0 <= i < |items| => Says(spec, deep, code, resource, q, n, items[i]))
          == seq(length, i requires 0 <= i < length =>
               Says(spec, deep, code, resource, q, n, FieldOf(v, Decimal(i))));
    }
  }

  lemma IndexedItems(v: Js, x: real, length: nat) returns (items: seq<Js>)
    requires v.Object? && FieldOf(v, "length") == Number(x)
    requires (length as real - 1.0 < x || length == 0) && x <= length as real
    ensures items == Items(v) && |items| == length
    ensures forall i :: 0 <= i < length ==> items[i] == FieldOf(v, Decimal(i))
  {
    if length > 0 { CountsUpTo(x, length - 1); }
    CountsUpTo(x, length);
    hide FieldOf, Decimal;
    items := Items(v);
  }

  lemma ListLikeJudged(spec: Spec, deep: nat, resource: string, ts: seq<CodeName>, v: Js, n: nat)
    requires AliasesEnd(spec, deep) && (forall t :: t in ts ==> InlinesAtom(spec, resource, t, n))
    requires v.Object? && !LeftAlone(v)
    ensures JudgeList(spec, deep, resource, ts, v, n) ==
            if IsTruthy(FieldOf(v, "forEach")) then
              InTurn(seq(|Items(v)|, i requires 0 <= i < |Items(v)| =>
                JudgeOneOf(spec, deep, resource, ts, Items(v)[i], n)))
            else Fail
  {
    hide AliasesEnd, JudgeOneOf, InlinesAtom, Items, FieldOf, IsTruthy;
  }

  lemma ElementsSay(spec: Spec, deep: nat, code: seq<Emitted>, resource: string, p: Property, q: Property,
                    names: seq<string>, n: nat, v: Js)
    requires Ready(spec, deep, code, resource, p, n) && Scalars(q, names) && v.List?
    requires AliasesEnd(spec, deep) && Parts(resource, p).0 == CodeTypes(resource, names)
    requires forall t :: t in CodeTypes(resource, names) ==> InlinesAtom(spec, resource, t, n)
    requires Ready(spec, deep, code, resource, q, n)
    ensures AllInTurn(JudgeList(spec, deep, resource, CodeTypes(resource, names), v, n),
                      seq(|v.items|, i requires 0 <= i < |v.items| =>
                        Says(spec, deep, code, resource, q, n, v.items[i])))
  {
    hide *;
    ListJudged(spec, deep, resource, CodeTypes(resource, names), v, n);
    ItemsSay(spec, deep, code, resource, p, q, names, n, v.items);
  }

  lemma ItemsSay(spec: Spec, deep: nat, code: seq<Emitted>, resource: string, p: Property, q: Property,
                 names: seq<string>, n: nat, items: seq<Js>)
    requires Ready(spec, deep, code, resource, p, n) && Scalars(q, names)
    requires AliasesEnd(spec, deep) && Parts(resource, p).0 == CodeTypes(resource, names)
    requires forall t :: t in CodeTypes(resource, names) ==> InlinesAtom(spec, resource, t, n)
    requires Ready(spec, deep, code, resource, q, n)
    ensures AllInTurn(InTurn(seq(|items|, i requires 0 <= i < |items| =>
                        JudgeOneOf(spec, deep, resource, CodeTypes(resource, names), items[i], n))),
                      seq(|items|, i requires 0 <= i < |items| =>
                        Says(spec, deep, code, resource, q, n, items[i])))
  {
    var ts := CodeTypes(resource, names);
    hide *;
    forall i | 0 <= i < |items|
      ensures Says(spec, deep, code, resource, q, n, items[i]) == JudgeOneOf(spec, deep, resource, ts, items[i], n)
    {
      ElementSays(spec, deep, code, resource, p, q, names, n, items[i]);
    }
    var vs := seq(|items|, i requires 0 <= i < |items| => JudgeOneOf(spec, deep, resource, ts, items[i], n));
    assert vs == seq(|items|, i requires 0 <= i < |items| => Says(spec, deep, code, resource, q, n, items[i]));
    InTurnIs(vs);
  }

  /** What a list holds is judged by the types of what it holds. */
  lemma ListIs(spec: Spec, deep: nat, code: seq<Emitted>, resource: string, p: Property, q: Property,
               names: seq<string>, n: nat, v: Js)
    requires Ready(spec, deep, code, resource, p, n) && ListOfWhat(p, q)
    requires Scalars(q, names) && ScalarTypeNames(p) == [] && ItemsNamed(p) && ItemTypeNames(p) == names
    requires !p.IsMap() && !p.IsMapOfListsOfPrimitives()
    ensures var ts := CodeTypes(resource, names);
      && Parts(resource, p).0 == ts
      && AliasesEnd(spec, deep) && (forall t :: t in ts ==> InlinesAtom(spec, resource, t, n))
      && Ready(spec, deep, code, resource, q, n)
      && Says(spec, deep, code, resource, p, n, v) == JudgeList(spec, deep, resource, ts, v, n)
      && (LeftAlone(v) ==> JudgeList(spec, deep, resource, ts, v, n) == Pass)
      && (!LeftAlone(v) && !v.List? && !v.Object? ==> JudgeList(spec, deep, resource, ts, v, n) == Fail)
  {
    PartsOf(resource, p);
    assert ItemTypes(resource, p) == CodeTypes(resource, names) && ScalarTypes(resource, p) == [];
    assert Parts(resource, p).0 == CodeTypes(resource, names);
    CodeIs(spec, deep, code, resource, p, n);
    assert CanInspect(v) <==> !LeftAlone(v);
    hide Ready, IsCode, AliasesEnd, WellFormed, InlinesAtom, Parts, JudgeOneOf, JudgeProperty, Inlines,
         SpecTypeToCodeType, CodeTypes, ListOfWhat, Scalars, ScalarTypes, ItemTypes;
    ElementSays(spec, deep, code, resource, p, q, names, n, v);
    ValidatorMeaning(spec, deep, code, resource, p, v, n);
    JudgeIs(spec, deep, resource, p, v, n);
  }

  lemma ListJudged(spec: Spec, deep: nat, resource: string, ts: seq<CodeName>, v: Js, n: nat)
    requires AliasesEnd(spec, deep) && (forall t :: t in ts ==> InlinesAtom(spec, resource, t, n)) && v.List?
    ensures JudgeList(spec, deep, resource, ts, v, n)
            == InTurn(seq(|v.items|, i requires 0 <= i < |v.items| =>
                 JudgeOneOf(spec, deep, resource, ts, v.items[i], n)))
  {
    hide AliasesEnd, JudgeOneOf, InlinesAtom;
    assert v.items == Items(v);
    var vs := seq(|v.items|, i requires 0 <= i < |v.items| => JudgeOneOf(spec, deep, resource, ts, v.items[i], n));
    assert vs == seq(|Items(v)|, i requires 0 <= i < |Items(v)| =>
      JudgeOneOf(spec, deep, resource, ts, Items(v)[i], n));
  }

  lemma {:induction false} InTurnIs(vs: seq<Verdict>)
    ensures AllInTurn(InTurn(vs), vs)
  {
    if vs != [] && vs[0] == Pass {
      InTurnIs(vs[1..]);
      var verdict := InTurn(vs[1..]);
      if i :| 0 <= i < |vs[1..]| && vs[1..][i] == verdict != Pass && forall k :: 0 <= k < i ==> vs[1..][k] == Pass
      {
        forall k | 0 <= k < i + 1 ensures vs[k] == Pass { if k > 0 { assert vs[k] == vs[1..][k - 1]; } }
        assert vs[i + 1] == InTurn(vs);
      } else {
        forall k | 0 <= k < |vs| ensures vs[k] == Pass { if k > 0 { assert vs[k] == vs[1..][k - 1]; } }
      }
    }
  }

  // ---------------------------------------------------------------- maps

  /** A list of a primitive type. */
  function ListOfPrimitive(name: string): Property {
    Property("", false, None, Some("List"), None, Some(name), None, None, None, None, None)
  }

  /** `p` is a map of lists of the primitive type `name`. */
  ghost predicate MapOfLists(p: Property, name: string) {
    NoUnion(p) && p.typ == Some("Map") && p.itemType == Some("List") && p.primitiveItemItemType == Some(name)
    && p.primitiveItemType == None && name in PRIMITIVES
  }

  /** The validator of a map says of an object what it says of its entries in turn. */
  lemma MapSays(spec: Spec, deep: nat, code: seq<Emitted>, resource: string, p: Property, q: Property, n: nat, v: Js)
    requires Ready(spec, deep, code, resource, p, n) && MapOfWhat(p, q)
    ensures Ready(spec, deep, code, resource, q, n)
    ensures var verdict := Says(spec, deep, code, resource, p, n, v);
      && (LeftAlone(v) ==> verdict == Pass)
      && (!LeftAlone(v) && v.Object? ==> AllInTurn(verdict, seq(|v.entries|, i requires 0 <= i < |v.entries| =>
            Says(spec, deep, code, resource, q, n, v.entries[i].value))))
  {
    var names := HoldsWhat(p, q);
    var ts := CodeTypes(resource, names);
    MapIs(spec, deep, code, resource, p, q, names, n, v);
    hide Ready, Says, IsCode, AliasesEnd, WellFormed, InlinesAtom, Parts, JudgeOneOf, JudgeList, JudgeMap, InTurn,
         AllInTurn, SpecTypeToCodeType, CodeTypes, MapOfWhat, Scalars;
    if !LeftAlone(v) && v.Object? {
      MapJudged(spec, deep, resource, ts, false, v, n);
      forall i | 0 <= i < |v.entries|
        ensures Says(spec, deep, code, resource, q, n, v.entries[i].value)
                == JudgeOneOf(spec, deep, resource, ts, v.entries[i].value, n)
      {
        ElementSays(spec, deep, code, resource, p, q, names, n, v.entries[i].value);
      }
      var vs := seq(|v.entries|, i requires 0 <= i < |v.entries| =>
        JudgeOneOf(spec, deep, resource, ts, v.entries[i].value, n));
      assert vs == seq(|v.entries|, i requires 0 <= i < |v.entries| =>
        Says(spec, deep, code, resource, q, n, v.entries[i].value));
      InTurnIs(vs);
    }
  }

  /** What a map holds is judged by the type of what it holds. */
  lemma MapIs(spec: Spec, deep: nat, code: seq<Emitted>, resource: string, p: Property, q: Property,
              names: seq<string>, n: nat, v: Js)
    requires Ready(spec, deep, code, resource, p, n) && MapOfWhat(p, q)
    requires Scalars(q, names) && ScalarTypeNames(p) == [] && ItemsNamed(p) && ItemTypeNames(p) == names
    requires p.IsMap() && !p.IsMapOfListsOfPrimitives()
    ensures var ts := CodeTypes(resource, names);
      && Parts(resource, p).0 == ts
      && AliasesEnd(spec, deep) && (forall t :: t in ts ==> InlinesAtom(spec, resource, t, n))
      && Ready(spec, deep, code, resource, q, n)
      && Says(spec, deep, code, resource, p, n, v) == JudgeMap(spec, deep, resource, ts, false, v, n)
      && (LeftAlone(v) ==> JudgeMap(spec, deep, resource, ts, false, v, n) == Pass)
    ensures CanInspect(v) <==> !LeftAlone(v)
  {
    PartsOf(resource, p);
    assert ItemTypes(resource, p) == CodeTypes(resource, names) && ScalarTypes(resource, p) == [];
    assert Parts(resource, p).0 == CodeTypes(resource, names);
    CodeIs(spec, deep, code, resource, p, n);
    hide Ready, IsCode, AliasesEnd, WellFormed, InlinesAtom, Parts, JudgeOneOf, JudgeList, JudgeProperty, Inlines,
         SpecTypeToCodeType, CodeTypes, MapOfWhat, Scalars, ScalarTypes, ItemTypes;
    ElementSays(spec, deep, code, resource, p, q, names, n, v);
    ValidatorMeaning(spec, deep, code, resource, p, v, n);
    JudgeIs(spec, deep, resource, p, v, n);
  }

  /** Of a map of lists, it says what the validator of such lists says of the entries in turn. */
  lemma MapOfListsSays(spec: Spec, deep: nat, code: seq<Emitted>, resource: string, p: Property, name: string, n: nat,
                       v: Js)
    requires Ready(spec, deep, code, resource, p, n) && MapOfLists(p, name)
    ensures Ready(spec, deep, code, resource, ListOfPrimitive(name), n)
    ensures var verdict := Says(spec, deep, code, resource, p, n, v);
      && (LeftAlone(v) ==> verdict == Pass)
      && (!LeftAlone(v) && v.Object? ==> AllInTurn(verdict, seq(|v.entries|, i requires 0 <= i < |v.entries| =>
            Says(spec, deep, code, resource, ListOfPrimitive(name), n, v.entries[i].value))))
  {
    MapOfListsIs(spec, deep, code, resource, p, name, n, v);
    hide Ready, Says, IsCode, AliasesEnd, WellFormed, InlinesAtom, Parts, JudgeOneOf, JudgeList, JudgeMap, InTurn,
         AllInTurn, SpecTypeToCodeType, MapOfLists;
    if !LeftAlone(v) && v.Object? { ListsSay(spec, deep, code, resource, name, n, v); }
  }

  lemma ListsSay(spec: Spec, deep: nat, code: seq<Emitted>, resource: string, name: string, n: nat, v: Js)
    requires IsCode(spec, deep, code) && AliasesEnd(spec, deep) && name in PRIMITIVES && v.Object? && CanInspect(v)
    requires InlinesAtom(spec, resource, SpecTypeToCodeType(resource, name), n)
    requires Ready(spec, deep, code, resource, ListOfPrimitive(name), n)
    ensures AllInTurn(JudgeMap(spec, deep, resource, [SpecTypeToCodeType(resource, name)], true, v, n),
                      seq(|v.entries|, i requires 0 <= i < |v.entries| =>
                        Says(spec, deep, code, resource, ListOfPrimitive(name), n, v.entries[i].value)))
  {
    var q, t := ListOfPrimitive(name), SpecTypeToCodeType(resource, name);
    hide Ready, Says, IsCode, AliasesEnd, WellFormed, InlinesAtom, JudgeOneOf, JudgeList, JudgeMap, InTurn,
         AllInTurn, SpecTypeToCodeType, ListOfPrimitive, CanInspect;
    MapJudged(spec, deep, resource, [t], true, v, n);
    forall i | 0 <= i < |v.entries|
      ensures Says(spec, deep, code, resource, q, n, v.entries[i].value)
              == JudgeList(spec, deep, resource, [t], v.entries[i].value, n)
    {
      PrimitiveListSays(spec, deep, code, resource, name, n, v.entries[i].value);
    }
    var vs := seq(|v.entries|, i requires 0 <= i < |v.entries| =>
      JudgeList(spec, deep, resource, [t], v.entries[i].value, n));
    assert vs == seq(|v.entries|, i requires 0 <= i < |v.entries| =>
      Says(spec, deep, code, resource, q, n, v.entries[i].value));
    InTurnIs(vs);
  }

  lemma MapOfListsIs(spec: Spec, deep: nat, code: seq<Emitted>, resource: string, p: Property, name: string, n: nat,
                     v: Js)
    requires Ready(spec, deep, code, resource, p, n) && MapOfLists(p, name)
    ensures var t := SpecTypeToCodeType(resource, name);
      && IsCode(spec, deep, code) && AliasesEnd(spec, deep) && InlinesAtom(spec, resource, t, n) && name in PRIMITIVES
      && Ready(spec, deep, code, resource, ListOfPrimitive(name), n)
      && Says(spec, deep, code, resource, p, n, v) == JudgeMap(spec, deep, resource, [t], true, v, n)
      && (LeftAlone(v) ==> JudgeMap(spec, deep, resource, [t], true, v, n) == Pass)
    ensures CanInspect(v) <==> !LeftAlone(v)
  {
    var t := SpecTypeToCodeType(resource, name);
    MapOfListsParts(resource, p, name);
    CodeIs(spec, deep, code, resource, p, n);
    hide Ready, IsCode, AliasesEnd, WellFormed, InlinesAtom, Parts, JudgeOneOf, JudgeList, JudgeProperty, Inlines,
         SpecTypeToCodeType, MapOfLists, ScalarTypes, ItemTypes, WellShaped;
    ListReady(spec, deep, code, resource, name, n);
    ValidatorMeaning(spec, deep, code, resource, p, v, n);
    JudgeIs(spec, deep, resource, p, v, n);
    assert t in Parts(resource, p).0;
  }

  lemma MapOfListsParts(resource: string, p: Property, name: string)
    requires WellShaped(p) && MapOfLists(p, name)
    ensures p.IsMap() && p.IsMapOfListsOfPrimitives() && name in PRIMITIVES
    ensures ScalarTypes(resource, p) == [] && ItemTypes(resource, p) != []
    ensures Parts(resource, p).0 == [SpecTypeToCodeType(resource, name)]
  {
    NotTheSame();
    BracketName(resource, name);
    hide SpecTypeToCodeType, ListElement;
    assert ItemTypeNames(p) == [name + "[]"] && ScalarTypeNames(p) == [];
    PartsOf(resource, p);
  }

  lemma ListReady(spec: Spec, deep: nat, code: seq<Emitted>, resource: string, name: string, n: nat)
    requires IsCode(spec, deep, code) && name in PRIMITIVES
    ensures Ready(spec, deep, code, resource, ListOfPrimitive(name), n)
    ensures ItemTypes(resource, ListOfPrimitive(name)) == [SpecTypeToCodeType(resource, name)]
            && ScalarTypes(resource, ListOfPrimitive(name)) == []
    ensures Parts(resource, ListOfPrimitive(name)).0 == [SpecTypeToCodeType(resource, name)]
  {
    var p := ListOfPrimitive(name);
    NotTheSame();
    PrimitiveName(resource, name);
    hide AliasesEnd, SpecTypeToCodeType;
    assert !IsAlias(spec, SpecTypeToCodeType(resource, name));
    assert InlinesAtom(spec, resource, SpecTypeToCodeType(resource, name), n);
    assert ItemTypeNames(p) == [name] && ScalarTypeNames(p) == [] && WellShaped(p);
    assert ItemTypes(resource, p) == [SpecTypeToCodeType(resource, name)];
    assert Parts(resource, p).0 == [SpecTypeToCodeType(resource, name)];
    assert Inlines(spec, resource, p, n);
  }

  lemma PrimitiveListSays(spec: Spec, deep: nat, code: seq<Emitted>, resource: string, name: string, n: nat, v: Js)
    requires IsCode(spec, deep, code) && name in PRIMITIVES
    ensures Ready(spec, deep, code, resource, ListOfPrimitive(name), n)
    ensures InlinesAtom(spec, resource, SpecTypeToCodeType(resource, name), n)
    ensures Says(spec, deep, code, resource, ListOfPrimitive(name), n, v)
            == JudgeList(spec, deep, resource, [SpecTypeToCodeType(resource, name)], v, n)
  {
    var p := ListOfPrimitive(name);
    ListReady(spec, deep, code, resource, name, n);
    NotTheSame();
    ValidatorMeaning(spec, deep, code, resource, p, v, n);
    JudgeIs(spec, deep, resource, p, v, n);
    hide AliasesEnd, IsCode, SpecTypeToCodeType, JudgeProperty, JudgeList, Parts, ScalarTypes, ItemTypes, WellShaped,
         Inlines, InlinesAtom;
    assert !p.IsMap();
  }

  lemma MapJudged(spec: Spec, deep: nat, resource: string, ts: seq<CodeName>, lists: bool, v: Js, n: nat)
    requires AliasesEnd(spec, deep) && forall t :: t in ts ==> InlinesAtom(spec, resource, t, n)
    requires v.Object? && CanInspect(v)
    ensures JudgeMap(spec, deep, resource, ts, lists, v, n)
            == InTurn(seq(|v.entries|, i requires 0 <= i < |v.entries| =>
                 if lists then JudgeList(spec, deep, resource, ts, v.entries[i].value, n)
                 else JudgeOneOf(spec, deep, resource, ts, v.entries[i].value, n)))
    ensures lists ==> JudgeMap(spec, deep, resource, ts, lists, v, n)
                      == InTurn(seq(|v.entries|, i requires 0 <= i < |v.entries| =>
                           JudgeList(spec, deep, resource, ts, v.entries[i].value, n)))
    ensures !lists ==> JudgeMap(spec, deep, resource, ts, lists, v, n)
                       == InTurn(seq(|v.entries|, i requires 0 <= i < |v.entries| =>
                            JudgeOneOf(spec, deep, resource, ts, v.entries[i].value, n)))
  {
    hide AliasesEnd, JudgeOneOf, JudgeList, InlinesAtom;
    var vs := seq(|v.entries|, i requires 0 <= i < |v.entries| =>
      if lists then JudgeList(spec, deep, resource, ts, v.entries[i].value, n)
      else JudgeOneOf(spec, deep, resource, ts, v.entries[i].value, n));
    assert |Elements(v)| == |v.entries|;
    assert vs == seq(|Elements(v)|, i requires 0 <= i < |Elements(v)| =>
      if lists then JudgeList(spec, deep, resource, ts, Elements(v)[i], n)
      else JudgeOneOf(spec, deep, resource, ts, Elements(v)[i], n));
    if lists {
      assert vs == seq(|v.entries|, i requires 0 <= i < |v.entries| =>
        JudgeList(spec, deep, resource, ts, v.entries[i].value, n));
    } else {
      assert vs == seq(|v.entries|, i requires 0 <= i < |v.entries| =>
        JudgeOneOf(spec, deep, resource, ts, v.entries[i].value, n));
    }
  }

  // ---------------------------------------------------------------- unions

  /** The verdict is the first that is not to fail, and all fail if it is to fail. */
  ghost predicate FirstFitting(verdict: Verdict, vs: seq<Verdict>) {
    || (verdict == Fail && forall i :: 0 <= i < |vs| ==> vs[i] == Fail)
    || exists i :: 0 <= i < |vs| && vs[i] == verdict != Fail && forall k :: 0 <= k < i ==> vs[k] == Fail
  }

  lemma {:induction false} FirstFittingIs(vs: seq<Verdict>)
    requires vs != []
    ensures FirstFitting(Either(vs), vs)
  {
    if vs[0] != Fail {
    } else if vs[1..] == [] {
      assert vs == [vs[0]];
      EitherOne(vs[0]);
    } else {
      FirstFittingIs(vs[1..]);
      assert Either(vs) == Either(vs[1..]);
      if i :| 0 <= i < |vs[1..]| && vs[1..][i] == Either(vs) != Fail && forall k :: 0 <= k < i ==> vs[1..][k] == Fail {
        forall k | 0 <= k < i + 1 ensures vs[k] == Fail { if k > 0 { assert vs[k] == vs[1..][k - 1]; } }
        assert vs[i + 1] == Either(vs);
      } else {
        forall k | 0 <= k < |vs| ensures vs[k] == Fail { if k > 0 { assert vs[k] == vs[1..][k - 1]; } }
      }
    }
  }

  /** `p` is a single value of one of the types, which are tried in this order. */
  ghost predicate OneOfWhat(p: Property, names: seq<string>) {
    || (p == Choice(names) && names != [])
    || (p.typ == None && p.primitiveType == None && p.itemTypes == None && p.primitiveItemTypes == None
        && (p.types.Some? || p.primitiveTypes.Some?) && names != []
        && names == (if p.types.Some? then p.types.value else [])
                    + (if p.primitiveTypes.Some? then p.primitiveTypes.value else []))
    || (NoUnion(p) && p.typ.Some? && p.typ.value !in {"List", "Map"} && names == [p.typ.value])
    || (p.typ == None && p.types == None && p.primitiveTypes == None && p.itemTypes == None
        && p.primitiveType.Some? && p.primitiveType.value != "" && names == [p.primitiveType.value])
  }

  /** The types of a union are tried in turn, until one does not fail. */
  lemma UnionSays(spec: Spec, deep: nat, code: seq<Emitted>, resource: string, p: Property, names: seq<string>, n: nat,
                  v: Js)
    requires Ready(spec, deep, code, resource, p, n) && OneOfWhat(p, names)
    ensures forall i :: 0 <= i < |names| ==> Ready(spec, deep, code, resource, Choice([names[i]]), n)
    ensures FirstFitting(Says(spec, deep, code, resource, p, n, v), seq(|names|, i requires 0 <= i < |names| =>
              Says(spec, deep, code, resource, Choice([names[i]]), n, v)))
    ensures |names| == 1 ==>
              Says(spec, deep, code, resource, p, n, v) == Says(spec, deep, code, resource, Choice(names), n, v)
  {
    assert Scalars(p, names);
    ScalarsSay(spec, deep, code, resource, p, names, n, v);
    forall i | 0 <= i < |names|
      ensures Ready(spec, deep, code, resource, Choice([names[i]]), n)
      ensures Says(spec, deep, code, resource, Choice([names[i]]), n, v)
              == JudgeType(spec, deep, resource, SpecTypeToCodeType(resource, names[i]), v, n)
    {
      ChoiceSays(spec, deep, code, resource, names[i], n, v);
    }
    hide Ready, Says, IsCode, AliasesEnd, InlinesAtom, SpecTypeToCodeType, JudgeType, Either, FirstFitting, OneOfWhat,
         Scalars;
    var vs := seq(|names|, i requires 0 <= i < |names| =>
      JudgeType(spec, deep, resource, SpecTypeToCodeType(resource, names[i]), v, n));
    assert vs == seq(|names|, i requires 0 <= i < |names| =>
      Says(spec, deep, code, resource, Choice([names[i]]), n, v));
    FirstFittingIs(vs);
    if |names| == 1 {
      assert vs == [vs[0]];
      EitherOne(vs[0]);
      assert names == [names[0]];
    }
  }

  lemma ChoiceSays(spec: Spec, deep: nat, code: seq<Emitted>, resource: string, name: string, n: nat, v: Js)
    requires IsCode(spec, deep, code) && InlinesAtom(spec, resource, SpecTypeToCodeType(resource, name), n)
    ensures Ready(spec, deep, code, resource, Choice([name]), n)
    ensures Says(spec, deep, code, resource, Choice([name]), n, v)
            == JudgeType(spec, deep, resource, SpecTypeToCodeType(resource, name), v, n)
  {
    assert CodeTypes(resource, [name]) == [SpecTypeToCodeType(resource, name)];
    ElementReady(spec, deep, code, resource, Choice([name]), [name], n);
    ScalarSays(spec, deep, code, resource, Choice([name]), name, n, v);
  }

  /** `p` is one of the types that `q` gives, or a list of what `l` is a list of. */
  ghost predicate EitherOfWhat(p: Property, q: Property, l: Property) {
    && p.typ == None && p.primitiveType == None && p.itemType == None && p.primitiveItemType == None
    && q == Alternatives(p.types, p.primitiveTypes) && (exists names :: OneOfWhat(q, names))
    && p.itemTypes.Some? && p.itemTypes.value != []
    && l == Property("", false, None, None, None, None, None, None, None, p.itemTypes, p.primitiveItemTypes)
  }

  /** Of a union of single values and lists, it says what the single values say unless that is to
      fail, and then what the list says. */
  lemma EitherSays(spec: Spec, deep: nat, code: seq<Emitted>, resource: string, p: Property, q: Property, l: Property,
                   n: nat, v: Js)
    requires Ready(spec, deep, code, resource, p, n) && EitherOfWhat(p, q, l)
    ensures Ready(spec, deep, code, resource, q, n) && Ready(spec, deep, code, resource, l, n)
    ensures Says(spec, deep, code, resource, p, n, v) ==
            var single := Says(spec, deep, code, resource, q, n, v);
            if single == Fail then Says(spec, deep, code, resource, l, n, v) else single
  {
    EitherReady(spec, deep, code, resource, p, q, l, n);
    CodeIs(spec, deep, code, resource, p, n);
    CodeIs(spec, deep, code, resource, q, n);
    CodeIs(spec, deep, code, resource, l, n);
    hide Ready, IsCode, AliasesEnd, WellFormed, InlinesAtom, Parts, JudgeOneOf, JudgeList, JudgeProperty, Inlines,
         SpecTypeToCodeType, CodeTypes, ScalarTypes, ItemTypes, EitherOfWhat;
    ValidatorMeaning(spec, deep, code, resource, p, v, n);
    ValidatorMeaning(spec, deep, code, resource, q, v, n);
    ValidatorMeaning(spec, deep, code, resource, l, v, n);
    JudgeIs(spec, deep, resource, p, v, n);
    JudgeIs(spec, deep, resource, q, v, n);
    JudgeIs(spec, deep, resource, l, v, n);
    var a, b := Says(spec, deep, code, resource, q, n, v), Says(spec, deep, code, resource, l, n, v);
    assert Says(spec, deep, code, resource, p, n, v) == Either([a, b]);
    assert [a, b][1..] == [b];
    EitherOne(b);
  }

  lemma EitherReady(spec: Spec, deep: nat, code: seq<Emitted>, resource: string, p: Property, q: Property, l: Property,
                    n: nat)
    requires Ready(spec, deep, code, resource, p, n) && EitherOfWhat(p, q, l)
    ensures Ready(spec, deep, code, resource, q, n) && Ready(spec, deep, code, resource, l, n)
    ensures ScalarTypes(resource, q) == ScalarTypes(resource, p) != [] && ItemTypes(resource, q) == []
    ensures ItemTypes(resource, l) == ItemTypes(resource, p) != [] && ScalarTypes(resource, l) == []
    ensures !l.IsMap() && Parts(resource, l).0 == ItemTypes(resource, l)
  {
    hide AliasesEnd, SpecTypeToCodeType, InlinesAtom;
    assert ScalarTypeNames(p) == ScalarTypeNames(q) != [] && ItemTypeNames(p) == ItemTypeNames(l) != [];
    assert ItemTypeNames(q) == [] && ScalarTypeNames(l) == [];
    assert Parts(resource, p).0 == ScalarTypes(resource, p) + ItemTypes(resource, p);
    assert Parts(resource, q).0 == ScalarTypes(resource, p) && Parts(resource, l).0 == ItemTypes(resource, p);
  }

  // ---------------------------------------------------------------- named types

  /** A tag has to have a key and a value, and may have anything else. */
  lemma TagSays(spec: Spec, deep: nat, code: seq<Emitted>, resource: string, n: nat, v: Js)
    requires IsCode(spec, deep, code)
    ensures Ready(spec, deep, code, resource, Choice(["Tag"]), n)
    ensures Says(spec, deep, code, resource, Choice(["Tag"]), n, v) ==
            if LeftAlone(v)
               || !(FieldOf(v, "key").Undefined? || FieldOf(v, "key").Null? || FieldOf(v, "value").Undefined?
                    || FieldOf(v, "value").Null?)
            then Pass else Fail
  {
    TagName(resource);
    hide AliasesEnd, SpecTypeToCodeType;
    ChoiceSays(spec, deep, code, resource, "Tag", n, v);
    assert CanInspect(v) <==> !LeftAlone(v);
  }

  /** A property type that is not defined, or not for a resource, has no validator to call. */
  lemma UndefinedThrows(spec: Spec, deep: nat, code: seq<Emitted>, resource: string, name: string, n: nat, v: Js)
    requires IsCode(spec, deep, code) && NamesPropertyType(name)
    requires TypeKey(resource, name) !in spec.propertyTypes
             || (spec.propertyTypes[TypeKey(resource, name)].Record? && resource !in spec.resourceTypes)
    ensures Ready(spec, deep, code, resource, Choice([name]), n)
    ensures Says(spec, deep, code, resource, Choice([name]), n, v) == Throws
  {
    NamedType(resource, name);
    hide AliasesEnd, SpecTypeToCodeType;
    ChoiceSays(spec, deep, code, resource, name, n, v);
  }

  /** Another name for a property says what the property says. */
  lemma AliasSays(spec: Spec, deep: nat, code: seq<Emitted>, resource: string, name: string, q: Property, n: nat, v: Js)
    requires Ready(spec, deep, code, resource, Choice([name]), n) && NamesPropertyType(name)
    requires TypeKey(resource, name) in spec.propertyTypes
    requires spec.propertyTypes[TypeKey(resource, name)] == Alias(q)
    ensures n > 0 && Ready(spec, deep, code, resource, q, n - 1)
    ensures Says(spec, deep, code, resource, Choice([name]), n, v) == Says(spec, deep, code, resource, q, n - 1, v)
  {
    var t := PropertyTypeName(resource, name);
    NamedType(resource, name);
    CodeIs(spec, deep, code, resource, Choice([name]), n);
    assert Scalars(Choice([name]), [name]);
    hide Ready, IsCode, AliasesEnd, WellFormed, SpecTypeToCodeType, JudgeType, JudgeProperty, WellShaped, Inlines,
         InlinesAtom, IsAlias, AliasOf, Scalars;
    ScalarSays(spec, deep, code, resource, Choice([name]), name, n, v);
    AliasReady(spec, resource, name, q, n);
    AliasJudged(spec, deep, resource, t, v, n);
    ValidatorMeaning(spec, deep, code, resource, q, v, n - 1);
    ReadyIs(spec, deep, code, resource, q, n - 1);
  }

  lemma ReadyIs(spec: Spec, deep: nat, code: seq<Emitted>, resource: string, p: Property, n: nat)
    requires IsCode(spec, deep, code) && WellShaped(p) && Inlines(spec, resource, p, n)
    ensures Ready(spec, deep, code, resource, p, n)
  {
  }

  lemma AliasJudged(spec: Spec, deep: nat, resource: string, t: CodeName, v: Js, n: nat)
    requires AliasesEnd(spec, deep) && InlinesAtom(spec, resource, t, n) && IsAlias(spec, t)
    ensures n > 0 && WellShaped(AliasOf(spec, t)) && Inlines(spec, resource, AliasOf(spec, t), n - 1)
    ensures JudgeType(spec, deep, resource, t, v, n) == JudgeProperty(spec, deep, resource, AliasOf(spec, t), v, n - 1)
  {
    hide JudgeProperty, Inlines;
  }

  lemma AliasReady(spec: Spec, resource: string, name: string, q: Property, n: nat)
    requires WellFormed(spec) && TypeKey(resource, name) in spec.propertyTypes
    requires spec.propertyTypes[TypeKey(resource, name)] == Alias(q)
    requires InlinesAtom(spec, resource, PropertyTypeName(resource, name), n)
    ensures n > 0 && WellShaped(q) && Inlines(spec, resource, q, n - 1)
    ensures IsAlias(spec, PropertyTypeName(resource, name)) && AliasOf(spec, PropertyTypeName(resource, name)) == q
  {
  }

  // ---------------------------------------------------------------- records

  /** What the validators of the properties say of the fields of `v`. */
  ghost function OfFields(spec: Spec, deep: nat, code: seq<Emitted>, resource: string, ps: seq<Property>,
                          v: Js): (r: seq<Verdict>)
    requires forall i :: 0 <= i < |ps| ==> Ready(spec, deep, code, resource, ps[i], deep)
    ensures |r| == |ps| && forall i :: 0 <= i < |ps| ==>
              r[i] == Says(spec, deep, code, resource, ps[i], deep, FieldOf(v, ps[i].name))
  {
    seq(|ps|, i requires 0 <= i < |ps| => Says(spec, deep, code, resource, ps[i], deep, FieldOf(v, ps[i].name)))
  }

  /** What a validator says of a value whose fields get the verdicts `vs`: it throws where one does, and
      passes what can have fields if required ones are there and all pass. */
  ghost predicate AllFieldsPass(verdict: Verdict, ps: seq<Property>, v: Js, vs: seq<Verdict>)
    requires |vs| == |ps|
  {
    if LeftAlone(v) then verdict == Pass
    else
      && (verdict == Throws <==> exists i :: 0 <= i < |vs| && vs[i] == Throws)
      && (verdict == Pass <==>
            && (v.Object? || v.List? || v.Date?)
            && forall i :: 0 <= i < |ps| ==>
                 vs[i] == Pass && (ps[i].required ==> FieldOf(v, ps[i].name) !in {Undefined, Null}))
  }

  lemma RecordReady(spec: Spec, deep: nat, code: seq<Emitted>, t: CodeName, ps: seq<Property>)
    requires IsCode(spec, deep, code) && HasFunctions(spec, t) && PropertiesOf(spec, t) == ps
    ensures forall i :: 0 <= i < |ps| ==> Ready(spec, deep, code, t.resource, ps[i], deep)
  {
    forall i | 0 <= i < |ps| ensures Ready(spec, deep, code, t.resource, ps[i], deep) {
      assert ps[i] in PropertiesOf(spec, t);
      hide Inlines, WellShaped, Expected;
    }
  }

  /** A type with functions of its own judges by its fields. */
  lemma FieldsJudge(spec: Spec, deep: nat, code: seq<Emitted>, resource: string, t: CodeName, ps: seq<Property>,
                    v: Js, n: nat)
    requires IsCode(spec, deep, code) && HasFunctions(spec, t) && PropertiesOf(spec, t) == ps && !IsAlias(spec, t)
    requires InlinesAtom(spec, resource, t, n)
    requires forall i :: 0 <= i < |ps| ==> Ready(spec, deep, code, t.resource, ps[i], deep)
    ensures AllFieldsPass(JudgeType(spec, deep, resource, t, v, n), ps, v,
                          OfFields(spec, deep, code, t.resource, ps, v))
  {
    assert CanInspect(v) <==> !LeftAlone(v);
    if CanInspect(v) {
      var vs := OfFields(spec, deep, code, t.resource, ps, v);
      forall i | 0 <= i < |ps|
        ensures WellShaped(ps[i]) && Inlines(spec, t.resource, ps[i], deep)
                && vs[i] == JudgeProperty(spec, deep, t.resource, ps[i], FieldOf(v, ps[i].name), deep)
      {
        CodeIs(spec, deep, code, t.resource, ps[i], deep);
        hide AliasesEnd, IsCode, JudgeProperty, WellShaped, Inlines;
        ValidatorMeaning(spec, deep, code, t.resource, ps[i], FieldOf(v, ps[i].name), deep);
      }
      PartsSmaller(v);
      hide AliasesEnd, IsCode, JudgeProperty, WellShaped, Inlines, OfFields, AllFieldsPass, Ready, LeftAlone;
      var fields := seq(|ps|, i requires 0 <= i < |ps| => Field(ps[i], v, vs[i]));
      assert fields == seq(|ps|, i requires 0 <= i < |ps| =>
        Together([PassIf(ps[i].required ==> !IsMissing(FieldOf(v, ps[i].name))),
                  JudgeProperty(spec, deep, t.resource, ps[i], FieldOf(v, ps[i].name), deep)]));
      TogetherIs(ps, v, vs, fields);
    }
  }

  ghost function Field(p: Property, v: Js, verdict: Verdict): Verdict {
    Together([PassIf(p.required ==> !IsMissing(FieldOf(v, p.name))), verdict])
  }

  lemma TogetherIs(ps: seq<Property>, v: Js, vs: seq<Verdict>, fields: seq<Verdict>)
    requires CanInspect(v) && |vs| == |ps| == |fields|
    requires forall i :: 0 <= i < |ps| ==> fields[i] == Field(ps[i], v, vs[i])
    ensures AllFieldsPass(Together([PassIf(IsObjectType(v))] + fields), ps, v, vs)
  {
    var all := [PassIf(IsObjectType(v))] + fields;
    forall i | 0 <= i < |ps|
      ensures fields[i] == all[i + 1]
      ensures fields[i] == Throws <==> vs[i] == Throws
      ensures fields[i] == Pass <==>
              vs[i] == Pass && (ps[i].required ==> FieldOf(v, ps[i].name) !in {Undefined, Null})
    {
      var required := PassIf(ps[i].required ==> !IsMissing(FieldOf(v, ps[i].name)));
      assert [required, vs[i]][0] == required && [required, vs[i]][1] == vs[i];
    }
    assert all[0] == PassIf(IsObjectType(v));
    if Throws in all {
      var k :| 0 <= k < |all| && all[k] == Throws;
      assert vs[k - 1] == Throws;
    } else if Fail in all {
      var k :| 0 <= k < |all| && all[k] == Fail;
    }
  }

  /** A record passes what can have fields, if all required fields are there and all fields pass. */
  lemma RecordSays(spec: Spec, deep: nat, code: seq<Emitted>, resource: string, name: string, ps: seq<Property>,
                   n: nat, v: Js)
    requires IsCode(spec, deep, code) && NamesPropertyType(name) && resource in spec.resourceTypes
    requires TypeKey(resource, name) in spec.propertyTypes
    requires spec.propertyTypes[TypeKey(resource, name)] == Record(ps)
    ensures Ready(spec, deep, code, resource, Choice([name]), n)
    ensures forall i :: 0 <= i < |ps| ==> Ready(spec, deep, code, resource, ps[i], deep)
    ensures AllFieldsPass(Says(spec, deep, code, resource, Choice([name]), n, v), ps, v,
                          OfFields(spec, deep, code, resource, ps, v))
  {
    NamedType(resource, name);
    var t := PropertyTypeName(resource, name);
    RecordReady(spec, deep, code, t, ps);
    FieldsJudge(spec, deep, code, resource, t, ps, v, n);
    hide AliasesEnd, SpecTypeToCodeType, OfFields, AllFieldsPass;
    ChoiceSays(spec, deep, code, resource, name, n, v);
  }

  /** The validator of the properties of a resource does so with them. */
  lemma ResourceSays(spec: Spec, deep: nat, code: seq<Emitted>, resource: string, ps: seq<Property>, v: Js)
    requires IsCode(spec, deep, code) && resource in spec.resourceTypes && spec.resourceTypes[resource] == ps != []
    ensures forall i :: 0 <= i < |ps| ==> Ready(spec, deep, code, resource, ps[i], deep)
    ensures AllFieldsPass(Run(code, Call(Fn(Validator, Props(resource))), v), ps, v,
                          OfFields(spec, deep, code, resource, ps, v))
  {
    var t := Props(resource);
    RecordReady(spec, deep, code, t, ps);
    FieldsJudge(spec, deep, code, resource, t, ps, v, 0);
    AtomJudgedAs(spec, deep, code, resource, t, v, 0);
  }

  /** The fields of an object are its entries, whose keys are distinct. */
  lemma {:induction false} FieldFound(a: seq<Entry>, name: string, value: Js, b: seq<Entry>)
    requires forall e :: e in a ==> e.key != name
    ensures FieldOf(Object(a + [Entry(name, value)] + b), name) == value
    ensures FieldOf(Object(a), name) == Undefined
  {
    if a != [] {
      assert (a + [Entry(name, value)] + b)[1..] == a[1..] + [Entry(name, value)] + b;
      FieldFound(a[1..], name, value, b);
    }
  }

  // ---------------------------------------------------------------- what is emitted

  /** A validator, a mapper and a factory for the properties of each resource that has some and for
      each record of a resource, and a class for each resource. */
  lemma EmittedIff(spec: Spec, deep: nat, code: seq<Emitted>, kind: Kind, resource: string, name: string)
    requires IsCode(spec, deep, code)
    ensures (exists e :: e in code && e.Function? && e.fn == Fn(kind, Props(resource)))
            <==> resource in spec.resourceTypes && spec.resourceTypes[resource] != []
    ensures (exists e :: e in code && e.Function? && e.fn == Fn(kind, PropertyTypeName(resource, name)))
            <==> resource in spec.resourceTypes && TypeKey(resource, name) in spec.propertyTypes
                 && spec.propertyTypes[TypeKey(resource, name)].Record?
    ensures forall uses :: ResourceClass(resource, uses) in code <==>
              && resource in spec.resourceTypes
              && uses == if spec.resourceTypes[resource] == [] then []
                         else [Whole(Call(Fn(Factory, Props(resource)))), Whole(Call(Fn(Mapper, Props(resource))))]
  {
    DefinesIfExpected(spec, code, Fn(kind, Props(resource)), deep);
    DefinesIfExpected(spec, code, Fn(kind, PropertyTypeName(resource, name)), deep);
    hide AliasesEnd;
  }
}
