/** What the specification admits, in its own words: by the names that it gives to types, and in
    terms of what properties are made of. */
module CfnAdmitted {
  import opened Options
  import opened CfnSpec
  import opened CfnCode
  import opened CfnStructure
  import opened CfnGenerator
  import opened CfnRuntime
  import opened CfnMeaning
  import opened CfnNames
  import opened CfnAdmission

  ghost predicate Placed(spec: Spec, deep: nat, resource: string, p: Property, n: nat) {
    AliasesEnd(spec, deep) && WellShaped(p) && Inlines(spec, resource, p, n)
  }

  /** There is code for each specification. */
  lemma CodeFor(spec: Spec, deep: nat) returns (code: seq<Emitted>)
    requires AliasesEnd(spec, deep)
    ensures IsCode(spec, deep, code)
  {
    code := Code(spec, spec.resourceNames, deep);
    assert forall r :: r in spec.resourceNames ==> r in spec.resourceTypes;
    CodeComplete(spec, deep);
  }

  lemma ReadyIfPlaced(spec: Spec, deep: nat, code: seq<Emitted>, resource: string, p: Property, n: nat)
    requires IsCode(spec, deep, code)
    ensures Placed(spec, deep, resource, p, n) <==> Ready(spec, deep, code, resource, p, n)
  {
  }

  // ---------------------------------------------------------------- single values

  lemma ScalarsAdmit(spec: Spec, deep: nat, resource: string, p: Property, names: seq<string>, n: nat, v: Js)
    requires Placed(spec, deep, resource, p, n) && Scalars(p, names)
    ensures forall t :: t in CodeTypes(resource, names) ==> InlinesAtom(spec, resource, t, n)
    ensures Admits(spec, deep, resource, p, v, n)
            <==> TakesOneOf(spec, deep, resource, CodeTypes(resource, names), v, n, true)
  {
    TakesIs(spec, deep, resource, p, v, n, true);
    assert ScalarTypes(resource, p) == CodeTypes(resource, names) && ItemTypes(resource, p) == [];
  }

  lemma NameAdmits(spec: Spec, deep: nat, resource: string, p: Property, name: string, n: nat, v: Js)
    requires Placed(spec, deep, resource, p, n) && Scalars(p, [name])
    ensures InlinesAtom(spec, resource, SpecTypeToCodeType(resource, name), n)
    ensures Admits(spec, deep, resource, p, v, n)
            <==> TakesType(spec, deep, resource, SpecTypeToCodeType(resource, name), v, n, true)
  {
    ScalarsAdmit(spec, deep, resource, p, [name], n, v);
    hide AliasesEnd, Inlines, InlinesAtom, TakesType, SpecTypeToCodeType, Admits, Scalars, WellShaped;
    var t, ts := SpecTypeToCodeType(resource, name), CodeTypes(resource, [name]);
    assert ts == [t] && ts[0] == t;
  }

  lemma ChoicePlaced(spec: Spec, deep: nat, resource: string, name: string, n: nat)
    requires AliasesEnd(spec, deep) && InlinesAtom(spec, resource, SpecTypeToCodeType(resource, name), n)
    ensures Placed(spec, deep, resource, Choice([name]), n) && Scalars(Choice([name]), [name])
  {
    var code := CodeFor(spec, deep);
    assert CodeTypes(resource, [name]) == [SpecTypeToCodeType(resource, name)];
    ElementReady(spec, deep, code, resource, Choice([name]), [name], n);
    ReadyIfPlaced(spec, deep, code, resource, Choice([name]), n);
  }

  /** The seven primitive types. Whatever is missing or left to CloudFormation is admitted anywhere. */
  lemma PrimitiveAdmits(spec: Spec, deep: nat, resource: string, p: Property, name: string, n: nat, v: Js)
    requires AliasesEnd(spec, deep) && name in PRIMITIVES
    requires p.primitiveType == Some(name) && p.typ == None
    requires p.types == None && p.primitiveTypes == None && p.itemTypes == None
    ensures Placed(spec, deep, resource, p, n)
    ensures Admits(spec, deep, resource, p, v, n) <==>
            || LeftAlone(v)
            || (name in {"Double", "Integer", "Long"} && v.Number?)
            || (name == "Boolean" && v.Boolean?)
            || (name == "String" && v.Text?)
            || (name == "Json" && (v.Object? || v.List? || v.Date?))
            || (name == "Timestamp" && v.Date? && v.valid)
  {
    var code := CodeFor(spec, deep);
    PrimitiveName(resource, name);
    PrimitiveReady(spec, deep, code, resource, p, name, n);
    ReadyIfPlaced(spec, deep, code, resource, p, n);
    hide IsCode, AliasesEnd, SpecTypeToCodeType, Ready, Admits, Placed, Scalars;
    NameAdmits(spec, deep, resource, p, name, n, v);
    PrimitiveTakes(spec, deep, resource, SpecTypeToCodeType(resource, name), v, n);
  }

  lemma PrimitiveTakes(spec: Spec, deep: nat, resource: string, t: CodeName, v: Js, n: nat)
    requires AliasesEnd(spec, deep) && t.Primitive? && t.name in {"boolean", "number", "string", "any", "Date"}
    ensures InlinesAtom(spec, resource, t, n)
    ensures TakesType(spec, deep, resource, t, v, n, true) <==>
            || LeftAlone(v)
            || (t.name == "number" && v.Number?) || (t.name == "boolean" && v.Boolean?)
            || (t.name == "string" && v.Text?) || (t.name == "any" && (v.Object? || v.List? || v.Date?))
            || (t.name == "Date" && v.Date? && v.valid)
  {
    hide AliasesEnd;
    assert CanInspect(v) <==> !LeftAlone(v);
  }

  ghost predicate AdmitsIfPlaced(spec: Spec, deep: nat, resource: string, p: Property, n: nat, v: Js) {
    Placed(spec, deep, resource, p, n) && Admits(spec, deep, resource, p, v, n)
  }

  /** A property of the one type of this name admits `v`. */
  ghost predicate NamedAdmits(spec: Spec, deep: nat, resource: string, name: string, n: nat, v: Js) {
    AdmitsIfPlaced(spec, deep, resource, Choice([name]), n, v)
  }

  /** A union admits what one of its types does; the fields that can name a type say the same. */
  lemma UnionAdmits(spec: Spec, deep: nat, resource: string, p: Property, names: seq<string>, n: nat, v: Js)
    requires Placed(spec, deep, resource, p, n) && OneOfWhat(p, names)
    ensures Admits(spec, deep, resource, p, v, n) <==>
            exists i :: 0 <= i < |names| && NamedAdmits(spec, deep, resource, names[i], n, v)
  {
    assert AliasesEnd(spec, deep) && Scalars(p, names);
    hide *;
    ScalarsAdmit(spec, deep, resource, p, names, n, v);
    var ts := CodeTypes(resource, names);
    forall i | 0 <= i < |names|
      ensures InlinesAtom(spec, resource, ts[i], n)
      ensures NamedAdmits(spec, deep, resource, names[i], n, v)
              <==> TakesType(spec, deep, resource, ts[i], v, n, true)
    {
      CodeTypesAt(resource, names, i);
      assert ts[i] in ts;
      ByName(spec, deep, resource, names[i], n, v);
    }
    TakesOneOfIs(spec, deep, resource, ts, v, n);
  }

  lemma ByName(spec: Spec, deep: nat, resource: string, name: string, n: nat, v: Js)
    requires AliasesEnd(spec, deep) && InlinesAtom(spec, resource, SpecTypeToCodeType(resource, name), n)
    ensures NamedAdmits(spec, deep, resource, name, n, v)
            <==> TakesType(spec, deep, resource, SpecTypeToCodeType(resource, name), v, n, true)
  {
    ChoicePlaced(spec, deep, resource, name, n);
    NameAdmits(spec, deep, resource, Choice([name]), name, n, v);
  }

  lemma CodeTypesAt(resource: string, names: seq<string>, i: nat)
    requires i < |names|
    ensures CodeTypes(resource, names)[i] == SpecTypeToCodeType(resource, names[i])
  {
  }

  lemma TakesOneOfIs(spec: Spec, deep: nat, resource: string, ts: seq<CodeName>, v: Js, n: nat)
    requires AliasesEnd(spec, deep) && forall t :: t in ts ==> InlinesAtom(spec, resource, t, n)
    ensures TakesOneOf(spec, deep, resource, ts, v, n, true)
            <==> exists i :: 0 <= i < |ts| && TakesType(spec, deep, resource, ts[i], v, n, true)
  {
    hide AliasesEnd, InlinesAtom, TakesType;
  }

  // ---------------------------------------------------------------- lists and maps

  /** A list admits lists whose elements are all admitted. */
  lemma ListAdmits(spec: Spec, deep: nat, resource: string, p: Property, q: Property, n: nat, v: Js)
    requires Placed(spec, deep, resource, p, n) && ListOfWhat(p, q)
    ensures Placed(spec, deep, resource, q, n)
    ensures Admits(spec, deep, resource, p, v, n) <==>
            LeftAlone(v)
            || (v.List? && forall i :: 0 <= i < |v.items| ==> Admits(spec, deep, resource, q, v.items[i], n))
  {
    var code := CodeFor(spec, deep);
    var names := HoldsWhat(p, q);
    ReadyIfPlaced(spec, deep, code, resource, p, n);
    ListIs(spec, deep, code, resource, p, q, names, n, v);
    ReadyIfPlaced(spec, deep, code, resource, q, n);
    var ts := CodeTypes(resource, names);
    assert CanInspect(v) <==> !LeftAlone(v);
    PartsOf(resource, p);
    hide IsCode, AliasesEnd, Inlines, InlinesAtom, TakesOneOf, SpecTypeToCodeType, Scalars, WellShaped, ListOfWhat,
         Ready, LeftAlone, CodeTypes, Parts, Says;
    TakesIs(spec, deep, resource, p, v, n, true);
    if v.List? {
      forall i | 0 <= i < |v.items|
        ensures Admits(spec, deep, resource, q, v.items[i], n)
                <==> TakesOneOf(spec, deep, resource, ts, v.items[i], n, true)
      {
        ScalarsAdmit(spec, deep, resource, q, names, n, v.items[i]);
      }
    }
  }

  /** A map admits objects whose entries are all admitted. */
  lemma MapAdmits(spec: Spec, deep: nat, resource: string, p: Property, q: Property, n: nat, v: Js)
    requires Placed(spec, deep, resource, p, n) && MapOfWhat(p, q)
    ensures Placed(spec, deep, resource, q, n)
    ensures Admits(spec, deep, resource, p, v, n) <==>
            LeftAlone(v)
            || (v.Object?
                && forall i :: 0 <= i < |v.entries| ==> Admits(spec, deep, resource, q, v.entries[i].value, n))
  {
    var code := CodeFor(spec, deep);
    var names := HoldsWhat(p, q);
    ReadyIfPlaced(spec, deep, code, resource, p, n);
    MapIs(spec, deep, code, resource, p, q, names, n, v);
    ReadyIfPlaced(spec, deep, code, resource, q, n);
    var ts := CodeTypes(resource, names);
    PartsOf(resource, p);
    TakesIs(spec, deep, resource, p, v, n, true);
    hide *;
    assert Admits(spec, deep, resource, p, v, n) <==> TakesMap(spec, deep, resource, ts, false, v, n, true);
    MapTakes(spec, deep, resource, ts, false, v, n);
    if v.Object? {
      forall i | 0 <= i < |v.entries|
        ensures Admits(spec, deep, resource, q, v.entries[i].value, n)
                <==> TakesOneOf(spec, deep, resource, ts, v.entries[i].value, n, true)
      {
        ScalarsAdmit(spec, deep, resource, q, names, n, v.entries[i].value);
      }
    }
  }

  /** A map of lists admits objects whose entries are all admitted by such lists. */
  lemma MapOfListsAdmits(spec: Spec, deep: nat, resource: string, p: Property, name: string, n: nat, v: Js)
    requires Placed(spec, deep, resource, p, n) && MapOfLists(p, name)
    ensures var q := ListOfPrimitive(name);
      && Placed(spec, deep, resource, q, n)
      && (Admits(spec, deep, resource, p, v, n) <==>
          LeftAlone(v)
          || (v.Object?
              && forall i :: 0 <= i < |v.entries| ==> Admits(spec, deep, resource, q, v.entries[i].value, n)))
  {
    var code := CodeFor(spec, deep);
    var q, t := ListOfPrimitive(name), SpecTypeToCodeType(resource, name);
    ReadyIfPlaced(spec, deep, code, resource, p, n);
    MapOfListsIs(spec, deep, code, resource, p, name, n, v);
    ReadyIfPlaced(spec, deep, code, resource, q, n);
    MapOfListsParts(resource, p, name);
    TakesIs(spec, deep, resource, p, v, n, true);
    hide *;
    assert Admits(spec, deep, resource, p, v, n) <==> TakesMap(spec, deep, resource, [t], true, v, n, true);
    MapTakes(spec, deep, resource, [t], true, v, n);
    if v.Object? {
      forall i | 0 <= i < |v.entries|
        ensures Admits(spec, deep, resource, q, v.entries[i].value, n)
                <==> TakesList(spec, deep, resource, [t], v.entries[i].value, n, true)
      {
        ListOfAdmits(spec, deep, code, resource, name, n, v.entries[i].value);
      }
    }
  }

  lemma MapTakes(spec: Spec, deep: nat, resource: string, ts: seq<CodeName>, lists: bool, v: Js, n: nat)
    requires AliasesEnd(spec, deep) && forall t :: t in ts ==> InlinesAtom(spec, resource, t, n)
    ensures TakesMap(spec, deep, resource, ts, lists, v, n, true) <==>
            LeftAlone(v)
            || (v.Object? && forall i :: 0 <= i < |v.entries| ==>
                  if lists then TakesList(spec, deep, resource, ts, v.entries[i].value, n, true)
                  else TakesOneOf(spec, deep, resource, ts, v.entries[i].value, n, true))
  {
    hide AliasesEnd, InlinesAtom, TakesList, TakesOneOf;
    assert CanInspect(v) <==> !LeftAlone(v);
    if v.Object? {
      assert |Elements(v)| == |v.entries| && forall i :: 0 <= i < |v.entries| ==> Elements(v)[i] == v.entries[i].value;
    }
  }

  lemma ListOfAdmits(spec: Spec, deep: nat, code: seq<Emitted>, resource: string, name: string, n: nat, v: Js)
    requires IsCode(spec, deep, code) && AliasesEnd(spec, deep) && name in PRIMITIVES
    requires InlinesAtom(spec, resource, SpecTypeToCodeType(resource, name), n)
    ensures Placed(spec, deep, resource, ListOfPrimitive(name), n)
    ensures Admits(spec, deep, resource, ListOfPrimitive(name), v, n)
            <==> TakesList(spec, deep, resource, [SpecTypeToCodeType(resource, name)], v, n, true)
  {
    var q := ListOfPrimitive(name);
    ListReady(spec, deep, code, resource, name, n);
    ReadyIfPlaced(spec, deep, code, resource, q, n);
    NotTheSame();
    assert !q.IsMap();
    hide IsCode, AliasesEnd, Inlines, InlinesAtom, TakesList, SpecTypeToCodeType, WellShaped, Ready, Parts,
         ScalarTypes, ItemTypes;
    TakesIs(spec, deep, resource, q, v, n, true);
  }

  /** A union of single values and lists admits what either does. */
  lemma EitherAdmits(spec: Spec, deep: nat, resource: string, p: Property, q: Property, l: Property, n: nat, v: Js)
    requires Placed(spec, deep, resource, p, n) && EitherOfWhat(p, q, l)
    ensures Placed(spec, deep, resource, q, n) && Placed(spec, deep, resource, l, n)
    ensures Admits(spec, deep, resource, p, v, n)
            <==> Admits(spec, deep, resource, q, v, n) || Admits(spec, deep, resource, l, v, n)
  {
    var code := CodeFor(spec, deep);
    ReadyIfPlaced(spec, deep, code, resource, p, n);
    EitherReady(spec, deep, code, resource, p, q, l, n);
    ReadyIfPlaced(spec, deep, code, resource, q, n);
    ReadyIfPlaced(spec, deep, code, resource, l, n);
    hide IsCode, AliasesEnd, Inlines, InlinesAtom, TakesOneOf, TakesList, SpecTypeToCodeType, WellShaped, EitherOfWhat,
         Ready, CodeTypes, Parts, ScalarTypes, ItemTypes;
    TakesIs(spec, deep, resource, p, v, n, true);
    TakesIs(spec, deep, resource, q, v, n, true);
    TakesIs(spec, deep, resource, l, v, n, true);
  }

  // ---------------------------------------------------------------- named types

  /** A tag has a key and a value. */
  lemma TagAdmits(spec: Spec, deep: nat, resource: string, n: nat, v: Js)
    requires AliasesEnd(spec, deep)
    ensures NamedAdmits(spec, deep, resource, "Tag", n, v) <==>
            || LeftAlone(v)
            || (FieldOf(v, "key") !in {Undefined, Null} && FieldOf(v, "value") !in {Undefined, Null})
  {
    TagName(resource);
    hide AliasesEnd, SpecTypeToCodeType, NamedAdmits;
    ByName(spec, deep, resource, "Tag", n, v);
    assert CanInspect(v) <==> !LeftAlone(v);
  }

  /** A property type that the resource does not define admits nothing but what is left alone. */
  lemma UndefinedAdmits(spec: Spec, deep: nat, resource: string, name: string, n: nat, v: Js)
    requires AliasesEnd(spec, deep) && NamesPropertyType(name)
    requires TypeKey(resource, name) !in spec.propertyTypes
             || (spec.propertyTypes[TypeKey(resource, name)].Record? && resource !in spec.resourceTypes)
    ensures NamedAdmits(spec, deep, resource, name, n, v) <==> LeftAlone(v)
  {
    NamedType(resource, name);
    hide AliasesEnd, SpecTypeToCodeType, NamedAdmits;
    ByName(spec, deep, resource, name, n, v);
    assert CanInspect(v) <==> !LeftAlone(v);
  }

  /** Another name for a property admits what the property does. */
  lemma AliasAdmits(spec: Spec, deep: nat, resource: string, name: string, q: Property, n: nat, v: Js)
    requires Placed(spec, deep, resource, Choice([name]), n) && NamesPropertyType(name)
    requires TypeKey(resource, name) in spec.propertyTypes
    requires spec.propertyTypes[TypeKey(resource, name)] == Alias(q)
    ensures n > 0
    ensures NamedAdmits(spec, deep, resource, name, n, v) <==> AdmitsIfPlaced(spec, deep, resource, q, n - 1, v)
  {
    NamedType(resource, name);
    assert Scalars(Choice([name]), [name]);
    hide SpecTypeToCodeType, TakesProperty, Inlines, Scalars;
    NameAdmits(spec, deep, resource, Choice([name]), name, n, v);
    AliasReady(spec, resource, name, q, n);
  }

  /** A record admits objects that have its required fields, with values that its properties admit. */
  lemma RecordAdmits(spec: Spec, deep: nat, resource: string, name: string, ps: seq<Property>, n: nat, v: Js)
    requires AliasesEnd(spec, deep) && NamesPropertyType(name) && resource in spec.resourceTypes
    requires TypeKey(resource, name) in spec.propertyTypes
    requires spec.propertyTypes[TypeKey(resource, name)] == Record(ps)
    ensures forall i :: 0 <= i < |ps| ==> Placed(spec, deep, resource, ps[i], deep)
    ensures NamedAdmits(spec, deep, resource, name, n, v) <==>
            || LeftAlone(v)
            || (v.Object? && forall i :: 0 <= i < |ps| ==>
                  && (ps[i].required ==> FieldOf(v, ps[i].name) !in {Undefined, Null})
                  && AdmitsIfPlaced(spec, deep, resource, ps[i], deep, FieldOf(v, ps[i].name)))
  {
    var t := PropertyTypeName(resource, name);
    NamedType(resource, name);
    assert PropertiesOf(spec, t) == ps && HasFunctions(spec, t) && !IsAlias(spec, t);
    forall i | 0 <= i < |ps| ensures Placed(spec, deep, resource, ps[i], deep) {
      assert ps[i] in PropertiesOf(spec, t);
    }
    hide AliasesEnd, SpecTypeToCodeType, NamedAdmits, TakesProperty, Inlines, WellShaped;
    ByName(spec, deep, resource, name, n, v);
    assert CanInspect(v) <==> !LeftAlone(v);
    PartsSmaller(v);
  }
}
