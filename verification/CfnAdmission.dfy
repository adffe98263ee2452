/** Which values pass a generated validator, compared with those that the specification admits. */
module CfnAdmission {
  import opened CfnSpec
  import opened CfnCode
  import opened CfnStructure
  import opened CfnGenerator
  import opened CfnRuntime
  import opened CfnMeaning

  // ---------------------------------------------------------------- admitted values

  /** The single values of a type of the core library. */
  predicate TakesBuiltIn(t: CodeName, v: Js) {
    if t.CfnTag? then !IsMissing(v) && !IsMissing(FieldOf(v, "key")) && !IsMissing(FieldOf(v, "value"))
    else t.Primitive? && match t.name
      case "boolean" => v.Boolean?
      case "number" => v.Number?
      case "string" => v.Text?
      case "any" => IsObjectType(v)
      case "Date" => v.Date? && v.valid
      case _ => false
  }

  /** `v` is missing, left to CloudFormation, or a value of the type `t`. To be `strict` is to
      take nothing but objects for records and maps. */
  ghost predicate TakesType(spec: Spec, deep: nat, resource: string, t: CodeName, v: Js, n: nat, strict: bool)
    requires AliasesEnd(spec, deep) && InlinesAtom(spec, resource, t, n)
    decreases Size(v), n, 0
  {
    PartsSmaller(v);
    if IsAlias(spec, t) then TakesProperty(spec, deep, resource, AliasOf(spec, t), v, n - 1, strict)
    else
      || !CanInspect(v)
      || TakesBuiltIn(t, v)
      || (HasFunctions(spec, t) && (if strict then v.Object? else IsObjectType(v))
          && forall i :: 0 <= i < |PropertiesOf(spec, t)| ==>
               var p := PropertiesOf(spec, t)[i];
               assert p in PropertiesOf(spec, t);
               && (p.required ==> !IsMissing(FieldOf(v, p.name)))
               && TakesProperty(spec, deep, t.resource, p, FieldOf(v, p.name), deep, strict))
  }

  ghost predicate TakesOneOf(spec: Spec, deep: nat, resource: string, ts: seq<CodeName>, v: Js, n: nat, strict: bool)
    requires AliasesEnd(spec, deep) && forall t :: t in ts ==> InlinesAtom(spec, resource, t, n)
    decreases Size(v), n, 1
  {
    exists i :: 0 <= i < |ts| && TakesType(spec, deep, resource, ts[i], v, n, strict)
  }

  ghost predicate TakesList(spec: Spec, deep: nat, resource: string, ts: seq<CodeName>, v: Js, n: nat, strict: bool)
    requires AliasesEnd(spec, deep) && forall t :: t in ts ==> InlinesAtom(spec, resource, t, n)
    decreases Size(v), n, 2
  {
    PartsSmaller(v);
    || !CanInspect(v)
    || ((if strict then v.List? else IsListLike(v))
        && forall i :: 0 <= i < |Items(v)| ==> TakesOneOf(spec, deep, resource, ts, Items(v)[i], n, strict))
  }

  ghost predicate TakesMap(spec: Spec, deep: nat, resource: string, ts: seq<CodeName>, lists: bool, v: Js, n: nat,
                           strict: bool)
    requires AliasesEnd(spec, deep) && forall t :: t in ts ==> InlinesAtom(spec, resource, t, n)
    decreases Size(v), n, 3
  {
    PartsSmaller(v);
    || !CanInspect(v)
    || ((strict ==> v.Object?)
        && forall i :: 0 <= i < |Elements(v)| ==>
             if lists then TakesList(spec, deep, resource, ts, Elements(v)[i], n, strict)
             else TakesOneOf(spec, deep, resource, ts, Elements(v)[i], n, strict))
  }

  ghost predicate TakesProperty(spec: Spec, deep: nat, resource: string, p: Property, v: Js, n: nat, strict: bool)
    requires AliasesEnd(spec, deep) && WellShaped(p) && Inlines(spec, resource, p, n)
    decreases Size(v), n, 4
  {
    var scalars, items := ScalarTypes(resource, p), ItemTypes(resource, p);
    if items == [] then TakesOneOf(spec, deep, resource, scalars, v, n, strict)
    else if scalars != [] then
      TakesOneOf(spec, deep, resource, scalars, v, n, strict) || TakesList(spec, deep, resource, items, v, n, strict)
    else if p.IsMapOfListsOfPrimitives()
         then TakesMap(spec, deep, resource, [ListElement(items[0])], true, v, n, strict)
    else if p.IsMap() then TakesMap(spec, deep, resource, items, false, v, n, strict)
    else TakesList(spec, deep, resource, items, v, n, strict)
  }

  /** The specification admits `v` as a value of the property. */
  ghost predicate Admits(spec: Spec, deep: nat, resource: string, p: Property, v: Js, n: nat)
    requires AliasesEnd(spec, deep) && WellShaped(p) && Inlines(spec, resource, p, n)
  {
    TakesProperty(spec, deep, resource, p, v, n, true)
  }

  /** Admitted, but for anything in place of a map whose elements fit, and for lists and dates in
      place of a record whose fields, all missing but for a length, fit. */
  ghost predicate Fits(spec: Spec, deep: nat, resource: string, p: Property, v: Js, n: nat)
    requires AliasesEnd(spec, deep) && WellShaped(p) && Inlines(spec, resource, p, n)
  {
    TakesProperty(spec, deep, resource, p, v, n, false)
  }

  lemma TakesIs(spec: Spec, deep: nat, resource: string, p: Property, v: Js, n: nat, strict: bool)
    requires AliasesEnd(spec, deep) && WellShaped(p) && Inlines(spec, resource, p, n)
    ensures var scalars, items, parts := ScalarTypes(resource, p), ItemTypes(resource, p), Parts(resource, p).0;
      && (forall t :: t in parts ==> InlinesAtom(spec, resource, t, n))
      && (forall t :: t in scalars ==> items == [] || t in parts)
      && (items != [] && scalars != [] ==> forall t :: t in items ==> t in parts)
      && (items == [] ==> parts == scalars)
      && TakesProperty(spec, deep, resource, p, v, n, strict) ==
         if items == [] then TakesOneOf(spec, deep, resource, scalars, v, n, strict)
         else if scalars != [] then
           TakesOneOf(spec, deep, resource, scalars, v, n, strict)
             || TakesList(spec, deep, resource, items, v, n, strict)
         else if p.IsMap() then TakesMap(spec, deep, resource, parts, p.IsMapOfListsOfPrimitives(), v, n, strict)
         else TakesList(spec, deep, resource, parts, v, n, strict)
  {
    PartsOf(resource, p);
    hide AliasesEnd, Parts, TakesOneOf, TakesList, TakesMap, InlinesAtom, ScalarTypes, ItemTypes, WellShaped,
         WellFormed;
  }

  // ---------------------------------------------------------------- what fits without being admitted

  /** `v` fits, and somewhere in it something that is no object stands for a record or a map. */
  ghost predicate SlipsType(spec: Spec, deep: nat, resource: string, t: CodeName, v: Js, n: nat)
    requires AliasesEnd(spec, deep) && InlinesAtom(spec, resource, t, n)
    decreases Size(v), n, 0
  {
    PartsSmaller(v);
    if IsAlias(spec, t) then Slips(spec, deep, resource, AliasOf(spec, t), v, n - 1)
    else
      && CanInspect(v) && HasFunctions(spec, t) && TakesType(spec, deep, resource, t, v, n, false)
      && var ps := PropertiesOf(spec, t);
         || !v.Object?
         || exists i :: 0 <= i < |ps| && Slips(spec, deep, t.resource, ps[i], FieldOf(v, ps[i].name), deep)
  }

  ghost predicate SlipsOneOf(spec: Spec, deep: nat, resource: string, ts: seq<CodeName>, v: Js, n: nat)
    requires AliasesEnd(spec, deep) && forall t :: t in ts ==> InlinesAtom(spec, resource, t, n)
    decreases Size(v), n, 1
  {
    exists i :: 0 <= i < |ts| && SlipsType(spec, deep, resource, ts[i], v, n)
  }

  ghost predicate SlipsList(spec: Spec, deep: nat, resource: string, ts: seq<CodeName>, v: Js, n: nat)
    requires AliasesEnd(spec, deep) && forall t :: t in ts ==> InlinesAtom(spec, resource, t, n)
    decreases Size(v), n, 2
  {
    PartsSmaller(v);
    && CanInspect(v) && TakesList(spec, deep, resource, ts, v, n, false)
    && (!v.List? || exists i :: 0 <= i < |Items(v)| && SlipsOneOf(spec, deep, resource, ts, Items(v)[i], n))
  }

  ghost predicate SlipsMap(spec: Spec, deep: nat, resource: string, ts: seq<CodeName>, lists: bool, v: Js, n: nat)
    requires AliasesEnd(spec, deep) && forall t :: t in ts ==> InlinesAtom(spec, resource, t, n)
    decreases Size(v), n, 3
  {
    PartsSmaller(v);
    && CanInspect(v) && TakesMap(spec, deep, resource, ts, lists, v, n, false)
    && var xs := Elements(v);
       || !v.Object?
       || (lists && exists i :: 0 <= i < |xs| && SlipsList(spec, deep, resource, ts, xs[i], n))
       || (!lists && exists i :: 0 <= i < |xs| && SlipsOneOf(spec, deep, resource, ts, xs[i], n))
  }

  ghost predicate Slips(spec: Spec, deep: nat, resource: string, p: Property, v: Js, n: nat)
    requires AliasesEnd(spec, deep) && WellShaped(p) && Inlines(spec, resource, p, n)
    decreases Size(v), n, 4
  {
    var scalars, items := ScalarTypes(resource, p), ItemTypes(resource, p);
    if items == [] then SlipsOneOf(spec, deep, resource, scalars, v, n)
    else if scalars != [] then
      SlipsOneOf(spec, deep, resource, scalars, v, n) || SlipsList(spec, deep, resource, items, v, n)
    else if p.IsMapOfListsOfPrimitives() then SlipsMap(spec, deep, resource, [ListElement(items[0])], true, v, n)
    else if p.IsMap() then SlipsMap(spec, deep, resource, items, false, v, n)
    else SlipsList(spec, deep, resource, items, v, n)
  }

  lemma TypeFits(spec: Spec, deep: nat, resource: string, t: CodeName, v: Js, n: nat)
    requires AliasesEnd(spec, deep) && InlinesAtom(spec, resource, t, n)
    ensures TakesType(spec, deep, resource, t, v, n, false) <==>
            TakesType(spec, deep, resource, t, v, n, true) || SlipsType(spec, deep, resource, t, v, n)
    decreases Size(v), n, 0
  {
    if IsAlias(spec, t) {
      FitsIff(spec, deep, resource, AliasOf(spec, t), v, n - 1);
    } else if CanInspect(v) && HasFunctions(spec, t) {
      PartsSmaller(v);
      forall i | 0 <= i < |PropertiesOf(spec, t)| ensures FieldFits(spec, deep, t, i, v) {
        var p := PropertiesOf(spec, t)[i];
        assert WellShaped(p) && Inlines(spec, t.resource, p, deep);
        hide TakesProperty, Slips;
        FitsIff(spec, deep, t.resource, p, FieldOf(v, p.name), deep);
      }
      hide AliasesEnd, TakesType, SlipsType, FieldFits;
      RecordFits(spec, deep, resource, t, v, n);
    } else {
      OtherFits(spec, deep, resource, t, v, n);
    }
  }

  lemma OtherFits(spec: Spec, deep: nat, resource: string, t: CodeName, v: Js, n: nat)
    requires AliasesEnd(spec, deep) && InlinesAtom(spec, resource, t, n) && !IsAlias(spec, t)
    requires !CanInspect(v) || !HasFunctions(spec, t)
    ensures TakesType(spec, deep, resource, t, v, n, false) <==>
            TakesType(spec, deep, resource, t, v, n, true) || SlipsType(spec, deep, resource, t, v, n)
  {
    hide AliasesEnd, TakesProperty, Slips;
  }

  ghost predicate FieldFits(spec: Spec, deep: nat, t: CodeName, i: nat, v: Js)
    requires AliasesEnd(spec, deep) && HasFunctions(spec, t) && i < |PropertiesOf(spec, t)|
  {
    var p := PropertiesOf(spec, t)[i];
    var x := FieldOf(v, p.name);
    Fits(spec, deep, t.resource, p, x, deep)
    == (Admits(spec, deep, t.resource, p, x, deep) || Slips(spec, deep, t.resource, p, x, deep))
  }

  lemma RecordFits(spec: Spec, deep: nat, resource: string, t: CodeName, v: Js, n: nat)
    requires AliasesEnd(spec, deep) && InlinesAtom(spec, resource, t, n) && !IsAlias(spec, t)
    requires HasFunctions(spec, t) && CanInspect(v)
    requires forall i :: 0 <= i < |PropertiesOf(spec, t)| ==> FieldFits(spec, deep, t, i, v)
    ensures TakesType(spec, deep, resource, t, v, n, false) <==>
            TakesType(spec, deep, resource, t, v, n, true) || SlipsType(spec, deep, resource, t, v, n)
  {
    assert !TakesBuiltIn(t, v);
    hide AliasesEnd, TakesProperty, Slips, TakesBuiltIn, FieldOf;
    forall i | 0 <= i < |PropertiesOf(spec, t)|
      ensures var p := PropertiesOf(spec, t)[i];
              var x := FieldOf(v, p.name);
              TakesProperty(spec, deep, t.resource, p, x, deep, false) <==>
              TakesProperty(spec, deep, t.resource, p, x, deep, true) || Slips(spec, deep, t.resource, p, x, deep)
    {
      assert FieldFits(spec, deep, t, i, v);
    }
  }

  lemma OneOfFits(spec: Spec, deep: nat, resource: string, ts: seq<CodeName>, v: Js, n: nat)
    requires AliasesEnd(spec, deep) && (forall t :: t in ts ==> InlinesAtom(spec, resource, t, n))
    ensures TakesOneOf(spec, deep, resource, ts, v, n, false) <==>
            TakesOneOf(spec, deep, resource, ts, v, n, true) || SlipsOneOf(spec, deep, resource, ts, v, n)
    decreases Size(v), n, 1
  {
    forall i | 0 <= i < |ts|
      ensures TakesType(spec, deep, resource, ts[i], v, n, false) <==>
              TakesType(spec, deep, resource, ts[i], v, n, true) || SlipsType(spec, deep, resource, ts[i], v, n)
    {
      TypeFits(spec, deep, resource, ts[i], v, n);
    }
    hide AliasesEnd, TakesType, SlipsType, InlinesAtom;
  }

  lemma ListFits(spec: Spec, deep: nat, resource: string, ts: seq<CodeName>, v: Js, n: nat)
    requires AliasesEnd(spec, deep) && (forall t :: t in ts ==> InlinesAtom(spec, resource, t, n))
    ensures TakesList(spec, deep, resource, ts, v, n, false) <==>
            TakesList(spec, deep, resource, ts, v, n, true) || SlipsList(spec, deep, resource, ts, v, n)
    decreases Size(v), n, 2
  {
    PartsSmaller(v);
    if CanInspect(v) && IsListLike(v) {
      forall i | 0 <= i < |Items(v)|
        ensures TakesOneOf(spec, deep, resource, ts, Items(v)[i], n, false) <==>
                TakesOneOf(spec, deep, resource, ts, Items(v)[i], n, true)
                  || SlipsOneOf(spec, deep, resource, ts, Items(v)[i], n)
      {
        OneOfFits(spec, deep, resource, ts, Items(v)[i], n);
      }
      hide AliasesEnd, TakesOneOf, SlipsOneOf, InlinesAtom;
    }
  }

  lemma MapFits(spec: Spec, deep: nat, resource: string, ts: seq<CodeName>, lists: bool, v: Js, n: nat)
    requires AliasesEnd(spec, deep) && (forall t :: t in ts ==> InlinesAtom(spec, resource, t, n))
    ensures TakesMap(spec, deep, resource, ts, lists, v, n, false) <==>
            TakesMap(spec, deep, resource, ts, lists, v, n, true) || SlipsMap(spec, deep, resource, ts, lists, v, n)
    decreases Size(v), n, 3
  {
    PartsSmaller(v);
    forall i | 0 <= i < |Elements(v)|
      ensures ElementFits(spec, deep, resource, ts, lists, Elements(v)[i], n)
    {
      if lists {
        ListFits(spec, deep, resource, ts, Elements(v)[i], n);
      } else {
        OneOfFits(spec, deep, resource, ts, Elements(v)[i], n);
      }
    }
    EntriesFit(spec, deep, resource, ts, lists, v, n);
  }

  ghost predicate ElementFits(spec: Spec, deep: nat, resource: string, ts: seq<CodeName>, lists: bool, x: Js, n: nat)
    requires AliasesEnd(spec, deep) && forall t :: t in ts ==> InlinesAtom(spec, resource, t, n)
  {
    if lists then
      TakesList(spec, deep, resource, ts, x, n, false) <==>
      TakesList(spec, deep, resource, ts, x, n, true) || SlipsList(spec, deep, resource, ts, x, n)
    else
      TakesOneOf(spec, deep, resource, ts, x, n, false) <==>
      TakesOneOf(spec, deep, resource, ts, x, n, true) || SlipsOneOf(spec, deep, resource, ts, x, n)
  }

  lemma EntriesFit(spec: Spec, deep: nat, resource: string, ts: seq<CodeName>, lists: bool, v: Js, n: nat)
    requires AliasesEnd(spec, deep) && forall t :: t in ts ==> InlinesAtom(spec, resource, t, n)
    requires forall i :: 0 <= i < |Elements(v)| ==> ElementFits(spec, deep, resource, ts, lists, Elements(v)[i], n)
    ensures TakesMap(spec, deep, resource, ts, lists, v, n, false) <==>
            TakesMap(spec, deep, resource, ts, lists, v, n, true) || SlipsMap(spec, deep, resource, ts, lists, v, n)
  {
    hide AliasesEnd, TakesOneOf, SlipsOneOf, TakesList, SlipsList, InlinesAtom, Elements;
  }

  /** What fits is what is admitted, and what slips through. */
  lemma FitsIff(spec: Spec, deep: nat, resource: string, p: Property, v: Js, n: nat)
    requires AliasesEnd(spec, deep) && WellShaped(p) && Inlines(spec, resource, p, n)
    ensures Fits(spec, deep, resource, p, v, n)
            <==> Admits(spec, deep, resource, p, v, n) || Slips(spec, deep, resource, p, v, n)
    decreases Size(v), n, 4
  {
    var scalars, items := ScalarTypes(resource, p), ItemTypes(resource, p);
    hide AliasesEnd, TakesOneOf, TakesList, TakesMap, SlipsOneOf, SlipsList, SlipsMap;
    if items == [] {
      OneOfFits(spec, deep, resource, scalars, v, n);
    } else if scalars != [] {
      OneOfFits(spec, deep, resource, scalars, v, n);
      ListFits(spec, deep, resource, items, v, n);
    } else if p.IsMapOfListsOfPrimitives() {
      MapFits(spec, deep, resource, [ListElement(items[0])], true, v, n);
    } else if p.IsMap() {
      MapFits(spec, deep, resource, items, false, v, n);
    } else {
      ListFits(spec, deep, resource, items, v, n);
    }
  }
}
