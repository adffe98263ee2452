/** What a specification says about JavaScript values, and that generated validators say the same. */
module CfnMeaning {
  import opened CfnSpec
  import opened CfnCode
  import opened CfnStructure
  import opened CfnGenerator
  import opened CfnRuntime

  // ---------------------------------------------------------------- verdicts by the specification

  /** The verdict on `v` as a value of the type `t`; aliases within the property at hand are
      followed for `n` more levels, and for `deep` levels in fields. */
  ghost function JudgeType(spec: Spec, deep: nat, resource: string, t: CodeName, v: Js, n: nat): Verdict
    requires AliasesEnd(spec, deep) && InlinesAtom(spec, resource, t, n)
    decreases Size(v), n, 0
  {
    PartsSmaller(v);
    if IsAlias(spec, t) then JudgeProperty(spec, deep, resource, AliasOf(spec, t), v, n - 1)
    else if IsBuiltIn(t) then BuiltIn(t, v)
    else if !HasFunctions(spec, t) then Throws
    else if !CanInspect(v) then Pass
    else
      var ps := PropertiesOf(spec, t);
      Together([PassIf(IsObjectType(v))] + seq(|ps|, i requires 0 <= i < |ps| =>
        Together([PassIf(ps[i].required ==> !IsMissing(FieldOf(v, ps[i].name))),
                  JudgeProperty(spec, deep, t.resource, ps[i], FieldOf(v, ps[i].name), deep)])))
  }

  /** The verdict of the first type that does not refuse `v`. */
  ghost function JudgeOneOf(spec: Spec, deep: nat, resource: string, ts: seq<CodeName>, v: Js, n: nat): Verdict
    requires AliasesEnd(spec, deep) && forall t :: t in ts ==> InlinesAtom(spec, resource, t, n)
    decreases Size(v), n, 1
  {
    Either(seq(|ts|, i requires 0 <= i < |ts| => JudgeType(spec, deep, resource, ts[i], v, n)))
  }

  ghost function JudgeList(spec: Spec, deep: nat, resource: string, ts: seq<CodeName>, v: Js, n: nat): Verdict
    requires AliasesEnd(spec, deep) && forall t :: t in ts ==> InlinesAtom(spec, resource, t, n)
    decreases Size(v), n, 2
  {
    PartsSmaller(v);
    if !CanInspect(v) then Pass
    else if !IsListLike(v) then Fail
    else InTurn(seq(|Items(v)|, i requires 0 <= i < |Items(v)| => JudgeOneOf(spec, deep, resource, ts, Items(v)[i], n)))
  }

  /** Maps are of single values, or of lists of them. */
  ghost function JudgeMap(spec: Spec, deep: nat, resource: string, ts: seq<CodeName>, lists: bool, v: Js,
                          n: nat): Verdict
    requires AliasesEnd(spec, deep) && forall t :: t in ts ==> InlinesAtom(spec, resource, t, n)
    decreases Size(v), n, 3
  {
    PartsSmaller(v);
    if !CanInspect(v) then Pass
    else InTurn(seq(|Elements(v)|, i requires 0 <= i < |Elements(v)| =>
      if lists then JudgeList(spec, deep, resource, ts, Elements(v)[i], n)
      else JudgeOneOf(spec, deep, resource, ts, Elements(v)[i], n)))
  }

  ghost function JudgeProperty(spec: Spec, deep: nat, resource: string, p: Property, v: Js, n: nat): Verdict
    requires AliasesEnd(spec, deep) && WellShaped(p) && Inlines(spec, resource, p, n)
    decreases Size(v), n, 4
  {
    var scalars, items := ScalarTypes(resource, p), ItemTypes(resource, p);
    if items == [] then JudgeOneOf(spec, deep, resource, scalars, v, n)
    else if scalars != [] then
      Either([JudgeOneOf(spec, deep, resource, scalars, v, n), JudgeList(spec, deep, resource, items, v, n)])
    else if p.IsMapOfListsOfPrimitives() then JudgeMap(spec, deep, resource, [ListElement(items[0])], true, v, n)
    else if p.IsMap() then JudgeMap(spec, deep, resource, items, false, v, n)
    else JudgeList(spec, deep, resource, items, v, n)
  }

  // ---------------------------------------------------------------- validators give these verdicts

  /** `code` is the code of the specification. */
  ghost predicate IsCode(spec: Spec, deep: nat, code: seq<Emitted>) {
    AliasesEnd(spec, deep) && forall e :: e in code <==> Expected(spec, e, deep)
  }

  ghost predicate AtomJudged(spec: Spec, deep: nat, code: seq<Emitted>, resource: string, t: CodeName, v: Js, n: nat)
    requires AliasesEnd(spec, deep) && InlinesAtom(spec, resource, t, n)
  {
    Run(code, VisitAtom(spec, Validator, resource, t, n), v) == JudgeType(spec, deep, resource, t, v, n)
  }

  lemma {:induction false} AtomJudgedAs(spec: Spec, deep: nat, code: seq<Emitted>, resource: string, t: CodeName,
                                        v: Js, n: nat)
    requires IsCode(spec, deep, code) && InlinesAtom(spec, resource, t, n)
    ensures AtomJudged(spec, deep, code, resource, t, v, n)
    decreases Size(v), n, 0
  {
    if IsAlias(spec, t) {
      ValidatorMeaning(spec, deep, code, resource, AliasOf(spec, t), v, n - 1);
    } else {
      DefinesIfExpected(spec, code, Fn(Validator, t), deep);
      if IsBuiltIn(t) || !HasFunctions(spec, t) || !CanInspect(v) {
        OtherJudged(spec, deep, code, resource, t, v, n);
      } else {
        PartsSmaller(v);
        var ps := PropertiesOf(spec, t);
        forall i | 0 <= i < |ps|
          ensures WellShaped(ps[i]) && Inlines(spec, t.resource, ps[i], deep)
          ensures Run(code, Dispatch(spec, Validator, t.resource, ps[i], deep), FieldOf(v, ps[i].name)) ==
                  JudgeProperty(spec, deep, t.resource, ps[i], FieldOf(v, ps[i].name), deep)
        {
          assert WellShaped(ps[i]);
          hide AliasesEnd, WellShaped, Inlines, Dispatch, JudgeProperty, Run;
          ValidatorMeaning(spec, deep, code, t.resource, ps[i], FieldOf(v, ps[i].name), deep);
        }
        hide *;
        RecordJudged(spec, deep, code, resource, t, v, n);
      }
    }
  }

  /** Types without fields to look at. */
  lemma OtherJudged(spec: Spec, deep: nat, code: seq<Emitted>, resource: string, t: CodeName, v: Js, n: nat)
    requires IsCode(spec, deep, code) && InlinesAtom(spec, resource, t, n) && !IsAlias(spec, t)
    requires IsBuiltIn(t) || !HasFunctions(spec, t) || !CanInspect(v)
    requires Defines(code, Fn(Validator, t)) <==> HasFunctions(spec, t)
    ensures AtomJudged(spec, deep, code, resource, t, v, n)
  {
    hide IsCode, AliasesEnd, BuiltIn, JudgeProperty, Defines;
  }

  lemma RecordJudged(spec: Spec, deep: nat, code: seq<Emitted>, resource: string, t: CodeName, v: Js, n: nat)
    requires IsCode(spec, deep, code) && InlinesAtom(spec, resource, t, n) && !IsAlias(spec, t) && !IsBuiltIn(t)
    requires HasFunctions(spec, t) && CanInspect(v) && Defines(code, Fn(Validator, t))
    requires forall i :: 0 <= i < |PropertiesOf(spec, t)| ==>
               var p := PropertiesOf(spec, t)[i];
               && WellShaped(p) && Inlines(spec, t.resource, p, deep)
               && Run(code, Dispatch(spec, Validator, t.resource, p, deep), FieldOf(v, p.name)) ==
                  JudgeProperty(spec, deep, t.resource, p, FieldOf(v, p.name), deep)
    ensures AtomJudged(spec, deep, code, resource, t, v, n)
  {
    PartsSmaller(v);
    var ps, fn := PropertiesOf(spec, t), Fn(Validator, t);
    var uses := BodyOf(code, fn).uses;
    assert BodyOf(code, fn) == FunctionFor(spec, Validator, t, deep);
    assert uses == Expressions(spec, Validator, t, deep);
    hide IsCode, AliasesEnd, Dispatch, JudgeProperty;
    var run := seq(|uses|, i requires 0 <= i < |uses| =>
      if uses[i].OfField? then
        Together([PassIf(uses[i].required ==> !IsMissing(FieldOf(v, uses[i].name))),
                  Run(code, uses[i].expr, FieldOf(v, uses[i].name))])
      else Throws);
    var judged := seq(|ps|, i requires 0 <= i < |ps| =>
      Together([PassIf(ps[i].required ==> !IsMissing(FieldOf(v, ps[i].name))),
                JudgeProperty(spec, deep, t.resource, ps[i], FieldOf(v, ps[i].name), deep)]));
    assert run == judged;
    assert Run(code, Call(fn), v) == Together([PassIf(IsObjectType(v))] + run);
    assert JudgeType(spec, deep, resource, t, v, n) == Together([PassIf(IsObjectType(v))] + judged);
  }

  /** A union of validators says what the types say in turn. */
  lemma {:induction false} UnionMeaning(spec: Spec, deep: nat, code: seq<Emitted>, resource: string,
                                        ts: seq<CodeName>, v: Js, n: nat)
    requires IsCode(spec, deep, code) && forall t :: t in ts ==> InlinesAtom(spec, resource, t, n)
    ensures Run(code, VisitAtomUnion(spec, Validator, resource, ts, n), v) == JudgeOneOf(spec, deep, resource, ts, v, n)
    ensures |ts| == 1 ==>
            Run(code, VisitAtom(spec, Validator, resource, ts[0], n), v) == JudgeOneOf(spec, deep, resource, ts, v, n)
    decreases Size(v), n, 1
  {
    forall i | 0 <= i < |ts| ensures AtomJudged(spec, deep, code, resource, ts[i], v, n) {
      AtomJudgedAs(spec, deep, code, resource, ts[i], v, n);
    }
    hide IsCode, AliasesEnd, VisitAtom, JudgeType;
    var members := VisitAtoms(spec, Validator, resource, ts, n);
    var run := seq(|members|, i requires 0 <= i < |members| => Run(code, members[i], v));
    var judged := seq(|ts|, i requires 0 <= i < |ts| => JudgeType(spec, deep, resource, ts[i], v, n));
    assert run == judged;
    if |ts| == 1 { assert judged == [judged[0]]; EitherOne(judged[0]); }
  }

  ghost predicate RunsAs(code: seq<Emitted>, e: Expr, spec: Spec, deep: nat, resource: string, ts: seq<CodeName>,
                         v: Js, n: nat)
    requires AliasesEnd(spec, deep) && forall t :: t in ts ==> InlinesAtom(spec, resource, t, n)
  {
    Run(code, e, v) == JudgeOneOf(spec, deep, resource, ts, v, n)
  }

  lemma ListMeaning(spec: Spec, deep: nat, code: seq<Emitted>, resource: string, e: Expr, ts: seq<CodeName>, v: Js,
                    n: nat)
    requires IsCode(spec, deep, code) && forall t :: t in ts ==> InlinesAtom(spec, resource, t, n)
    requires IsListLike(v) ==> forall i ::
               0 <= i < |Items(v)| ==> RunsAs(code, e, spec, deep, resource, ts, Items(v)[i], n)
    ensures Run(code, ListOf(e), v) == JudgeList(spec, deep, resource, ts, v, n)
  {
    assert AliasesEnd(spec, deep);
    hide IsCode, AliasesEnd, JudgeOneOf;
    if CanInspect(v) && IsListLike(v) {
      var run := seq(|Items(v)|, i requires 0 <= i < |Items(v)| => Run(code, e, Items(v)[i]));
      var judged := seq(|Items(v)|,
                        i requires 0 <= i < |Items(v)| => JudgeOneOf(spec, deep, resource, ts, Items(v)[i], n));
      assert run == judged;
    }
  }

  lemma MapMeaning(spec: Spec, deep: nat, code: seq<Emitted>, resource: string, e: Expr, ts: seq<CodeName>,
                   lists: bool, v: Js, n: nat)
    requires IsCode(spec, deep, code) && forall t :: t in ts ==> InlinesAtom(spec, resource, t, n)
    requires forall i :: 0 <= i < |Elements(v)| ==>
               Run(code, e, Elements(v)[i]) ==
               if lists then JudgeList(spec, deep, resource, ts, Elements(v)[i], n)
               else JudgeOneOf(spec, deep, resource, ts, Elements(v)[i], n)
    ensures Run(code, MapOf(e), v) == JudgeMap(spec, deep, resource, ts, lists, v, n)
  {
    assert AliasesEnd(spec, deep);
    hide IsCode, AliasesEnd, JudgeOneOf, JudgeList, Elements;
    if CanInspect(v) {
      var run := seq(|Elements(v)|, i requires 0 <= i < |Elements(v)| => Run(code, e, Elements(v)[i]));
      var judged := seq(|Elements(v)|, i requires 0 <= i < |Elements(v)| =>
        if lists then JudgeList(spec, deep, resource, ts, Elements(v)[i], n)
        else JudgeOneOf(spec, deep, resource, ts, Elements(v)[i], n));
      assert run == judged;
    }
  }

  /** The validator of the items of a collection: that of the one type there is, or a union. */
  function ItemValidator(spec: Spec, resource: string, ts: seq<CodeName>, union: bool, ghost n: nat): Expr
    requires WellFormed(spec) && ts != [] && forall t :: t in ts ==> InlinesAtom(spec, resource, t, n)
  {
    if union then VisitAtomUnion(spec, Validator, resource, ts, n) else VisitAtom(spec, Validator, resource, ts[0], n)
  }

  lemma {:induction false} ItemsMeaning(spec: Spec, deep: nat, code: seq<Emitted>, resource: string,
                                        ts: seq<CodeName>, union: bool, v: Js, n: nat)
    requires IsCode(spec, deep, code) && ts != [] && (forall t :: t in ts ==> InlinesAtom(spec, resource, t, n))
    requires !union ==> |ts| == 1
    ensures Run(code, ListOf(ItemValidator(spec, resource, ts, union, n)), v)
            == JudgeList(spec, deep, resource, ts, v, n)
    decreases Size(v), n, 2
  {
    PartsSmaller(v);
    var e := ItemValidator(spec, resource, ts, union, n);
    if IsListLike(v) {
      forall i | 0 <= i < |Items(v)| ensures RunsAs(code, e, spec, deep, resource, ts, Items(v)[i], n) {
        UnionMeaning(spec, deep, code, resource, ts, Items(v)[i], n);
      }
    }
    ListMeaning(spec, deep, code, resource, e, ts, v, n);
  }

  lemma {:induction false} EntriesMeaning(spec: Spec, deep: nat, code: seq<Emitted>, resource: string,
                                          ts: seq<CodeName>, union: bool, lists: bool, v: Js, n: nat)
    requires IsCode(spec, deep, code) && ts != [] && (forall t :: t in ts ==> InlinesAtom(spec, resource, t, n))
    requires !union ==> |ts| == 1
    ensures var item := ItemValidator(spec, resource, ts, union, n);
            Run(code, MapOf(if lists then ListOf(item) else item), v) == JudgeMap(spec, deep, resource, ts, lists, v, n)
    decreases Size(v), n, 3
  {
    PartsSmaller(v);
    var item := ItemValidator(spec, resource, ts, union, n);
    forall i | 0 <= i < |Elements(v)|
      ensures Run(code, if lists then ListOf(item) else item, Elements(v)[i]) ==
              if lists then JudgeList(spec, deep, resource, ts, Elements(v)[i], n)
              else JudgeOneOf(spec, deep, resource, ts, Elements(v)[i], n)
    {
      if lists { ItemsMeaning(spec, deep, code, resource, ts, union, Elements(v)[i], n); }
      else { UnionMeaning(spec, deep, code, resource, ts, Elements(v)[i], n); }
    }
    MapMeaning(spec, deep, code, resource, if lists then ListOf(item) else item, ts, lists, v, n);
  }

  lemma {:induction false} ListOrAtomMeaning(spec: Spec, deep: nat, code: seq<Emitted>, resource: string,
                                             scalars: seq<CodeName>, items: seq<CodeName>, v: Js, n: nat)
    requires IsCode(spec, deep, code) && items != []
    requires forall t :: t in scalars || t in items ==> InlinesAtom(spec, resource, t, n)
    ensures Run(code, VisitListOrAtom(spec, Validator, resource, scalars, items, n), v) ==
            Either([JudgeOneOf(spec, deep, resource, scalars, v, n), JudgeList(spec, deep, resource, items, v, n)])
    decreases Size(v), n, 3
  {
    UnionMeaning(spec, deep, code, resource, scalars, v, n);
    ItemsMeaning(spec, deep, code, resource, items, true, v, n);
    var e := VisitListOrAtom(spec, Validator, resource, scalars, items, n);
    hide IsCode, AliasesEnd, JudgeOneOf, JudgeList;
    var run := seq(|e.members|, i requires 0 <= i < |e.members| => Run(code, e.members[i], v));
    assert e.members
           == [VisitAtomUnion(spec, Validator, resource, scalars, n),
               ListOf(ItemValidator(spec, resource, items, true, n))];
    assert run == [JudgeOneOf(spec, deep, resource, scalars, v, n), JudgeList(spec, deep, resource, items, v, n)];
  }

  /** The validator generated for a property says of each value what the specification says. */
  lemma {:induction false} ValidatorMeaning(spec: Spec, deep: nat, code: seq<Emitted>, resource: string, p: Property,
                                            v: Js, n: nat)
    requires IsCode(spec, deep, code) && WellShaped(p) && Inlines(spec, resource, p, n)
    ensures Run(code, Dispatch(spec, Validator, resource, p, n), v) == JudgeProperty(spec, deep, resource, p, v, n)
    decreases Size(v), n, 4
  {
    DispatchIs(spec, Validator, resource, p, n);
    JudgeIs(spec, deep, resource, p, v, n);
    PartsOf(resource, p);
    var scalars, items, parts := ScalarTypes(resource, p), ItemTypes(resource, p), Parts(resource, p).0;
    hide WellFormed, WellShaped, Inlines, InlinesAtom, Dispatch, JudgeProperty, Run, AliasesEnd, IsCode, Parts,
         ScalarTypes, ItemTypes, VisitAtom, VisitAtomUnion, VisitListOrAtom;
    if items == [] {
      UnionMeaning(spec, deep, code, resource, scalars, v, n);
    } else if scalars != [] {
      ListOrAtomMeaning(spec, deep, code, resource, scalars, items, v, n);
    } else if p.IsMap() {
      EntriesMeaning(spec, deep, code, resource, parts, |parts| > 1, p.IsMapOfListsOfPrimitives(), v, n);
    } else {
      ItemsMeaning(spec, deep, code, resource, parts, |parts| > 1, v, n);
    }
  }

  /** Only collections have item types. */
  lemma PartsOf(resource: string, p: Property)
    requires WellShaped(p)
    ensures var scalars, items, parts := ScalarTypes(resource, p), ItemTypes(resource, p), Parts(resource, p).0;
      && (items == [] ==> !p.IsCollection() && scalars != [] && parts == scalars)
      && (items != [] && scalars == [] ==> p.IsCollection())
      && (items != [] && scalars == [] ==>
          parts == if p.IsMapOfListsOfPrimitives() then [ListElement(items[0])] else items)
      && (items != [] && scalars != [] ==> parts == scalars + items)
      && (p.IsMapOfListsOfPrimitives() ==> p.IsMap())
  {
    hide SpecTypeToCodeType, ListElement;
  }

  lemma JudgeIs(spec: Spec, deep: nat, resource: string, p: Property, v: Js, n: nat)
    requires AliasesEnd(spec, deep) && WellShaped(p) && Inlines(spec, resource, p, n)
    ensures var scalars, items, parts := ScalarTypes(resource, p), ItemTypes(resource, p), Parts(resource, p).0;
      && (forall t :: t in parts ==> InlinesAtom(spec, resource, t, n))
      && (forall t :: t in scalars ==> items == [] || t in parts)
      && (items != [] && scalars != [] ==> forall t :: t in items ==> t in parts)
      && (items == [] ==> parts == scalars)
      && JudgeProperty(spec, deep, resource, p, v, n) ==
         if items == [] then JudgeOneOf(spec, deep, resource, scalars, v, n)
         else if scalars != [] then
           Either([JudgeOneOf(spec, deep, resource, scalars, v, n), JudgeList(spec, deep, resource, items, v, n)])
         else if p.IsMap() then JudgeMap(spec, deep, resource, parts, p.IsMapOfListsOfPrimitives(), v, n)
         else JudgeList(spec, deep, resource, parts, v, n)
  {
    PartsOf(resource, p);
    hide AliasesEnd, Parts, JudgeOneOf, JudgeList, JudgeMap, InlinesAtom, ScalarTypes, ItemTypes, WellShaped, Either,
         WellFormed;
  }
}
