/** Generated mappers on JavaScript values: after validation, every union finds its member. */
module CfnMappers {
  import opened CfnSpec
  import opened CfnCode
  import opened CfnStructure
  import opened CfnUnions
  import opened CfnGenerator
  import opened CfnRuntime
  import opened CfnMeaning

  // ---------------------------------------------------------------- running a mapper

  /** How a mapper ends: with a result, because no validator of a union passed the value, or
      because something else threw. */
  datatype Ending = Done | Unmatched | Breaks

  function FirstNotDone(es: seq<Ending>): Ending {
    if es == [] then Done else if es[0] != Done then es[0] else FirstNotDone(es[1..])
  }

  /** Values are passed on, but a date is asked for its parts and a tag for its fields. */
  function BuiltInMap(t: CodeName, v: Js): Ending
    requires IsBuiltIn(t)
  {
    if t.CfnTag? then if IsMissing(v) then Breaks else Done
    else if t.name == "Date" && IsTruthy(v) && !v.Date? then Breaks
    else Done
  }

  /** How the mapper `e` ends at `v`. Only lists have a function to map their items. */
  ghost function MapTo(code: seq<Emitted>, e: Expr, v: Js): Ending
    decreases Size(v), e
  {
    PartsSmaller(v);
    match e
    case Call(fn) =>
      if !fn.kind.Mapper? then Breaks
      else if IsBuiltIn(fn.of) then BuiltInMap(fn.of, v)
      else if !Defines(code, fn) then Breaks
      else if !CanInspect(v) then Done
      else
        var uses := BodyOf(code, fn).uses;
        FirstNotDone(seq(|uses|, i requires 0 <= i < |uses| =>
          if uses[i].OfField? then MapTo(code, uses[i].expr, FieldOf(v, uses[i].name))
          else if Run(code, uses[i].expr, v) == Pass then Done else Breaks))
    case ListOf(item) =>
      if !CanInspect(v) then Done
      else if !v.List? then Breaks
      else FirstNotDone(seq(|v.items|, i requires 0 <= i < |v.items| =>
        assert v.items == Items(v); MapTo(code, item, v.items[i])))
    case MapOf(item) =>
      if !CanInspect(v) then Done
      else FirstNotDone(seq(|Elements(v)|, i requires 0 <= i < |Elements(v)| => MapTo(code, item, Elements(v)[i])))
    case StringArray => Breaks
    case UnionOf(validators, members) =>
      if |validators| != |members| then Breaks
      else if !CanInspect(v) then Done
      else
        var i := FirstNotFailing(seq(|validators|, i requires 0 <= i < |validators| => Run(code, validators[i], v)));
        if i == |members| then Unmatched
        else if Run(code, validators[i], v) == Throws then Breaks
        else MapTo(code, members[i], v)
  }

  function FirstNotFailing(vs: seq<Verdict>): (i: nat)
    ensures i <= |vs| && (i < |vs| ==> vs[i] != Fail) && forall k :: 0 <= k < i ==> vs[k] == Fail
  {
    if vs == [] || vs[0] != Fail then 0 else 1 + FirstNotFailing(vs[1..])
  }

  /** A union that nobody has validated ends without a match at what all its validators refuse, and
      otherwise as the member whose validator is the first to pass. */
  lemma UnionChooses(code: seq<Emitted>, validators: seq<Expr>, members: seq<Expr>, v: Js, i: nat)
    requires |validators| == |members| && CanInspect(v) && i <= |validators|
    requires forall k :: 0 <= k < i ==> Run(code, validators[k], v) == Fail
    ensures i == |validators| ==> MapTo(code, UnionOf(validators, members), v) == Unmatched
    ensures i < |validators| && Run(code, validators[i], v) == Pass ==>
            MapTo(code, UnionOf(validators, members), v) == MapTo(code, members[i], v)
    ensures i < |validators| && Run(code, validators[i], v) == Throws ==>
            MapTo(code, UnionOf(validators, members), v) == Breaks
  {
    hide Run;
    var vs := seq(|validators|, k requires 0 <= k < |validators| => Run(code, validators[k], v));
    assert i < |vs| ==> vs[i] == Run(code, validators[i], v);
    assert forall k :: 0 <= k < i ==> vs[k] == Fail;
    var first := FirstNotFailing(vs);
  }

  lemma {:induction false} FirstNotDoneIs(es: seq<Ending>)
    requires Unmatched !in es
    ensures FirstNotDone(es) != Unmatched
  {
    if es != [] { FirstNotDoneIs(es[1..]); }
  }

  // ---------------------------------------------------------------- validators that unions list

  /** Where the validator `a` does not throw, it says the same as `b`. */
  ghost predicate Keeps(code: seq<Emitted>, a: Expr, b: Expr) {
    forall v :: KeepsAt(code, a, b, v)
  }

  ghost predicate KeepsAt(code: seq<Emitted>, a: Expr, b: Expr, v: Js) {
    Run(code, a, v) == Run(code, b, v) || Run(code, a, v) == Throws
  }

  /** Each union has members, and for each of them a validator that keeps to that of the member. */
  ghost predicate Fair(code: seq<Emitted>, e: Expr) {
    match e
    case ListOf(item) => Fair(code, item)
    case MapOf(item) => Fair(code, item)
    case UnionOf(validators, members) =>
        && |validators| == |members| > 0
        && forall i :: 0 <= i < |members| ==>
             Keeps(code, validators[i], AsValidator(members[i])) && Fair(code, members[i])
    case _ => true
  }

  /** What an alternative that throws early makes of the verdict of a union. */
  lemma {:induction false} EitherKeeps(vs: seq<Verdict>, ws: seq<Verdict>)
    requires |vs| == |ws| && forall i :: 0 <= i < |vs| ==> vs[i] == ws[i] || vs[i] == Throws
    ensures FirstOther(vs, Fail) == FirstOther(ws, Fail) || FirstOther(vs, Fail) == Throws
    ensures FirstOther(vs, Pass) == FirstOther(ws, Pass) || FirstOther(vs, Pass) == Throws
  {
    if vs != [] { EitherKeeps(vs[1..], ws[1..]); }
  }

  lemma UnionKeeps(code: seq<Emitted>, xs: seq<Expr>, ys: seq<Expr>)
    requires |xs| == |ys| && forall i :: 0 <= i < |xs| ==> Keeps(code, xs[i], ys[i])
    ensures Keeps(code, UnionOf([], xs), UnionOf([], ys))
  {
    forall v ensures KeepsAt(code, UnionOf([], xs), UnionOf([], ys), v) {
      var vs := seq(|xs|, i requires 0 <= i < |xs| => Run(code, xs[i], v));
      var ws := seq(|ys|, i requires 0 <= i < |ys| => Run(code, ys[i], v));
      forall i | 0 <= i < |xs| ensures vs[i] == ws[i] || vs[i] == Throws {
        assert Keeps(code, xs[i], ys[i]) && KeepsAt(code, xs[i], ys[i], v);
      }
      EitherKeeps(vs, ws);
      assert Run(code, UnionOf([], xs), v) == Either(vs) && Run(code, UnionOf([], ys), v) == Either(ws);
    }
  }

  lemma ListKeeps(code: seq<Emitted>, x: Expr, y: Expr)
    requires Keeps(code, x, y)
    ensures Keeps(code, ListOf(x), ListOf(y))
  {
    forall v ensures KeepsAt(code, ListOf(x), ListOf(y), v) {
      PartsSmaller(v);
      hide Items;
      var vs := seq(|Items(v)|, i requires 0 <= i < |Items(v)| => Run(code, x, Items(v)[i]));
      var ws := seq(|Items(v)|, i requires 0 <= i < |Items(v)| => Run(code, y, Items(v)[i]));
      forall i | 0 <= i < |vs| ensures vs[i] == ws[i] || vs[i] == Throws { assert KeepsAt(code, x, y, Items(v)[i]); }
      EitherKeeps(vs, ws);
    }
  }

  lemma CodeWellFormed(spec: Spec, deep: nat, code: seq<Emitted>)
    requires IsCode(spec, deep, code)
    ensures WellFormed(spec) && AliasesEnd(spec, deep)
  {
    hide WellFormed, Expected;
  }

  /** The validator named for an alias does not exist. */
  lemma NamedKeeps(spec: Spec, deep: nat, code: seq<Emitted>, resource: string, t: CodeName, n: nat)
    requires IsCode(spec, deep, code) && InlinesAtom(spec, resource, t, n)
    ensures Keeps(code, Call(Fn(Validator, t)), AsValidator(VisitAtom(spec, Mapper, resource, t, n)))
  {
    CodeWellFormed(spec, deep, code);
    hide AliasesEnd, AsValidator, VisitAtom, WellFormed;
    if IsAlias(spec, t) {
      DefinesIfExpected(spec, code, Fn(Validator, t), deep);
      assert forall v :: Run(code, Call(Fn(Validator, t)), v) == Throws;
    } else {
      MemberValidator(spec, Mapper, resource, t, n);
    }
  }

  // ---------------------------------------------------------------- the unions of mappers are fair

  ghost predicate AtomFair(spec: Spec, code: seq<Emitted>, resource: string, t: CodeName, n: nat)
    requires WellFormed(spec) && InlinesAtom(spec, resource, t, n)
  {
    Fair(code, VisitAtom(spec, Mapper, resource, t, n))
  }

  lemma {:induction false} DispatchFair(spec: Spec, deep: nat, code: seq<Emitted>, resource: string, p: Property,
                                        n: nat)
    requires IsCode(spec, deep, code) && WellShaped(p) && Inlines(spec, resource, p, n)
    ensures Fair(code, Dispatch(spec, Mapper, resource, p, n))
    decreases n, 1
  {
    DispatchIs(spec, Mapper, resource, p, n);
    CodeWellFormed(spec, deep, code);
    hide *;
    forall t | t in Parts(resource, p).0
      ensures InlinesAtom(spec, resource, t, n) && AtomFair(spec, code, resource, t, n)
    {
      PartFair(spec, deep, code, resource, p, t, n);
    }
    var scalars, items, parts := ScalarTypes(resource, p), ItemTypes(resource, p), Parts(resource, p).0;
    if scalars != [] && items != [] {
      UnionFair(spec, deep, code, resource, scalars, n);
      UnionFair(spec, deep, code, resource, items, n);
      ListOrAtomFair(spec, code, resource, scalars, items, n);
    } else {
      UnionFair(spec, deep, code, resource, parts, n);
      WrappedFair(code, VisitAtomUnion(spec, Mapper, resource, parts, n));
      SingleFair(spec, code, resource, parts, n);
    }
  }

  lemma {:induction false} PartFair(spec: Spec, deep: nat, code: seq<Emitted>, resource: string, p: Property,
                                    t: CodeName, n: nat)
    requires IsCode(spec, deep, code) && WellShaped(p) && Inlines(spec, resource, p, n) && t in Parts(resource, p).0
    ensures WellFormed(spec) && InlinesAtom(spec, resource, t, n) && AtomFair(spec, code, resource, t, n)
    decreases n, 0
  {
    CodeWellFormed(spec, deep, code);
    hide Parts, WellShaped, Fair, IsCode, AliasesEnd;
    if IsAlias(spec, t) {
      DispatchFair(spec, deep, code, resource, AliasOf(spec, t), n - 1);
    } else {
      CallFair(spec, code, resource, t, n);
    }
  }

  lemma CallFair(spec: Spec, code: seq<Emitted>, resource: string, t: CodeName, n: nat)
    requires WellFormed(spec) && InlinesAtom(spec, resource, t, n) && !IsAlias(spec, t)
    ensures AtomFair(spec, code, resource, t, n)
  {
    hide WellFormed, InlinesAtom;
  }

  /** The validator of such a union, and that its named validators keep to it. */
  ghost predicate UnionIsFair(spec: Spec, code: seq<Emitted>, resource: string, ts: seq<CodeName>, n: nat)
    requires WellFormed(spec) && forall t :: t in ts ==> InlinesAtom(spec, resource, t, n)
  {
    var u := VisitAtomUnion(spec, Mapper, resource, ts, n);
    Fair(code, u) && Keeps(code, UnionOf([], NamedValidators(ts)), AsValidator(u))
  }

  lemma UnionFair(spec: Spec, deep: nat, code: seq<Emitted>, resource: string, ts: seq<CodeName>, n: nat)
    requires IsCode(spec, deep, code) && ts != [] && forall t :: t in ts ==> InlinesAtom(spec, resource, t, n)
    requires forall t :: t in ts ==> AtomFair(spec, code, resource, t, n)
    ensures UnionIsFair(spec, code, resource, ts, n)
  {
    var u := VisitAtomUnion(spec, Mapper, resource, ts, n);
    forall i | 0 <= i < |ts|
      ensures Keeps(code, NamedValidators(ts)[i], AsValidators(u.members)[i]) && Fair(code, u.members[i])
    {
      assert AtomFair(spec, code, resource, ts[i], n);
      hide IsCode, AliasesEnd, Keeps, Fair, VisitAtom, AsValidator;
      NamedKeeps(spec, deep, code, resource, ts[i], n);
    }
    hide IsCode, AliasesEnd, Keeps, VisitAtom, AsValidators;
    UnionKeeps(code, NamedValidators(ts), AsValidators(u.members));
  }

  lemma ListOrAtomFair(spec: Spec, code: seq<Emitted>, resource: string, scalars: seq<CodeName>, items: seq<CodeName>,
                       n: nat)
    requires WellFormed(spec) && forall t :: t in scalars || t in items ==> InlinesAtom(spec, resource, t, n)
    requires UnionIsFair(spec, code, resource, scalars, n) && UnionIsFair(spec, code, resource, items, n)
    ensures Fair(code, VisitListOrAtom(spec, Mapper, resource, scalars, items, n))
  {
    var i := VisitAtomUnion(spec, Mapper, resource, items, n);
    hide VisitAtomUnion, InlinesAtom, WellFormed, Keeps;
    ListKeeps(code, UnionOf([], NamedValidators(items)), AsValidator(i));
    assert AsValidator(ListOf(i)) == ListOf(AsValidator(i));
    assert Fair(code, ListOf(i));
  }

  lemma WrappedFair(code: seq<Emitted>, e: Expr)
    ensures Fair(code, ListOf(e)) == Fair(code, MapOf(e)) == Fair(code, e)
  {
  }

  lemma SingleFair(spec: Spec, code: seq<Emitted>, resource: string, ts: seq<CodeName>, n: nat)
    requires WellFormed(spec) && ts != [] && forall t :: t in ts ==> InlinesAtom(spec, resource, t, n)
    requires forall t :: t in ts ==> AtomFair(spec, code, resource, t, n)
    ensures var e := VisitAtom(spec, Mapper, resource, ts[0], n);
            && Fair(code, e) && Fair(code, MapOf(e)) && Fair(code, MapOf(ListOf(e)))
            && Fair(code, VisitList(spec, Mapper, resource, ts[0], n))
  {
    assert AtomFair(spec, code, resource, ts[0], n);
    hide VisitAtom, InlinesAtom, WellFormed;
  }

  /** The mapper of a field and its validator belong together. */
  ghost predicate FieldMatches(spec: Spec, deep: nat, code: seq<Emitted>, t: CodeName, i: nat)
    requires AliasesEnd(spec, deep) && HasFunctions(spec, t) && i < |PropertiesOf(spec, t)|
  {
    var mapper, validator := Expressions(spec, Mapper, t, deep)[i], Expressions(spec, Validator, t, deep)[i];
    Fair(code, mapper.expr) && validator.expr == AsValidator(mapper.expr) && validator.name == mapper.name
  }

  lemma FieldsMatch(spec: Spec, deep: nat, code: seq<Emitted>, t: CodeName, i: nat)
    requires IsCode(spec, deep, code) && HasFunctions(spec, t) && i < |PropertiesOf(spec, t)|
    ensures FieldMatches(spec, deep, code, t, i)
  {
    var p := PropertiesOf(spec, t)[i];
    assert p in PropertiesOf(spec, t) && WellShaped(p) && Inlines(spec, t.resource, p, deep);
    hide AliasesEnd, IsCode, WellShaped, Inlines, Dispatch, AsValidator, Fair;
    DispatchFair(spec, deep, code, t.resource, p, deep);
    SameStructure(spec, Mapper, t.resource, p, deep);
  }

  // ---------------------------------------------------------------- unions after validation

  ghost predicate Matches(code: seq<Emitted>, e: Expr, v: Js) {
    Run(code, AsValidator(e), v) == Pass ==> MapTo(code, e, v) != Unmatched
  }

  lemma ValidatorUses(spec: Spec, deep: nat, code: seq<Emitted>, t: CodeName)
    requires IsCode(spec, deep, code) && HasFunctions(spec, t)
    ensures Defines(code, Fn(Validator, t)) && Defines(code, Fn(Mapper, t))
    ensures BodyOf(code, Fn(Validator, t)).uses == Expressions(spec, Validator, t, deep)
    ensures BodyOf(code, Fn(Mapper, t)).uses
            == [Whole(Call(Fn(Validator, t)))] + Expressions(spec, Mapper, t, deep)
  {
    DefinesIfExpected(spec, code, Fn(Validator, t), deep);
    DefinesIfExpected(spec, code, Fn(Mapper, t), deep);
    hide AliasesEnd, Expressions;
  }

  /** A field of a value that passes passes the validator of the field. */
  lemma FieldPasses(spec: Spec, deep: nat, code: seq<Emitted>, t: CodeName, v: Js, i: nat)
    requires IsCode(spec, deep, code) && HasFunctions(spec, t) && !IsBuiltIn(t) && CanInspect(v)
    requires i < |PropertiesOf(spec, t)| && Run(code, Call(Fn(Validator, t)), v) == Pass
    ensures var u := Expressions(spec, Validator, t, deep)[i]; Run(code, u.expr, FieldOf(v, u.name)) == Pass
  {
    ValidatorUses(spec, deep, code, t);
    PartsSmaller(v);
    var uses := BodyOf(code, Fn(Validator, t)).uses;
    assert uses[i].OfField?;
    hide AliasesEnd, IsCode, Expressions, HasFunctions, IsBuiltIn, Defines, BodyOf, FieldOf, CanInspect, PropertiesOf;
    var run := seq(|uses|, i requires 0 <= i < |uses| =>
      if uses[i].OfField? then
        Together([PassIf(uses[i].required ==> !IsMissing(FieldOf(v, uses[i].name))),
                  Run(code, uses[i].expr, FieldOf(v, uses[i].name))])
      else Throws);
    assert Run(code, Call(Fn(Validator, t)), v) == Together([PassIf(IsObjectType(v))] + run);
    var all := [PassIf(IsObjectType(v))] + run;
    assert all[i + 1] == run[i] == Pass;
    var two := [PassIf(uses[i].required ==> !IsMissing(FieldOf(v, uses[i].name))),
                Run(code, uses[i].expr, FieldOf(v, uses[i].name))];
    assert two[1] == Pass;
  }

  /** A mapper of a record validates first, and its fields find their members after that. */
  lemma RecordMatches(spec: Spec, deep: nat, code: seq<Emitted>, t: CodeName, v: Js)
    requires IsCode(spec, deep, code)
    requires HasFunctions(spec, t) && !IsBuiltIn(t) && CanInspect(v)
    requires forall i :: 0 <= i < |PropertiesOf(spec, t)| ==>
               var u := Expressions(spec, Mapper, t, deep)[i]; Matches(code, u.expr, FieldOf(v, u.name))
    ensures MapTo(code, Call(Fn(Mapper, t)), v) != Unmatched
  {
    ValidatorUses(spec, deep, code, t);
    PartsSmaller(v);
    var uses, fields := BodyOf(code, Fn(Mapper, t)).uses, Expressions(spec, Mapper, t, deep);
    var es := seq(|uses|, i requires 0 <= i < |uses| =>
      if uses[i].OfField? then MapTo(code, uses[i].expr, FieldOf(v, uses[i].name))
      else if Run(code, uses[i].expr, v) == Pass then Done else Breaks);
    assert MapTo(code, Call(Fn(Mapper, t)), v) == FirstNotDone(es);
    if Run(code, Call(Fn(Validator, t)), v) == Pass {
      forall i | 0 <= i < |es| ensures es[i] != Unmatched {
        if i > 0 { FieldEnds(spec, deep, code, t, v, i - 1); }
      }
      FirstNotDoneIs(es);
    } else {
      assert es[0] == Breaks;
    }
  }

  lemma FieldEnds(spec: Spec, deep: nat, code: seq<Emitted>, t: CodeName, v: Js, i: nat)
    requires IsCode(spec, deep, code)
    requires HasFunctions(spec, t) && !IsBuiltIn(t) && CanInspect(v) && i < |PropertiesOf(spec, t)|
    requires Run(code, Call(Fn(Validator, t)), v) == Pass
    requires var u := Expressions(spec, Mapper, t, deep)[i]; Matches(code, u.expr, FieldOf(v, u.name))
    ensures var u := Expressions(spec, Mapper, t, deep)[i]; MapTo(code, u.expr, FieldOf(v, u.name)) != Unmatched
  {
    FieldPasses(spec, deep, code, t, v, i);
    FieldsMatch(spec, deep, code, t, i);
    hide IsCode, AliasesEnd, Run, MapTo, Expressions, FieldOf, AsValidator, Fair;
  }

  lemma ListMatches(code: seq<Emitted>, item: Expr, v: Js)
    requires v.List? ==> forall i :: 0 <= i < |v.items| ==> Matches(code, item, v.items[i])
    ensures Matches(code, ListOf(item), v)
  {
    PartsSmaller(v);
    if CanInspect(v) && v.List? && Run(code, ListOf(AsValidator(item)), v) == Pass {
      assert v.items == Items(v);
      var vs := seq(|Items(v)|, i requires 0 <= i < |Items(v)| => Run(code, AsValidator(item), Items(v)[i]));
      var es := seq(|v.items|, i requires 0 <= i < |v.items| => MapTo(code, item, v.items[i]));
      FirstOtherIs(vs, Pass);
      forall i | 0 <= i < |es| ensures es[i] != Unmatched { assert vs[i] == Pass && Matches(code, item, v.items[i]); }
      FirstNotDoneIs(es);
    }
  }

  lemma EntriesMatch(code: seq<Emitted>, item: Expr, v: Js)
    requires forall i :: 0 <= i < |Elements(v)| ==> Matches(code, item, Elements(v)[i])
    ensures Matches(code, MapOf(item), v)
  {
    PartsSmaller(v);
    hide Elements;
    if CanInspect(v) && Run(code, MapOf(AsValidator(item)), v) == Pass {
      var vs := seq(|Elements(v)|, i requires 0 <= i < |Elements(v)| => Run(code, AsValidator(item), Elements(v)[i]));
      var es := seq(|Elements(v)|, i requires 0 <= i < |Elements(v)| => MapTo(code, item, Elements(v)[i]));
      assert Run(code, MapOf(AsValidator(item)), v) == InTurn(vs);
      assert MapTo(code, MapOf(item), v) == FirstNotDone(es);
      FirstOtherIs(vs, Pass);
      forall i | 0 <= i < |es| ensures es[i] != Unmatched {
        assert vs[i] == Pass && Matches(code, item, Elements(v)[i]);
      }
      FirstNotDoneIs(es);
    }
  }

  /** If the validators of the members pass a value, the first one listed for them not to fail
      passes it or throws. */
  lemma UnionMatches(code: seq<Emitted>, validators: seq<Expr>, members: seq<Expr>, v: Js)
    requires |validators| == |members| > 0
    requires forall i :: 0 <= i < |members| ==>
               Keeps(code, validators[i], AsValidator(members[i])) && Matches(code, members[i], v)
    ensures Matches(code, UnionOf(validators, members), v)
  {
    var vs := seq(|validators|, i requires 0 <= i < |validators| => Run(code, validators[i], v));
    var ws := seq(|members|, i requires 0 <= i < |members| => Run(code, AsValidator(members[i]), v));
    forall i | 0 <= i < |vs| ensures vs[i] == ws[i] || vs[i] == Throws {
      assert Keeps(code, validators[i], AsValidator(members[i]));
      assert KeepsAt(code, validators[i], AsValidator(members[i]), v);
    }
    UnionEnds(code, validators, members, v, vs);
    MembersRun(code, validators, members, v, ws);
    var i := FirstNotFailing(vs);
    hide *;
    if Either(ws) == Pass {
      FirstNotFailingPasses(vs, ws);
      if vs[i] == Pass {
        assert Matches(code, members[i], v) && ws[i] == Run(code, AsValidator(members[i]), v);
        MatchEnds(code, members[i], v);
      }
    }
    MatchesIf(code, UnionOf(validators, members), v, ws);
  }

  lemma MembersRun(code: seq<Emitted>, validators: seq<Expr>, members: seq<Expr>, v: Js, ws: seq<Verdict>)
    requires |ws| == |members| == |validators|
    requires forall i :: 0 <= i < |ws| ==> ws[i] == Run(code, AsValidator(members[i]), v)
    ensures Run(code, AsValidator(UnionOf(validators, members)), v) == Either(ws)
    ensures !CanInspect(v) ==> MapTo(code, UnionOf(validators, members), v) == Done
  {
    var us := AsValidators(members);
    assert AsValidator(UnionOf(validators, members)) == UnionOf([], us);
    hide CanInspect, AsValidator;
    assert ws == seq(|us|, i requires 0 <= i < |us| => Run(code, us[i], v));
    assert Run(code, UnionOf([], us), v) == Either(ws);
  }

  lemma MatchesIf(code: seq<Emitted>, e: Expr, v: Js, ws: seq<Verdict>)
    requires Run(code, AsValidator(e), v) == Either(ws)
    requires CanInspect(v) && Either(ws) == Pass ==> MapTo(code, e, v) != Unmatched
    requires !CanInspect(v) ==> MapTo(code, e, v) == Done
    ensures Matches(code, e, v)
  {
    hide CanInspect, AsValidator, MapTo, Run;
  }

  lemma MatchEnds(code: seq<Emitted>, e: Expr, v: Js)
    requires Matches(code, e, v) && Run(code, AsValidator(e), v) == Pass
    ensures MapTo(code, e, v) != Unmatched
  {
    hide Run, MapTo, AsValidator;
  }

  lemma {:induction false} FirstNotFailingPasses(vs: seq<Verdict>, ws: seq<Verdict>)
    requires |vs| == |ws| && vs != [] && Either(ws) == Pass
    requires forall i :: 0 <= i < |vs| ==> vs[i] == ws[i] || vs[i] == Throws
    ensures var i := FirstNotFailing(vs); i < |vs| && (vs[i] == Throws || vs[i] == ws[i] == Pass)
  {
    if vs[0] == Fail {
      assert FirstOther(ws, Fail) == FirstOther(ws[1..], Fail);
      FirstNotFailingPasses(vs[1..], ws[1..]);
    }
  }

  lemma UnionEnds(code: seq<Emitted>, validators: seq<Expr>, members: seq<Expr>, v: Js, vs: seq<Verdict>)
    requires |validators| == |members| == |vs|
    requires forall i :: 0 <= i < |vs| ==> vs[i] == Run(code, validators[i], v)
    ensures var i := FirstNotFailing(vs);
            var ending :=
              if i == |members| then Unmatched else if vs[i] == Throws then Breaks else MapTo(code, members[i], v);
            CanInspect(v) ==> MapTo(code, UnionOf(validators, members), v) == ending
  {
    hide Run, CanInspect, FirstNotFailing;
    assert vs == seq(|validators|, i requires 0 <= i < |validators| => Run(code, validators[i], v));
  }

  /** Where the validator of an expression passes, its mapper does not run out of validators. */
  lemma {:induction false} MapperMatches(spec: Spec, deep: nat, code: seq<Emitted>, e: Expr, v: Js)
    requires IsCode(spec, deep, code) && Fair(code, e)
    ensures Matches(code, e, v)
    decreases Size(v), e
  {
    PartsSmaller(v);
    match e
    case Call(fn) =>
      if !IsBuiltIn(fn.of) && Defines(code, fn) && fn.kind.Mapper? && CanInspect(v) {
        var t := fn.of;
        DefinesIfExpected(spec, code, fn, deep);
        forall i | 0 <= i < |PropertiesOf(spec, t)|
          ensures var u := Expressions(spec, Mapper, t, deep)[i]; Matches(code, u.expr, FieldOf(v, u.name))
        {
          FieldsMatch(spec, deep, code, t, i);
          var u := Expressions(spec, Mapper, t, deep)[i];
          hide *;
          MapperMatches(spec, deep, code, u.expr, FieldOf(v, u.name));
        }
        hide *;
        RecordMatches(spec, deep, code, t, v);
      }
    case ListOf(item) =>
      if v.List? {
        assert v.items == Items(v);
        forall i | 0 <= i < |v.items| ensures Matches(code, item, v.items[i]) {
          MapperMatches(spec, deep, code, item, v.items[i]);
        }
      }
      hide *;
      ListMatches(code, item, v);
    case MapOf(item) =>
      forall i | 0 <= i < |Elements(v)| ensures Matches(code, item, Elements(v)[i]) {
        MapperMatches(spec, deep, code, item, Elements(v)[i]);
      }
      hide *;
      EntriesMatch(code, item, v);
    case StringArray =>
    case UnionOf(validators, members) =>
      forall i | 0 <= i < |members| ensures Matches(code, members[i], v) {
        MapperMatches(spec, deep, code, members[i], v);
      }
      UnionMatches(code, validators, members, v);
  }

  /** No mapper ever runs out of validators in a union, whatever it is called with: it validates first. */
  lemma MapperNeverUnmatched(spec: Spec, deep: nat, code: seq<Emitted>, t: CodeName, v: Js)
    requires IsCode(spec, deep, code)
    ensures MapTo(code, Call(Fn(Mapper, t)), v) != Unmatched
  {
    DefinesIfExpected(spec, code, Fn(Mapper, t), deep);
    if !IsBuiltIn(t) && HasFunctions(spec, t) && CanInspect(v) {
      forall i | 0 <= i < |PropertiesOf(spec, t)|
        ensures var u := Expressions(spec, Mapper, t, deep)[i]; Matches(code, u.expr, FieldOf(v, u.name))
      {
        FieldsMatch(spec, deep, code, t, i);
        var u := Expressions(spec, Mapper, t, deep)[i];
        MapperMatches(spec, deep, code, u.expr, FieldOf(v, u.name));
      }
      RecordMatches(spec, deep, code, t, v);
    }
  }
}
