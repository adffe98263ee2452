/** When a generated validator passes a value, and when it throws. */
module CfnVerdicts {
  import opened CfnSpec
  import opened CfnCode
  import opened CfnStructure
  import opened CfnGenerator
  import opened CfnRuntime
  import opened CfnMeaning
  import opened CfnAdmission

  // ---------------------------------------------------------------- what trips a validator

  /** A date is asked of a null or of what CloudFormation is to replace, the type does not exist,
      or some field trips. */
  ghost predicate TripsType(spec: Spec, deep: nat, resource: string, t: CodeName, v: Js, n: nat)
    requires AliasesEnd(spec, deep) && InlinesAtom(spec, resource, t, n)
    decreases Size(v), n, 0
  {
    PartsSmaller(v);
    if IsAlias(spec, t) then Trips(spec, deep, resource, AliasOf(spec, t), v, n - 1)
    else if IsBuiltIn(t) then t == Primitive("Date") && (v.Null? || IsIntrinsic(v))
    else
      || !HasFunctions(spec, t)
      || (CanInspect(v) && var ps := PropertiesOf(spec, t);
          exists i :: 0 <= i < |ps| && Trips(spec, deep, t.resource, ps[i], FieldOf(v, ps[i].name), deep))
  }

  /** One of the alternatives trips, and those before it neither trip nor take `v`. */
  ghost predicate TripsOneOf(spec: Spec, deep: nat, resource: string, ts: seq<CodeName>, v: Js, n: nat)
    requires AliasesEnd(spec, deep) && forall t :: t in ts ==> InlinesAtom(spec, resource, t, n)
    decreases Size(v), n, 1
  {
    exists i :: 0 <= i < |ts| && TripsType(spec, deep, resource, ts[i], v, n)
      && forall k :: 0 <= k < i ==>
           !TripsType(spec, deep, resource, ts[k], v, n) && !TakesType(spec, deep, resource, ts[k], v, n, false)
  }

  /** One of the elements trips, and those before it are taken without tripping. */
  ghost predicate TripsList(spec: Spec, deep: nat, resource: string, ts: seq<CodeName>, v: Js, n: nat)
    requires AliasesEnd(spec, deep) && forall t :: t in ts ==> InlinesAtom(spec, resource, t, n)
    decreases Size(v), n, 2
  {
    PartsSmaller(v);
    CanInspect(v) && IsListLike(v) && var xs := Items(v);
    exists i :: 0 <= i < |xs| && TripsOneOf(spec, deep, resource, ts, xs[i], n)
      && forall k :: 0 <= k < i ==>
           !TripsOneOf(spec, deep, resource, ts, xs[k], n) && TakesOneOf(spec, deep, resource, ts, xs[k], n, false)
  }

  ghost predicate TripsMap(spec: Spec, deep: nat, resource: string, ts: seq<CodeName>, lists: bool, v: Js, n: nat)
    requires AliasesEnd(spec, deep) && forall t :: t in ts ==> InlinesAtom(spec, resource, t, n)
    decreases Size(v), n, 3
  {
    PartsSmaller(v);
    CanInspect(v) && var xs := Elements(v);
    exists i :: 0 <= i < |xs|
      && (if lists then TripsList(spec, deep, resource, ts, xs[i], n)
          else TripsOneOf(spec, deep, resource, ts, xs[i], n))
      && forall k :: 0 <= k < i ==>
           if lists then
             !TripsList(spec, deep, resource, ts, xs[k], n) && TakesList(spec, deep, resource, ts, xs[k], n, false)
           else
             !TripsOneOf(spec, deep, resource, ts, xs[k], n) && TakesOneOf(spec, deep, resource, ts, xs[k], n, false)
  }

  /** The validator of the property throws at `v`. */
  ghost predicate Trips(spec: Spec, deep: nat, resource: string, p: Property, v: Js, n: nat)
    requires AliasesEnd(spec, deep) && WellShaped(p) && Inlines(spec, resource, p, n)
    decreases Size(v), n, 4
  {
    var scalars, items := ScalarTypes(resource, p), ItemTypes(resource, p);
    if items == [] then TripsOneOf(spec, deep, resource, scalars, v, n)
    else if scalars != [] then
      || TripsOneOf(spec, deep, resource, scalars, v, n)
      || (!TakesOneOf(spec, deep, resource, scalars, v, n, false) && TripsList(spec, deep, resource, items, v, n))
    else if p.IsMapOfListsOfPrimitives() then TripsMap(spec, deep, resource, [ListElement(items[0])], true, v, n)
    else if p.IsMap() then TripsMap(spec, deep, resource, items, false, v, n)
    else TripsList(spec, deep, resource, items, v, n)
  }

  lemma TripsIs(spec: Spec, deep: nat, resource: string, p: Property, v: Js, n: nat)
    requires AliasesEnd(spec, deep) && WellShaped(p) && Inlines(spec, resource, p, n)
    ensures var scalars, items, parts := ScalarTypes(resource, p), ItemTypes(resource, p), Parts(resource, p).0;
      && (forall t :: t in parts ==> InlinesAtom(spec, resource, t, n))
      && (forall t :: t in scalars ==> items == [] || t in parts)
      && (items != [] && scalars != [] ==> forall t :: t in items ==> t in parts)
      && (items == [] ==> parts == scalars)
      && Trips(spec, deep, resource, p, v, n) ==
         if items == [] then TripsOneOf(spec, deep, resource, scalars, v, n)
         else if scalars != [] then
           || TripsOneOf(spec, deep, resource, scalars, v, n)
           || (!TakesOneOf(spec, deep, resource, scalars, v, n, false) && TripsList(spec, deep, resource, items, v, n))
         else if p.IsMap() then TripsMap(spec, deep, resource, parts, p.IsMapOfListsOfPrimitives(), v, n)
         else TripsList(spec, deep, resource, parts, v, n)
  {
    PartsOf(resource, p);
    hide AliasesEnd, Parts, TakesOneOf, TripsOneOf, TripsList, TripsMap, InlinesAtom, ScalarTypes, ItemTypes,
         WellShaped, WellFormed;
  }

  // ---------------------------------------------------------------- verdicts explained

  /** The verdict is to throw exactly at what trips, and to pass exactly what is taken otherwise. */
  ghost predicate Explained(verdict: Verdict, takes: bool, trips: bool) {
    (verdict == Throws <==> trips) && (verdict == Pass <==> takes && !trips)
  }

  ghost predicate AllExplained(vs: seq<Verdict>, takes: seq<bool>, trips: seq<bool>) {
    |vs| == |takes| == |trips| && forall i :: 0 <= i < |vs| ==> Explained(vs[i], takes[i], trips[i])
  }

  ghost predicate Any(bs: seq<bool>) {
    exists i :: 0 <= i < |bs| && bs[i]
  }

  ghost predicate Every(bs: seq<bool>) {
    forall i :: 0 <= i < |bs| ==> bs[i]
  }

  /** Something trips, and before it there is nothing that trips, and all or nothing is taken. */
  ghost predicate TripsAfter(takes: seq<bool>, trips: seq<bool>, taken: bool)
    requires |takes| == |trips|
  {
    exists i :: 0 <= i < |trips| && FirstTrip(takes, trips, taken, i)
  }

  ghost predicate FirstTrip(takes: seq<bool>, trips: seq<bool>, taken: bool, i: nat)
    requires i < |trips| == |takes|
  {
    trips[i] && forall k :: 0 <= k < i ==> !trips[k] && takes[k] == taken
  }

  lemma {:induction false} FirstOtherAt(vs: seq<Verdict>, usual: Verdict) returns (i: nat)
    requires FirstOther(vs, usual) != usual
    ensures i < |vs| && vs[i] == FirstOther(vs, usual) && forall k :: 0 <= k < i ==> vs[k] == usual
  {
    if vs[0] != usual { return 0; }
    i := FirstOtherAt(vs[1..], usual);
    i := i + 1;
  }

  lemma EitherExplained(vs: seq<Verdict>, takes: seq<bool>, trips: seq<bool>)
    requires vs != [] && AllExplained(vs, takes, trips)
    ensures Explained(Either(vs), Any(takes), TripsAfter(takes, trips, false))
  {
    FirstOtherIs(vs, Fail);
    if FirstOther(vs, Fail) != Fail {
      var i := FirstOtherAt(vs, Fail);
      assert forall k :: 0 <= k < i ==> Explained(vs[k], takes[k], trips[k]);
      assert Explained(vs[i], takes[i], trips[i]);
      assert trips[i] ==> FirstTrip(takes, trips, false, i);
      if k :| 0 <= k < |trips| && FirstTrip(takes, trips, false, k) {
        assert Explained(vs[k], takes[k], trips[k]) && k >= i;
      }
    }
  }

  lemma InTurnExplained(vs: seq<Verdict>, takes: seq<bool>, trips: seq<bool>)
    requires AllExplained(vs, takes, trips)
    ensures Explained(InTurn(vs), Every(takes), TripsAfter(takes, trips, true))
  {
    FirstOtherIs(vs, Pass);
    if FirstOther(vs, Pass) != Pass {
      var i := FirstOtherAt(vs, Pass);
      assert forall k :: 0 <= k < i ==> Explained(vs[k], takes[k], trips[k]);
      assert Explained(vs[i], takes[i], trips[i]);
      assert trips[i] ==> FirstTrip(takes, trips, true, i);
      if k :| 0 <= k < |trips| && FirstTrip(takes, trips, true, k) {
        assert Explained(vs[k], takes[k], trips[k]) && k >= i;
      }
    }
  }

  lemma TogetherExplained(vs: seq<Verdict>, takes: seq<bool>, trips: seq<bool>)
    requires AllExplained(vs, takes, trips)
    ensures Explained(Together(vs), Every(takes), Any(trips))
  {
  }

  // ---------------------------------------------------------------- validators explained

  lemma TypeExplained(spec: Spec, deep: nat, resource: string, t: CodeName, v: Js, n: nat)
    requires AliasesEnd(spec, deep) && InlinesAtom(spec, resource, t, n)
    ensures Explained(JudgeType(spec, deep, resource, t, v, n), TakesType(spec, deep, resource, t, v, n, false),
                      TripsType(spec, deep, resource, t, v, n))
    decreases Size(v), n, 0
  {
    if IsAlias(spec, t) {
      PropertyExplained(spec, deep, resource, AliasOf(spec, t), v, n - 1);
    } else if !IsBuiltIn(t) && HasFunctions(spec, t) && CanInspect(v) {
      PartsSmaller(v);
      var ps := PropertiesOf(spec, t);
      forall i | 0 <= i < |ps| ensures FieldExplained(spec, deep, t, i, v) {
        assert WellShaped(ps[i]) && Inlines(spec, t.resource, ps[i], deep);
        PropertyExplained(spec, deep, t.resource, ps[i], FieldOf(v, ps[i].name), deep);
        FieldExplainedBy(spec, deep, t, i, v);
      }
      RecordExplained(spec, deep, resource, t, v, n);
    } else {
      OtherExplained(spec, deep, resource, t, v, n);
    }
  }

  /** Types without fields to look at. */
  lemma OtherExplained(spec: Spec, deep: nat, resource: string, t: CodeName, v: Js, n: nat)
    requires AliasesEnd(spec, deep) && InlinesAtom(spec, resource, t, n) && !IsAlias(spec, t)
    requires IsBuiltIn(t) || !HasFunctions(spec, t) || !CanInspect(v)
    ensures Explained(JudgeType(spec, deep, resource, t, v, n), TakesType(spec, deep, resource, t, v, n, false),
                      TripsType(spec, deep, resource, t, v, n))
  {
    hide AliasesEnd, JudgeProperty, TakesProperty, Trips;
  }

  ghost function FieldVerdict(spec: Spec, deep: nat, t: CodeName, i: nat, v: Js): Verdict
    requires AliasesEnd(spec, deep) && HasFunctions(spec, t) && i < |PropertiesOf(spec, t)|
  {
    var p := PropertiesOf(spec, t)[i];
    Together([PassIf(p.required ==> !IsMissing(FieldOf(v, p.name))),
              JudgeProperty(spec, deep, t.resource, p, FieldOf(v, p.name), deep)])
  }

  ghost predicate FieldTaken(spec: Spec, deep: nat, t: CodeName, i: nat, v: Js)
    requires AliasesEnd(spec, deep) && HasFunctions(spec, t) && i < |PropertiesOf(spec, t)|
  {
    var p := PropertiesOf(spec, t)[i];
    && (p.required ==> !IsMissing(FieldOf(v, p.name)))
    && TakesProperty(spec, deep, t.resource, p, FieldOf(v, p.name), deep, false)
  }

  ghost predicate FieldTrips(spec: Spec, deep: nat, t: CodeName, i: nat, v: Js)
    requires AliasesEnd(spec, deep) && HasFunctions(spec, t) && i < |PropertiesOf(spec, t)|
  {
    var p := PropertiesOf(spec, t)[i];
    Trips(spec, deep, t.resource, p, FieldOf(v, p.name), deep)
  }

  ghost predicate FieldExplained(spec: Spec, deep: nat, t: CodeName, i: nat, v: Js)
    requires AliasesEnd(spec, deep) && HasFunctions(spec, t) && i < |PropertiesOf(spec, t)|
  {
    Explained(FieldVerdict(spec, deep, t, i, v), FieldTaken(spec, deep, t, i, v), FieldTrips(spec, deep, t, i, v))
  }

  lemma FieldExplainedBy(spec: Spec, deep: nat, t: CodeName, i: nat, v: Js)
    requires AliasesEnd(spec, deep) && HasFunctions(spec, t) && i < |PropertiesOf(spec, t)|
    requires var p := PropertiesOf(spec, t)[i];
             assert p in PropertiesOf(spec, t);
             PropertyIsExplained(spec, deep, t.resource, p, FieldOf(v, p.name), deep)
    ensures FieldExplained(spec, deep, t, i, v)
  {
    var p := PropertiesOf(spec, t)[i];
    assert p in PropertiesOf(spec, t) && WellShaped(p) && Inlines(spec, t.resource, p, deep);
    hide AliasesEnd, TakesProperty, JudgeProperty, Trips, FieldOf;
    var b := p.required ==> !IsMissing(FieldOf(v, p.name));
    var vs := [PassIf(b), JudgeProperty(spec, deep, t.resource, p, FieldOf(v, p.name), deep)];
    assert vs[0] == PassIf(b);
  }

  lemma RecordExplained(spec: Spec, deep: nat, resource: string, t: CodeName, v: Js, n: nat)
    requires AliasesEnd(spec, deep) && InlinesAtom(spec, resource, t, n) && !IsAlias(spec, t) && !IsBuiltIn(t)
    requires HasFunctions(spec, t) && CanInspect(v)
    requires forall i :: 0 <= i < |PropertiesOf(spec, t)| ==> FieldExplained(spec, deep, t, i, v)
    ensures Explained(JudgeType(spec, deep, resource, t, v, n), TakesType(spec, deep, resource, t, v, n, false),
                      TripsType(spec, deep, resource, t, v, n))
  {
    hide AliasesEnd, InlinesAtom, IsAlias, IsBuiltIn, HasFunctions, PropertiesOf, CanInspect, JudgeType, TakesType,
         TripsType, FieldVerdict, FieldTaken, FieldTrips, Explained, Every, Any, Together;
    var size := |PropertiesOf(spec, t)|;
    var vs := seq(size, i requires 0 <= i < size => FieldVerdict(spec, deep, t, i, v));
    var takes := seq(size, i requires 0 <= i < size => FieldTaken(spec, deep, t, i, v));
    var trips := seq(size, i requires 0 <= i < size => FieldTrips(spec, deep, t, i, v));
    forall i | 0 <= i < size ensures Explained(vs[i], takes[i], trips[i]) {
      assert FieldExplained(spec, deep, t, i, v);
    }
    TakesRecord(spec, deep, resource, t, v, n, takes);
    TripsRecord(spec, deep, resource, t, v, n, trips);
    JudgedRecord(spec, deep, resource, t, v, n, vs);
    Joined(vs, takes, trips, IsObjectType(v));
  }

  lemma Joined(vs: seq<Verdict>, takes: seq<bool>, trips: seq<bool>, b: bool)
    requires AllExplained(vs, takes, trips)
    ensures Explained(Together([PassIf(b)] + vs), b && Every(takes), Any(trips))
  {
    BehindOne(vs, takes, trips, b);
    EveryBehind(takes, b);
    AnyBehind(trips);
    hide Together, Every, Any, AllExplained, Explained;
    TogetherExplained([PassIf(b)] + vs, [b] + takes, [false] + trips);
  }

  lemma BehindOne(vs: seq<Verdict>, takes: seq<bool>, trips: seq<bool>, b: bool)
    requires AllExplained(vs, takes, trips)
    ensures AllExplained([PassIf(b)] + vs, [b] + takes, [false] + trips)
  {
    hide Explained;
    assert Explained(PassIf(b), b, false) by { ExplainedOne(b); }
  }

  lemma ExplainedOne(b: bool)
    ensures Explained(PassIf(b), b, false)
  {
  }

  lemma EveryBehind(takes: seq<bool>, b: bool)
    ensures Every([b] + takes) <==> b && Every(takes)
  {
    assert ([b] + takes)[0] == b && forall i :: 0 <= i < |takes| ==> ([b] + takes)[i + 1] == takes[i];
  }

  lemma AnyBehind(trips: seq<bool>)
    ensures Any([false] + trips) <==> Any(trips)
  {
    assert !([false] + trips)[0] && forall i :: 0 <= i < |trips| ==> ([false] + trips)[i + 1] == trips[i];
  }

  lemma JudgedRecord(spec: Spec, deep: nat, resource: string, t: CodeName, v: Js, n: nat, vs: seq<Verdict>)
    requires AliasesEnd(spec, deep) && InlinesAtom(spec, resource, t, n) && !IsAlias(spec, t) && !IsBuiltIn(t)
    requires HasFunctions(spec, t) && CanInspect(v) && |vs| == |PropertiesOf(spec, t)|
    requires forall i :: 0 <= i < |vs| ==> vs[i] == FieldVerdict(spec, deep, t, i, v)
    ensures JudgeType(spec, deep, resource, t, v, n) == Together([PassIf(IsObjectType(v))] + vs)
  {
    hide JudgeProperty, FieldOf, Together;
    var ps := PropertiesOf(spec, t);
    var judged := seq(|ps|, i requires 0 <= i < |ps| =>
      Together([PassIf(ps[i].required ==> !IsMissing(FieldOf(v, ps[i].name))),
                JudgeProperty(spec, deep, t.resource, ps[i], FieldOf(v, ps[i].name), deep)]));
    assert judged == vs;
  }

  lemma TakesRecord(spec: Spec, deep: nat, resource: string, t: CodeName, v: Js, n: nat, takes: seq<bool>)
    requires AliasesEnd(spec, deep) && InlinesAtom(spec, resource, t, n) && !IsAlias(spec, t) && !IsBuiltIn(t)
    requires HasFunctions(spec, t) && CanInspect(v) && |takes| == |PropertiesOf(spec, t)|
    requires forall i :: 0 <= i < |takes| ==> takes[i] == FieldTaken(spec, deep, t, i, v)
    ensures TakesType(spec, deep, resource, t, v, n, false) <==> IsObjectType(v) && Every(takes)
  {
    assert !TakesBuiltIn(t, v);
    hide TakesProperty, AliasesEnd, FieldOf, TakesBuiltIn, IsObjectType;
    var ps := PropertiesOf(spec, t);
    assert TakesType(spec, deep, resource, t, v, n, false) <==>
           (IsObjectType(v) && forall i :: 0 <= i < |ps| ==>
             (ps[i].required ==> !IsMissing(FieldOf(v, ps[i].name)))
             && TakesProperty(spec, deep, t.resource, ps[i], FieldOf(v, ps[i].name), deep, false));
    forall i | 0 <= i < |ps|
      ensures takes[i] <==> (ps[i].required ==> !IsMissing(FieldOf(v, ps[i].name)))
                            && TakesProperty(spec, deep, t.resource, ps[i], FieldOf(v, ps[i].name), deep, false)
    {
      assert takes[i] == FieldTaken(spec, deep, t, i, v);
    }
  }

  lemma TripsRecord(spec: Spec, deep: nat, resource: string, t: CodeName, v: Js, n: nat, trips: seq<bool>)
    requires AliasesEnd(spec, deep) && InlinesAtom(spec, resource, t, n) && !IsAlias(spec, t) && !IsBuiltIn(t)
    requires HasFunctions(spec, t) && CanInspect(v) && |trips| == |PropertiesOf(spec, t)|
    requires forall i :: 0 <= i < |trips| ==> trips[i] == FieldTrips(spec, deep, t, i, v)
    ensures TripsType(spec, deep, resource, t, v, n) <==> Any(trips)
  {
    var ps := PropertiesOf(spec, t);
    forall i | 0 <= i < |ps|
      ensures WellShaped(ps[i]) && Inlines(spec, t.resource, ps[i], deep)
      ensures trips[i] == Trips(spec, deep, t.resource, ps[i], FieldOf(v, ps[i].name), deep)
    {
      assert ps[i] in ps;
      hide Trips, Inlines, WellShaped, FieldOf;
      assert trips[i] == FieldTrips(spec, deep, t, i, v);
    }
    hide Trips, AliasesEnd, FieldOf;
  }

  lemma TakesAny(spec: Spec, deep: nat, resource: string, ts: seq<CodeName>, v: Js, n: nat, takes: seq<bool>)
    requires AliasesEnd(spec, deep) && (forall t :: t in ts ==> InlinesAtom(spec, resource, t, n))
    requires |takes| == |ts|
    requires forall i :: 0 <= i < |ts| ==> takes[i] == TakesType(spec, deep, resource, ts[i], v, n, false)
    ensures TakesOneOf(spec, deep, resource, ts, v, n, false) <==> Any(takes)
  {
    hide TakesType, AliasesEnd, InlinesAtom;
    if TakesOneOf(spec, deep, resource, ts, v, n, false) {
      var i :| 0 <= i < |ts| && TakesType(spec, deep, resource, ts[i], v, n, false);
      assert takes[i];
    }
  }

  lemma TripsAny(spec: Spec, deep: nat, resource: string, ts: seq<CodeName>, v: Js, n: nat, takes: seq<bool>,
                 trips: seq<bool>)
    requires AliasesEnd(spec, deep) && (forall t :: t in ts ==> InlinesAtom(spec, resource, t, n))
    requires |takes| == |trips| == |ts|
    requires forall i :: 0 <= i < |ts| ==> takes[i] == TakesType(spec, deep, resource, ts[i], v, n, false)
    requires forall i :: 0 <= i < |ts| ==> trips[i] == TripsType(spec, deep, resource, ts[i], v, n)
    ensures TripsOneOf(spec, deep, resource, ts, v, n) <==> TripsAfter(takes, trips, false)
  {
    hide TakesType, TripsType, AliasesEnd, InlinesAtom;
    if TripsOneOf(spec, deep, resource, ts, v, n) {
      var i :| 0 <= i < |ts| && TripsType(spec, deep, resource, ts[i], v, n) && forall k :: 0 <= k < i ==>
        !TripsType(spec, deep, resource, ts[k], v, n) && !TakesType(spec, deep, resource, ts[k], v, n, false);
      assert FirstTrip(takes, trips, false, i);
    }
  }

  lemma TakesEvery(spec: Spec, deep: nat, resource: string, ts: seq<CodeName>, v: Js, n: nat, takes: seq<bool>)
    requires AliasesEnd(spec, deep) && (forall t :: t in ts ==> InlinesAtom(spec, resource, t, n))
    requires CanInspect(v) && IsListLike(v) && |takes| == |Items(v)|
    requires forall i :: 0 <= i < |takes| ==> takes[i] == TakesOneOf(spec, deep, resource, ts, Items(v)[i], n, false)
    ensures TakesList(spec, deep, resource, ts, v, n, false) <==> Every(takes)
  {
    hide TakesOneOf, AliasesEnd, InlinesAtom, Items;
    var xs := Items(v);
    assert Every(takes) <==> forall i :: 0 <= i < |xs| ==> TakesOneOf(spec, deep, resource, ts, xs[i], n, false) by {
      if Every(takes) {
        forall i | 0 <= i < |xs| ensures TakesOneOf(spec, deep, resource, ts, xs[i], n, false) { assert takes[i]; }
      }
    }
  }

  lemma TripsSomeItem(spec: Spec, deep: nat, resource: string, ts: seq<CodeName>, v: Js, n: nat, takes: seq<bool>,
                      trips: seq<bool>)
    requires AliasesEnd(spec, deep) && (forall t :: t in ts ==> InlinesAtom(spec, resource, t, n))
    requires CanInspect(v) && IsListLike(v) && |takes| == |trips| == |Items(v)|
    requires forall i :: 0 <= i < |takes| ==> takes[i] == TakesOneOf(spec, deep, resource, ts, Items(v)[i], n, false)
    requires forall i :: 0 <= i < |takes| ==> trips[i] == TripsOneOf(spec, deep, resource, ts, Items(v)[i], n)
    ensures TripsList(spec, deep, resource, ts, v, n) <==> TripsAfter(takes, trips, true)
  {
    hide TakesOneOf, TripsOneOf, AliasesEnd, InlinesAtom, Items;
    var xs := Items(v);
    if TripsList(spec, deep, resource, ts, v, n) {
      var i :| 0 <= i < |xs| && TripsOneOf(spec, deep, resource, ts, xs[i], n) && forall k :: 0 <= k < i ==>
        !TripsOneOf(spec, deep, resource, ts, xs[k], n) && TakesOneOf(spec, deep, resource, ts, xs[k], n, false);
      assert FirstTrip(takes, trips, true, i);
    }
  }

  ghost predicate ElementTaken(spec: Spec, deep: nat, resource: string, ts: seq<CodeName>, lists: bool, x: Js, n: nat)
    requires AliasesEnd(spec, deep) && forall t :: t in ts ==> InlinesAtom(spec, resource, t, n)
  {
    if lists then TakesList(spec, deep, resource, ts, x, n, false)
    else TakesOneOf(spec, deep, resource, ts, x, n, false)
  }

  ghost predicate ElementTrips(spec: Spec, deep: nat, resource: string, ts: seq<CodeName>, lists: bool, x: Js, n: nat)
    requires AliasesEnd(spec, deep) && forall t :: t in ts ==> InlinesAtom(spec, resource, t, n)
  {
    if lists then TripsList(spec, deep, resource, ts, x, n) else TripsOneOf(spec, deep, resource, ts, x, n)
  }

  lemma TakesEveryEntry(spec: Spec, deep: nat, resource: string, ts: seq<CodeName>, lists: bool, v: Js, n: nat,
                        takes: seq<bool>)
    requires AliasesEnd(spec, deep) && (forall t :: t in ts ==> InlinesAtom(spec, resource, t, n))
    requires CanInspect(v) && |takes| == |Elements(v)|
    requires forall i :: 0 <= i < |takes| ==>
               takes[i] == ElementTaken(spec, deep, resource, ts, lists, Elements(v)[i], n)
    ensures TakesMap(spec, deep, resource, ts, lists, v, n, false) <==> Every(takes)
  {
    MapTaken(spec, deep, resource, ts, lists, v, n);
    hide ElementTaken, TakesMap, AliasesEnd, InlinesAtom, Elements;
    if Every(takes) {
      forall i | 0 <= i < |takes| ensures ElementTaken(spec, deep, resource, ts, lists, Elements(v)[i], n) {
        assert takes[i];
      }
    }
  }

  lemma TripsSomeEntry(spec: Spec, deep: nat, resource: string, ts: seq<CodeName>, lists: bool, v: Js, n: nat,
                       takes: seq<bool>, trips: seq<bool>)
    requires AliasesEnd(spec, deep) && (forall t :: t in ts ==> InlinesAtom(spec, resource, t, n))
    requires CanInspect(v) && |takes| == |trips| == |Elements(v)|
    requires forall i :: 0 <= i < |takes| ==>
               takes[i] == ElementTaken(spec, deep, resource, ts, lists, Elements(v)[i], n)
    requires forall i :: 0 <= i < |takes| ==>
               trips[i] == ElementTrips(spec, deep, resource, ts, lists, Elements(v)[i], n)
    ensures TripsMap(spec, deep, resource, ts, lists, v, n) <==> TripsAfter(takes, trips, true)
  {
    var xs := Elements(v);
    MapTrips(spec, deep, resource, ts, lists, v, n);
    hide TripsMap, AliasesEnd, InlinesAtom, Elements;
    forall i | 0 <= i < |xs|
      ensures TripsAt(spec, deep, resource, ts, lists, xs, i, n) <==> FirstTrip(takes, trips, true, i)
    {
      hide ElementTrips, ElementTaken;
    }
    hide TripsAt, FirstTrip;
  }

  ghost predicate TripsAt(spec: Spec, deep: nat, resource: string, ts: seq<CodeName>, lists: bool, xs: seq<Js>, i: nat,
                          n: nat)
    requires AliasesEnd(spec, deep) && (forall t :: t in ts ==> InlinesAtom(spec, resource, t, n)) && i < |xs|
  {
    && ElementTrips(spec, deep, resource, ts, lists, xs[i], n)
    && forall k :: 0 <= k < i ==>
         && !ElementTrips(spec, deep, resource, ts, lists, xs[k], n)
         && ElementTaken(spec, deep, resource, ts, lists, xs[k], n)
  }

  lemma MapTaken(spec: Spec, deep: nat, resource: string, ts: seq<CodeName>, lists: bool, v: Js, n: nat)
    requires AliasesEnd(spec, deep) && (forall t :: t in ts ==> InlinesAtom(spec, resource, t, n)) && CanInspect(v)
    ensures TakesMap(spec, deep, resource, ts, lists, v, n, false) <==>
            forall i :: 0 <= i < |Elements(v)| ==> ElementTaken(spec, deep, resource, ts, lists, Elements(v)[i], n)
  {
    hide TakesOneOf, TakesList, AliasesEnd, InlinesAtom, Elements;
  }

  lemma MapTrips(spec: Spec, deep: nat, resource: string, ts: seq<CodeName>, lists: bool, v: Js, n: nat)
    requires AliasesEnd(spec, deep) && (forall t :: t in ts ==> InlinesAtom(spec, resource, t, n)) && CanInspect(v)
    ensures TripsMap(spec, deep, resource, ts, lists, v, n) <==>
            exists i :: 0 <= i < |Elements(v)| && TripsAt(spec, deep, resource, ts, lists, Elements(v), i, n)
  {
    hide TakesOneOf, TakesList, TripsOneOf, TripsList, AliasesEnd, InlinesAtom, Elements;
    var xs := Elements(v);
    if TripsMap(spec, deep, resource, ts, lists, v, n) {
      var i :| 0 <= i < |xs|
        && (if lists then TripsList(spec, deep, resource, ts, xs[i], n)
            else TripsOneOf(spec, deep, resource, ts, xs[i], n))
        && forall k :: 0 <= k < i ==>
             if lists then
               !TripsList(spec, deep, resource, ts, xs[k], n) && TakesList(spec, deep, resource, ts, xs[k], n, false)
             else
               !TripsOneOf(spec, deep, resource, ts, xs[k], n) && TakesOneOf(spec, deep, resource, ts, xs[k], n, false);
      assert TripsAt(spec, deep, resource, ts, lists, xs, i, n);
    }
    if i :| 0 <= i < |xs| && TripsAt(spec, deep, resource, ts, lists, xs, i, n) {
      assert if lists then TripsList(spec, deep, resource, ts, xs[i], n)
             else TripsOneOf(spec, deep, resource, ts, xs[i], n);
    }
  }

  lemma JudgedEntries(spec: Spec, deep: nat, resource: string, ts: seq<CodeName>, lists: bool, v: Js, n: nat,
                      vs: seq<Verdict>)
    requires AliasesEnd(spec, deep) && (forall t :: t in ts ==> InlinesAtom(spec, resource, t, n))
    requires CanInspect(v) && |vs| == |Elements(v)|
    requires forall i :: 0 <= i < |vs| ==>
               vs[i] == if lists then JudgeList(spec, deep, resource, ts, Elements(v)[i], n)
                        else JudgeOneOf(spec, deep, resource, ts, Elements(v)[i], n)
    ensures JudgeMap(spec, deep, resource, ts, lists, v, n) == InTurn(vs)
  {
    hide JudgeOneOf, JudgeList, AliasesEnd, InlinesAtom, Elements, InTurn;
    var judged := seq(|Elements(v)|, i requires 0 <= i < |Elements(v)| =>
      if lists then JudgeList(spec, deep, resource, ts, Elements(v)[i], n)
      else JudgeOneOf(spec, deep, resource, ts, Elements(v)[i], n));
    assert judged == vs;
  }

  ghost predicate OneOfIsExplained(spec: Spec, deep: nat, resource: string, ts: seq<CodeName>, v: Js, n: nat)
    requires AliasesEnd(spec, deep) && forall t :: t in ts ==> InlinesAtom(spec, resource, t, n)
  {
    Explained(JudgeOneOf(spec, deep, resource, ts, v, n), TakesOneOf(spec, deep, resource, ts, v, n, false),
              TripsOneOf(spec, deep, resource, ts, v, n))
  }

  ghost predicate ListIsExplained(spec: Spec, deep: nat, resource: string, ts: seq<CodeName>, v: Js, n: nat)
    requires AliasesEnd(spec, deep) && forall t :: t in ts ==> InlinesAtom(spec, resource, t, n)
  {
    Explained(JudgeList(spec, deep, resource, ts, v, n), TakesList(spec, deep, resource, ts, v, n, false),
              TripsList(spec, deep, resource, ts, v, n))
  }

  ghost predicate PropertyIsExplained(spec: Spec, deep: nat, resource: string, p: Property, v: Js, n: nat)
    requires AliasesEnd(spec, deep) && WellShaped(p) && Inlines(spec, resource, p, n)
  {
    Explained(JudgeProperty(spec, deep, resource, p, v, n), Fits(spec, deep, resource, p, v, n),
              Trips(spec, deep, resource, p, v, n))
  }

  lemma OneOfExplained(spec: Spec, deep: nat, resource: string, ts: seq<CodeName>, v: Js, n: nat)
    requires AliasesEnd(spec, deep) && ts != [] && forall t :: t in ts ==> InlinesAtom(spec, resource, t, n)
    ensures OneOfIsExplained(spec, deep, resource, ts, v, n)
    decreases Size(v), n, 1
  {
    forall i | 0 <= i < |ts|
      ensures Explained(JudgeType(spec, deep, resource, ts[i], v, n),
                        TakesType(spec, deep, resource, ts[i], v, n, false),
                        TripsType(spec, deep, resource, ts[i], v, n))
    {
      TypeExplained(spec, deep, resource, ts[i], v, n);
    }
    hide AliasesEnd, JudgeType, TakesType, TripsType, TakesOneOf, TripsOneOf, InlinesAtom, Explained;
    var vs := seq(|ts|, i requires 0 <= i < |ts| => JudgeType(spec, deep, resource, ts[i], v, n));
    var takes := seq(|ts|, i requires 0 <= i < |ts| => TakesType(spec, deep, resource, ts[i], v, n, false));
    var trips := seq(|ts|, i requires 0 <= i < |ts| => TripsType(spec, deep, resource, ts[i], v, n));
    TakesAny(spec, deep, resource, ts, v, n, takes);
    TripsAny(spec, deep, resource, ts, v, n, takes, trips);
    EitherExplained(vs, takes, trips);
  }

  lemma ListExplained(spec: Spec, deep: nat, resource: string, ts: seq<CodeName>, v: Js, n: nat)
    requires AliasesEnd(spec, deep) && ts != [] && forall t :: t in ts ==> InlinesAtom(spec, resource, t, n)
    ensures ListIsExplained(spec, deep, resource, ts, v, n)
    decreases Size(v), n, 2
  {
    PartsSmaller(v);
    if CanInspect(v) && IsListLike(v) {
      var xs := Items(v);
      forall i | 0 <= i < |xs| ensures OneOfIsExplained(spec, deep, resource, ts, xs[i], n) {
        OneOfExplained(spec, deep, resource, ts, xs[i], n);
      }
      hide *;
      ItemsExplained(spec, deep, resource, ts, v, n);
    }
  }

  lemma ItemsExplained(spec: Spec, deep: nat, resource: string, ts: seq<CodeName>, v: Js, n: nat)
    requires AliasesEnd(spec, deep) && ts != [] && forall t :: t in ts ==> InlinesAtom(spec, resource, t, n)
    requires CanInspect(v) && IsListLike(v)
    requires forall i :: 0 <= i < |Items(v)| ==> OneOfIsExplained(spec, deep, resource, ts, Items(v)[i], n)
    ensures ListIsExplained(spec, deep, resource, ts, v, n)
  {
    JudgedItems(spec, deep, resource, ts, v, n);
    var xs := Items(v);
    hide AliasesEnd, JudgeOneOf, TakesOneOf, TripsOneOf, TakesList, JudgeList, TripsList,
         InlinesAtom, Explained, Items, InTurn;
    var vs := seq(|xs|, i requires 0 <= i < |xs| => JudgeOneOf(spec, deep, resource, ts, xs[i], n));
    var takes := seq(|xs|, i requires 0 <= i < |xs| => TakesOneOf(spec, deep, resource, ts, xs[i], n, false));
    var trips := seq(|xs|, i requires 0 <= i < |xs| => TripsOneOf(spec, deep, resource, ts, xs[i], n));
    forall i | 0 <= i < |xs| ensures Explained(vs[i], takes[i], trips[i]) {
      assert OneOfIsExplained(spec, deep, resource, ts, xs[i], n);
    }
    TakesEvery(spec, deep, resource, ts, v, n, takes);
    TripsSomeItem(spec, deep, resource, ts, v, n, takes, trips);
    InTurnExplained(vs, takes, trips);
    assert vs == seq(|Items(v)|, i requires 0 <= i < |Items(v)| =>
      JudgeOneOf(spec, deep, resource, ts, Items(v)[i], n));
      }

  lemma JudgedItems(spec: Spec, deep: nat, resource: string, ts: seq<CodeName>, v: Js, n: nat)
    requires AliasesEnd(spec, deep) && ts != [] && forall t :: t in ts ==> InlinesAtom(spec, resource, t, n)
    requires CanInspect(v) && IsListLike(v)
    ensures JudgeList(spec, deep, resource, ts, v, n)
            == InTurn(seq(|Items(v)|, i requires 0 <= i < |Items(v)| =>
                 JudgeOneOf(spec, deep, resource, ts, Items(v)[i], n)))
  {
    hide AliasesEnd, JudgeOneOf, InlinesAtom, Items, InTurn;
  }

  ghost predicate ElementExplained(spec: Spec, deep: nat, resource: string, ts: seq<CodeName>, lists: bool, x: Js,
                                   n: nat)
    requires AliasesEnd(spec, deep) && forall t :: t in ts ==> InlinesAtom(spec, resource, t, n)
  {
    if lists then ListIsExplained(spec, deep, resource, ts, x, n) else OneOfIsExplained(spec, deep, resource, ts, x, n)
  }

  lemma MapExplained(spec: Spec, deep: nat, resource: string, ts: seq<CodeName>, lists: bool, v: Js, n: nat)
    requires AliasesEnd(spec, deep) && ts != [] && forall t :: t in ts ==> InlinesAtom(spec, resource, t, n)
    ensures Explained(JudgeMap(spec, deep, resource, ts, lists, v, n),
                      TakesMap(spec, deep, resource, ts, lists, v, n, false),
                      TripsMap(spec, deep, resource, ts, lists, v, n))
    decreases Size(v), n, 3
  {
    PartsSmaller(v);
    if CanInspect(v) {
      var xs := Elements(v);
      forall i | 0 <= i < |xs| ensures ElementExplained(spec, deep, resource, ts, lists, xs[i], n) {
        if lists { ListExplained(spec, deep, resource, ts, xs[i], n); }
        else { OneOfExplained(spec, deep, resource, ts, xs[i], n); }
      }
      hide *;
      EntriesExplained(spec, deep, resource, ts, lists, v, n);
    }
  }

  lemma EntriesExplained(spec: Spec, deep: nat, resource: string, ts: seq<CodeName>, lists: bool, v: Js, n: nat)
    requires AliasesEnd(spec, deep) && ts != [] && forall t :: t in ts ==> InlinesAtom(spec, resource, t, n)
    requires CanInspect(v)
    requires forall i :: 0 <= i < |Elements(v)| ==>
               ElementExplained(spec, deep, resource, ts, lists, Elements(v)[i], n)
    ensures Explained(JudgeMap(spec, deep, resource, ts, lists, v, n),
                      TakesMap(spec, deep, resource, ts, lists, v, n, false),
                      TripsMap(spec, deep, resource, ts, lists, v, n))
  {
    hide AliasesEnd, JudgeOneOf, TakesOneOf, TripsOneOf, JudgeList, TakesList, TripsList, JudgeMap, TakesMap, TripsMap,
         InlinesAtom, Elements, Explained;
    var xs := Elements(v);
    var vs := seq(|xs|, i requires 0 <= i < |xs| =>
      if lists then JudgeList(spec, deep, resource, ts, xs[i], n) else JudgeOneOf(spec, deep, resource, ts, xs[i], n));
    var takes := seq(|xs|, i requires 0 <= i < |xs| => ElementTaken(spec, deep, resource, ts, lists, xs[i], n));
    var trips := seq(|xs|, i requires 0 <= i < |xs| => ElementTrips(spec, deep, resource, ts, lists, xs[i], n));
    forall i | 0 <= i < |xs| ensures Explained(vs[i], takes[i], trips[i]) {
      assert ElementExplained(spec, deep, resource, ts, lists, xs[i], n);
    }
    hide ElementTaken, ElementTrips;
    TakesEveryEntry(spec, deep, resource, ts, lists, v, n, takes);
    TripsSomeEntry(spec, deep, resource, ts, lists, v, n, takes, trips);
    JudgedEntries(spec, deep, resource, ts, lists, v, n, vs);
    InTurnExplained(vs, takes, trips);
  }

  lemma PropertyExplained(spec: Spec, deep: nat, resource: string, p: Property, v: Js, n: nat)
    requires AliasesEnd(spec, deep) && WellShaped(p) && Inlines(spec, resource, p, n)
    ensures PropertyIsExplained(spec, deep, resource, p, v, n)
    decreases Size(v), n, 4
  {
    JudgeIs(spec, deep, resource, p, v, n);
    TakesIs(spec, deep, resource, p, v, n, false);
    TripsIs(spec, deep, resource, p, v, n);
    PartsOf(resource, p);
    var scalars, items, parts := ScalarTypes(resource, p), ItemTypes(resource, p), Parts(resource, p).0;
    if items == [] || scalars != [] { OneOfExplained(spec, deep, resource, scalars, v, n); }
    if items != [] && scalars != [] { ListExplained(spec, deep, resource, items, v, n); }
    if items != [] && scalars == [] && p.IsMap() {
      MapExplained(spec, deep, resource, parts, p.IsMapOfListsOfPrimitives(), v, n);
    }
    if items != [] && scalars == [] && !p.IsMap() { ListExplained(spec, deep, resource, parts, v, n); }
    hide JudgeProperty, TakesProperty, Trips, JudgeOneOf, TakesOneOf, TripsOneOf, JudgeList, TakesList, TripsList,
         JudgeMap, TakesMap, TripsMap, AliasesEnd, Parts, ScalarTypes, ItemTypes, WellShaped, Inlines, Explained,
         Either;
    if items != [] && scalars != [] {
      EitherOfTwo(JudgeOneOf(spec, deep, resource, scalars, v, n), JudgeList(spec, deep, resource, items, v, n),
                  TakesOneOf(spec, deep, resource, scalars, v, n, false),
                  TakesList(spec, deep, resource, items, v, n, false),
                  TripsOneOf(spec, deep, resource, scalars, v, n), TripsList(spec, deep, resource, items, v, n));
    }
  }

  lemma EitherOfTwo(a: Verdict, b: Verdict, s: bool, t: bool, x: bool, y: bool)
    requires Explained(a, s, x) && Explained(b, t, y)
    ensures Explained(Either([a, b]), s || t, x || (!s && y))
  {
    assert [a, b][1..] == [b];
    EitherOne(b);
    assert FirstOther([a, b], Fail) == if a != Fail then a else FirstOther([b], Fail);
  }

  // ---------------------------------------------------------------- values that trip nothing

  /** There is no null in `v` and nothing that CloudFormation is to replace. */
  ghost predicate Calm(v: Js) {
    match v
    case Null => false
    case Object(entries) => !IsIntrinsic(v) && forall i :: 0 <= i < |entries| ==> Calm(entries[i].value)
    case List(items) => forall i :: 0 <= i < |items| ==> Calm(items[i])
    case _ => true
  }

  lemma CalmParts(v: Js)
    requires Calm(v)
    ensures forall name :: Calm(FieldOf(v, name))
    ensures forall i :: 0 <= i < |Elements(v)| ==> Calm(Elements(v)[i])
    ensures forall i :: 0 <= i < |Items(v)| ==> Calm(Items(v)[i])
  {
    forall name ensures Calm(FieldOf(v, name)) {
      if v.Object? { CalmFind(v.entries, name); }
    }
  }

  lemma {:induction false} CalmFind(entries: seq<Entry>, key: string)
    requires forall i :: 0 <= i < |entries| ==> Calm(entries[i].value)
    ensures Calm(Find(entries, key))
  {
    if entries != [] {
      assert forall i :: 0 <= i < |entries[1..]| ==> entries[1..][i] == entries[i + 1];
      CalmFind(entries[1..], key);
    }
  }

  ghost predicate NoneThrows(vs: seq<Verdict>) {
    forall i :: 0 <= i < |vs| ==> vs[i] != Throws
  }

  lemma CalmVerdicts(vs: seq<Verdict>)
    requires NoneThrows(vs)
    ensures Either(vs) != Throws && InTurn(vs) != Throws && Together(vs) != Throws
  {
    FirstOtherIs(vs, Fail);
    FirstOtherIs(vs, Pass);
  }

  lemma TypeCalm(spec: Spec, deep: nat, resource: string, t: CodeName, v: Js, n: nat)
    requires AliasesEnd(spec, deep) && SoundSpec(spec, deep) && InlinesAtom(spec, resource, t, n)
    requires SoundAtom(spec, resource, t, n) && Calm(v)
    ensures JudgeType(spec, deep, resource, t, v, n) != Throws
    decreases Size(v), n, 0
  {
    if IsAlias(spec, t) {
      CalmNeverThrows(spec, deep, resource, AliasOf(spec, t), v, n - 1);
    } else if !IsBuiltIn(t) && CanInspect(v) {
      PartsSmaller(v);
      CalmParts(v);
      var ps := PropertiesOf(spec, t);
      forall i | 0 <= i < |ps| ensures FieldVerdict(spec, deep, t, i, v) != Throws {
        FieldSound(spec, deep, t, i);
        CalmNeverThrows(spec, deep, t.resource, ps[i], FieldOf(v, ps[i].name), deep);
        FieldCalm(spec, deep, t, i, v);
      }
      RecordCalm(spec, deep, resource, t, v, n);
    }
  }

  lemma FieldSound(spec: Spec, deep: nat, t: CodeName, i: nat)
    requires AliasesEnd(spec, deep) && SoundSpec(spec, deep) && HasFunctions(spec, t) && i < |PropertiesOf(spec, t)|
    ensures var p := PropertiesOf(spec, t)[i]; Inlines(spec, t.resource, p, deep) && Sound(spec, t.resource, p, deep)
  {
    assert PropertiesOf(spec, t)[i] in PropertiesOf(spec, t);
    hide Sound;
  }

  lemma FieldCalm(spec: Spec, deep: nat, t: CodeName, i: nat, v: Js)
    requires AliasesEnd(spec, deep) && HasFunctions(spec, t) && i < |PropertiesOf(spec, t)|
    requires var p := PropertiesOf(spec, t)[i];
             JudgeProperty(spec, deep, t.resource, p, FieldOf(v, p.name), deep) != Throws
    ensures FieldVerdict(spec, deep, t, i, v) != Throws
  {
    hide AliasesEnd, JudgeProperty;
  }

  lemma RecordCalm(spec: Spec, deep: nat, resource: string, t: CodeName, v: Js, n: nat)
    requires AliasesEnd(spec, deep) && InlinesAtom(spec, resource, t, n) && !IsAlias(spec, t) && !IsBuiltIn(t)
    requires HasFunctions(spec, t) && CanInspect(v)
    requires forall i :: 0 <= i < |PropertiesOf(spec, t)| ==> FieldVerdict(spec, deep, t, i, v) != Throws
    ensures JudgeType(spec, deep, resource, t, v, n) != Throws
  {
    hide AliasesEnd, FieldVerdict, Together, JudgeType, HasFunctions, PropertiesOf;
    var size := |PropertiesOf(spec, t)|;
    var vs := seq(size, i requires 0 <= i < size => FieldVerdict(spec, deep, t, i, v));
    JudgedRecord(spec, deep, resource, t, v, n, vs);
    assert NoneThrows([PassIf(IsObjectType(v))] + vs);
    CalmVerdicts([PassIf(IsObjectType(v))] + vs);
  }

  lemma OneOfCalm(spec: Spec, deep: nat, resource: string, ts: seq<CodeName>, v: Js, n: nat)
    requires AliasesEnd(spec, deep) && SoundSpec(spec, deep) && Calm(v)
    requires forall t :: t in ts ==> InlinesAtom(spec, resource, t, n) && SoundAtom(spec, resource, t, n)
    ensures JudgeOneOf(spec, deep, resource, ts, v, n) != Throws
    decreases Size(v), n, 1
  {
    forall i | 0 <= i < |ts| ensures JudgeType(spec, deep, resource, ts[i], v, n) != Throws {
      TypeCalm(spec, deep, resource, ts[i], v, n);
    }
    hide AliasesEnd, SoundSpec, JudgeType, Calm, InlinesAtom, SoundAtom;
    CalmVerdicts(seq(|ts|, i requires 0 <= i < |ts| => JudgeType(spec, deep, resource, ts[i], v, n)));
  }

  lemma ListCalm(spec: Spec, deep: nat, resource: string, ts: seq<CodeName>, v: Js, n: nat)
    requires AliasesEnd(spec, deep) && SoundSpec(spec, deep) && Calm(v)
    requires forall t :: t in ts ==> InlinesAtom(spec, resource, t, n) && SoundAtom(spec, resource, t, n)
    ensures JudgeList(spec, deep, resource, ts, v, n) != Throws
    decreases Size(v), n, 2
  {
    PartsSmaller(v);
    CalmParts(v);
    if IsListLike(v) {
      forall i | 0 <= i < |Items(v)| ensures JudgeOneOf(spec, deep, resource, ts, Items(v)[i], n) != Throws {
        OneOfCalm(spec, deep, resource, ts, Items(v)[i], n);
      }
      hide AliasesEnd, SoundSpec, JudgeOneOf, Calm, InlinesAtom, SoundAtom;
      CalmVerdicts(seq(|Items(v)|,
                       i requires 0 <= i < |Items(v)| => JudgeOneOf(spec, deep, resource, ts, Items(v)[i], n)));
    }
  }

  lemma MapCalm(spec: Spec, deep: nat, resource: string, ts: seq<CodeName>, lists: bool, v: Js, n: nat)
    requires AliasesEnd(spec, deep) && SoundSpec(spec, deep) && Calm(v)
    requires forall t :: t in ts ==> InlinesAtom(spec, resource, t, n) && SoundAtom(spec, resource, t, n)
    ensures JudgeMap(spec, deep, resource, ts, lists, v, n) != Throws
    decreases Size(v), n, 3
  {
    PartsSmaller(v);
    CalmParts(v);
    var xs := Elements(v);
    forall i | 0 <= i < |xs|
      ensures (if lists then JudgeList(spec, deep, resource, ts, xs[i], n)
               else JudgeOneOf(spec, deep, resource, ts, xs[i], n)) != Throws
    {
      if lists { ListCalm(spec, deep, resource, ts, xs[i], n); } else { OneOfCalm(spec, deep, resource, ts, xs[i], n); }
    }
    hide AliasesEnd, SoundSpec, JudgeOneOf, JudgeList, Calm, InlinesAtom, SoundAtom;
    if CanInspect(v) {
      var vs := seq(|xs|, i requires 0 <= i < |xs| =>
        if lists then JudgeList(spec, deep, resource, ts, xs[i], n)
            else JudgeOneOf(spec, deep, resource, ts, xs[i], n));
      JudgedEntries(spec, deep, resource, ts, lists, v, n, vs);
      CalmVerdicts(vs);
    }
  }

  /** A validator of a sound specification throws only at a null or something to be replaced. */
  lemma CalmNeverThrows(spec: Spec, deep: nat, resource: string, p: Property, v: Js, n: nat)
    requires AliasesEnd(spec, deep) && SoundSpec(spec, deep) && WellShaped(p) && Inlines(spec, resource, p, n)
    requires Sound(spec, resource, p, n) && Calm(v)
    ensures JudgeProperty(spec, deep, resource, p, v, n) != Throws
    decreases Size(v), n, 4
  {
    var scalars, items := ScalarTypes(resource, p), ItemTypes(resource, p);
    if items == [] {
      OneOfCalm(spec, deep, resource, scalars, v, n);
    } else if scalars != [] {
      OneOfCalm(spec, deep, resource, scalars, v, n);
      ListCalm(spec, deep, resource, items, v, n);
      CalmVerdicts([JudgeOneOf(spec, deep, resource, scalars, v, n), JudgeList(spec, deep, resource, items, v, n)]);
    } else if p.IsMapOfListsOfPrimitives() {
      MapCalm(spec, deep, resource, [ListElement(items[0])], true, v, n);
    } else if p.IsMap() {
      MapCalm(spec, deep, resource, items, false, v, n);
    } else {
      ListCalm(spec, deep, resource, items, v, n);
    }
  }

  // ---------------------------------------------------------------- generated validators

  /** A value passes the generated validator of a property if and only if the specification admits it
      or it slips through, and nothing in it trips the validator. The validator throws at what trips it. */
  lemma PassesIff(spec: Spec, deep: nat, code: seq<Emitted>, resource: string, p: Property, v: Js, n: nat)
    requires IsCode(spec, deep, code) && WellShaped(p) && Inlines(spec, resource, p, n)
    ensures var verdict := Run(code, Dispatch(spec, Validator, resource, p, n), v);
      && (verdict == Pass <==>
            (Admits(spec, deep, resource, p, v, n) || Slips(spec, deep, resource, p, v, n))
            && !Trips(spec, deep, resource, p, v, n))
      && (verdict == Throws <==> Trips(spec, deep, resource, p, v, n))
  {
    ValidatorMeaning(spec, deep, code, resource, p, v, n);
    PropertyExplained(spec, deep, resource, p, v, n);
    FitsIff(spec, deep, resource, p, v, n);
  }
}
