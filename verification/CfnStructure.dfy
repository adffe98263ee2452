/** What the three expressions generated for a property have in common, and what they refer to. */
module CfnStructure {
  import opened CfnSpec
  import opened CfnCode

  /** The validator with the structure of `e`. */
  function AsValidator(e: Expr): Expr {
    match e
    case Call(fn) => Call(Fn(Validator, fn.of))
    case ListOf(item) => ListOf(AsValidator(item))
    case MapOf(item) => MapOf(AsValidator(item))
    case StringArray => ListOf(Call(Fn(Validator, Primitive("string"))))
    case UnionOf(_, members) => UnionOf([], AsValidators(members))
  }

  function AsValidators(es: seq<Expr>): (r: seq<Expr>)
    ensures |r| == |es| && forall i :: 0 <= i < |es| ==> r[i] == AsValidator(es[i])
  {
    seq(|es|, i requires 0 <= i < |es| => AsValidator(es[i]))
  }

  /** Only the code type of strings is called `string`. */
  lemma CalledString(t: CodeName)
    ensures t.ClassName() == "string" ==> t == Primitive("string")
  {
    var c := t.ClassName();
    if t.Props? { assert c[|c| - 1] == "Props"[4]; }
    if t.PropertyTypeName? { assert c[|c| - 1] == "Property"[7]; }
  }

  /** The validator, the mapper and the factory of a property have the same type structure. */
  lemma {:induction false} SameStructure(spec: Spec, kind: Kind, resource: string, p: Property, n: nat)
    requires WellFormed(spec) && WellShaped(p) && Inlines(spec, resource, p, n)
    ensures AsValidator(Dispatch(spec, kind, resource, p, n)) == Dispatch(spec, Validator, resource, p, n)
    decreases n
  {
    forall t | t in Parts(resource, p).0 ensures SameAtom(spec, kind, resource, t, n) {
      hide Parts, WellShaped;
      if IsAlias(spec, t) { SameStructure(spec, kind, resource, AliasOf(spec, t), n - 1); }
    }
    SameDispatch(spec, kind, resource, p, n);
  }

  ghost predicate SameAtom(spec: Spec, kind: Kind, resource: string, t: CodeName, n: nat)
    requires WellFormed(spec) && InlinesAtom(spec, resource, t, n)
  {
    AsValidator(VisitAtom(spec, kind, resource, t, n)) == VisitAtom(spec, Validator, resource, t, n)
  }

  lemma SameDispatch(spec: Spec, kind: Kind, resource: string, p: Property, n: nat)
    requires WellFormed(spec) && WellShaped(p) && Inlines(spec, resource, p, n)
    requires forall t :: t in Parts(resource, p).0 ==> SameAtom(spec, kind, resource, t, n)
    ensures AsValidator(Dispatch(spec, kind, resource, p, n)) == Dispatch(spec, Validator, resource, p, n)
  {
    DispatchIs(spec, kind, resource, p, n);
    DispatchIs(spec, Validator, resource, p, n);
    hide *;
    var scalars, items, parts := ScalarTypes(resource, p), ItemTypes(resource, p), Parts(resource, p).0;
    if scalars != [] && items != [] {
      assert forall t :: t in scalars || t in items ==> t in parts;
      SameListOrAtom(spec, kind, resource, scalars, items, n);
    } else if Parts(resource, p).1 {
      SameUnion(spec, kind, resource, parts, n);
      SameWrapped(VisitAtomUnion(spec, kind, resource, parts, n));
    } else {
      SameSingle(spec, kind, resource, parts, n);
      SameList(spec, kind, resource, parts[0], n);
      SameWrapped(VisitAtom(spec, kind, resource, parts[0], n));
      SameWrapped(ListOf(VisitAtom(spec, kind, resource, parts[0], n)));
    }
  }

  lemma SameWrapped(e: Expr)
    ensures AsValidator(ListOf(e)) == ListOf(AsValidator(e)) && AsValidator(MapOf(e)) == MapOf(AsValidator(e))
  {
  }

  lemma SameSingle(spec: Spec, kind: Kind, resource: string, ts: seq<CodeName>, n: nat)
    requires WellFormed(spec) && ts != [] && forall t :: t in ts ==> InlinesAtom(spec, resource, t, n)
    requires forall t :: t in ts ==> SameAtom(spec, kind, resource, t, n)
    ensures InlinesAtom(spec, resource, ts[0], n) && SameAtom(spec, kind, resource, ts[0], n)
    ensures AsValidator(VisitAtom(spec, kind, resource, ts[0], n)) == VisitAtom(spec, Validator, resource, ts[0], n)
  {
    hide InlinesAtom, WellFormed, VisitAtom;
    assert SameAtom(spec, kind, resource, ts[0], n);
  }

  lemma SameList(spec: Spec, kind: Kind, resource: string, t: CodeName, n: nat)
    requires WellFormed(spec) && InlinesAtom(spec, resource, t, n) && SameAtom(spec, kind, resource, t, n)
    ensures AsValidator(VisitList(spec, kind, resource, t, n)) == VisitList(spec, Validator, resource, t, n)
  {
    CalledString(t);
  }

  lemma SameListOrAtom(spec: Spec, kind: Kind, resource: string, scalars: seq<CodeName>, items: seq<CodeName>, n: nat)
    requires WellFormed(spec) && forall t :: t in scalars || t in items ==> InlinesAtom(spec, resource, t, n)
    requires forall t :: t in scalars || t in items ==> SameAtom(spec, kind, resource, t, n)
    ensures AsValidator(VisitListOrAtom(spec, kind, resource, scalars, items, n))
            == VisitListOrAtom(spec, Validator, resource, scalars, items, n)
  {
    SameUnion(spec, kind, resource, scalars, n);
    SameUnion(spec, kind, resource, items, n);
    var u := VisitListOrAtom(spec, kind, resource, scalars, items, n);
    assert AsValidators(u.members) == VisitListOrAtom(spec, Validator, resource, scalars, items, n).members;
  }

  lemma SameUnion(spec: Spec, kind: Kind, resource: string, ts: seq<CodeName>, n: nat)
    requires WellFormed(spec) && forall t :: t in ts ==> InlinesAtom(spec, resource, t, n)
    requires forall t :: t in ts ==> SameAtom(spec, kind, resource, t, n)
    ensures AsValidator(VisitAtomUnion(spec, kind, resource, ts, n)) == VisitAtomUnion(spec, Validator, resource, ts, n)
  {
    forall i | 0 <= i < |ts| ensures SameAtom(spec, kind, resource, ts[i], n) {}
    hide InlinesAtom, VisitAtom, WellFormed;
    assert AsValidators(VisitAtoms(spec, kind, resource, ts, n)) == VisitAtoms(spec, Validator, resource, ts, n);
  }

  // ---------------------------------------------------------------- references

  function RefsOf(e: Expr): set<Fn> {
    match e
    case Call(fn) => {fn}
    case ListOf(item) => RefsOf(item)
    case MapOf(item) => RefsOf(item)
    case StringArray => {}
    case UnionOf(validators, members) =>
      (set i, fn | 0 <= i < |validators| && fn in RefsOf(validators[i]) :: fn)
      + (set i, fn | 0 <= i < |members| && fn in RefsOf(members[i]) :: fn)
  }

  predicate Exists(spec: Spec, t: CodeName) {
    IsBuiltIn(t) || HasFunctions(spec, t)
  }

  ghost predicate Resolves(spec: Spec, e: Expr) {
    forall fn :: fn in RefsOf(e) ==> Exists(spec, fn.of)
  }

  /** Every type that `p` names exists, through aliases, and no member of a union is an alias. */
  ghost predicate Sound(spec: Spec, resource: string, p: Property, n: nat)
    requires WellFormed(spec) && WellShaped(p) && Inlines(spec, resource, p, n)
    decreases n, 1
  {
    var (parts, union) := Parts(resource, p);
    forall t :: t in parts ==> SoundAtom(spec, resource, t, n) && !(union && IsAlias(spec, t))
  }

  ghost predicate SoundAtom(spec: Spec, resource: string, t: CodeName, n: nat)
    requires WellFormed(spec) && InlinesAtom(spec, resource, t, n)
    decreases n, 0
  {
    if IsAlias(spec, t) then Sound(spec, resource, AliasOf(spec, t), n - 1) else Exists(spec, t)
  }

  lemma UnionResolves(spec: Spec, vs: seq<Expr>, ms: seq<Expr>)
    ensures Resolves(spec, UnionOf(vs, ms)) <==>
            (forall i :: 0 <= i < |vs| ==> Resolves(spec, vs[i]))
              && (forall i :: 0 <= i < |ms| ==> Resolves(spec, ms[i]))
  {
    var refs := RefsOf(UnionOf(vs, ms));
    if Resolves(spec, UnionOf(vs, ms)) {
      forall i, fn | 0 <= i < |vs| && fn in RefsOf(vs[i]) ensures Exists(spec, fn.of) { assert fn in refs; }
      forall i, fn | 0 <= i < |ms| && fn in RefsOf(ms[i]) ensures Exists(spec, fn.of) { assert fn in refs; }
    }
  }

  lemma NamedValidatorsResolve(spec: Spec, ts: seq<CodeName>)
    ensures Resolves(spec, UnionOf([], NamedValidators(ts))) <==> forall t :: t in ts ==> Exists(spec, t)
  {
    var vs := NamedValidators(ts);
    UnionResolves(spec, [], vs);
    assert forall i :: 0 <= i < |ts| ==> vs[i] == Call(Fn(Validator, ts[i]));
    forall i | 0 <= i < |ts| ensures Resolves(spec, vs[i]) <==> Exists(spec, ts[i]) {
      assert RefsOf(vs[i]) == {Fn(Validator, ts[i])};
    }
  }

  /** Sound atoms resolve, and outside validators only they do. */
  ghost predicate AtomResolves(spec: Spec, kind: Kind, resource: string, t: CodeName, n: nat)
    requires WellFormed(spec) && InlinesAtom(spec, resource, t, n)
  {
    var resolves := Resolves(spec, VisitAtom(spec, kind, resource, t, n));
    (SoundAtom(spec, resource, t, n) ==> resolves) && (!kind.Validator? && resolves ==> SoundAtom(spec, resource, t, n))
  }

  ghost predicate SoundMember(spec: Spec, resource: string, t: CodeName, n: nat)
    requires WellFormed(spec) && InlinesAtom(spec, resource, t, n)
  {
    SoundAtom(spec, resource, t, n) && !IsAlias(spec, t)
  }

  lemma AtomUnionResolves(spec: Spec, kind: Kind, resource: string, ts: seq<CodeName>, n: nat)
    requires WellFormed(spec)
             && forall t :: t in ts ==> InlinesAtom(spec, resource, t, n) && AtomResolves(spec, kind, resource, t, n)
    ensures (forall t :: t in ts ==> SoundMember(spec, resource, t, n)) ==>
            Resolves(spec, VisitAtomUnion(spec, kind, resource, ts, n))
    ensures !kind.Validator? && Resolves(spec, VisitAtomUnion(spec, kind, resource, ts, n)) ==>
            forall t :: t in ts ==> SoundMember(spec, resource, t, n)
  {
    var u := VisitAtomUnion(spec, kind, resource, ts, n);
    UnionResolves(spec, u.validators, u.members);
    NamedValidatorsResolve(spec, ts);
    UnionResolves(spec, [], NamedValidators(ts));
    hide Resolves, WellFormed, VisitAtomUnion, VisitAtom, InlinesAtom;
    forall i | 0 <= i < |ts|
      ensures SoundMember(spec, resource, ts[i], n) ==> Resolves(spec, u.members[i]) && Exists(spec, ts[i])
      ensures !kind.Validator? && Resolves(spec, u.members[i]) && Exists(spec, ts[i]) ==>
              SoundMember(spec, resource, ts[i], n)
    {
      MemberResolves(spec, kind, resource, ts[i], n);
    }
  }

  lemma MemberResolves(spec: Spec, kind: Kind, resource: string, t: CodeName, n: nat)
    requires WellFormed(spec) && InlinesAtom(spec, resource, t, n) && AtomResolves(spec, kind, resource, t, n)
    ensures SoundMember(spec, resource, t, n) ==>
            Resolves(spec, VisitAtom(spec, kind, resource, t, n)) && Exists(spec, t)
    ensures !kind.Validator? && Resolves(spec, VisitAtom(spec, kind, resource, t, n)) && Exists(spec, t) ==>
            SoundMember(spec, resource, t, n)
  {
  }

  lemma ListOrAtomResolves(spec: Spec, kind: Kind, resource: string, scalars: seq<CodeName>, items: seq<CodeName>,
                           n: nat)
    requires WellFormed(spec)
             && forall t ::
               t in scalars + items ==> InlinesAtom(spec, resource, t, n) && AtomResolves(spec, kind, resource, t, n)
    ensures var e := VisitListOrAtom(spec, kind, resource, scalars, items, n);
            var sound := forall t :: t in scalars + items ==> SoundMember(spec, resource, t, n);
            (sound ==> Resolves(spec, e)) && (!kind.Validator? && Resolves(spec, e) ==> sound)
  {
    assert forall t :: t in scalars + items <==> t in scalars || t in items;
    AtomUnionResolves(spec, kind, resource, scalars, n);
    AtomUnionResolves(spec, kind, resource, items, n);
    NamedValidatorsResolve(spec, scalars);
    NamedValidatorsResolve(spec, items);
    hide Inlines, WellFormed, Dispatch, Sound, VisitAtom, VisitAtomUnion, RefsOf;
    var e := VisitListOrAtom(spec, kind, resource, scalars, items, n);
    UnionResolves(spec, e.validators, e.members);
    ListResolves(spec, e.members[1].item);
    ListResolves(spec, UnionOf([], NamedValidators(items)));
    assert Resolves(spec, e) ==> Resolves(spec, e.members[0]) && Resolves(spec, e.members[1]);
  }

  lemma ListResolves(spec: Spec, e: Expr)
    ensures Resolves(spec, ListOf(e)) <==> Resolves(spec, e)
    ensures Resolves(spec, MapOf(e)) <==> Resolves(spec, e)
  {
    assert RefsOf(ListOf(e)) == RefsOf(e) == RefsOf(MapOf(e));
  }

  lemma StringListResolves(spec: Spec, kind: Kind, resource: string, t: CodeName, n: nat)
    requires WellFormed(spec) && InlinesAtom(spec, resource, t, n) && AtomResolves(spec, kind, resource, t, n)
    ensures SoundAtom(spec, resource, t, n) ==> Resolves(spec, VisitList(spec, kind, resource, t, n))
    ensures !kind.Validator? && Resolves(spec, VisitList(spec, kind, resource, t, n)) ==>
            SoundAtom(spec, resource, t, n)
  {
    CalledString(t);
    ListResolves(spec, VisitAtom(spec, kind, resource, t, n));
  }

  /** A mapper or a factory refers only to functions that exist exactly if its property is
      sound, and then so does the validator. */
  lemma {:induction false} ResolvesIffSound(spec: Spec, kind: Kind, resource: string, p: Property, n: nat)
    requires WellFormed(spec) && WellShaped(p) && Inlines(spec, resource, p, n)
    ensures Sound(spec, resource, p, n) ==> Resolves(spec, Dispatch(spec, kind, resource, p, n))
    ensures !kind.Validator? && Resolves(spec, Dispatch(spec, kind, resource, p, n)) ==> Sound(spec, resource, p, n)
    decreases n, 1
  {
    forall t | t in Parts(resource, p).0 ensures AtomResolves(spec, kind, resource, t, n) {
      AtomResolvesIf(spec, kind, resource, t, n);
    }
    hide *;
    DispatchResolves(spec, kind, resource, p, n);
  }

  lemma {:induction false} AtomResolvesIf(spec: Spec, kind: Kind, resource: string, t: CodeName, n: nat)
    requires WellFormed(spec) && InlinesAtom(spec, resource, t, n)
    ensures AtomResolves(spec, kind, resource, t, n)
    decreases n, 0
  {
    if IsAlias(spec, t) {
      var p := AliasOf(spec, t);
      assert WellShaped(p) && Inlines(spec, resource, p, n - 1);
      hide WellFormed, WellShaped, Inlines, Resolves, Sound, Dispatch;
      ResolvesIffSound(spec, kind, resource, p, n - 1);
    } else {
      assert RefsOf(VisitAtom(spec, kind, resource, t, n)) == {Fn(kind, t)};
      hide WellFormed, Dispatch, RefsOf, Sound, IsBuiltIn, HasFunctions;
    }
  }

  lemma DispatchResolves(spec: Spec, kind: Kind, resource: string, p: Property, n: nat)
    requires WellFormed(spec) && WellShaped(p) && Inlines(spec, resource, p, n)
    requires forall t :: t in Parts(resource, p).0 ==> AtomResolves(spec, kind, resource, t, n)
    ensures Sound(spec, resource, p, n) ==> Resolves(spec, Dispatch(spec, kind, resource, p, n))
    ensures !kind.Validator? && Resolves(spec, Dispatch(spec, kind, resource, p, n)) ==> Sound(spec, resource, p, n)
  {
    DispatchIs(spec, kind, resource, p, n);
    var scalars, items, parts := ScalarTypes(resource, p), ItemTypes(resource, p), Parts(resource, p).0;
    hide *;
    if scalars != [] && items != [] {
      SoundUnion(spec, resource, p, n);
      ListOrAtomResolves(spec, kind, resource, scalars, items, n);
    } else if Parts(resource, p).1 {
      SoundUnion(spec, resource, p, n);
      AtomUnionResolves(spec, kind, resource, parts, n);
      ListResolves(spec, VisitAtomUnion(spec, kind, resource, parts, n));
    } else {
      var atom := VisitAtom(spec, kind, resource, parts[0], n);
      SoundSingle(spec, kind, resource, p, n);
      ListResolves(spec, atom);
      ListResolves(spec, ListOf(atom));
      StringListResolves(spec, kind, resource, parts[0], n);
    }
  }

  lemma SoundUnion(spec: Spec, resource: string, p: Property, n: nat)
    requires WellFormed(spec) && WellShaped(p) && Inlines(spec, resource, p, n) && Parts(resource, p).1
    ensures Sound(spec, resource, p, n) <==> forall t :: t in Parts(resource, p).0 ==> SoundMember(spec, resource, t, n)
  {
    hide SoundAtom, Parts, WellShaped, WellFormed, InlinesAtom;
  }

  lemma SoundSingle(spec: Spec, kind: Kind, resource: string, p: Property, n: nat)
    requires WellFormed(spec) && WellShaped(p) && Inlines(spec, resource, p, n)
    requires |Parts(resource, p).0| == 1 && !Parts(resource, p).1
    requires forall t :: t in Parts(resource, p).0 ==> AtomResolves(spec, kind, resource, t, n)
    ensures var t := Parts(resource, p).0[0];
      && InlinesAtom(spec, resource, t, n) && AtomResolves(spec, kind, resource, t, n)
      && (Sound(spec, resource, p, n) <==> SoundAtom(spec, resource, t, n))
      && (SoundAtom(spec, resource, t, n) ==> Resolves(spec, VisitAtom(spec, kind, resource, t, n)))
      && (!kind.Validator? && Resolves(spec, VisitAtom(spec, kind, resource, t, n)) ==> SoundAtom(spec, resource, t, n))
  {
    hide SoundAtom, Parts, WellShaped, WellFormed, Resolves, VisitAtom;
    assert Parts(resource, p).0[0] in Parts(resource, p).0;
  }
}
