/** Telling the members of a union apart: when a generated union tries the right validators. */
module CfnUnions {
  import opened CfnSpec
  import opened CfnCode
  import opened CfnStructure

  /** Each union of `e` lists, for each member in order, a validator of the member's structure. */
  ghost predicate Discriminates(e: Expr) {
    match e
    case ListOf(item) => Discriminates(item)
    case MapOf(item) => Discriminates(item)
    case UnionOf(validators, members) =>
        validators == AsValidators(members) && forall i :: 0 <= i < |members| ==> Discriminates(members[i])
    case _ => true
  }

  /** No member of a union is an alias, through aliases. */
  ghost predicate PlainUnions(spec: Spec, resource: string, p: Property, n: nat)
    requires WellFormed(spec) && WellShaped(p) && Inlines(spec, resource, p, n)
    decreases n, 1
  {
    var (parts, union) := Parts(resource, p);
    if union then NoAliases(spec, parts) else forall t :: t in parts ==> PlainAtom(spec, resource, t, n)
  }

  ghost predicate NoAliases(spec: Spec, ts: seq<CodeName>) {
    forall t :: t in ts ==> !IsAlias(spec, t)
  }

  ghost predicate PlainAtom(spec: Spec, resource: string, t: CodeName, n: nat)
    requires WellFormed(spec) && InlinesAtom(spec, resource, t, n)
    decreases n, 0
  {
    IsAlias(spec, t) ==> PlainUnions(spec, resource, AliasOf(spec, t), n - 1)
  }

  /** No function of an alias is ever called by itself. */
  lemma {:induction false} AliasesInlined(spec: Spec, kind: Kind, resource: string, t: CodeName, n: nat)
    requires WellFormed(spec) && InlinesAtom(spec, resource, t, n)
    ensures var e := VisitAtom(spec, kind, resource, t, n); e.Call? ==> !IsAlias(spec, e.fn.of)
    decreases n
  {
    if IsAlias(spec, t) {
      var p := AliasOf(spec, t);
      if Dispatch(spec, kind, resource, p, n - 1).Call? {
        SingleCall(spec, kind, resource, p, n - 1);
        AliasesInlined(spec, kind, resource, ScalarTypes(resource, p)[0], n - 1);
      }
    }
  }

  lemma SingleCall(spec: Spec, kind: Kind, resource: string, p: Property, n: nat)
    requires WellFormed(spec) && WellShaped(p) && Inlines(spec, resource, p, n)
    requires Dispatch(spec, kind, resource, p, n).Call?
    ensures var scalars := ScalarTypes(resource, p);
            && |scalars| == 1 && InlinesAtom(spec, resource, scalars[0], n)
            && Dispatch(spec, kind, resource, p, n) == VisitAtom(spec, kind, resource, scalars[0], n)
  {
  }

  /** The validator named for a member has the member's structure exactly if it is no alias. */
  lemma MemberValidator(spec: Spec, kind: Kind, resource: string, t: CodeName, n: nat)
    requires WellFormed(spec) && InlinesAtom(spec, resource, t, n)
    ensures AsValidator(VisitAtom(spec, kind, resource, t, n)) == Call(Fn(Validator, t)) <==> !IsAlias(spec, t)
    ensures !IsAlias(spec, t) ==> Discriminates(VisitAtom(spec, kind, resource, t, n))
  {
    if IsAlias(spec, t) {
      SameStructure(spec, kind, resource, AliasOf(spec, t), n - 1);
      AliasesInlined(spec, Validator, resource, t, n);
    }
  }

  lemma UnionDiscriminates(spec: Spec, kind: Kind, resource: string, ts: seq<CodeName>, n: nat)
    requires WellFormed(spec) && !kind.Validator? && forall t :: t in ts ==> InlinesAtom(spec, resource, t, n)
    ensures Discriminates(VisitAtomUnion(spec, kind, resource, ts, n)) <==> NoAliases(spec, ts)
  {
    var u := VisitAtomUnion(spec, kind, resource, ts, n);
    forall i | 0 <= i < |ts|
      ensures AsValidator(u.members[i]) == u.validators[i] <==> !IsAlias(spec, ts[i])
      ensures !IsAlias(spec, ts[i]) ==> Discriminates(u.members[i])
    {
      hide VisitAtom, InlinesAtom, WellFormed, IsAlias, Discriminates, AsValidator;
      MemberValidator(spec, kind, resource, ts[i], n);
    }
    hide VisitAtom, InlinesAtom, WellFormed, IsAlias, VisitAtomUnion, AsValidator;
    DiscriminatesUnion(u);
    assert NoAliases(spec, ts) <==> forall i :: 0 <= i < |ts| ==> !IsAlias(spec, ts[i]);
  }

  /** A union with as many validators as members, compared member by member. */
  lemma DiscriminatesUnion(u: Expr)
    requires u.UnionOf? && |u.validators| == |u.members|
    ensures Discriminates(u) <==> forall i :: 0 <= i < |u.members| ==>
              AsValidator(u.members[i]) == u.validators[i] && Discriminates(u.members[i])
  {
    assert u.validators == AsValidators(u.members) <==>
           forall i :: 0 <= i < |u.members| ==> u.validators[i] == AsValidators(u.members)[i];
    hide AsValidator;
  }

  lemma ListOrAtomDiscriminates(spec: Spec, kind: Kind, resource: string, scalars: seq<CodeName>,
                                items: seq<CodeName>, n: nat)
    requires WellFormed(spec) && !kind.Validator?
             && forall t :: t in scalars || t in items ==> InlinesAtom(spec, resource, t, n)
    ensures Discriminates(VisitListOrAtom(spec, kind, resource, scalars, items, n))
            <==> NoAliases(spec, scalars + items)
  {
    UnionDiscriminates(spec, kind, resource, scalars, n);
    UnionDiscriminates(spec, kind, resource, items, n);
    assert NoAliases(spec, scalars + items) <==> NoAliases(spec, scalars) && NoAliases(spec, items) by {
      assert forall t :: t in scalars + items <==> t in scalars || t in items;
    }
    var s, i := VisitAtomUnion(spec, kind, resource, scalars, n), VisitAtomUnion(spec, kind, resource, items, n);
    if NoAliases(spec, scalars) { NamedAsValidators(spec, kind, resource, scalars, n); }
    if NoAliases(spec, items) { NamedAsValidators(spec, kind, resource, items, n); }
    assert VisitListOrAtom(spec, kind, resource, scalars, items, n) ==
           UnionOf([UnionOf([], NamedValidators(scalars)), ListOf(UnionOf([], NamedValidators(items)))],
                   [s, ListOf(i)]);
    hide *;
    DiscriminatesPair(UnionOf([], NamedValidators(scalars)), UnionOf([], NamedValidators(items)), s, i);
  }

  lemma DiscriminatesPair(a: Expr, b: Expr, s: Expr, i: Expr)
    requires (Discriminates(s) ==> AsValidator(s) == a) && (Discriminates(i) ==> AsValidator(i) == b)
    ensures Discriminates(UnionOf([a, ListOf(b)], [s, ListOf(i)])) <==> Discriminates(s) && Discriminates(i)
  {
    var u := UnionOf([a, ListOf(b)], [s, ListOf(i)]);
    ListOfUnion(i);
    hide AsValidator, Discriminates;
    DiscriminatesUnion(u);
    assert (forall k ::
              0 <= k < |u.members| ==> AsValidator(u.members[k]) == u.validators[k] && Discriminates(u.members[k]))
           == ((AsValidator(s) == a && Discriminates(s))
               && (AsValidator(ListOf(i)) == ListOf(b) && Discriminates(ListOf(i)))) by {
      assert u.members[0] == s && u.members[1] == ListOf(i) && u.validators[0] == a && u.validators[1] == ListOf(b);
    }
  }

  lemma ListOfUnion(e: Expr)
    ensures AsValidator(ListOf(e)) == ListOf(AsValidator(e)) && (Discriminates(ListOf(e)) <==> Discriminates(e))
  {
  }

  lemma NamedAsValidators(spec: Spec, kind: Kind, resource: string, ts: seq<CodeName>, n: nat)
    requires WellFormed(spec) && !kind.Validator? && forall t :: t in ts ==> InlinesAtom(spec, resource, t, n)
    requires Discriminates(VisitAtomUnion(spec, kind, resource, ts, n))
    ensures AsValidator(VisitAtomUnion(spec, kind, resource, ts, n)) == UnionOf([], NamedValidators(ts))
  {
  }

  /** Mappers and factories try the right validators exactly if no union has an alias in it. */
  lemma {:induction false} DiscriminatesIffPlain(spec: Spec, kind: Kind, resource: string, p: Property, n: nat)
    requires WellFormed(spec) && WellShaped(p) && Inlines(spec, resource, p, n) && !kind.Validator?
    ensures Discriminates(Dispatch(spec, kind, resource, p, n)) <==> PlainUnions(spec, resource, p, n)
    decreases n
  {
    forall t | t in Parts(resource, p).0 ensures AtomDiscriminates(spec, kind, resource, t, n) {
      hide Parts, WellShaped, Dispatch, PlainUnions;
      if IsAlias(spec, t) { DiscriminatesIffPlain(spec, kind, resource, AliasOf(spec, t), n - 1); }
    }
    hide *;
    DispatchDiscriminates(spec, kind, resource, p, n);
  }

  ghost predicate AtomDiscriminates(spec: Spec, kind: Kind, resource: string, t: CodeName, n: nat)
    requires WellFormed(spec) && InlinesAtom(spec, resource, t, n)
  {
    Discriminates(VisitAtom(spec, kind, resource, t, n)) <==> PlainAtom(spec, resource, t, n)
  }

  lemma DispatchDiscriminates(spec: Spec, kind: Kind, resource: string, p: Property, n: nat)
    requires WellFormed(spec) && WellShaped(p) && Inlines(spec, resource, p, n) && !kind.Validator?
    requires forall t :: t in Parts(resource, p).0 ==> AtomDiscriminates(spec, kind, resource, t, n)
    ensures Discriminates(Dispatch(spec, kind, resource, p, n)) <==> PlainUnions(spec, resource, p, n)
  {
    DispatchIs(spec, kind, resource, p, n);
    var scalars, items, parts := ScalarTypes(resource, p), ItemTypes(resource, p), Parts(resource, p).0;
    hide *;
    if scalars != [] && items != [] {
      PlainUnion(spec, resource, p, n);
      ListOrAtomDiscriminates(spec, kind, resource, scalars, items, n);
    } else if Parts(resource, p).1 {
      PlainUnion(spec, resource, p, n);
      UnionDiscriminates(spec, kind, resource, parts, n);
      Wrapped(VisitAtomUnion(spec, kind, resource, parts, n));
    } else {
      PlainSingle(spec, kind, resource, p, n);
      Wrapped(VisitAtom(spec, kind, resource, parts[0], n));
      Wrapped(ListOf(VisitAtom(spec, kind, resource, parts[0], n)));
      StringListDiscriminates(spec, kind, resource, parts[0], n);
    }
  }

  lemma Wrapped(e: Expr)
    ensures Discriminates(ListOf(e)) <==> Discriminates(e)
    ensures Discriminates(MapOf(e)) <==> Discriminates(e)
  {
  }

  lemma PlainUnion(spec: Spec, resource: string, p: Property, n: nat)
    requires WellFormed(spec) && WellShaped(p) && Inlines(spec, resource, p, n) && Parts(resource, p).1
    ensures PlainUnions(spec, resource, p, n) <==> NoAliases(spec, Parts(resource, p).0)
  {
    hide Parts, WellShaped, WellFormed, InlinesAtom;
  }

  lemma PlainSingle(spec: Spec, kind: Kind, resource: string, p: Property, n: nat)
    requires WellFormed(spec) && WellShaped(p) && Inlines(spec, resource, p, n)
    requires |Parts(resource, p).0| == 1 && !Parts(resource, p).1
    requires forall t :: t in Parts(resource, p).0 ==> AtomDiscriminates(spec, kind, resource, t, n)
    ensures var t := Parts(resource, p).0[0];
      && InlinesAtom(spec, resource, t, n) && AtomDiscriminates(spec, kind, resource, t, n)
      && (PlainUnions(spec, resource, p, n) <==> PlainAtom(spec, resource, t, n))
      && (Discriminates(VisitAtom(spec, kind, resource, t, n)) <==> PlainAtom(spec, resource, t, n))
  {
    hide PlainAtom, Parts, WellShaped, WellFormed, Discriminates, VisitAtom;
    assert Parts(resource, p).0[0] in Parts(resource, p).0;
  }

  lemma StringListDiscriminates(spec: Spec, kind: Kind, resource: string, t: CodeName, n: nat)
    requires WellFormed(spec) && InlinesAtom(spec, resource, t, n)
    requires AtomDiscriminates(spec, kind, resource, t, n)
    ensures Discriminates(VisitList(spec, kind, resource, t, n)) <==> PlainAtom(spec, resource, t, n)
  {
    CalledString(t);
  }
}
