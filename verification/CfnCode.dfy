/** The expressions that cfn2ts generates to validate, map and parse values, as trees of calls. */
module CfnCode {
  import opened CfnSpec

  datatype Kind = Validator | Mapper | Factory

  /** The function of a kind for a type. */
  datatype Fn = Fn(kind: Kind, of: CodeName)

  /** A union in a mapper or a factory lists the validators that tell its members apart. */
  datatype Expr =
    | Call(fn: Fn)
    | ListOf(item: Expr)
    | MapOf(item: Expr)
    | StringArray
    | UnionOf(validators: seq<Expr>, members: seq<Expr>)

  /** typeDispatch with the visitor of a kind; `n` bounds how deep aliases are inlined. */
  function Dispatch(spec: Spec, kind: Kind, resource: string, p: Property, ghost n: nat): Expr
    requires WellFormed(spec) && WellShaped(p) && Inlines(spec, resource, p, n)
    decreases n, 4
  {
    var scalarTypes := ScalarTypes(resource, p);
    var itemTypes := ItemTypes(resource, p);
    if scalarTypes != [] && itemTypes != [] then
      VisitListOrAtom(spec, kind, resource, scalarTypes, itemTypes, n)
    else if p.IsCollection() then
      if p.IsMap() then
        if p.IsMapOfListsOfPrimitives()
          then MapOf(ListOf(VisitAtom(spec, kind, resource, ListElement(itemTypes[0]), n)))
        else if |itemTypes| > 1 then MapOf(VisitAtomUnion(spec, kind, resource, itemTypes, n))
        else MapOf(VisitAtom(spec, kind, resource, itemTypes[0], n))
      else
        if |itemTypes| > 1 then ListOf(VisitAtomUnion(spec, kind, resource, itemTypes, n))
        else VisitList(spec, kind, resource, itemTypes[0], n)
    else if |scalarTypes| > 1 then VisitAtomUnion(spec, kind, resource, scalarTypes, n)
    else VisitAtom(spec, kind, resource, scalarTypes[0], n)
  }

  /** An alias is inlined, anything else has a function of its own. */
  function VisitAtom(spec: Spec, kind: Kind, resource: string, t: CodeName, ghost n: nat): Expr
    requires WellFormed(spec) && InlinesAtom(spec, resource, t, n)
    decreases n, 0
  {
    if IsAlias(spec, t) then Dispatch(spec, kind, resource, AliasOf(spec, t), n - 1)
    else Call(Fn(kind, t))
  }

  function VisitAtoms(spec: Spec, kind: Kind, resource: string, ts: seq<CodeName>, ghost n: nat): (r: seq<Expr>)
    requires WellFormed(spec) && forall t :: t in ts ==> InlinesAtom(spec, resource, t, n)
    ensures |r| == |ts| && forall i :: 0 <= i < |ts| ==> r[i] == VisitAtom(spec, kind, resource, ts[i], n)
    decreases n, 1, |ts|
  {
    if ts == [] then [] else [VisitAtom(spec, kind, resource, ts[0], n)] + VisitAtoms(spec, kind, resource, ts[1..], n)
  }

  /** The code for a list. A factory has one function for all strings of a list. */
  function VisitList(spec: Spec, kind: Kind, resource: string, t: CodeName, ghost n: nat): Expr
    requires WellFormed(spec) && InlinesAtom(spec, resource, t, n)
    decreases n, 1
  {
    if kind.Factory? && t.ClassName() == "string" then StringArray
    else ListOf(VisitAtom(spec, kind, resource, t, n))
  }

  /** Mappers and factories tell the members apart by the validators of the types as named. */
  function VisitAtomUnion(spec: Spec, kind: Kind, resource: string, ts: seq<CodeName>, ghost n: nat): Expr
    requires WellFormed(spec) && forall t :: t in ts ==> InlinesAtom(spec, resource, t, n)
    decreases n, 2
  {
    UnionOf(if kind.Validator? then [] else NamedValidators(ts), VisitAtoms(spec, kind, resource, ts, n))
  }

  function NamedValidators(ts: seq<CodeName>): seq<Expr> {
    seq(|ts|, i requires 0 <= i < |ts| => Call(Fn(Validator, ts[i])))
  }

  function VisitListOrAtom(spec: Spec, kind: Kind, resource: string, scalars: seq<CodeName>, items: seq<CodeName>,
                           ghost n: nat): Expr
    requires WellFormed(spec) && forall t :: t in scalars || t in items ==> InlinesAtom(spec, resource, t, n)
    decreases n, 3
  {
    UnionOf(if kind.Validator? then []
            else [UnionOf([], NamedValidators(scalars)), ListOf(UnionOf([], NamedValidators(items)))],
            [VisitAtomUnion(spec, kind, resource, scalars, n), ListOf(VisitAtomUnion(spec, kind, resource, items, n))])
  }

  /** The types that a property is made of are visited, and how depends on its shape. */
  lemma DispatchIs(spec: Spec, kind: Kind, resource: string, p: Property, n: nat)
    requires WellFormed(spec) && WellShaped(p) && Inlines(spec, resource, p, n)
    ensures var scalars, items, parts, union :=
              ScalarTypes(resource, p), ItemTypes(resource, p), Parts(resource, p).0, Parts(resource, p).1;
            var e := Dispatch(spec, kind, resource, p, n);
      && parts != [] && (forall t :: t in parts ==> InlinesAtom(spec, resource, t, n))
      && if scalars != [] && items != [] then
           parts == scalars + items && union && e == VisitListOrAtom(spec, kind, resource, scalars, items, n)
         else if !p.IsCollection() then
           && parts == scalars && union == (|parts| > 1)
           && e
              == if union then VisitAtomUnion(spec, kind, resource, parts, n)
              else VisitAtom(spec, kind, resource, parts[0], n)
         else if p.IsMapOfListsOfPrimitives() then
           |parts| == 1 && !union && e == MapOf(ListOf(VisitAtom(spec, kind, resource, parts[0], n)))
         else
           && parts == items && union == (|parts| > 1)
           && e == if p.IsMap() then
                     MapOf(if union then VisitAtomUnion(spec, kind, resource, parts, n)
                           else VisitAtom(spec, kind, resource, parts[0], n))
                   else if union then ListOf(VisitAtomUnion(spec, kind, resource, parts, n))
                   else VisitList(spec, kind, resource, parts[0], n)
  {
    hide WellFormed, InlinesAtom, VisitAtom, VisitAtomUnion, VisitList, VisitListOrAtom, ScalarTypeNames, ItemTypeNames;
  }
}
