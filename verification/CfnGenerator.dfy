/** The code generator: what it emits, and when everything that is referred to is emitted too. */
module CfnGenerator {
  import opened CfnSpec
  import opened CfnCode
  import opened CfnStructure

  /** An expression that is applied to the whole argument of a function, or to one field of it. */
  datatype Use = Whole(expr: Expr) | OfField(expr: Expr, name: string, required: bool)

  /** A function or resource class, with the expressions it evaluates. */
  datatype Emitted = Function(fn: Fn, uses: seq<Use>) | ResourceClass(resource: string, uses: seq<Use>)

  /** Every alias in a property of an emitted type is inlined within `n` levels. */
  ghost predicate AliasesEnd(spec: Spec, n: nat) {
    WellFormed(spec)
      && forall t, p :: HasFunctions(spec, t) && p in PropertiesOf(spec, t) ==> Inlines(spec, t.resource, p, n)
  }

  // ---------------------------------------------------------------- what is emitted

  ghost function Expressions(spec: Spec, kind: Kind, t: CodeName, n: nat): (r: seq<Use>)
    requires AliasesEnd(spec, n) && HasFunctions(spec, t)
  {
    var ps := PropertiesOf(spec, t);
    seq(|ps|, i requires 0 <= i < |ps| =>
      OfField(Dispatch(spec, kind, t.resource, ps[i], n), ps[i].name, ps[i].required))
  }

  /** A mapper first validates its argument. */
  ghost function FunctionFor(spec: Spec, kind: Kind, t: CodeName, n: nat): Emitted
    requires AliasesEnd(spec, n) && HasFunctions(spec, t)
  {
    var expressions := Expressions(spec, kind, t, n);
    Function(Fn(kind, t), if kind.Mapper? then [Whole(Call(Fn(Validator, t)))] + expressions else expressions)
  }

  /** A class with properties parses them with their factory and renders them with their mapper. */
  function ClassFor(spec: Spec, resource: string): Emitted {
    ResourceClass(resource,
                  if HasFunctions(spec, Props(resource))
                  then [Whole(Call(Fn(Factory, Props(resource)))), Whole(Call(Fn(Mapper, Props(resource))))] else [])
  }

  ghost function FunctionsFor(spec: Spec, t: CodeName, n: nat): seq<Emitted>
    requires AliasesEnd(spec, n) && HasFunctions(spec, t)
  {
    [FunctionFor(spec, Validator, t, n), FunctionFor(spec, Mapper, t, n), FunctionFor(spec, Factory, t, n)]
  }

  ghost function ResourceCode(spec: Spec, resource: string, n: nat): seq<Emitted>
    requires AliasesEnd(spec, n)
  {
    (if HasFunctions(spec, Props(resource)) then FunctionsFor(spec, Props(resource), n) else [])
      + [ClassFor(spec, resource)]
  }

  ghost function PropertyTypesCode(spec: Spec, resource: string, keys: seq<TypeKey>, n: nat): seq<Emitted>
    requires AliasesEnd(spec, n)
  {
    if keys == [] then []
    else
      var key := keys[|keys| - 1];
      var t := PropertyTypeName(key.resource, key.name);
      PropertyTypesCode(spec, resource, keys[..|keys| - 1], n)
      + (if key.resource == resource && HasFunctions(spec, t) then FunctionsFor(spec, t, n) else [])
  }

  ghost function Code(spec: Spec, resources: seq<string>, n: nat): seq<Emitted>
    requires AliasesEnd(spec, n)
  {
    if resources == [] then []
    else
      var last := resources[|resources| - 1];
      Code(spec, resources[..|resources| - 1], n) + ResourceCode(spec, last, n)
        + PropertyTypesCode(spec, last, spec.propertyTypeNames, n)
  }

  /** The one definition of each function and class of a specification. */
  ghost predicate Expected(spec: Spec, e: Emitted, n: nat)
    requires AliasesEnd(spec, n)
  {
    match e
    case Function(fn, _) => HasFunctions(spec, fn.of) && e == FunctionFor(spec, fn.kind, fn.of, n)
    case ResourceClass(r, _) => r in spec.resourceTypes && e == ClassFor(spec, r)
  }

  function ResourceOf(e: Emitted): string {
    match e
    case ResourceClass(r, _) => r
    case Function(Fn(_, Props(r)), _) => r
    case Function(Fn(_, PropertyTypeName(r, _)), _) => r
    case _ => ""
  }

  lemma NamesDeclared(spec: Spec, n: nat)
    requires AliasesEnd(spec, n)
    ensures forall k :: k in spec.propertyTypeNames ==> k in spec.propertyTypes
  {
  }

  lemma PropertyTypesCodeNone(spec: Spec, resource: string, n: nat)
    requires AliasesEnd(spec, n)
    ensures PropertyTypesCode(spec, resource, [], n) == []
  {
  }

  lemma PropertyTypesCodeNext(spec: Spec, resource: string, keys: seq<TypeKey>, i: nat, n: nat)
    requires AliasesEnd(spec, n) && resource in spec.resourceTypes && i < |keys| && keys[i] in spec.propertyTypes
    ensures var t := PropertyTypeName(resource, keys[i].name);
            var record := keys[i].resource == resource && spec.propertyTypes[keys[i]].Record?;
            (record ==> HasFunctions(spec, t))
              && PropertyTypesCode(spec, resource, keys[..i + 1], n)
              == PropertyTypesCode(spec, resource, keys[..i], n)
              + if record then FunctionsFor(spec, t, n) else []
  {
    hide AliasesEnd, FunctionsFor;
    assert keys[..i + 1][..i] == keys[..i];
  }

  lemma DistinctConcat<T(!new)>(a: seq<T>, b: seq<T>)
    requires Distinct(a) && Distinct(b) && forall x :: x in a ==> x !in b
    ensures Distinct(a + b)
  {
    forall i, j | 0 <= i < j < |a + b| ensures (a + b)[i] != (a + b)[j] {
      if i < |a| && |a| <= j { assert a[i] in a; }
    }
  }

  lemma InFunctionsFor(spec: Spec, t: CodeName, n: nat)
    requires AliasesEnd(spec, n) && HasFunctions(spec, t)
    ensures var code := FunctionsFor(spec, t, n);
            Distinct(code) && forall e :: e in code <==> e.Function? && e.fn.of == t && Expected(spec, e, n)
  {
    hide AliasesEnd, HasFunctions, Expressions;
    var code := FunctionsFor(spec, t, n);
    forall e: Emitted | e.Function? && e.fn.of == t && Expected(spec, e, n) ensures e in code {
      assert code[match e.fn.kind case Validator => 0 case Mapper => 1 case Factory => 2] == e;
    }
  }

  lemma InResourceCode(spec: Spec, resource: string, n: nat)
    requires AliasesEnd(spec, n) && resource in spec.resourceTypes
    ensures var code := ResourceCode(spec, resource, n);
            Distinct(code)
              && forall e ::
                e in code <==> Expected(spec, e, n) && ResourceOf(e) == resource && (e.Function? ==> e.fn.of.Props?)
  {
    hide AliasesEnd, FunctionsFor, FunctionFor;
    if HasFunctions(spec, Props(resource)) {
      InFunctionsFor(spec, Props(resource), n);
      DistinctConcat(FunctionsFor(spec, Props(resource), n), [ClassFor(spec, resource)]);
    }
  }

  lemma InPropertyTypesCode(spec: Spec, resource: string, keys: seq<TypeKey>, n: nat)
    requires AliasesEnd(spec, n) && Distinct(keys)
    ensures var code := PropertyTypesCode(spec, resource, keys, n);
            Distinct(code) && forall e :: e in code <==>
              && e.Function? && e.fn.of.PropertyTypeName? && e.fn.of.resource == resource
              && TypeKey(resource, e.fn.of.name) in keys && Expected(spec, e, n)
  {
    hide AliasesEnd, FunctionsFor, FunctionFor;
    if keys != [] {
      var init, key := keys[..|keys| - 1], keys[|keys| - 1];
      InPropertyTypesCode(spec, resource, init, n);
      assert keys == init + [key];
      var t := PropertyTypeName(key.resource, key.name);
      if key.resource == resource && HasFunctions(spec, t) {
        InFunctionsFor(spec, t, n);
        DistinctConcat(PropertyTypesCode(spec, resource, init, n), FunctionsFor(spec, t, n));
      }
    }
  }

  /** The code of one resource: its own and that of its property types. */
  lemma InOneResource(spec: Spec, resource: string, n: nat)
    requires AliasesEnd(spec, n) && resource in spec.resourceTypes
    ensures var code := ResourceCode(spec, resource, n) + PropertyTypesCode(spec, resource, spec.propertyTypeNames, n);
            Distinct(code) && forall e :: e in code <==> Expected(spec, e, n) && ResourceOf(e) == resource
  {
    InResourceCode(spec, resource, n);
    InPropertyTypesCode(spec, resource, spec.propertyTypeNames, n);
    hide ResourceCode, PropertyTypesCode, FunctionFor, ClassFor;
    DistinctConcat(ResourceCode(spec, resource, n), PropertyTypesCode(spec, resource, spec.propertyTypeNames, n));
    forall e | Expected(spec, e, n) && ResourceOf(e) == resource && e.Function? && !e.fn.of.Props?
      ensures e.fn.of.PropertyTypeName? && TypeKey(resource, e.fn.of.name) in spec.propertyTypeNames
    {
      assert HasFunctions(spec, e.fn.of);
    }
  }

  /** The code is that of the resources: each of their functions and classes once. */
  ghost predicate IsCodeOf(spec: Spec, resources: seq<string>, code: seq<Emitted>, n: nat)
    requires AliasesEnd(spec, n)
  {
    Distinct(code) && forall e :: e in code <==> Expected(spec, e, n) && ResourceOf(e) in resources
  }

  lemma CodeOfOneMore(spec: Spec, init: seq<string>, last: string, a: seq<Emitted>, b: seq<Emitted>, n: nat)
    requires AliasesEnd(spec, n) && IsCodeOf(spec, init, a, n) && last !in init
    requires Distinct(b) && forall e :: e in b <==> Expected(spec, e, n) && ResourceOf(e) == last
    ensures IsCodeOf(spec, init + [last], a + b, n)
  {
    hide AliasesEnd, Expected, ResourceOf;
    DistinctConcat(a, b);
  }

  lemma CodeSplit(spec: Spec, resources: seq<string>, n: nat)
    requires AliasesEnd(spec, n) && Distinct(resources) && resources != []
    ensures var init, last := resources[..|resources| - 1], resources[|resources| - 1];
      && resources == init + [last] && last !in init && Distinct(init)
      && Code(spec, resources, n)
         == Code(spec, init, n)
           + (ResourceCode(spec, last, n) + PropertyTypesCode(spec, last, spec.propertyTypeNames, n))
  {
    hide AliasesEnd, ResourceCode, PropertyTypesCode;
  }

  lemma InCode(spec: Spec, resources: seq<string>, n: nat)
    requires AliasesEnd(spec, n) && Distinct(resources) && forall r :: r in resources ==> r in spec.resourceTypes
    ensures IsCodeOf(spec, resources, Code(spec, resources, n), n)
  {
    if resources != [] {
      var init, last := resources[..|resources| - 1], resources[|resources| - 1];
      CodeSplit(spec, resources, n);
      hide *;
      InCode(spec, init, n);
      InOneResource(spec, last, n);
      CodeOfOneMore(spec, init, last, Code(spec, init, n),
                    ResourceCode(spec, last, n) + PropertyTypesCode(spec, last, spec.propertyTypeNames, n), n);
    }
  }

  /** Each function and class of the specification is emitted once, and nothing else is. */
  lemma CodeComplete(spec: Spec, n: nat)
    requires AliasesEnd(spec, n)
    ensures var code := Code(spec, spec.resourceNames, n);
            Distinct(code) && forall e :: e in code <==> Expected(spec, e, n)
  {
    InCode(spec, spec.resourceNames, n);
  }

  class CodeGenerator {
    const spec: Spec
    ghost const depth: nat
    var code: seq<Emitted>

    constructor (spec: Spec, ghost depth: nat)
      ensures this.spec == spec && this.depth == depth && code == []
    {
      this.spec, this.depth, code := spec, depth, [];
    }

    /** One pass over the properties of `t`, with the visitor of a kind. */
    method VisitProperties(kind: Kind, t: CodeName) returns (r: seq<Use>)
      requires AliasesEnd(spec, depth) && HasFunctions(spec, t)
      ensures r == Expressions(spec, kind, t, depth)
    {
      var ps := PropertiesOf(spec, t);
      r := [];
      while |r| < |ps|
        invariant |r| <= |ps| && r == Expressions(spec, kind, t, depth)[..|r|]
      {
        var p := ps[|r|];
        r := r + [OfField(Dispatch(spec, kind, t.resource, p, depth), p.name, p.required)];
      }
    }

    method EmitPropertiesValidator(t: CodeName)
      requires AliasesEnd(spec, depth) && HasFunctions(spec, t)
      modifies this`code
      ensures code == old(code) + [FunctionFor(spec, Validator, t, depth)]
    {
      var expressions := VisitProperties(Validator, t);
      code := code + [Function(Fn(Validator, t), expressions)];
    }

    method EmitCloudFormationMapper(t: CodeName)
      requires AliasesEnd(spec, depth) && HasFunctions(spec, t)
      modifies this`code
      ensures code == old(code) + [FunctionFor(spec, Mapper, t, depth)]
    {
      var expressions := VisitProperties(Mapper, t);
      code := code + [Function(Fn(Mapper, t), [Whole(Call(Fn(Validator, t)))] + expressions)];
    }

    method EmitFromCfnFactoryFunction(t: CodeName)
      requires AliasesEnd(spec, depth) && HasFunctions(spec, t)
      modifies this`code
      ensures code == old(code) + [FunctionFor(spec, Factory, t, depth)]
    {
      var expressions := VisitProperties(Factory, t);
      code := code + [Function(Fn(Factory, t), expressions)];
    }

    /** The functions of a resource's properties, if it has any. */
    method EmitPropsType(resource: string) returns (propsType: bool)
      requires AliasesEnd(spec, depth) && resource in spec.resourceTypes
      modifies this`code
      ensures propsType == HasFunctions(spec, Props(resource))
      ensures code == old(code) + if propsType then FunctionsFor(spec, Props(resource), depth) else []
    {
      if spec.resourceTypes[resource] == [] { return false; }
      hide AliasesEnd, FunctionFor;
      EmitPropertiesValidator(Props(resource));
      EmitCloudFormationMapper(Props(resource));
      EmitFromCfnFactoryFunction(Props(resource));
      return true;
    }

    method EmitResourceType(resource: string)
      requires AliasesEnd(spec, depth) && resource in spec.resourceTypes
      modifies this`code
      ensures code == old(code) + ResourceCode(spec, resource, depth)
    {
      var propsType := EmitPropsType(resource);
      var uses := [];
      if propsType { uses := [Whole(Call(Fn(Factory, Props(resource)))), Whole(Call(Fn(Mapper, Props(resource))))]; }
      code := code + [ResourceClass(resource, uses)];
    }

    method EmitPropertyType(t: CodeName)
      requires AliasesEnd(spec, depth) && HasFunctions(spec, t)
      modifies this`code
      ensures code == old(code) + FunctionsFor(spec, t, depth)
    {
      EmitPropertiesValidator(t);
      EmitCloudFormationMapper(t);
      EmitFromCfnFactoryFunction(t);
    }

    /** Property types that are records get functions; aliases get none. */
    method EmitPropertyTypes(resource: string)
      requires AliasesEnd(spec, depth) && resource in spec.resourceTypes
      modifies this`code
      ensures code == old(code) + PropertyTypesCode(spec, resource, spec.propertyTypeNames, depth)
    {
      hide *;
      var keys := spec.propertyTypeNames;
      NamesDeclared(spec, depth);
      var i := 0;
      assert PropertyTypesCode(spec, resource, keys[..0], depth) == [] by {
        PropertyTypesCodeNone(spec, resource, depth);
      }
      while i < |keys|
        invariant 0 <= i <= |keys|
        invariant code == old(code) + PropertyTypesCode(spec, resource, keys[..i], depth)
      {
        var key := keys[i];
        PropertyTypesCodeNext(spec, resource, keys, i, depth);
        if key.resource == resource && spec.propertyTypes[key].Record? {
          EmitPropertyType(PropertyTypeName(resource, key.name));
        }
        i := i + 1;
      }
      assert keys[..i] == keys;
    }

    /** Each function and class of the specification is emitted once, and nothing else is. */
    method EmitCode()
      requires AliasesEnd(spec, depth) && code == []
      modifies this`code
      ensures Distinct(code) && forall e :: e in code <==> Expected(spec, e, depth)
      ensures NoDangling(code) <==> SoundSpec(spec, depth)
    {
      var i := 0;
      while i < |spec.resourceNames|
        invariant 0 <= i <= |spec.resourceNames|
        invariant code == Code(spec, spec.resourceNames[..i], depth)
      {
        var name := spec.resourceNames[i];
        assert spec.resourceNames[..i + 1][..i] == spec.resourceNames[..i];
        EmitResourceType(name);
        EmitPropertyTypes(name);
        i := i + 1;
      }
      assert spec.resourceNames[..i] == spec.resourceNames;
      CodeComplete(spec, depth);
      NoDanglingIffSound(spec, code, depth);
    }
  }

  // ---------------------------------------------------------------- references

  ghost predicate Defines(code: seq<Emitted>, fn: Fn) {
    exists e :: e in code && e.Function? && e.fn == fn
  }

  /** Whatever function emitted code refers to is built in or emitted. */
  ghost predicate NoDangling(code: seq<Emitted>) {
    forall e, u, fn :: e in code && u in e.uses && fn in RefsOf(u.expr) ==> IsBuiltIn(fn.of) || Defines(code, fn)
  }

  /** Every property of an emitted type is sound. */
  ghost predicate SoundSpec(spec: Spec, n: nat)
    requires AliasesEnd(spec, n)
  {
    forall t, p :: HasFunctions(spec, t) && p in PropertiesOf(spec, t) ==> Sound(spec, t.resource, p, n)
  }

  lemma DefinesIfExpected(spec: Spec, code: seq<Emitted>, fn: Fn, n: nat)
    requires AliasesEnd(spec, n) && forall e :: e in code <==> Expected(spec, e, n)
    ensures Defines(code, fn) <==> HasFunctions(spec, fn.of)
  {
    if HasFunctions(spec, fn.of) {
      var e := FunctionFor(spec, fn.kind, fn.of, n);
      assert Expected(spec, e, n) && e.fn == fn;
    }
  }

  lemma NoDanglingIfSound(spec: Spec, code: seq<Emitted>, n: nat)
    requires AliasesEnd(spec, n) && (forall e :: e in code <==> Expected(spec, e, n)) && SoundSpec(spec, n)
    ensures NoDangling(code)
  {
    hide AliasesEnd, SoundSpec, Expected, HasFunctions, RefsOf, IsBuiltIn;
    forall e, u, fn | e in code && u in e.uses && fn in RefsOf(u.expr) ensures IsBuiltIn(fn.of) || Defines(code, fn) {
      UseResolves(spec, e, u, n);
      DefinesIfExpected(spec, code, fn, n);
      assert Exists(spec, fn.of);
    }
  }

  /** The mapper alone refers to everything that its property has to be sound for. */
  lemma PropertySound(spec: Spec, code: seq<Emitted>, t: CodeName, i: nat, n: nat)
    requires AliasesEnd(spec, n) && (forall e :: e in code <==> Expected(spec, e, n)) && NoDangling(code)
    requires HasFunctions(spec, t) && i < |PropertiesOf(spec, t)|
    ensures var p := PropertiesOf(spec, t)[i]; Inlines(spec, t.resource, p, n) && Sound(spec, t.resource, p, n)
  {
    var p := PropertiesOf(spec, t)[i];
    var e := FunctionFor(spec, Mapper, t, n);
    MapperUses(spec, t, i, n);
    var u := Dispatch(spec, Mapper, t.resource, p, n);
    assert e in code && e.uses[i + 1] in e.uses;
    hide AliasesEnd, HasFunctions, IsBuiltIn, RefsOf, Expected, FunctionFor, WellShaped, Inlines, Dispatch,
         PropertiesOf;
    forall fn | fn in RefsOf(u) ensures Exists(spec, fn.of) {
      DefinesIfExpected(spec, code, fn, n);
    }
    ResolvesIffSound(spec, Mapper, t.resource, p, n);
  }

  lemma MapperUses(spec: Spec, t: CodeName, i: nat, n: nat)
    requires AliasesEnd(spec, n) && HasFunctions(spec, t) && i < |PropertiesOf(spec, t)|
    ensures var e, p := FunctionFor(spec, Mapper, t, n), PropertiesOf(spec, t)[i];
      && Expected(spec, e, n) && WellShaped(p) && Inlines(spec, t.resource, p, n)
      && i + 1 < |e.uses| && e.uses[i + 1].expr == Dispatch(spec, Mapper, t.resource, p, n)
  {
    assert PropertiesOf(spec, t)[i] in PropertiesOf(spec, t);
    hide Dispatch, Inlines;
  }

  lemma NoDanglingIffSound(spec: Spec, code: seq<Emitted>, n: nat)
    requires AliasesEnd(spec, n) && forall e :: e in code <==> Expected(spec, e, n)
    ensures NoDangling(code) <==> SoundSpec(spec, n)
  {
    if NoDangling(code) {
      forall t, p | HasFunctions(spec, t) && p in PropertiesOf(spec, t) ensures Sound(spec, t.resource, p, n) {
        hide AliasesEnd, Expected, NoDangling, Sound;
        var i :| 0 <= i < |PropertiesOf(spec, t)| && PropertiesOf(spec, t)[i] == p;
        PropertySound(spec, code, t, i, n);
      }
    }
    if SoundSpec(spec, n) { NoDanglingIfSound(spec, code, n); }
  }

  lemma UseResolves(spec: Spec, e: Emitted, u: Use, n: nat)
    requires AliasesEnd(spec, n) && SoundSpec(spec, n) && Expected(spec, e, n) && u in e.uses
    ensures Resolves(spec, u.expr)
  {
    match e
    case ResourceClass(r, _) =>
    case Function(fn, _) =>
      if u in Expressions(spec, fn.kind, fn.of, n) {
        var i :| 0 <= i < |PropertiesOf(spec, fn.of)| && u == Expressions(spec, fn.kind, fn.of, n)[i];
        ResolvesIffSound(spec, fn.kind, fn.of.resource, PropertiesOf(spec, fn.of)[i], n);
      }
  }
}
