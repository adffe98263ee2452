/** The schema of all constructs: each one is listed whose props can be given a schema. */
module CdkSchema {
  import opened Options
  import opened JsiiTypes
  import opened Schematizability
  import opened Schemas
  import opened Jsii2Schema

  datatype ConstructAndProps = ConstructAndProps(constructClass: Fqn, propsTypeRef: TypeRef)

  /** A concrete construct with an initializer that takes named props. */
  ghost predicate Unpacks(sys: System, d: ConstructAndProps) {
    HasProps(sys, d.constructClass, d.propsTypeRef) && !sys.types[d.constructClass].isAbstract && d.propsTypeRef.Named?
  }

  function UnpackConstruct(sys: System, klass: Fqn): (r: Option<ConstructAndProps>)
    requires Closed(sys) && klass in sys.types && sys.types[klass].Class?
    ensures forall d :: r == Some(d) <==> d.constructClass == klass && Unpacks(sys, d)
  {
    var c := sys.types[klass];
    if c.initializer.None? || c.isAbstract then None
    else if |c.initializer.value.parameters| < 3 then None
    else
      var propsParam := c.initializer.value.parameters[2];
      if !propsParam.typ.Named? then None else Some(ConstructAndProps(klass, propsParam.typ))
  }

  /** A construct to render: one that unpacks and is no CloudFormation resource. */
  ghost predicate Rendered(sys: System, d: ConstructAndProps) {
    Unpacks(sys, d) && IsConstructType(sys, d.constructClass)
      && !Extends(sys, d.constructClass, "@aws-cdk/core.CfnResource")
  }

  /** What is made of one class: one construct to render, or none. */
  function Deconstruct(sys: System, c: Fqn): (r: seq<ConstructAndProps>)
    requires Closed(sys) && c in sys.types && sys.types[c].Class?
    ensures |r| <= 1 && forall d :: d in r <==> d.constructClass == c && Rendered(sys, d)
  {
    var unpacked := if IsConstructType(sys, c) then UnpackConstruct(sys, c) else None;
    if unpacked.Some? && !Extends(sys, c, "@aws-cdk/core.CfnResource") then [unpacked.value] else []
  }

  function Deconstructs(sys: System, classes: seq<Fqn>): (r: seq<ConstructAndProps>)
    requires Closed(sys) && forall c :: c in classes ==> c in sys.types && sys.types[c].Class?
    ensures forall d :: d in r <==> d.constructClass in classes && Rendered(sys, d)
  {
    if classes == [] then [] else Deconstruct(sys, classes[0]) + Deconstructs(sys, classes[1..])
  }

  function Classes(ds: seq<ConstructAndProps>): (r: seq<Fqn>)
    ensures |r| == |ds| && forall i :: 0 <= i < |r| ==> r[i] == ds[i].constructClass
  {
    seq(|ds|, i requires 0 <= i < |ds| => ds[i].constructClass)
  }

  /** The constructs to render are in the order of their classes. */
  lemma {:induction false} DeconstructsInOrder(sys: System, classes: seq<Fqn>)
    requires Closed(sys) && forall c :: c in classes ==> c in sys.types && sys.types[c].Class?
    ensures LeavesOut(classes, Classes(Deconstructs(sys, classes)))
  {
    if classes != [] {
      DeconstructsInOrder(sys, classes[1..]);
      DeconstructsNext(sys, classes);
      LeavesOutNext(classes, Classes(Deconstructs(sys, classes[1..])));
    }
  }

  lemma DeconstructsNext(sys: System, classes: seq<Fqn>)
    requires Closed(sys) && (forall c :: c in classes ==> c in sys.types && sys.types[c].Class?) && classes != []
    ensures var now, rest := Classes(Deconstructs(sys, classes)), Classes(Deconstructs(sys, classes[1..]));
            now == rest || now == [classes[0]] + rest
  {
    hide Closed, Rendered, Deconstruct, LeavesOut;
    var c := classes[0];
    assert c in classes;
    OneMoreClass(c, Deconstruct(sys, c), Deconstructs(sys, classes[1..]));
  }

  lemma OneMoreClass(c: Fqn, one: seq<ConstructAndProps>, rest: seq<ConstructAndProps>)
    requires |one| <= 1 && forall d :: d in one ==> d.constructClass == c
    ensures Classes(one + rest) == Classes(rest) || Classes(one + rest) == [c] + Classes(rest)
  {
    if one == [] {
      assert [] + rest == rest;
    } else {
      assert one == [one[0]] && one[0] in one;
    }
  }

  ghost predicate AllRendered(sys: System, ds: seq<ConstructAndProps>)
    requires Closed(sys)
  {
    forall i :: 0 <= i < |ds| ==> Rendered(sys, ds[i]) && RefClosed(sys, ds[i].propsTypeRef)
  }

  lemma DeconstructsRendered(sys: System)
    requires Closed(sys)
    ensures AllRendered(sys, Deconstructs(sys, sys.classes))
  {
    var ds := Deconstructs(sys, sys.classes);
    forall i | 0 <= i < |ds| ensures Rendered(sys, ds[i]) && RefClosed(sys, ds[i].propsTypeRef) {
      assert ds[i] in ds;
      PropsClosed(sys, ds[i]);
    }
  }

  lemma PropsClosed(sys: System, d: ConstructAndProps)
    requires Closed(sys) && Unpacks(sys, d)
    ensures RefClosed(sys, d.propsTypeRef)
  {
  }

  /** The constructs whose props have a schema by the rules alone, in the order given. */
  ghost function Renderable(sys: System, ds: seq<ConstructAndProps>): seq<Fqn>
    requires Closed(sys) && AllRendered(sys, ds)
  {
    if ds == [] then []
    else
      var init := ds[..|ds| - 1];
      var d := ds[|ds| - 1];
      if Schematizable(sys, d.propsTypeRef) then Renderable(sys, init) + [d.constructClass] else Renderable(sys, init)
  }

  function RefsTo(fs: seq<Fqn>): seq<Schema> {
    if fs == [] then [] else RefsTo(fs[..|fs| - 1]) + [Ref(TypeKey(fs[|fs| - 1]))]
  }

  lemma RefsToNext(fs: seq<Fqn>, f: Fqn)
    ensures RefsTo(fs + [f]) == RefsTo(fs) + [Ref(TypeKey(f))]
  {
    assert (fs + [f])[..|fs|] == fs;
  }

  lemma RenderableNext(sys: System, ds: seq<ConstructAndProps>, i: nat)
    requires Closed(sys) && AllRendered(sys, ds) && i < |ds|
    ensures AllRendered(sys, ds[..i]) && AllRendered(sys, ds[..i + 1])
    ensures HasProps(sys, ds[i].constructClass, ds[i].propsTypeRef) && RefClosed(sys, ds[i].propsTypeRef)
            && IsConstruct(sys, Named(ds[i].constructClass))
    ensures Renderable(sys, ds[..i + 1]) ==
            if Schematizable(sys, ds[i].propsTypeRef) then Renderable(sys, ds[..i]) + [ds[i].constructClass]
              else Renderable(sys, ds[..i])
  {
    assert ds[..i + 1][..i] == ds[..i];
  }

  ghost predicate AllDefined(resources: seq<Fqn>, defs: Definitions) {
    forall c :: c in resources ==> TypeKey(c) in defs
  }

  lemma StillDefined(resources: seq<Fqn>, before: Definitions, after: Definitions)
    requires AllDefined(resources, before) && Kept(before, after)
    ensures AllDefined(resources, after)
  {
  }

  lemma OneMoreDefined(resources: seq<Fqn>, c: Fqn, defs: Definitions)
    requires AllDefined(resources, defs) && TypeKey(c) in defs
    ensures AllDefined(resources + [c], defs)
  {
  }

  method SchemaForResource(d: ConstructAndProps, ctx: SchemaContext) returns (s: Option<Schema>)
    requires ctx.Valid() && ctx.definitionStack == []
    requires RefClosed(ctx.sys, d.propsTypeRef) && HasProps(ctx.sys, d.constructClass, d.propsTypeRef)
             && IsConstruct(ctx.sys, Named(d.constructClass))
    modifies ctx
    ensures ctx.Called(old(ctx.definitions), [], s)
    ensures s.Some? <==> Schematizable(ctx.sys, d.propsTypeRef)
    ensures s.Some? ==> s == Some(Ref(TypeKey(d.constructClass))) && TypeKey(d.constructClass) in ctx.definitions
  {
    var props := ctx.SchemaForTypeReference(d.propsTypeRef);
    assert Keys(ctx.definitionStack) == {};
    if props.None? { return None; }
    var key := TypeKey(d.constructClass);
    if key !in ctx.definitions {
      ResourceDefined(ctx.sys, d, props.value);
      hide Consistent, WellBuilt, DefinedAs, Schematizable, SchematizableAvoiding, HasProps, Resource;
      InAllKeys(ctx.sys, d.constructClass);
      ResourceBuilt(d.constructClass, props.value, ctx.definitions.Keys);
      ctx.Enter(key);
      ctx.Leave(key, Some(Resource(d.constructClass, props.value)), []);
      RefBuilt(key, ctx.definitions.Keys);
    }
    return Some(Ref(key));
  }

  lemma ResourceDefined(sys: System, d: ConstructAndProps, props: Schema)
    requires Closed(sys) && RefClosed(sys, d.propsTypeRef) && HasProps(sys, d.constructClass, d.propsTypeRef)
    requires Describes(sys, d.propsTypeRef, props) && IsConstruct(sys, Named(d.constructClass))
    ensures DefinedAs(sys, TypeKey(d.constructClass), Resource(d.constructClass, props))
            && Schematizable(sys, Named(d.constructClass))
    ensures d.constructClass in sys.types
  {
    assert Derivable(sys, Named(d.constructClass), {}, 0);
  }

  lemma ResourceBuilt(c: Fqn, props: Schema, keys: set<Key>)
    requires WellBuilt(props, keys)
    ensures WellBuilt(Resource(c, props), keys)
  {
  }

  /** The resources found so far are listed and defined, and what was given is still there. */
  ghost predicate ListedSoFar(given: Definitions, listed: seq<Schema>, resources: seq<Fqn>, anyOf: seq<Schema>,
                              defs: Definitions)
  {
    anyOf == listed + RefsTo(resources) && AllDefined(resources, defs) && Kept(given, defs)
  }

  lemma ListedNext(given: Definitions, listed: seq<Schema>, resources: seq<Fqn>, anyOf: seq<Schema>,
                   before: Definitions, after: Definitions, c: Fqn)
    requires ListedSoFar(given, listed, resources, anyOf, before) && Kept(before, after)
    ensures ListedSoFar(given, listed, resources, anyOf, after)
    ensures TypeKey(c) in after ==> ListedSoFar(given, listed, resources + [c], anyOf + [Ref(TypeKey(c))], after)
  {
    StillDefined(resources, before, after);
    if TypeKey(c) in after { OneMoreDefined(resources, c, after); }
    RefsToNext(resources, c);
    assert anyOf + [Ref(TypeKey(c))] == listed + (RefsTo(resources) + [Ref(TypeKey(c))]);
  }

  /** The schema starts with the definitions given and the resources listed in the CloudFormation
      schema. The resources added to the list are exactly those whose props are schematizable,
      whatever was defined on the way and in whatever order the classes come. */
  method RenderFullSchema(sys: System, given: Definitions, listed: seq<Schema>)
    returns (anyOf: seq<Schema>, ctx: SchemaContext)
    requires Closed(sys) && forall k :: k in given ==> k.Given?
    ensures ctx.Valid() && ctx.sys == sys && ctx.definitionStack == []
            && AllRendered(sys, Deconstructs(sys, sys.classes))
    ensures anyOf == listed + RefsTo(Renderable(sys, Deconstructs(sys, sys.classes)))
    ensures AllDefined(Renderable(sys, Deconstructs(sys, sys.classes)), ctx.definitions) && Kept(given, ctx.definitions)
  {
    ctx := new SchemaContext(sys, given);
    var ds := Deconstructs(sys, sys.classes);
    DeconstructsRendered(sys);
    anyOf := listed;
    assert Renderable(sys, ds[..0]) == [] && ListedSoFar(given, listed, [], listed, given);
    hide Renderable, ListedSoFar, AllRendered, Deconstructs, Consistent;
    var i := 0;
    while i < |ds|
      invariant 0 <= i <= |ds| && fresh(ctx) && ctx.sys == sys && ctx.Valid() && ctx.definitionStack == []
      invariant AllRendered(sys, ds) && AllRendered(sys, ds[..i])
      invariant ListedSoFar(given, listed, Renderable(sys, ds[..i]), anyOf, ctx.definitions)
    {
      hide *;
      RenderableNext(sys, ds, i);
      ghost var before := ctx.definitions;
      var resource := SchemaForResource(ds[i], ctx);
      CalledFacts(ctx, before, [], resource);
      ListedNext(given, listed, Renderable(sys, ds[..i]), anyOf, before, ctx.definitions, ds[i].constructClass);
      if resource.Some? { anyOf := anyOf + [resource.value]; }
      i := i + 1;
    }
    assert ds[..i] == ds;
    ListedAtLast(given, listed, Renderable(sys, ds), anyOf, ctx.definitions);
  }

  lemma ListedAtLast(given: Definitions, listed: seq<Schema>, resources: seq<Fqn>, anyOf: seq<Schema>,
                     defs: Definitions)
    requires ListedSoFar(given, listed, resources, anyOf, defs)
    ensures anyOf == listed + RefsTo(resources) && AllDefined(resources, defs) && Kept(given, defs)
  {
  }
}
