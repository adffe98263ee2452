/** JSON schemas, and what the schemas of types, interfaces and methods look like. */
module Schemas {
  import opened Options
  import opened JsiiTypes
  import opened Schematizability

  /** A JSON schema. The items of an array and the properties of an object can be undefined. The
      schema of a resource does not say that it has to be an object. */
  datatype Schema =
    | Any
    | OfType(typ: string)
    | DateTime
    | Array(items: Option<Schema>)
    | Map(values: Schema)
    | AnyOf(options: seq<Schema>)
    | EnumOf(names: seq<string>)
    | ConstructRef
    | Object(properties: seq<Field>, required: seq<string>)
    | IfObject(entries: seq<Field>)
    | Ref(key: Key)

  datatype Field = Field(name: string, schema: Option<Schema>)

  type Definitions = map<Key, Schema>

  /** Every reference in the schema is to one of `keys`, and every array has items. */
  ghost predicate WellBuilt(s: Schema, keys: set<Key>) {
    match s
    case Array(items) => items.Some? && WellBuilt(items.value, keys)
    case Map(values) => WellBuilt(values, keys)
    case AnyOf(options) => forall i :: 0 <= i < |options| ==> WellBuilt(options[i], keys)
    case Object(properties, _) =>
      forall i :: 0 <= i < |properties| ==> properties[i].schema.Some? ==> WellBuilt(properties[i].schema.value, keys)
    case IfObject(entries) =>
      forall i :: 0 <= i < |entries| ==> entries[i].schema.Some? ==> WellBuilt(entries[i].schema.value, keys)
    case Ref(key) => key in keys
    case _ => true
  }

  lemma WellBuiltMore(s: Schema, keys: set<Key>, more: set<Key>)
    requires WellBuilt(s, keys) && keys <= more
    ensures WellBuilt(s, more)
  {
  }

  // ---------------------------------------------------------------- references to types

  function SchemaForPrimitive(name: string): Schema {
    if name == "date" then DateTime
    else if name == "json" then OfType("object")
    else if name == "any" then Any
    else OfType(name)
  }

  function Names(ps: seq<Property>): seq<string> {
    seq(|ps|, i requires 0 <= i < |ps| => ps[i].name)
  }

  /** `t` has a schema that needs no definition. */
  ghost predicate Firm(sys: System, t: TypeRef) {
    match t
    case Primitive(_) => true
    case ArrayOf(e) => Firm(sys, e)
    case MapOf(e) => Firm(sys, e)
    case UnionOf(ts) => exists i :: 0 <= i < |ts| && Firm(sys, ts[i])
    case Named(f) => IsConstructType(sys, f) || (f in sys.types && sys.types[f].Enum?)
    case Void => false
  }

  lemma FirmAvoids(sys: System, t: TypeRef, avoid: set<Key>)
    requires Closed(sys) && RefClosed(sys, t) && Firm(sys, t)
    ensures SchematizableAvoiding(sys, t, avoid)
    decreases t
  {
    assert Derivable(sys, t, avoid, 0) by { FirmDerivable(sys, t, avoid); }
  }

  lemma {:induction false} FirmDerivable(sys: System, t: TypeRef, avoid: set<Key>)
    requires Closed(sys) && RefClosed(sys, t) && Firm(sys, t)
    ensures Derivable(sys, t, avoid, 0)
    decreases t
  {
    match t
    case ArrayOf(e) => FirmDerivable(sys, e, avoid);
    case MapOf(e) => FirmDerivable(sys, e, avoid);
    case UnionOf(ts) =>
      var i :| 0 <= i < |ts| && Firm(sys, ts[i]);
      FirmDerivable(sys, ts[i], avoid);
    case _ =>
  }

  /** `s` is what a reference to `t` is rendered as. A union may leave out members that need definitions. */
  ghost predicate Describes(sys: System, t: TypeRef, s: Schema)
    requires RefClosed(sys, t)
    decreases t
  {
    match t
    case Primitive(name) => s == SchemaForPrimitive(name)
    case ArrayOf(e) => s.Array? && s.items.Some? && Describes(sys, e, s.items.value)
    case MapOf(e) => s.Map? && Describes(sys, e, s.values)
    case UnionOf(ts) =>
      && s.AnyOf? && s.options != []
      && (forall k :: 0 <= k < |s.options| ==> exists i :: 0 <= i < |ts| && Describes(sys, ts[i], s.options[k]))
      && (forall i :: 0 <= i < |ts| && Firm(sys, ts[i]) ==>
            exists k :: 0 <= k < |s.options| && Describes(sys, ts[i], s.options[k]))
    case Named(f) =>
      if IsConstruct(sys, t) then s == ConstructRef
      else if sys.types[f].Enum? then s == EnumOf(sys.types[f].members)
      else s == Ref(TypeKey(f))
    case Void => false
  }

  // ---------------------------------------------------------------- definitions

  ghost predicate AllClosed(sys: System, ps: seq<Property>) {
    forall i :: 0 <= i < |ps| ==> RefClosed(sys, ps[i].typ)
  }

  function RequiredNames(ps: seq<Property>): seq<string> {
    if ps == [] then []
    else
      var r := RequiredNames(ps[..|ps| - 1]);
      if ps[|ps| - 1].optional then r else r + [ps[|ps| - 1].name]
  }

  /** A field for each property in turn. One that is left out is optional, and has no schema
      without the names in `avoid`; one that is listed has a schema. */
  ghost predicate FieldsFor(sys: System, ps: seq<Property>, fields: seq<Field>, avoid: set<Key>)
    requires Closed(sys) && AllClosed(sys, ps)
    decreases |ps|
  {
    if ps == [] then fields == []
    else
      var init, last := ps[..|ps| - 1], ps[|ps| - 1];
      || (last.optional && !SchematizableAvoiding(sys, last.typ, avoid) && FieldsFor(sys, init, fields, avoid))
      || (fields != [] && FieldsFor(sys, init, fields[..|fields| - 1], avoid)
          && PropertyField(sys, last, fields[|fields| - 1]))
  }

  ghost predicate PropertyField(sys: System, p: Property, field: Field)
    requires Closed(sys) && RefClosed(sys, p.typ)
  {
    field.name == p.name && field.schema.Some? && Describes(sys, p.typ, field.schema.value) && Schematizable(sys, p.typ)
  }

  /** The schema of a data interface, made while the names in `avoid` were under way. */
  ghost predicate InterfaceShape(sys: System, f: Fqn, s: Schema, avoid: set<Key>)
    requires Closed(sys)
  {
    && f in sys.types && sys.types[f].Interface? && AllClosed(sys, sys.types[f].allProperties)
    && s.Object? && s.required == RequiredNames(sys.types[f].allProperties)
    && FieldsFor(sys, sys.types[f].allProperties, s.properties, avoid)
  }

  /** A field for each parameter in turn, except for required ones that have no schema without
      the names in `avoid`; an optional one that has none is listed without. */
  ghost predicate ParametersFor(sys: System, ps: seq<Property>, fields: seq<Field>, required: seq<string>,
                                avoid: set<Key>)
    requires Closed(sys) && AllClosed(sys, ps)
    decreases |ps|
  {
    if ps == [] then fields == [] && required == []
    else
      var init, last := ps[..|ps| - 1], ps[|ps| - 1];
      || (!last.optional && !SchematizableAvoiding(sys, last.typ, avoid)
          && ParametersFor(sys, init, fields, required, avoid))
      || (fields != [] && ParameterField(sys, last, fields[|fields| - 1], avoid)
          && if last.optional then ParametersFor(sys, init, fields[..|fields| - 1], required, avoid)
             else required != [] && required[|required| - 1] == last.name
                  && ParametersFor(sys, init, fields[..|fields| - 1], required[..|required| - 1], avoid))
  }

  ghost predicate ParameterField(sys: System, p: Property, field: Field, avoid: set<Key>)
    requires Closed(sys) && RefClosed(sys, p.typ)
  {
    if field.schema.Some? then PropertyField(sys, p, field)
    else field.name == p.name && p.optional && !SchematizableAvoiding(sys, p.typ, avoid)
  }

  predicate IsDataType(sys: System, f: Fqn) {
    f in sys.types && sys.types[f].Interface? && sys.types[f].isData
  }

  predicate EndsInStruct(sys: System, m: Callable) {
    m.parameters != [] && m.parameters[|m.parameters| - 1].typ.Named?
      && IsDataType(sys, m.parameters[|m.parameters| - 1].typ.fqn)
  }

  /** The parameters of a method, a struct at the end being spread out or left out. */
  function Arguments(sys: System, m: Callable, spread: bool): seq<Property> {
    if EndsInStruct(sys, m) then
      m.parameters[..|m.parameters| - 1]
        + if spread then sys.types[m.parameters[|m.parameters| - 1].typ.fqn].allProperties else []
    else m.parameters
  }

  /** What becomes of the fields and required names when `p` is added. */
  ghost predicate Added(sys: System, p: Property, fields: seq<Field>, required: seq<string>, fields': seq<Field>,
                        required': seq<string>, avoid: set<Key>)
    requires Closed(sys) && RefClosed(sys, p.typ)
  {
    || (!p.optional && !SchematizableAvoiding(sys, p.typ, avoid) && fields' == fields && required' == required)
    || (exists field :: ParameterField(sys, p, field, avoid) && fields' == fields + [field]
                        && required' == if p.optional then required else required + [p.name])
  }

  /** Whether the struct `f` is spread out is whether it has a schema. */
  ghost predicate Spread(sys: System, f: Fqn, spread: bool, avoid: set<Key>)
    requires Closed(sys)
  {
    if spread then IsDataInterface(sys, f) && Schematizable(sys, Named(f))
    else IsDataInterface(sys, f) ==> Fails(sys, f, avoid)
  }

  ghost predicate SpreadIfStruct(sys: System, m: Callable, spread: bool, avoid: set<Key>)
    requires Closed(sys)
  {
    EndsInStruct(sys, m) ==> Spread(sys, m.parameters[|m.parameters| - 1].typ.fqn, spread, avoid)
  }

  ghost predicate MethodShape(sys: System, m: Callable, s: Schema, avoid: set<Key>)
    requires Closed(sys)
  {
    s.Object? && exists spread ::
      && AllClosed(sys, Arguments(sys, m, spread)) && SpreadIfStruct(sys, m, spread, avoid)
      && ParametersFor(sys, Arguments(sys, m, spread), s.properties, s.required, avoid)
  }

  /** The alternative that an enum-like method adds, and that an initializer does. */
  function Call(name: string, m: Callable): Schema {
    Object([Field(name, Some(Ref(KeyOf(m))))], [])
  }

  /** The enum-like members of a class: its properties, and the methods that are not under way. */
  function EnumLikeOptions(sys: System, f: Fqn, stack: set<Key>): seq<Schema>
    requires f in sys.types && sys.types[f].Class?
  {
    EnumLikeUpTo(sys, f, |EnumLikeMethods(sys, f, sys.types[f].allMethods)|, stack)
  }

  /** The properties and the first `n` methods. */
  function EnumLikeUpTo(sys: System, f: Fqn, n: nat, stack: set<Key>): seq<Schema>
    requires f in sys.types && sys.types[f].Class? && n <= |EnumLikeMethods(sys, f, sys.types[f].allMethods)|
  {
    var ps := EnumLikeProperties(sys, f, sys.types[f].allProperties);
    (if ps == [] then [] else [EnumOf(Names(ps))]) + Calls(EnumLikeMethods(sys, f, sys.types[f].allMethods)[..n], stack)
  }

  function Calls(ms: seq<Callable>, stack: set<Key>): seq<Schema> {
    if ms == [] then []
    else
      var r, last := Calls(ms[..|ms| - 1], stack), ms[|ms| - 1];
      if KeyOf(last) in stack then r else r + [Call(last.name, last)]
  }

  /** One of the alternatives that stand for a class or interface. */
  ghost predicate Alternative(sys: System, f: Fqn, s: Schema)
    requires Closed(sys) && f in sys.types
  {
    || (sys.types[f].Class? && s == EnumOf(Names(EnumLikeProperties(sys, f, sys.types[f].allProperties))))
    || (sys.types[f].Class?
        && exists m :: m in EnumLikeMethods(sys, f, sys.types[f].allMethods) && s == Call(m.name, m))
    || (exists x :: x in Implementations(sys, f, sys.classes) && Offers(sys, x, s))
  }

  /** What the concrete class `x` adds to the alternatives of what it implements. */
  ghost predicate Offers(sys: System, x: Fqn, s: Schema) {
    || s == Ref(TypeKey(x))
    || (x in sys.types && sys.types[x].Class? && sys.types[x].initializer.Some?
        && s == Call(x, sys.types[x].initializer.value))
  }

  ghost predicate AlternativesShape(sys: System, f: Fqn, s: Schema)
    requires Closed(sys)
  {
    f in sys.types && s.AnyOf? && s.options != []
      && forall i :: 0 <= i < |s.options| ==> Alternative(sys, f, s.options[i])
  }

  /** The third parameter of the initializer of a construct, its props. */
  ghost predicate HasProps(sys: System, c: Fqn, props: TypeRef) {
    && c in sys.types && sys.types[c].Class? && sys.types[c].initializer.Some?
    && |sys.types[c].initializer.value.parameters| >= 3 && props == sys.types[c].initializer.value.parameters[2].typ
  }

  function Resource(c: Fqn, props: Schema): Schema {
    IfObject([Field("Properties", Some(props)), Field("Type", Some(EnumOf([c])))])
  }

  /** What is defined under a key. */
  ghost predicate DefinedAs(sys: System, key: Key, s: Schema)
    requires Closed(sys)
  {
    match key
    case Given(_) => true
    case MethodKey(_, _) => exists m, avoid :: KeyOf(m) == key && key in avoid && MethodShape(sys, m, s, avoid)
    case TypeKey(f) =>
      || (exists avoid :: key in avoid && InterfaceShape(sys, f, s, avoid))
      || AlternativesShape(sys, f, s)
      || exists t, p :: HasProps(sys, f, t) && RefClosed(sys, t) && Describes(sys, t, p) && s == Resource(f, p)
  }

  // ---------------------------------------------------------------- one more

  lemma FieldsForNext(sys: System, ps: seq<Property>, i: nat, fields: seq<Field>, schema: Option<Schema>,
                      avoid: set<Key>)
    requires Closed(sys) && AllClosed(sys, ps) && i < |ps| && AllClosed(sys, ps[..i])
             && FieldsFor(sys, ps[..i], fields, avoid)
    requires if schema.Some? then Describes(sys, ps[i].typ, schema.value) && Schematizable(sys, ps[i].typ)
             else ps[i].optional && !SchematizableAvoiding(sys, ps[i].typ, avoid)
    ensures AllClosed(sys, ps[..i + 1])
    ensures FieldsFor(sys, ps[..i + 1], if schema.Some? then fields + [Field(ps[i].name, schema)] else fields, avoid)
    ensures RequiredNames(ps[..i + 1])
            == if ps[i].optional then RequiredNames(ps[..i]) else RequiredNames(ps[..i]) + [ps[i].name]
  {
    hide Schematizable, SchematizableAvoiding, Describes, Closed;
    assert ps[..i + 1][..i] == ps[..i];
    if schema.Some? { assert (fields + [Field(ps[i].name, schema)])[..|fields|] == fields; }
  }

  lemma ParametersForNext(sys: System, ps: seq<Property>, p: Property, fields: seq<Field>, required: seq<string>,
                          fields': seq<Field>, required': seq<string>, avoid: set<Key>)
    requires Closed(sys) && AllClosed(sys, ps) && RefClosed(sys, p.typ)
             && ParametersFor(sys, ps, fields, required, avoid)
    requires Added(sys, p, fields, required, fields', required', avoid)
    ensures AllClosed(sys, ps + [p]) && ParametersFor(sys, ps + [p], fields', required', avoid)
  {
    hide SchematizableAvoiding, ParameterField, Closed;
    var more := ps + [p];
    assert more[..|more| - 1] == ps;
    if fields' != fields {
      assert fields'[..|fields'| - 1] == fields && (!p.optional ==> required'[..|required'| - 1] == required);
    }
  }

  lemma EnumLikeStarts(sys: System, f: Fqn, stack: set<Key>)
    requires f in sys.types && sys.types[f].Class?
    ensures var ps := EnumLikeProperties(sys, f, sys.types[f].allProperties);
            EnumLikeUpTo(sys, f, 0, stack) == if ps == [] then [] else [EnumOf(Names(ps))]
  {
  }

  lemma EnumLikeNext(sys: System, f: Fqn, i: nat, stack: set<Key>)
    requires f in sys.types && sys.types[f].Class? && i < |EnumLikeMethods(sys, f, sys.types[f].allMethods)|
    ensures var m, options := EnumLikeMethods(sys, f, sys.types[f].allMethods)[i], EnumLikeUpTo(sys, f, i, stack);
            EnumLikeUpTo(sys, f, i + 1, stack) == if KeyOf(m) in stack then options else options + [Call(m.name, m)]
  {
    CallsNext(EnumLikeMethods(sys, f, sys.types[f].allMethods), i, stack);
    hide EnumLikeMethods, EnumLikeProperties, Calls, Call, Names, KeyOf;
  }

  lemma CallsNext(ms: seq<Callable>, i: nat, stack: set<Key>)
    requires i < |ms|
    ensures Calls(ms[..i + 1], stack) ==
            if KeyOf(ms[i]) in stack then Calls(ms[..i], stack) else Calls(ms[..i], stack) + [Call(ms[i].name, ms[i])]
  {
    assert ms[..i + 1][..i] == ms[..i] && ms[..i + 1][i] == ms[i];
    hide KeyOf;
  }

  lemma {:induction false} CallsOfMethods(ms: seq<Callable>, stack: set<Key>)
    ensures forall s :: s in Calls(ms, stack) ==> exists m :: m in ms && s == Call(m.name, m)
  {
    if ms != [] {
      CallsOfMethods(ms[..|ms| - 1], stack);
      assert ms[|ms| - 1] in ms;
    }
  }

  lemma EnumLikeShape(sys: System, f: Fqn, stack: set<Key>)
    requires Closed(sys) && f in sys.types && sys.types[f].Class? && EnumLikeOptions(sys, f, stack) != []
    ensures AlternativesShape(sys, f, AnyOf(EnumLikeOptions(sys, f, stack)))
  {
    var options, ms := EnumLikeOptions(sys, f, stack), EnumLikeMethods(sys, f, sys.types[f].allMethods);
    assert ms[..|ms|] == ms;
    CallsOfMethods(ms, stack);
    forall i | 0 <= i < |options| ensures Alternative(sys, f, options[i]) {
      assert options[i] in options;
    }
  }

  /** What `x` has to offer without the names in `avoid` is among the options. */
  ghost predicate OffersListed(sys: System, x: Fqn, options: seq<Schema>, avoid: set<Key>) {
    && (HasEnumLike(sys, x, avoid) ==> Ref(TypeKey(x)) in options)
    && (x in sys.types && sys.types[x].Class? && sys.types[x].initializer.Some?
        && KeyOf(sys.types[x].initializer.value) !in avoid ==>
          Call(x, sys.types[x].initializer.value) in options)
  }

  /** All of `xs` are listed so. */
  ghost predicate AllListed(sys: System, xs: seq<Fqn>, options: seq<Schema>, avoid: set<Key>) {
    forall j :: 0 <= j < |xs| ==> OffersListed(sys, xs[j], options, avoid)
  }

  lemma ListedMore(sys: System, xs: seq<Fqn>, i: nat, options: seq<Schema>, more: seq<Schema>, avoid: set<Key>)
    requires i < |xs| && AllListed(sys, xs[..i], options, avoid) && options <= more
    requires OffersListed(sys, xs[i], more, avoid)
    ensures AllListed(sys, xs[..i + 1], more, avoid)
  {
    hide HasEnumLike, Call, KeyOf;
    assert forall s :: s in options ==> s in more;
    var listed := xs[..i + 1];
    forall j | 0 <= j < |listed| ensures OffersListed(sys, listed[j], more, avoid) {
      if j < i { assert xs[..i][j] == listed[j]; }
    }
  }

  /** Each of the alternatives is offered by one of `xs`. */
  ghost predicate OfferedBy(sys: System, xs: seq<Fqn>, options: seq<Schema>) {
    forall i :: 0 <= i < |options| ==> exists x :: x in xs && Offers(sys, x, options[i])
  }

  lemma OfferedByMore(sys: System, xs: seq<Fqn>, x: Fqn, options: seq<Schema>, more: seq<Schema>)
    requires OfferedBy(sys, xs, options) && x in xs && options <= more
    requires forall i :: |options| <= i < |more| ==> Offers(sys, x, more[i])
    ensures OfferedBy(sys, xs, more)
  {
    hide Offers;
    forall i | 0 <= i < |more| ensures exists x :: x in xs && Offers(sys, x, more[i]) {
      if i < |options| { assert more[i] == options[i]; } else { assert Offers(sys, x, more[i]); }
    }
  }

  lemma OfferedShape(sys: System, f: Fqn, options: seq<Schema>)
    requires Closed(sys) && f in sys.types && options != []
             && OfferedBy(sys, Implementations(sys, f, sys.classes), options)
    ensures AlternativesShape(sys, f, AnyOf(options))
  {
    hide Offers, Implementations;
  }

  /** An option for each of the types in turn. One that is left out has no schema without the
      names in `avoid`, and one that is listed has a schema. */
  ghost predicate OptionsFor(sys: System, ts: seq<TypeRef>, options: seq<Schema>, avoid: set<Key>)
    requires Closed(sys) && forall i :: 0 <= i < |ts| ==> RefClosed(sys, ts[i])
  {
    if ts == [] then options == []
    else
      var init, last := ts[..|ts| - 1], ts[|ts| - 1];
      || (!SchematizableAvoiding(sys, last, avoid) && OptionsFor(sys, init, options, avoid))
      || (options != [] && OptionsFor(sys, init, options[..|options| - 1], avoid)
          && Describes(sys, last, options[|options| - 1]) && Schematizable(sys, last))
  }

  lemma OptionsForNext(sys: System, ts: seq<TypeRef>, i: nat, options: seq<Schema>, s: Option<Schema>, avoid: set<Key>)
    requires Closed(sys) && (forall i :: 0 <= i < |ts| ==> RefClosed(sys, ts[i])) && i < |ts|
    requires OptionsFor(sys, ts[..i], options, avoid)
    requires if s.Some? then Describes(sys, ts[i], s.value) && Schematizable(sys, ts[i])
             else !SchematizableAvoiding(sys, ts[i], avoid)
    ensures OptionsFor(sys, ts[..i + 1], if s.Some? then options + [s.value] else options, avoid)
  {
    hide SchematizableAvoiding, Schematizable, Describes, Closed;
    assert ts[..i + 1][..i] == ts[..i];
    if s.Some? { assert (options + [s.value])[..|options|] == options; }
  }

  /** Each of the options describes one of the types. */
  ghost predicate DescribedBy(sys: System, ts: seq<TypeRef>, options: seq<Schema>)
    requires forall i :: 0 <= i < |ts| ==> RefClosed(sys, ts[i])
  {
    forall k :: 0 <= k < |options| ==> exists i :: 0 <= i < |ts| && Describes(sys, ts[i], options[k])
  }

  lemma {:induction false} OptionsDescribed(sys: System, ts: seq<TypeRef>, options: seq<Schema>, avoid: set<Key>)
    requires Closed(sys) && (forall i :: 0 <= i < |ts| ==> RefClosed(sys, ts[i])) && OptionsFor(sys, ts, options, avoid)
    ensures DescribedBy(sys, ts, options)
  {
    hide SchematizableAvoiding, Schematizable, Describes, Closed;
    if ts != [] {
      var init, last := ts[..|ts| - 1], ts[|ts| - 1];
      if !SchematizableAvoiding(sys, last, avoid) && OptionsFor(sys, init, options, avoid) {
        OptionsDescribed(sys, init, options, avoid);
        assert forall k :: 0 <= k < |options| ==> exists i :: 0 <= i < |init| && Describes(sys, init[i], options[k]);
        forall k | 0 <= k < |options| ensures exists i :: 0 <= i < |ts| && Describes(sys, ts[i], options[k]) {
          var i :| 0 <= i < |init| && Describes(sys, init[i], options[k]);
          assert ts[i] == init[i];
        }
      } else {
        var some := options[..|options| - 1];
        OptionsDescribed(sys, init, some, avoid);
        forall k | 0 <= k < |options| ensures exists i :: 0 <= i < |ts| && Describes(sys, ts[i], options[k]) {
          if k < |some| {
            assert options[k] == some[k];
            var i :| 0 <= i < |init| && Describes(sys, init[i], some[k]);
            assert ts[i] == init[i];
          } else {
            assert Describes(sys, ts[|ts| - 1], options[k]);
          }
        }
      }
    }
  }

  /** Each firm type is described by one of the options. */
  ghost predicate FirmDescribed(sys: System, ts: seq<TypeRef>, options: seq<Schema>)
    requires forall i :: 0 <= i < |ts| ==> RefClosed(sys, ts[i])
  {
    forall i :: 0 <= i < |ts| && Firm(sys, ts[i]) ==>
      exists k :: 0 <= k < |options| && Describes(sys, ts[i], options[k])
  }

  lemma {:induction false} FirmListed(sys: System, ts: seq<TypeRef>, options: seq<Schema>, avoid: set<Key>)
    requires Closed(sys) && (forall i :: 0 <= i < |ts| ==> RefClosed(sys, ts[i])) && OptionsFor(sys, ts, options, avoid)
    ensures FirmDescribed(sys, ts, options)
  {
    hide SchematizableAvoiding, Schematizable, Describes, Closed, Firm;
    if ts != [] {
      var init, last := ts[..|ts| - 1], ts[|ts| - 1];
      if Firm(sys, last) { FirmAvoids(sys, last, avoid); }
      if !SchematizableAvoiding(sys, last, avoid) && OptionsFor(sys, init, options, avoid) {
        FirmListed(sys, init, options, avoid);
        forall i | 0 <= i < |ts| && Firm(sys, ts[i])
          ensures exists k :: 0 <= k < |options| && Describes(sys, ts[i], options[k])
        {
          assert ts[i] == init[i];
        }
      } else {
        var some := options[..|options| - 1];
        FirmListed(sys, init, some, avoid);
        forall i | 0 <= i < |ts| && Firm(sys, ts[i])
          ensures exists k :: 0 <= k < |options| && Describes(sys, ts[i], options[k])
        {
          if i < |init| {
            assert ts[i] == init[i];
            var k :| 0 <= k < |some| && Describes(sys, ts[i], some[k]);
            assert options[k] == some[k];
          } else {
            assert Describes(sys, ts[i], options[|options| - 1]);
          }
        }
      }
    }
  }

  // ---------------------------------------------------------------- which required arguments are listed

  /** If all required arguments have a schema, even without the names in `avoid`, then all are
      listed; and if all are listed, then all have a schema. */
  lemma {:induction false} AllRequiredListed(sys: System, ps: seq<Property>, fields: seq<Field>,
                                             required: seq<string>, avoid: set<Key>)
    requires Closed(sys) && AllClosed(sys, ps) && ParametersFor(sys, ps, fields, required, avoid)
    ensures |required| <= |RequiredNames(ps)|
    ensures (forall i :: 0 <= i < |ps| && !ps[i].optional ==> SchematizableAvoiding(sys, ps[i].typ, avoid)) ==>
            required == RequiredNames(ps)
    ensures |required| == |RequiredNames(ps)| ==>
            forall i :: 0 <= i < |ps| && !ps[i].optional ==> Schematizable(sys, ps[i].typ)
    decreases |ps|
  {
    hide SchematizableAvoiding, Schematizable, Describes, Closed;
    if ps != [] {
      var init, last := ps[..|ps| - 1], ps[|ps| - 1];
      assert forall i :: 0 <= i < |init| ==> ps[i] == init[i];
      if !last.optional && !SchematizableAvoiding(sys, last.typ, avoid)
         && ParametersFor(sys, init, fields, required, avoid)
      {
        AllRequiredListed(sys, init, fields, required, avoid);
      } else if last.optional {
        AllRequiredListed(sys, init, fields[..|fields| - 1], required, avoid);
      } else {
        AllRequiredListed(sys, init, fields[..|fields| - 1], required[..|required| - 1], avoid);
        assert required == required[..|required| - 1] + [last.name];
      }
    }
  }

  /** A class that cannot be made from a schema, and a method that requires one. */
  const NO_SCHEMA := System(map["Opaque" := Class(true, None, [], [], {}, {})], [])
  const NEEDS_OPAQUE := Callable("Opaque", "of", [Property("it", Named("Opaque"), false, false)], true, Named("Opaque"))

  /** The required parameter of this method has no schema. The code means to give up then, but
      the method gets the schema of an object without any properties. */
  lemma RequiredParameterDropped(s: Schema, avoid: set<Key>)
    requires MethodShape(NO_SCHEMA, NEEDS_OPAQUE, s, avoid)
    ensures !Schematizable(NO_SCHEMA, NEEDS_OPAQUE.parameters[0].typ) && !NEEDS_OPAQUE.parameters[0].optional
    ensures s == Object([], [])
  {
    var sys, m := NO_SCHEMA, NEEDS_OPAQUE;
    var p := m.parameters[0];
    forall a: set<Key>, n: nat ensures !Derivable(sys, p.typ, a, n) {}
    assert !EndsInStruct(sys, m);
    var spread :| AllClosed(sys, Arguments(sys, m, spread))
        && ParametersFor(sys, Arguments(sys, m, spread), s.properties, s.required, avoid);
    assert Arguments(sys, m, spread) == [p] && [p][..0] == [];
  }
}
