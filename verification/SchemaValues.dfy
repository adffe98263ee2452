/** Which JSON values a schema admits, and which are values of a type, told apart from how schemas
    are generated; and that the schemas generated for types admit values of the types only. */
module SchemaValues {
  import opened Options
  import opened JsiiTypes
  import opened Schematizability
  import opened Schemas
  import opened Jsii2Schema

  datatype Value =
    | Null
    | Boolean(b: bool)
    | Number(x: real)
    | Text(text: string)
    | List(items: seq<Value>)
    | Record(entries: map<string, Value>)

  // ---------------------------------------------------------------- what a schema admits

  /** The types of JSON values by their names in schemas. */
  ghost predicate HasType(v: Value, typ: string) {
    match v
    case Null => typ == "null"
    case Boolean(_) => typ == "boolean"
    case Number(x) => typ == "number" || (typ == "integer" && x == x.Floor as real)
    case Text(_) => typ == "string"
    case List(_) => typ == "array"
    case Record(_) => typ == "object"
  }

  /** Of several fields of a name, the last one counts. */
  ghost predicate IsLast(fields: seq<Field>, name: string, i: int) {
    0 <= i < |fields| && fields[i].name == name && forall j :: i < j < |fields| ==> fields[j].name != name
  }

  /** `v` fits `s`, and the references met on the way are at most `n` deep. `dates` are the texts
      that are date-times. */
  ghost predicate Admits(defs: Definitions, dates: iset<string>, s: Schema, v: Value, n: nat)
    decreases n, s
  {
    match s
    case Any => true
    case OfType(typ) => HasType(v, typ)
    case DateTime => v.Text? && v.text in dates
    case Array(items) =>
      v.List? && (items.Some? ==> forall i :: 0 <= i < |v.items| ==> Admits(defs, dates, items.value, v.items[i], n))
    case Map(values) => v.Record? && forall k :: k in v.entries ==> Admits(defs, dates, values, v.entries[k], n)
    case AnyOf(options) => exists i :: 0 <= i < |options| && Admits(defs, dates, options[i], v, n)
    case EnumOf(names) => v.Text? && v.text in names
    case ConstructRef => v.Record? && ("Ref" in v.entries ==> v.entries["Ref"].Text?)
    case Object(properties, required) =>
      && v.Record? && (forall k :: k in required ==> k in v.entries)
      && forall k :: k in v.entries ==> FieldAdmits(defs, dates, properties, k, v.entries[k], n)
    case IfObject(properties) =>
      v.Record? ==> forall k :: k in v.entries ==> FieldAdmits(defs, dates, properties, k, v.entries[k], n)
    case Ref(key) => n > 0 && key in defs && Admits(defs, dates, defs[key], v, n - 1)
  }

  /** The field of the name has a schema, which `v` fits. */
  ghost predicate FieldAdmits(defs: Definitions, dates: iset<string>, fields: seq<Field>, name: string, v: Value,
                              n: nat)
    decreases n, fields
  {
    exists i :: IsLast(fields, name, i) && fields[i].schema.Some?
                && Admits(defs, dates, fields[i].schema.value, v, n)
  }

  // ---------------------------------------------------------------- the values of a type

  /** A construct goes by the name of a resource. */
  ghost predicate IsConstructRef(v: Value) {
    v.Record? && ("Ref" in v.entries ==> v.entries["Ref"].Text?)
  }

  ghost predicate ExtendsConstruct(sys: System, f: Fqn) {
    && f in sys.types
    && ((sys.types[f].Interface? && "constructs.IConstruct" in sys.types[f].extends_)
        || (sys.types[f].Class? && "constructs.Construct" in sys.types[f].extends_))
  }

  /** `v` is written for a value of the type, with names that lead to other types at most `n` deep. */
  ghost predicate IsValue(sys: System, dates: iset<string>, t: TypeRef, v: Value, n: nat)
    decreases n, 0, t
  {
    match t
    case Primitive(name) =>
      if name == "any" then true
      else if name == "json" then v.Record?
      else if name == "date" then v.Text? && v.text in dates
      else HasType(v, name)
    case ArrayOf(e) => v.List? && forall i :: 0 <= i < |v.items| ==> IsValue(sys, dates, e, v.items[i], n)
    case MapOf(e) => v.Record? && forall k :: k in v.entries ==> IsValue(sys, dates, e, v.entries[k], n)
    case UnionOf(ts) => exists i :: 0 <= i < |ts| && IsValue(sys, dates, ts[i], v, n)
    case Named(f) =>
      if ExtendsConstruct(sys, f) then IsConstructRef(v)
      else if f in sys.types && sys.types[f].Enum? then v.Text? && v.text in sys.types[f].members
      else n > 0 && IsMade(sys, dates, f, v, n - 1)
    case Void => false
  }

  /** A static member whose type is the class `f` or extends it. */
  ghost predicate MakesOne(sys: System, f: Fqn, isStatic: bool, t: TypeRef) {
    && isStatic && t.Named? && t.fqn in sys.types && !sys.types[t.fqn].Enum?
    && f in sys.types[t.fqn].extends_
  }

  /** A concrete class that is, extends or implements `f`. */
  ghost predicate IsA(sys: System, x: Fqn, f: Fqn) {
    && f in sys.types && x in sys.types && sys.types[x].Class? && !sys.types[x].isAbstract
    && ((sys.types[f].Class? && f in sys.types[x].extends_)
        || (sys.types[f].Interface? && f in sys.types[x].implements_))
  }

  /** The struct at the end of the parameters, whose properties are given in its place. */
  ghost predicate EndsIn(sys: System, m: Callable, g: Fqn) {
    && m.parameters != [] && m.parameters[|m.parameters| - 1].typ == Named(g)
    && g in sys.types && sys.types[g].Interface? && sys.types[g].isData
  }

  ghost predicate IsOwn(sys: System, m: Callable, p: Property) {
    exists i :: 0 <= i < |m.parameters| && p == m.parameters[i]
                && (i == |m.parameters| - 1 ==> forall g :: !EndsIn(sys, m, g))
  }

  /** The method has an argument for `p`. */
  ghost predicate Takes(sys: System, m: Callable, p: Property) {
    || IsOwn(sys, m, p)
    || (exists g :: EndsIn(sys, m, g) && p in sys.types[g].allProperties)
  }

  /** An object with values of the properties, required ones included. */
  ghost predicate HasFields(sys: System, dates: iset<string>, ps: seq<Property>, v: Value, n: nat)
    decreases n, 1
  {
    && v.Record? && (forall p :: p in ps && !p.optional ==> p.name in v.entries)
    && forall k :: k in v.entries ==> exists p :: p in ps && p.name == k && IsValue(sys, dates, p.typ, v.entries[k], n)
  }

  /** Arguments by name. Those that have a schema without any definition have to be there if required. */
  ghost predicate HasArguments(sys: System, dates: iset<string>, m: Callable, v: Value, n: nat)
    decreases n, 1
  {
    && v.Record? && (forall p :: IsOwn(sys, m, p) && !p.optional && Firm(sys, p.typ) ==> p.name in v.entries)
    && forall k :: k in v.entries ==>
         exists p :: Takes(sys, m, p) && p.name == k && IsValue(sys, dates, p.typ, v.entries[k], n)
  }

  /** At most one entry, of this name, with the arguments of a method so called. */
  ghost predicate IsCall(sys: System, dates: iset<string>, key: string, m: Callable, v: Value, n: nat)
    decreases n, 2
  {
    v.Record? && forall k :: k in v.entries ==>
      && k == key && n > 0
      && exists m': Callable ::
           m'.parent == m.parent && m'.name == m.name && HasArguments(sys, dates, m', v.entries[k], n - 1)
  }

  /** A data interface by its fields, a static property of the class by its name, a call of a static
      method or an initializer of a class that will do, or what makes such a class. */
  ghost predicate IsMade(sys: System, dates: iset<string>, f: Fqn, v: Value, n: nat)
    decreases n, 3
  {
    f in sys.types &&
    ( || (sys.types[f].Interface? && HasFields(sys, dates, sys.types[f].allProperties, v, n))
      || (sys.types[f].Class? && v.Text?
          && exists p :: p in sys.types[f].allProperties && MakesOne(sys, f, p.isStatic, p.typ) && v.text == p.name)
      || (sys.types[f].Class?
          && exists m :: m in sys.types[f].allMethods && MakesOne(sys, f, m.isStatic, m.returns_)
                         && IsCall(sys, dates, m.name, m, v, n))
      || (exists x :: IsA(sys, x, f) && n > 0 && IsMade(sys, dates, x, v, n - 1))
      || (exists x :: IsA(sys, x, f) && sys.types[x].initializer.Some?
                      && IsCall(sys, dates, x, sys.types[x].initializer.value, v, n))
      || IsResource(sys, dates, f, v, n))
  }

  /** The entry of a resource in a template: its type and the third parameter of its initializer. */
  ghost predicate IsResource(sys: System, dates: iset<string>, f: Fqn, v: Value, n: nat)
    decreases n, 2
  {
    && f in sys.types && sys.types[f].Class? && sys.types[f].initializer.Some?
    && |sys.types[f].initializer.value.parameters| >= 3
    && (v.Record? ==> forall k :: k in v.entries ==>
         || (k == "Type" && v.entries[k] == Text(f))
         || (k == "Properties"
             && IsValue(sys, dates, sys.types[f].initializer.value.parameters[2].typ, v.entries[k], n)))
  }

  // ---------------------------------------------------------------- fields and required names

  lemma {:induction false} RequiredIff(ps: seq<Property>, name: string)
    ensures name in RequiredNames(ps) <==> exists p :: p in ps && !p.optional && p.name == name
  {
    if ps != [] {
      var init, last := ps[..|ps| - 1], ps[|ps| - 1];
      RequiredIff(init, name);
      assert forall p :: p in ps <==> p in init || p == last;
    }
  }

  /** Each field is that of a property. */
  lemma {:induction false} FieldHasProperty(sys: System, ps: seq<Property>, fields: seq<Field>, avoid: set<Key>, i: nat)
      returns (p: Property)
    requires Closed(sys) && AllClosed(sys, ps) && FieldsFor(sys, ps, fields, avoid) && i < |fields|
    ensures p in ps && RefClosed(sys, p.typ) && PropertyField(sys, p, fields[i])
    decreases |ps|
  {
    hide Closed, RefClosed, PropertyField, SchematizableAvoiding;
    var init, last := ps[..|ps| - 1], ps[|ps| - 1];
    if last.optional && !SchematizableAvoiding(sys, last.typ, avoid) && FieldsFor(sys, init, fields, avoid) {
      p := FieldHasProperty(sys, init, fields, avoid, i);
    } else if i < |fields| - 1 {
      p := FieldHasProperty(sys, init, fields[..|fields| - 1], avoid, i);
    } else {
      p := last;
    }
  }

  /** Each field is that of a parameter. */
  lemma {:induction false} FieldHasParameter(sys: System, ps: seq<Property>, fields: seq<Field>, required: seq<string>,
                                             avoid: set<Key>, i: nat) returns (p: Property)
    requires Closed(sys) && AllClosed(sys, ps) && ParametersFor(sys, ps, fields, required, avoid) && i < |fields|
    ensures p in ps && RefClosed(sys, p.typ) && ParameterField(sys, p, fields[i], avoid)
    decreases |ps|
  {
    hide Closed, RefClosed, ParameterField, SchematizableAvoiding;
    var init, last := ps[..|ps| - 1], ps[|ps| - 1];
    if !last.optional && !SchematizableAvoiding(sys, last.typ, avoid)
       && ParametersFor(sys, init, fields, required, avoid)
    {
      p := FieldHasParameter(sys, init, fields, required, avoid, i);
    } else if i == |fields| - 1 {
      p := last;
    } else if last.optional {
      p := FieldHasParameter(sys, init, fields[..|fields| - 1], required, avoid, i);
    } else {
      p := FieldHasParameter(sys, init, fields[..|fields| - 1], required[..|required| - 1], avoid, i);
    }
  }

  lemma {:induction false} FirmRequired(sys: System, ps: seq<Property>, fields: seq<Field>, required: seq<string>,
                                        avoid: set<Key>, p: Property)
    requires Closed(sys) && AllClosed(sys, ps) && ParametersFor(sys, ps, fields, required, avoid)
    requires p in ps && !p.optional && RefClosed(sys, p.typ) && Firm(sys, p.typ)
    ensures p.name in required
    decreases |ps|
  {
    FirmAvoids(sys, p.typ, avoid);
    hide Closed, RefClosed, ParameterField, SchematizableAvoiding, Firm;
    var init, last := ps[..|ps| - 1], ps[|ps| - 1];
    if !last.optional && !SchematizableAvoiding(sys, last.typ, avoid)
       && ParametersFor(sys, init, fields, required, avoid)
    {
      FirmRequired(sys, init, fields, required, avoid, p);
    } else if last.optional {
      FirmRequired(sys, init, fields[..|fields| - 1], required, avoid, p);
    } else if p in init {
      FirmRequired(sys, init, fields[..|fields| - 1], required[..|required| - 1], avoid, p);
    } else {
      assert p == last && required[|required| - 1] == p.name;
    }
  }

  /** The arguments of a method are its own parameters and the properties of a struct at the end. */
  lemma ArgumentsTaken(sys: System, m: Callable, spread: bool, p: Property)
    ensures p in Arguments(sys, m, spread) ==> Takes(sys, m, p)
    ensures IsOwn(sys, m, p) ==> p in Arguments(sys, m, spread)
  {
    var last := |m.parameters| - 1;
    if EndsInStruct(sys, m) {
      assert EndsIn(sys, m, m.parameters[last].typ.fqn);
      var own := m.parameters[..last];
      if p in own {
        var i :| 0 <= i < last && own[i] == p;
        assert p == m.parameters[i];
      }
      if IsOwn(sys, m, p) {
        var i :| 0 <= i < |m.parameters| && p == m.parameters[i]
            && (i == last ==> forall g :: !EndsIn(sys, m, g));
        assert own[i] == p;
      }
    } else {
      assert forall g :: !EndsIn(sys, m, g);
    }
  }

  // ---------------------------------------------------------------- what is admitted is a value

  /** What the schema of a reference to a type admits is a value of the type. */
  lemma {:induction false} AdmittedIsValue(sys: System, defs: Definitions, stack: seq<Key>, dates: iset<string>,
                                           t: TypeRef, s: Schema, v: Value, n: nat)
    requires Consistent(sys, defs, stack) && RefClosed(sys, t) && Describes(sys, t, s) && Admits(defs, dates, s, v, n)
    ensures IsValue(sys, dates, t, v, n)
    decreases n, 0, t
  {
    hide Consistent, Closed, IsMade, IsConstructRef, FieldAdmits;
    match t
    case Primitive(_) =>
    case ArrayOf(e) =>
      forall i | 0 <= i < |v.items| ensures IsValue(sys, dates, e, v.items[i], n) {
        AdmittedIsValue(sys, defs, stack, dates, e, s.items.value, v.items[i], n);
      }
    case MapOf(e) =>
      forall k | k in v.entries ensures IsValue(sys, dates, e, v.entries[k], n) {
        AdmittedIsValue(sys, defs, stack, dates, e, s.values, v.entries[k], n);
      }
    case UnionOf(ts) =>
      var k :| 0 <= k < |s.options| && Admits(defs, dates, s.options[k], v, n);
      var i :| 0 <= i < |ts| && Describes(sys, ts[i], s.options[k]);
      AdmittedIsValue(sys, defs, stack, dates, ts[i], s.options[k], v, n);
      assert IsValue(sys, dates, ts[i], v, n);
    case Named(f) =>
      NamedAdmits(sys, defs, dates, f, s, v, n);
      if s == Ref(TypeKey(f)) { DefinitionMakes(sys, defs, stack, dates, f, v, n - 1); }
    case Void =>
  }

  /** A name is that of a construct or an enum, or leads to a definition. */
  lemma NamedAdmits(sys: System, defs: Definitions, dates: iset<string>, f: Fqn, s: Schema, v: Value, n: nat)
    requires RefClosed(sys, Named(f)) && Describes(sys, Named(f), s) && Admits(defs, dates, s, v, n)
    ensures s != Ref(TypeKey(f)) ==> IsValue(sys, dates, Named(f), v, n)
    ensures s == Ref(TypeKey(f)) ==> n > 0 && TypeKey(f) in defs && Admits(defs, dates, defs[TypeKey(f)], v, n - 1)
    ensures s == Ref(TypeKey(f)) && n > 0 && IsMade(sys, dates, f, v, n - 1) ==> IsValue(sys, dates, Named(f), v, n)
  {
    hide IsMade;
    if s == Ref(TypeKey(f)) { RefAdmits(defs, dates, TypeKey(f), v, n); }
  }

  lemma {:induction false} DefinitionMakes(sys: System, defs: Definitions, stack: seq<Key>, dates: iset<string>, f: Fqn,
                                           v: Value, n: nat)
    requires Consistent(sys, defs, stack) && TypeKey(f) in defs && Admits(defs, dates, defs[TypeKey(f)], v, n)
    ensures IsMade(sys, dates, f, v, n)
    decreases n, 3
  {
    var s := defs[TypeKey(f)];
    assert DefinedAs(sys, TypeKey(f), s);
    if avoid :| InterfaceShape(sys, f, s, avoid) {
      InterfaceAdmits(sys, defs, stack, dates, f, s, avoid, v, n);
    } else if AlternativesShape(sys, f, s) {
      var i :| 0 <= i < |s.options| && Admits(defs, dates, s.options[i], v, n);
      assert Alternative(sys, f, s.options[i]);
      AlternativeMakes(sys, defs, stack, dates, f, s.options[i], v, n);
    } else {
      var t, p :| HasProps(sys, f, t) && RefClosed(sys, t) && Describes(sys, t, p) && s == Resource(f, p);
      ResourceAdmits(sys, defs, stack, dates, f, t, p, v, n);
    }
  }

  lemma {:induction false} InterfaceAdmits(sys: System, defs: Definitions, stack: seq<Key>, dates: iset<string>,
                                           f: Fqn, s: Schema, avoid: set<Key>, v: Value, n: nat)
    requires Consistent(sys, defs, stack) && InterfaceShape(sys, f, s, avoid) && Admits(defs, dates, s, v, n)
    ensures f in sys.types && sys.types[f].Interface? && HasFields(sys, dates, sys.types[f].allProperties, v, n)
    decreases n, 1
  {
    assert Closed(sys);
    hide Consistent, Closed;
    var ps := sys.types[f].allProperties;
    forall p | p in ps && !p.optional ensures p.name in v.entries { RequiredIff(ps, p.name); }
    forall k | k in v.entries
      ensures exists p :: p in ps && p.name == k && IsValue(sys, dates, p.typ, v.entries[k], n)
    {
      assert FieldAdmits(defs, dates, s.properties, k, v.entries[k], n);
      var i :| IsLast(s.properties, k, i) && s.properties[i].schema.Some?
          && Admits(defs, dates, s.properties[i].schema.value, v.entries[k], n);
      var p := FieldHasProperty(sys, ps, s.properties, avoid, i);
      AdmittedIsValue(sys, defs, stack, dates, p.typ, s.properties[i].schema.value, v.entries[k], n);
    }
  }

  lemma {:induction false} AlternativeMakes(sys: System, defs: Definitions, stack: seq<Key>, dates: iset<string>,
                                            f: Fqn, s: Schema, v: Value, n: nat)
    requires Consistent(sys, defs, stack) && Closed(sys) && f in sys.types && Alternative(sys, f, s)
    requires Admits(defs, dates, s, v, n)
    ensures IsMade(sys, dates, f, v, n)
    decreases n, 2
  {
    hide Consistent, Admits, IsMade, Implementations, EnumLikeMethods, EnumLikeProperties, Names, Call, IsCall;
    if sys.types[f].Class? && s == EnumOf(Names(EnumLikeProperties(sys, f, sys.types[f].allProperties))) {
      PropertyMakes(sys, defs, dates, f, v, n);
    } else if x :| x in Implementations(sys, f, sys.classes) && Offers(sys, x, s) {
      assert IsA(sys, x, f) by { ImplementationIsA(sys, x, f); }
      if s == Ref(TypeKey(x)) {
        RefAdmits(defs, dates, TypeKey(x), v, n);
        DefinitionMakes(sys, defs, stack, dates, x, v, n - 1);
      } else {
        CallAdmits(sys, defs, stack, dates, x, sys.types[x].initializer.value, v, n);
      }
      ImplementationMakes(sys, dates, f, x, v, n);
    } else {
      var m :| m in EnumLikeMethods(sys, f, sys.types[f].allMethods) && s == Call(m.name, m);
      CallAdmits(sys, defs, stack, dates, m.name, m, v, n);
      MethodMakes(sys, dates, f, m, v, n);
    }
  }

  lemma RefAdmits(defs: Definitions, dates: iset<string>, key: Key, v: Value, n: nat)
    ensures Admits(defs, dates, Ref(key), v, n) <==> n > 0 && key in defs && Admits(defs, dates, defs[key], v, n - 1)
  {
  }

  lemma ImplementationIsA(sys: System, x: Fqn, f: Fqn)
    requires Closed(sys) && f in sys.types && x in Implementations(sys, f, sys.classes)
    ensures IsA(sys, x, f)
  {
  }

  lemma PropertyMakes(sys: System, defs: Definitions, dates: iset<string>, f: Fqn, v: Value, n: nat)
    requires f in sys.types && sys.types[f].Class?
    requires Admits(defs, dates, EnumOf(Names(EnumLikeProperties(sys, f, sys.types[f].allProperties))), v, n)
    ensures IsMade(sys, dates, f, v, n)
  {
    var ps := EnumLikeProperties(sys, f, sys.types[f].allProperties);
    var i :| 0 <= i < |ps| && Names(ps)[i] == v.text;
    assert ps[i] in ps;
  }

  lemma ImplementationMakes(sys: System, dates: iset<string>, f: Fqn, x: Fqn, v: Value, n: nat)
    requires IsA(sys, x, f)
    requires || (n > 0 && IsMade(sys, dates, x, v, n - 1))
             || (sys.types[x].initializer.Some? && IsCall(sys, dates, x, sys.types[x].initializer.value, v, n))
    ensures IsMade(sys, dates, f, v, n)
  {
    hide IsCall, HasFields, IsResource;
  }

  lemma MethodMakes(sys: System, dates: iset<string>, f: Fqn, m: Callable, v: Value, n: nat)
    requires f in sys.types && sys.types[f].Class? && m in EnumLikeMethods(sys, f, sys.types[f].allMethods)
    requires IsCall(sys, dates, m.name, m, v, n)
    ensures IsMade(sys, dates, f, v, n)
  {
    hide IsCall, HasFields, IsResource;
  }

  /** What the alternative of a call admits: no entry but this one, which the schema of the method admits. */
  lemma CallEntry(defs: Definitions, dates: iset<string>, key: string, m: Callable, v: Value, n: nat, k: string)
    requires Admits(defs, dates, Call(key, m), v, n) && v.Record? && k in v.entries
    ensures k == key && n > 0 && KeyOf(m) in defs && Admits(defs, dates, defs[KeyOf(m)], v.entries[k], n - 1)
  {
    var fields := Call(key, m).properties;
    assert FieldAdmits(defs, dates, fields, k, v.entries[k], n);
    var i :| IsLast(fields, k, i) && fields[i].schema.Some?
        && Admits(defs, dates, fields[i].schema.value, v.entries[k], n);
    RefAdmits(defs, dates, KeyOf(m), v.entries[k], n);
  }

  lemma DefinedByMethod(sys: System, defs: Definitions, stack: seq<Key>, m: Callable)
      returns (m': Callable, avoid: set<Key>)
    requires Consistent(sys, defs, stack) && KeyOf(m) in defs
    ensures m'.parent == m.parent && m'.name == m.name && Closed(sys) && MethodShape(sys, m', defs[KeyOf(m)], avoid)
  {
    assert DefinedAs(sys, KeyOf(m), defs[KeyOf(m)]);
    hide MethodShape;
    m', avoid :| KeyOf(m') == KeyOf(m) && MethodShape(sys, m', defs[KeyOf(m)], avoid);
  }

  lemma {:induction false} CallAdmits(sys: System, defs: Definitions, stack: seq<Key>, dates: iset<string>,
                                      key: string, m: Callable, v: Value, n: nat)
    requires Consistent(sys, defs, stack) && Admits(defs, dates, Call(key, m), v, n)
    ensures IsCall(sys, dates, key, m, v, n)
    decreases n, 1
  {
    assert v.Record?;
    hide Consistent, Closed, Admits, MethodShape, HasArguments, Call, KeyOf;
    forall k | k in v.entries
      ensures k == key && n > 0
      ensures exists m': Callable ::
                m'.parent == m.parent && m'.name == m.name && HasArguments(sys, dates, m', v.entries[k], n - 1)
    {
      CallEntry(defs, dates, key, m, v, n, k);
      var m', avoid := DefinedByMethod(sys, defs, stack, m);
      MethodAdmits(sys, defs, stack, dates, m', defs[KeyOf(m)], avoid, v.entries[k], n - 1);
    }
  }

  lemma {:induction false} MethodAdmits(sys: System, defs: Definitions, stack: seq<Key>, dates: iset<string>,
                                        m: Callable, s: Schema, avoid: set<Key>, v: Value, n: nat)
    requires Consistent(sys, defs, stack) && Closed(sys) && MethodShape(sys, m, s, avoid)
    requires Admits(defs, dates, s, v, n)
    ensures HasArguments(sys, dates, m, v, n)
    decreases n, 1
  {
    hide Consistent, Closed;
    var spread :| AllClosed(sys, Arguments(sys, m, spread))
        && ParametersFor(sys, Arguments(sys, m, spread), s.properties, s.required, avoid);
    var ps := Arguments(sys, m, spread);
    forall p | IsOwn(sys, m, p) && !p.optional && Firm(sys, p.typ) ensures p.name in v.entries {
      ArgumentsTaken(sys, m, spread, p);
      FirmRequired(sys, ps, s.properties, s.required, avoid, p);
    }
    forall k | k in v.entries
      ensures exists p :: Takes(sys, m, p) && p.name == k && IsValue(sys, dates, p.typ, v.entries[k], n)
    {
      assert FieldAdmits(defs, dates, s.properties, k, v.entries[k], n);
      var i :| IsLast(s.properties, k, i) && s.properties[i].schema.Some?
          && Admits(defs, dates, s.properties[i].schema.value, v.entries[k], n);
      var p := FieldHasParameter(sys, ps, s.properties, s.required, avoid, i);
      ArgumentsTaken(sys, m, spread, p);
      AdmittedIsValue(sys, defs, stack, dates, p.typ, s.properties[i].schema.value, v.entries[k], n);
    }
  }

  lemma {:induction false} ResourceAdmits(sys: System, defs: Definitions, stack: seq<Key>, dates: iset<string>, f: Fqn,
                                          t: TypeRef, p: Schema, v: Value, n: nat)
    requires Consistent(sys, defs, stack) && HasProps(sys, f, t) && RefClosed(sys, t) && Describes(sys, t, p)
    requires Admits(defs, dates, Resource(f, p), v, n)
    ensures IsResource(sys, dates, f, v, n)
    decreases n, 1
  {
    hide Consistent;
    if v.Record? {
      forall k | k in v.entries
        ensures (k == "Type" && v.entries[k] == Text(f))
                || (k == "Properties" && IsValue(sys, dates, t, v.entries[k], n))
      {
        var fields := Resource(f, p).entries;
        assert FieldAdmits(defs, dates, fields, k, v.entries[k], n);
        var i :| IsLast(fields, k, i) && fields[i].schema.Some?
            && Admits(defs, dates, fields[i].schema.value, v.entries[k], n);
        if i == 0 { AdmittedIsValue(sys, defs, stack, dates, t, p, v.entries[k], n); }
      }
    }
  }

  // ---------------------------------------------------------------- what is a value is admitted

  /** No part of the type needs a definition. */
  ghost predicate Plain(sys: System, t: TypeRef) {
    match t
    case Primitive(_) => true
    case ArrayOf(e) => Plain(sys, e)
    case MapOf(e) => Plain(sys, e)
    case UnionOf(ts) => ts != [] && forall i :: 0 <= i < |ts| ==> Plain(sys, ts[i])
    case Named(f) => ExtendsConstruct(sys, f) || (f in sys.types && sys.types[f].Enum?)
    case Void => false
  }

  lemma {:induction false} PlainIsFirm(sys: System, t: TypeRef)
    requires Plain(sys, t)
    ensures Firm(sys, t)
    decreases t
  {
    match t
    case ArrayOf(e) => PlainIsFirm(sys, e);
    case MapOf(e) => PlainIsFirm(sys, e);
    case UnionOf(ts) => PlainIsFirm(sys, ts[0]);
    case _ =>
  }

  lemma {:induction false} PlainAdmitted(sys: System, defs: Definitions, dates: iset<string>, t: TypeRef, s: Schema,
                                         v: Value, n: nat)
    requires Plain(sys, t) && RefClosed(sys, t) && Describes(sys, t, s) && IsValue(sys, dates, t, v, n)
    ensures Admits(defs, dates, s, v, n)
    decreases t
  {
    match t
    case ArrayOf(e) =>
      forall i | 0 <= i < |v.items| ensures Admits(defs, dates, s.items.value, v.items[i], n) {
        PlainAdmitted(sys, defs, dates, e, s.items.value, v.items[i], n);
      }
    case MapOf(e) =>
      forall k | k in v.entries ensures Admits(defs, dates, s.values, v.entries[k], n) {
        PlainAdmitted(sys, defs, dates, e, s.values, v.entries[k], n);
      }
    case UnionOf(ts) =>
      var i :| 0 <= i < |ts| && IsValue(sys, dates, ts[i], v, n);
      PlainIsFirm(sys, ts[i]);
      var k :| 0 <= k < |s.options| && Describes(sys, ts[i], s.options[k]);
      PlainAdmitted(sys, defs, dates, ts[i], s.options[k], v, n);
    case _ =>
  }

  /** The schema of a type that needs no definition admits exactly the values of the type. */
  lemma PlainExactly(sys: System, defs: Definitions, stack: seq<Key>, dates: iset<string>, t: TypeRef, s: Schema,
                     v: Value, n: nat)
    requires Consistent(sys, defs, stack) && Plain(sys, t) && RefClosed(sys, t) && Describes(sys, t, s)
    ensures Admits(defs, dates, s, v, n) <==> IsValue(sys, dates, t, v, n)
  {
    if Admits(defs, dates, s, v, n) { AdmittedIsValue(sys, defs, stack, dates, t, s, v, n); }
    if IsValue(sys, dates, t, v, n) { PlainAdmitted(sys, defs, dates, t, s, v, n); }
  }

  /** The six primitive types of jsii. */
  lemma PrimitiveExactly(sys: System, defs: Definitions, dates: iset<string>, name: string, s: Schema, v: Value, n: nat)
    requires Describes(sys, Primitive(name), s)
    ensures name == "any" ==> Admits(defs, dates, s, v, n)
    ensures name == "json" ==> (Admits(defs, dates, s, v, n) <==> v.Record?)
    ensures name == "date" ==> (Admits(defs, dates, s, v, n) <==> v.Text? && v.text in dates)
    ensures name == "string" ==> (Admits(defs, dates, s, v, n) <==> v.Text?)
    ensures name == "number" ==> (Admits(defs, dates, s, v, n) <==> v.Number?)
    ensures name == "boolean" ==> (Admits(defs, dates, s, v, n) <==> v.Boolean?)
  {
    assert |"string"| == |"number"| == 6 && "string"[0] == 's' && |"boolean"| == 7;
    assert |"any"| == 3 && |"json"| == |"date"| == 4 && "json"[0] == 'j' && |"integer"| == 7 && "integer"[0] == 'i';
    assert |"null"| == 4 && |"array"| == 5 && |"object"| == 6 && "object"[0] == 'o';
  }

  lemma {:induction false} HasLast(fields: seq<Field>, name: string, k: nat) returns (i: nat)
    requires k < |fields| && fields[k].name == name
    ensures IsLast(fields, name, i)
    decreases |fields| - k
  {
    if j :| k < j < |fields| && fields[j].name == name { i := HasLast(fields, name, j); } else { i := k; }
  }

  /** Properties of the same name are of the same type. */
  ghost predicate OneTypePerName(ps: iset<Property>) {
    forall p, q :: p in ps && q in ps && p.name == q.name ==> p.typ == q.typ
  }

  lemma {:induction false} FirmHasField(sys: System, ps: seq<Property>, fields: seq<Field>, avoid: set<Key>,
                                        p: Property) returns (k: nat)
    requires Closed(sys) && AllClosed(sys, ps) && FieldsFor(sys, ps, fields, avoid)
    requires p in ps && RefClosed(sys, p.typ) && Firm(sys, p.typ)
    ensures k < |fields| && fields[k].name == p.name
    decreases |ps|
  {
    FirmAvoids(sys, p.typ, avoid);
    hide Closed, RefClosed, SchematizableAvoiding, Firm, Describes, Schematizable;
    var init, last := ps[..|ps| - 1], ps[|ps| - 1];
    if last.optional && !SchematizableAvoiding(sys, last.typ, avoid) && FieldsFor(sys, init, fields, avoid) {
      k := FirmHasField(sys, init, fields, avoid, p);
    } else if p in init {
      k := FirmHasField(sys, init, fields[..|fields| - 1], avoid, p);
    } else {
      k := |fields| - 1;
    }
  }

  /** A data interface whose properties need no definitions: its schema admits exactly the objects
      with values of its properties, and no others, required ones included. */
  lemma PlainInterface(sys: System, defs: Definitions, stack: seq<Key>, dates: iset<string>, f: Fqn, s: Schema,
                       avoid: set<Key>, v: Value, n: nat)
    requires Consistent(sys, defs, stack) && Closed(sys) && InterfaceShape(sys, f, s, avoid)
    requires var ps := sys.types[f].allProperties;
             (forall p :: p in ps ==> Plain(sys, p.typ)) && OneTypePerName(iset p | p in ps)
    ensures Admits(defs, dates, s, v, n) <==> HasFields(sys, dates, sys.types[f].allProperties, v, n)
  {
    hide Consistent, Closed;
    var ps := sys.types[f].allProperties;
    if Admits(defs, dates, s, v, n) { InterfaceAdmits(sys, defs, stack, dates, f, s, avoid, v, n); }
    if HasFields(sys, dates, ps, v, n) {
      forall k | k in s.required ensures k in v.entries { RequiredIff(ps, k); }
      forall k | k in v.entries ensures FieldAdmits(defs, dates, s.properties, k, v.entries[k], n) {
        var p :| p in ps && p.name == k && IsValue(sys, dates, p.typ, v.entries[k], n);
        hide IsValue, HasFields, Admits, FieldsFor, FieldAdmits;
        PropertyAdmitted(sys, defs, dates, ps, s.properties, avoid, p, v.entries[k], n);
      }
    }
  }

  lemma PropertyAdmitted(sys: System, defs: Definitions, dates: iset<string>, ps: seq<Property>, fields: seq<Field>,
                         avoid: set<Key>, p: Property, v: Value, n: nat)
    requires Closed(sys) && AllClosed(sys, ps) && FieldsFor(sys, ps, fields, avoid)
    requires OneTypePerName(iset q | q in ps) && p in ps && Plain(sys, p.typ) && IsValue(sys, dates, p.typ, v, n)
    ensures FieldAdmits(defs, dates, fields, p.name, v, n)
  {
    hide Closed, IsValue, Plain, Firm, FieldsFor, Describes, Schematizable;
    PlainIsFirm(sys, p.typ);
    var j := FirmHasField(sys, ps, fields, avoid, p);
    var i := HasLast(fields, p.name, j);
    var q := FieldHasProperty(sys, ps, fields, avoid, i);
    assert q.typ == p.typ;
    PlainAdmitted(sys, defs, dates, p.typ, fields[i].schema.value, v, n);
  }

  lemma {:induction false} FirmHasArgument(sys: System, ps: seq<Property>, fields: seq<Field>, required: seq<string>,
                                           avoid: set<Key>, p: Property) returns (k: nat)
    requires Closed(sys) && AllClosed(sys, ps) && ParametersFor(sys, ps, fields, required, avoid)
    requires p in ps && RefClosed(sys, p.typ) && Firm(sys, p.typ)
    ensures k < |fields| && fields[k].name == p.name
    decreases |ps|
  {
    FirmAvoids(sys, p.typ, avoid);
    hide Closed, RefClosed, SchematizableAvoiding, Firm, Describes, Schematizable;
    var init, last := ps[..|ps| - 1], ps[|ps| - 1];
    if !last.optional && !SchematizableAvoiding(sys, last.typ, avoid)
       && ParametersFor(sys, init, fields, required, avoid)
    {
      k := FirmHasArgument(sys, init, fields, required, avoid, p);
    } else if p !in init {
      k := |fields| - 1;
    } else if last.optional {
      k := FirmHasArgument(sys, init, fields[..|fields| - 1], required, avoid, p);
    } else {
      k := FirmHasArgument(sys, init, fields[..|fields| - 1], required[..|required| - 1], avoid, p);
    }
  }

  /** Only required arguments are listed as required. */
  lemma {:induction false} RequiredAreArguments(sys: System, ps: seq<Property>, fields: seq<Field>,
                                                required: seq<string>, avoid: set<Key>, name: string)
    requires Closed(sys) && AllClosed(sys, ps) && ParametersFor(sys, ps, fields, required, avoid) && name in required
    ensures exists p :: p in ps && !p.optional && p.name == name
    decreases |ps|
  {
    hide Closed, RefClosed, ParameterField, SchematizableAvoiding;
    var init, last := ps[..|ps| - 1], ps[|ps| - 1];
    if !last.optional && !SchematizableAvoiding(sys, last.typ, avoid)
       && ParametersFor(sys, init, fields, required, avoid)
    {
      RequiredAreArguments(sys, init, fields, required, avoid, name);
    } else if last.optional {
      RequiredAreArguments(sys, init, fields[..|fields| - 1], required, avoid, name);
    } else if name in required[..|required| - 1] {
      RequiredAreArguments(sys, init, fields[..|fields| - 1], required[..|required| - 1], avoid, name);
    } else {
      assert last in ps;
    }
  }

  /** A struct at the end that is given by its properties, and is not under way. */
  ghost predicate StructAtHand(sys: System, m: Callable, avoid: set<Key>) {
    forall g :: EndsIn(sys, m, g) ==> IsDataInterface(sys, g) && TypeKey(g) !in avoid
  }

  /** A method whose arguments need no definitions: its schema admits exactly the objects with values
      of its parameters, the properties of a struct at the end in its place. */
  lemma PlainMethod(sys: System, defs: Definitions, stack: seq<Key>, dates: iset<string>, m: Callable, s: Schema,
                    avoid: set<Key>, v: Value, n: nat)
    requires Consistent(sys, defs, stack) && Closed(sys) && MethodShape(sys, m, s, avoid) && StructAtHand(sys, m, avoid)
    requires (forall p :: Takes(sys, m, p) ==> Plain(sys, p.typ)) && OneTypePerName(iset p | Takes(sys, m, p))
    ensures Admits(defs, dates, s, v, n) <==>
            HasArguments(sys, dates, m, v, n) && forall p :: Takes(sys, m, p) && !p.optional ==> p.name in v.entries
  {
    hide Consistent, Closed, Takes, Plain, ParametersFor, Firm, IsOwn, IsValue, FieldAdmits, MethodShape, Admits;
    var ps := ArgumentsAre(sys, m, s, avoid);
    if Admits(defs, dates, s, v, n) {
      MethodAdmits(sys, defs, stack, dates, m, s, avoid, v, n);
      assert v.Record?;
      AllArgumentsThere(sys, defs, dates, m, ps, s, avoid, v, n);
    }
    if HasArguments(sys, dates, m, v, n) && forall p :: Takes(sys, m, p) && !p.optional ==> p.name in v.entries {
      AllArgumentsAdmitted(sys, defs, dates, m, ps, s, avoid, v, n);
    }
  }

  lemma AllArgumentsThere(sys: System, defs: Definitions, dates: iset<string>, m: Callable, ps: seq<Property>,
                          s: Schema, avoid: set<Key>, v: Value, n: nat)
    requires Closed(sys) && AllClosed(sys, ps) && s.Object? && ParametersFor(sys, ps, s.properties, s.required, avoid)
    requires (forall p :: p in ps <==> Takes(sys, m, p)) && (forall p :: p in ps ==> Plain(sys, p.typ))
    requires v.Record? && Admits(defs, dates, s, v, n)
    ensures forall p :: Takes(sys, m, p) && !p.optional ==> p.name in v.entries
  {
    hide Closed, Takes, Plain, Firm, ParametersFor, FieldAdmits;
    forall p | Takes(sys, m, p) && !p.optional ensures p.name in v.entries {
      PlainIsFirm(sys, p.typ);
      FirmRequired(sys, ps, s.properties, s.required, avoid, p);
    }
  }

  lemma AllArgumentsAdmitted(sys: System, defs: Definitions, dates: iset<string>, m: Callable, ps: seq<Property>,
                             s: Schema, avoid: set<Key>, v: Value, n: nat)
    requires Closed(sys) && AllClosed(sys, ps) && s.Object? && ParametersFor(sys, ps, s.properties, s.required, avoid)
    requires (forall p :: p in ps <==> Takes(sys, m, p)) && (forall p :: p in ps ==> Plain(sys, p.typ))
    requires OneTypePerName(iset q | q in ps) && HasArguments(sys, dates, m, v, n)
    requires forall p :: Takes(sys, m, p) && !p.optional ==> p.name in v.entries
    ensures Admits(defs, dates, s, v, n)
  {
    hide Closed, Takes, Plain, IsValue, ParametersFor, FieldAdmits;
    forall k | k in s.required ensures k in v.entries {
      RequiredAreArguments(sys, ps, s.properties, s.required, avoid, k);
    }
    forall k | k in v.entries ensures FieldAdmits(defs, dates, s.properties, k, v.entries[k], n) {
      var p :| Takes(sys, m, p) && p.name == k && IsValue(sys, dates, p.typ, v.entries[k], n);
      ArgumentAdmitted(sys, defs, dates, ps, s, avoid, p, v.entries[k], n);
    }
  }

  /** The fields are those of all arguments. */
  lemma ArgumentsAre(sys: System, m: Callable, s: Schema, avoid: set<Key>) returns (ps: seq<Property>)
    requires Closed(sys) && MethodShape(sys, m, s, avoid) && StructAtHand(sys, m, avoid)
    requires forall p :: Takes(sys, m, p) ==> Plain(sys, p.typ)
    ensures s.Object? && AllClosed(sys, ps) && ParametersFor(sys, ps, s.properties, s.required, avoid)
    ensures forall p :: p in ps <==> Takes(sys, m, p)
    ensures forall p :: p in ps ==> Plain(sys, p.typ)
    ensures (iset p | p in ps) == iset p | Takes(sys, m, p)
  {
    hide Closed, ParametersFor, SchematizableAvoiding, Schematizable;
    var spread :| AllClosed(sys, Arguments(sys, m, spread)) && SpreadIfStruct(sys, m, spread, avoid)
        && ParametersFor(sys, Arguments(sys, m, spread), s.properties, s.required, avoid);
    ps := Arguments(sys, m, spread);
    if EndsInStruct(sys, m) {
      var g := m.parameters[|m.parameters| - 1].typ.fqn;
      assert EndsIn(sys, m, g);
      if !spread { StructSpreads(sys, m, g, avoid); }
    }
    forall p ensures p in ps <==> Takes(sys, m, p) {
      ArgumentsTaken(sys, m, spread, p);
    }
  }

  lemma StructSpreads(sys: System, m: Callable, g: Fqn, avoid: set<Key>)
    requires Closed(sys) && EndsIn(sys, m, g) && IsDataInterface(sys, g) && TypeKey(g) !in avoid
    requires forall p :: Takes(sys, m, p) ==> Plain(sys, p.typ)
    ensures !Fails(sys, g, avoid)
  {
    var ps := sys.types[g].allProperties;
    assert AllClosed(sys, ps);
    hide Closed;
    forall i | 0 <= i < |ps| && !ps[i].optional ensures Derivable(sys, ps[i].typ, avoid + {TypeKey(g)}, 0) {
      assert Takes(sys, m, ps[i]);
      PlainIsFirm(sys, ps[i].typ);
      FirmDerivable(sys, ps[i].typ, avoid + {TypeKey(g)});
    }
    assert AllRequired(sys, ps, avoid + {TypeKey(g)}, 0);
  }

  lemma ArgumentAdmitted(sys: System, defs: Definitions, dates: iset<string>, ps: seq<Property>, s: Schema,
                         avoid: set<Key>, p: Property, v: Value, n: nat)
    requires Closed(sys) && AllClosed(sys, ps) && s.Object? && ParametersFor(sys, ps, s.properties, s.required, avoid)
    requires OneTypePerName(iset q | q in ps) && p in ps && Plain(sys, p.typ) && IsValue(sys, dates, p.typ, v, n)
    ensures FieldAdmits(defs, dates, s.properties, p.name, v, n)
  {
    hide Closed;
    PlainIsFirm(sys, p.typ);
    FirmAvoids(sys, p.typ, avoid);
    var j := FirmHasArgument(sys, ps, s.properties, s.required, avoid, p);
    var i := HasLast(s.properties, p.name, j);
    var q := FieldHasParameter(sys, ps, s.properties, s.required, avoid, i);
    assert q.typ == p.typ;
    PlainAdmitted(sys, defs, dates, p.typ, s.properties[i].schema.value, v, n);
  }

  /** The alternatives of an enum-like class admit each of its properties by name, and each call of
      one of its methods that is not under way. */
  lemma EnumLikeAdmits(sys: System, defs: Definitions, dates: iset<string>, f: Fqn, stack: set<Key>, n: nat)
    requires f in sys.types && sys.types[f].Class?
    ensures forall p :: p in sys.types[f].allProperties && MakesOne(sys, f, p.isStatic, p.typ) ==>
              Admits(defs, dates, AnyOf(EnumLikeOptions(sys, f, stack)), Text(p.name), n)
    ensures forall m, v ::
              ( && m in sys.types[f].allMethods && MakesOne(sys, f, m.isStatic, m.returns_)
                && n > 0 && MethodKey(m.parent, m.name) !in stack && MethodKey(m.parent, m.name) in defs
                && Admits(defs, dates, defs[MethodKey(m.parent, m.name)], v, n - 1)) ==>
              Admits(defs, dates, AnyOf(EnumLikeOptions(sys, f, stack)), Record(map[m.name := v]), n)
  {
    var options := EnumLikeOptions(sys, f, stack);
    forall p | p in sys.types[f].allProperties && MakesOne(sys, f, p.isStatic, p.typ)
      ensures Admits(defs, dates, AnyOf(options), Text(p.name), n)
    {
      PropertyOption(sys, defs, dates, f, stack, p, n);
    }
    forall m, v | m in sys.types[f].allMethods && MakesOne(sys, f, m.isStatic, m.returns_)
      && n > 0 && MethodKey(m.parent, m.name) !in stack && MethodKey(m.parent, m.name) in defs
      && Admits(defs, dates, defs[MethodKey(m.parent, m.name)], v, n - 1)
      ensures Admits(defs, dates, AnyOf(options), Record(map[m.name := v]), n)
    {
      MethodOption(sys, f, stack, m);
      CallAdmitted(defs, dates, m, v, n);
    }
  }

  lemma PropertyOption(sys: System, defs: Definitions, dates: iset<string>, f: Fqn, stack: set<Key>, p: Property,
                       n: nat)
    requires f in sys.types && sys.types[f].Class? && p in sys.types[f].allProperties
    requires MakesOne(sys, f, p.isStatic, p.typ)
    ensures Admits(defs, dates, AnyOf(EnumLikeOptions(sys, f, stack)), Text(p.name), n)
  {
    var options, ps := EnumLikeOptions(sys, f, stack), EnumLikeProperties(sys, f, sys.types[f].allProperties);
    assert p in ps;
    var i :| 0 <= i < |ps| && ps[i] == p;
    assert Names(ps)[i] == p.name;
    assert options[0] == EnumOf(Names(ps)) && Admits(defs, dates, options[0], Text(p.name), n);
  }

  lemma MethodOption(sys: System, f: Fqn, stack: set<Key>, m: Callable)
    requires f in sys.types && sys.types[f].Class? && m in sys.types[f].allMethods
    requires MakesOne(sys, f, m.isStatic, m.returns_) && KeyOf(m) !in stack
    ensures Call(m.name, m) in EnumLikeOptions(sys, f, stack)
  {
    var ms := EnumLikeMethods(sys, f, sys.types[f].allMethods);
    assert ms[..|ms|] == ms && m in ms;
    CallsHave(ms, stack, m);
  }

  lemma {:induction false} CallsHave(ms: seq<Callable>, stack: set<Key>, m: Callable)
    requires m in ms && KeyOf(m) !in stack
    ensures Call(m.name, m) in Calls(ms, stack)
  {
    if m in ms[..|ms| - 1] { CallsHave(ms[..|ms| - 1], stack, m); }
  }

  lemma CallAdmitted(defs: Definitions, dates: iset<string>, m: Callable, v: Value, n: nat)
    requires n > 0 && KeyOf(m) in defs && Admits(defs, dates, defs[KeyOf(m)], v, n - 1)
    ensures Admits(defs, dates, Call(m.name, m), Record(map[m.name := v]), n)
  {
    var call, r := Call(m.name, m), Record(map[m.name := v]);
    assert Admits(defs, dates, Ref(KeyOf(m)), v, n);
    forall k | k in r.entries ensures FieldAdmits(defs, dates, call.properties, k, r.entries[k], n) {
      assert IsLast(call.properties, k, 0);
    }
  }
}
