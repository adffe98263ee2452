/** The schema generator: it stores a schema per type and method, and cuts cycles with a stack. */
module Jsii2Schema {
  import opened Options
  import opened JsiiTypes
  import opened Schematizability
  import opened Schemas

  /** Every name a definition can go by. */
  ghost function AllKeys(sys: System): set<Key> {
    (set f | f in sys.types :: TypeKey(f))
    + (set f, m | f in sys.types && !sys.types[f].Enum? && m in sys.types[f].allMethods :: KeyOf(m))
    + (set f | f in sys.types && sys.types[f].Class? && sys.types[f].initializer.Some? ::
       KeyOf(sys.types[f].initializer.value))
  }

  ghost function Keys(stack: seq<Key>): set<Key> {
    set k | k in stack
  }

  ghost predicate Consistent(sys: System, defs: Definitions, stack: seq<Key>) {
    && Closed(sys)
    && (forall k :: k in defs && !k.Given? ==> WellBuilt(defs[k], defs.Keys) && DefinedAs(sys, k, defs[k]))
    && (forall f :: TypeKey(f) in defs ==> f in sys.types && Schematizable(sys, Named(f)))
    && (forall k :: k in stack ==> k in AllKeys(sys) && k !in defs)
  }

  /** Definitions are never removed or replaced. */
  ghost predicate Kept(before: Definitions, after: Definitions) {
    forall k :: k in before ==> k in after && after[k] == before[k]
  }

  ghost predicate Built(s: Option<Schema>, defs: Definitions) {
    s.Some? ==> WellBuilt(s.value, defs.Keys)
  }

  // ---------------------------------------------------------------- what is at hand already

  /** The definitions made so far give `t` a schema without a new one. */
  ghost predicate Ready(sys: System, t: TypeRef, keys: set<Key>)
    requires Closed(sys) && RefClosed(sys, t)
  {
    IsConstruct(sys, t) ||
    match t
    case Primitive(_) => true
    case ArrayOf(e) => Ready(sys, e, keys)
    case MapOf(e) => Ready(sys, e, keys)
    case UnionOf(ts) => exists i :: 0 <= i < |ts| && Ready(sys, ts[i], keys)
    case Named(f) =>
      || sys.types[f].Enum? || (IsDataInterface(sys, f) && TypeKey(f) in keys)
      || EnumLikeReady(sys, f, keys) || PolymorphicReady(sys, f, keys)
    case Void => false
  }

  ghost predicate EnumLikeReady(sys: System, x: Fqn, keys: set<Key>) {
    && x in sys.types && sys.types[x].Class? && TypeKey(x) in keys
    && (EnumLikeProperties(sys, x, sys.types[x].allProperties) != []
        || exists m :: m in EnumLikeMethods(sys, x, sys.types[x].allMethods) && KeyOf(m) in keys)
  }

  ghost predicate PolymorphicReady(sys: System, f: Fqn, keys: set<Key>)
    requires Closed(sys)
  {
    && f in sys.types && !sys.types[f].Enum? && TypeKey(f) in keys
    && exists x :: x in Implementations(sys, f, sys.classes) && UsableReady(sys, x, keys)
  }

  ghost predicate UsableReady(sys: System, x: Fqn, keys: set<Key>) {
    x in sys.types && sys.types[x].Class?
    && (EnumLikeReady(sys, x, keys)
        || (sys.types[x].initializer.Some? && KeyOf(sys.types[x].initializer.value) in keys))
  }

  lemma {:induction false} ReadyMore(sys: System, t: TypeRef, keys: set<Key>, more: set<Key>)
    requires Closed(sys) && RefClosed(sys, t) && Ready(sys, t, keys) && keys <= more
    ensures Ready(sys, t, more)
  {
    match t
    case ArrayOf(e) => if !IsConstruct(sys, t) { ReadyMore(sys, e, keys, more); }
    case MapOf(e) => if !IsConstruct(sys, t) { ReadyMore(sys, e, keys, more); }
    case UnionOf(ts) =>
      if !IsConstruct(sys, t) {
        var i :| 0 <= i < |ts| && Ready(sys, ts[i], keys);
        ReadyMore(sys, ts[i], keys, more);
      }
    case Named(f) =>
      if PolymorphicReady(sys, f, keys) {
        var x :| x in Implementations(sys, f, sys.classes) && UsableReady(sys, x, keys);
        assert UsableReady(sys, x, more);
      }
    case _ =>
  }

  // ---------------------------------------------------------------- the generator

  class SchemaContext {
    const sys: System
    var definitions: Definitions
    var definitionStack: seq<Key>

    /** The context of a schema that has some definitions already. */
    constructor (sys: System, given: Definitions)
      requires Closed(sys) && forall k :: k in given ==> k.Given?
      ensures this.sys == sys && Valid() && definitions == given && definitionStack == []
    {
      this.sys := sys;
      definitions, definitionStack := given, [];
    }

    ghost predicate Valid()
      reads this
    {
      Consistent(sys, definitions, definitionStack)
    }

    /** What every call that started from `before` and `stack` leaves behind and returns. */
    ghost predicate Called(before: Definitions, stack: seq<Key>, s: Option<Schema>)
      reads this
    {
      Valid() && definitionStack == stack && Kept(before, definitions) && Built(s, definitions)
    }

    /** `define` before it evaluates a schema: the name is under way. */
    method Enter(key: Key)
      requires Valid() && key !in definitions && key !in definitionStack && key in AllKeys(sys)
      modifies this`definitionStack
      ensures Valid() && definitionStack == old(definitionStack) + [key]
              && Keys(definitionStack) == Keys(old(definitionStack)) + {key}
    {
      PushKey(definitionStack, key);
      definitionStack := definitionStack + [key];
    }

    /** `define` after that: the schema, if there is one, is stored, and the name is no longer under way. */
    method Leave(key: Key, body: Option<Schema>, ghost stack: seq<Key>)
      requires Valid() && definitionStack == stack + [key] && key !in stack
      requires body.Some? ==> WellBuilt(body.value, definitions.Keys) && DefinedAs(sys, key, body.value)
      requires body.Some? && key.TypeKey? ==> key.fqn in sys.types && Schematizable(sys, Named(key.fqn))
      modifies this
      ensures Valid() && definitionStack == stack && Kept(old(definitions), definitions)
      ensures definitions == if body.Some? then old(definitions)[key := body.value] else old(definitions)
    {
      LastUnderWay(sys, definitions, stack, key);
      if body.Some? {
        DefineKeeps(sys, definitions, definitionStack, stack, key, body.value);
        definitions := definitions[key := body.value];
      }
      definitionStack := definitionStack[..|definitionStack| - 1];
    }

    method SchemaForTypeReference(t: TypeRef) returns (s: Option<Schema>)
      requires Valid() && RefClosed(sys, t)
      modifies this
      ensures Called(old(definitions), old(definitionStack), s)
      ensures s.Some? ==> Describes(sys, t, s.value)
      ensures s.Some? ==> Schematizable(sys, t) && Ready(sys, t, definitions.Keys)
      ensures s.None? ==> !SchematizableAvoiding(sys, t, Keys(definitionStack))
      ensures Ready(sys, t, old(definitions).Keys) ==> s.Some?
      decreases AllKeys(sys) - Keys(definitionStack), 5, t, 2
    {
      if t.Primitive? {
        assert Derivable(sys, t, {}, 0);
        return Some(SchemaForPrimitive(t.name));
      }
      s := SchemaForArray(t);
      if s.Some? { return; }
      s := SchemaForMap(t);
      if s.Some? { return; }
      s := SchemaForUnion(t);
      if s.Some? { return; }
      if IsConstruct(sys, t) {
        assert Derivable(sys, t, {}, 0);
        return Some(ConstructRef);
      }
      if t.Named? {
        s := SchemaForNamed(t.fqn);
      } else {
        forall n: nat ensures !Derivable(sys, t, Keys(definitionStack), n) {
          if t.ArrayOf? || t.MapOf? { assert !Derivable(sys, t.elem, Keys(definitionStack), n); }
        }
      }
    }

    method SchemaForArray(t: TypeRef) returns (s: Option<Schema>)
      requires Valid() && RefClosed(sys, t)
      modifies this
      ensures Called(old(definitions), old(definitionStack), s)
      ensures !t.ArrayOf? ==> s.None? && definitions == old(definitions)
      ensures s.Some? ==> Describes(sys, t, s.value)
      ensures s.Some? ==> Schematizable(sys, t) && Ready(sys, t, definitions.Keys)
      ensures s.None? && t.ArrayOf? ==> !SchematizableAvoiding(sys, t.elem, Keys(definitionStack))
      ensures t.ArrayOf? && Ready(sys, t.elem, old(definitions).Keys) ==> s.Some?
      decreases AllKeys(sys) - Keys(definitionStack), 5, t, 1
    {
      if !t.ArrayOf? { return None; }
      var e := SchemaForTypeReference(t.elem);
      if e.None? { return None; }
      assert Schematizable(sys, t) by {
        var n: nat :| Derivable(sys, t.elem, {}, n);
        assert Derivable(sys, t, {}, n);
      }
      // The second evaluation never fails once the first one succeeded.
      var items := SchemaForTypeReference(t.elem);
      return Some(Array(items));
    }

    method SchemaForMap(t: TypeRef) returns (s: Option<Schema>)
      requires Valid() && RefClosed(sys, t)
      modifies this
      ensures Called(old(definitions), old(definitionStack), s)
      ensures !t.MapOf? ==> s.None? && definitions == old(definitions)
      ensures s.Some? ==> Describes(sys, t, s.value)
      ensures s.Some? ==> Schematizable(sys, t) && Ready(sys, t, definitions.Keys)
      ensures s.None? && t.MapOf? ==> !SchematizableAvoiding(sys, t.elem, Keys(definitionStack))
      ensures t.MapOf? && Ready(sys, t.elem, old(definitions).Keys) ==> s.Some?
      decreases AllKeys(sys) - Keys(definitionStack), 5, t, 1
    {
      if !t.MapOf? { return None; }
      var e := SchemaForTypeReference(t.elem);
      if e.None? { return None; }
      assert Schematizable(sys, t) by {
        var n: nat :| Derivable(sys, t.elem, {}, n);
        assert Derivable(sys, t, {}, n);
      }
      return Some(Map(e.value));
    }

    method SchemaForUnion(t: TypeRef) returns (s: Option<Schema>)
      requires Valid() && RefClosed(sys, t)
      modifies this
      ensures Called(old(definitions), old(definitionStack), s)
      ensures !t.UnionOf? ==> s.None? && definitions == old(definitions)
      ensures s.Some? ==> Describes(sys, t, s.value)
      ensures s.Some? ==> Schematizable(sys, t) && Ready(sys, t, definitions.Keys)
      ensures s.None? && t.UnionOf? ==>
                forall i :: 0 <= i < |t.types| ==> !SchematizableAvoiding(sys, t.types[i], Keys(definitionStack))
      ensures t.UnionOf? && (exists i :: 0 <= i < |t.types| && Ready(sys, t.types[i], old(definitions).Keys)) ==>
              s.Some?
      ensures s.Some? ==> s.value.AnyOf? && OptionsFor(sys, t.types, s.value.options, Keys(definitionStack))
      decreases AllKeys(sys) - Keys(definitionStack), 5, t, 1
    {
      if !t.UnionOf? { return None; }
      hide *;
      UnionStart(this, t);
      var anyOf: seq<Schema> := [];
      var i := 0;
      while i < |t.types|
        invariant 0 <= i <= |t.types| && definitionStack == old(definitionStack)
        invariant UnionUpTo(t, old(definitions), old(definitionStack), i, anyOf)
      {
        anyOf := AddUnionMember(t, i, t.types[i], anyOf, old(definitions));
        i := i + 1;
      }
      UnionEnd(this, t, old(definitions), old(definitionStack), anyOf);
      if anyOf == [] { return None; }
      return Some(AnyOf(anyOf));
    }

    /** The first `i` members of a union have been asked for their schemas. */
    ghost predicate UnionUpTo(t: TypeRef, start: Definitions, stack: seq<Key>, i: nat, anyOf: seq<Schema>)
      reads this
    {
      && Called(start, stack, Some(AnyOf(anyOf))) && t.UnionOf? && i <= |t.types| && RefClosed(sys, t)
      && (anyOf != [] ==> Schematizable(sys, t) && Ready(sys, t, definitions.Keys))
      && OptionsFor(sys, t.types[..i], anyOf, Keys(stack))
      && (anyOf == [] ==> forall j :: 0 <= j < i ==> NoSchemaFor(sys, t.types[j], Keys(stack), start.Keys))
    }

    method AddUnionMember(t: TypeRef, ghost i: nat, member: TypeRef, anyOf: seq<Schema>, ghost start: Definitions)
      returns (anyOf': seq<Schema>)
      requires UnionUpTo(t, start, definitionStack, i, anyOf) && i < |t.types| && member == t.types[i]
      modifies this
      ensures UnionUpTo(t, start, old(definitionStack), i + 1, anyOf') && definitionStack == old(definitionStack)
      decreases AllKeys(sys) - Keys(definitionStack), 5, t, 0
    {
      ghost var before, stack := definitions, definitionStack;
      hide *;
      MemberKnown(this, t, start, stack, i, anyOf);
      var x := SchemaForTypeReference(member);
      MemberTried(this, t, start, before, stack, i, x, anyOf);
      anyOf' := if x.Some? then anyOf + [x.value] else anyOf;
    }

    /** The shapes a reference to a declared type can take, in turn. */
    method SchemaForNamed(f: Fqn) returns (s: Option<Schema>)
      requires Valid() && f in sys.types && !IsConstruct(sys, Named(f))
      modifies this
      ensures Called(old(definitions), old(definitionStack), s)
      ensures s.Some? ==> Describes(sys, Named(f), s.value)
      ensures s.Some? ==> Schematizable(sys, Named(f)) && Ready(sys, Named(f), definitions.Keys)
      ensures s.None? ==> !SchematizableAvoiding(sys, Named(f), Keys(definitionStack))
      ensures Ready(sys, Named(f), old(definitions).Keys) ==> s.Some?
      decreases AllKeys(sys) - Keys(definitionStack), 4
    {
      s := SchemaForInterface(f);
      if s.Some? { return; }
      if sys.types[f].Enum? {
        assert Derivable(sys, Named(f), {}, 0);
        return Some(EnumOf(sys.types[f].members));
      }
      if Ready(sys, Named(f), old(definitions).Keys) {
        ReadyMore(sys, Named(f), old(definitions).Keys, definitions.Keys);
      }
      ghost var before := definitions;
      s := SchemaForEnumLikeClass(f);
      if s.Some? {
        assert Derivable(sys, Named(f), {}, 0);
        return;
      }
      if Ready(sys, Named(f), before.Keys) { ReadyMore(sys, Named(f), before.Keys, definitions.Keys); }
      s := SchemaForPolymorphic(f);
      if s.Some? {
        assert Derivable(sys, Named(f), {}, 0);
      } else {
        NoRuleApplies(sys, f, Keys(definitionStack));
      }
    }

    method SchemaForInterface(f: Fqn) returns (s: Option<Schema>)
      requires Valid() && f in sys.types
      modifies this
      ensures Called(old(definitions), old(definitionStack), s)
      ensures !IsDataInterface(sys, f) ==> s.None? && definitions == old(definitions)
      ensures s.Some? ==> s == Some(Ref(TypeKey(f)))
      ensures s.Some? ==> Schematizable(sys, Named(f)) && TypeKey(f) in definitions
      ensures IsDataInterface(sys, f) && TypeKey(f) in old(definitions) ==> s.Some?
      ensures s.None? && IsDataInterface(sys, f) ==> Fails(sys, f, Keys(definitionStack))
      decreases AllKeys(sys) - Keys(definitionStack), 1
    {
      if !sys.types[f].Interface? || |sys.types[f].allMethods| > 0 { return None; }
      var key := TypeKey(f);
      if key !in definitions {
        hide *;
        if key in definitionStack {
          UnderWayFails(this, f);
          return None;
        }
        ghost var before, stack := definitions, definitionStack;
        InAllKeys(sys, f);
        Enter(key);
        PushKey(stack, key);
        var body := InterfaceBody(f);
        BodyFound(this, f, before, stack + [key], body);
        ghost var made := definitions;
        Leave(key, body, stack);
        InterfaceDone(this, f, before, made, stack, body);
        if body.None? { return None; }
      } else {
        InterfaceAtHand(this, f);
      }
      return Some(Ref(key));
    }

    /** The schema of a data interface: a property that has none is left out if it is optional. */
    method InterfaceBody(f: Fqn) returns (s: Option<Schema>)
      requires Valid() && IsDataInterface(sys, f)
      modifies this
      ensures Called(old(definitions), old(definitionStack), s)
      ensures s.Some? ==> InterfaceShape(sys, f, s.value, Keys(definitionStack))
      ensures s.Some? ==> RequiredSchematizable(sys, f)
      ensures s.None? ==> forall n: nat :: !AllRequired(sys, sys.types[f].allProperties, Keys(definitionStack), n)
      decreases AllKeys(sys) - Keys(definitionStack), 6
    {
      hide *;
      InterfaceStart(this, f);
      var props := sys.types[f].allProperties;
      var properties: seq<Field>, required: seq<string> := [], [];
      var i := 0;
      while i < |props|
        invariant 0 <= i <= |props| && definitionStack == old(definitionStack)
        invariant ListedUpTo(f, old(definitions), old(definitionStack), i, properties, required)
      {
        var ok;
        ok, properties, required := AddInterfaceProperty(f, i, props[i], properties, required, old(definitions));
        if !ok { return None; }
        i := i + 1;
      }
      InterfaceEnd(this, f, old(definitions), old(definitionStack), properties, required);
      return Some(Object(properties, required));
    }

    /** The first `i` properties of the interface `f` have been listed or left out. */
    ghost predicate ListedUpTo(f: Fqn, start: Definitions, stack: seq<Key>, i: nat, properties: seq<Field>,
                               required: seq<string>)
      reads this
    {
      && Called(start, stack, Some(Object(properties, required))) && IsDataInterface(sys, f)
      && var props := sys.types[f].allProperties;
         && i <= |props| && AllClosed(sys, props) && AllClosed(sys, props[..i])
         && required == RequiredNames(props[..i]) && FieldsFor(sys, props[..i], properties, Keys(stack))
         && forall j :: 0 <= j < i && !props[j].optional ==> Schematizable(sys, props[j].typ)
    }

    /** A property without a schema is left out if it is optional; otherwise there is no schema at all. */
    method AddInterfaceProperty(f: Fqn, ghost i: nat, prop: Property, properties: seq<Field>, required: seq<string>,
                                ghost start: Definitions)
        returns (ok: bool, properties': seq<Field>, required': seq<string>)
      requires ListedUpTo(f, start, definitionStack, i, properties, required)
      requires i < |sys.types[f].allProperties| && prop == sys.types[f].allProperties[i]
      modifies this
      ensures Called(start, old(definitionStack), None) && definitionStack == old(definitionStack)
      ensures ok ==> ListedUpTo(f, start, definitionStack, i + 1, properties', required')
      ensures !ok ==> forall n: nat :: !AllRequired(sys, sys.types[f].allProperties, Keys(definitionStack), n)
      decreases AllKeys(sys) - Keys(definitionStack), 5, prop.typ, 3
    {
      ghost var before, stack := definitions, definitionStack;
      hide *;
      PropertyKnown(this, f, start, stack, i, properties, required);
      var schema := SchemaForTypeReference(prop.typ);
      PropertyTried(this, f, start, before, stack, i, schema, properties, required);
      if schema.None? {
        return prop.optional, properties, required;
      }
      return true, properties + [Field(prop.name, schema)], if prop.optional then required else required + [prop.name];
    }

    method SchemaForEnumLikeClass(f: Fqn) returns (s: Option<Schema>)
      requires Valid() && f in sys.types
      modifies this
      ensures Called(old(definitions), old(definitionStack), s)
      ensures s.Some? ==> s == Some(Ref(TypeKey(f)))
      ensures s.Some? ==> HasEnumLike(sys, f, {}) && EnumLikeReady(sys, f, definitions.Keys)
      ensures s.None? ==> !HasEnumLike(sys, f, Keys(definitionStack))
      ensures EnumLikeReady(sys, f, old(definitions).Keys) ==> s.Some?
      decreases AllKeys(sys) - Keys(definitionStack), 2, 3
    {
      if !sys.types[f].Class? { return None; }
      if EnumLikeProperties(sys, f, sys.types[f].allProperties) == []
         && EnumLikeMethods(sys, f, sys.types[f].allMethods) == []
      {
        return None;
      }
      var anyOf := EnumLikeAlternatives(f);
      if anyOf == [] { return None; }
      if TypeKey(f) !in definitionStack { EnumLikeRule(sys, f); }
      EnumLikeShape(sys, f, Keys(definitionStack));
      s := DefineAnyOf(f, anyOf);
    }

    /** The enum-like members of a class that have a schema. */
    method EnumLikeAlternatives(f: Fqn) returns (anyOf: seq<Schema>)
      requires Valid() && f in sys.types && sys.types[f].Class?
      modifies this
      ensures Called(old(definitions), old(definitionStack), Some(AnyOf(anyOf)))
      ensures anyOf == EnumLikeOptions(sys, f, Keys(definitionStack))
      ensures anyOf != [] ==>
                && HasEnumLikeMember(sys, f) && (TypeKey(f) in definitions ==> EnumLikeReady(sys, f, definitions.Keys))
                && (TypeKey(f) !in definitions ==> EnumLikeReady(sys, f, definitions.Keys + {TypeKey(f)}))
      ensures anyOf == [] ==>
              !HasEnumLike(sys, f, Keys(definitionStack)) && !EnumLikeReady(sys, f, old(definitions).Keys)
      decreases AllKeys(sys) - Keys(definitionStack), 2, 2
    {
      var enumLikeProps := EnumLikeProperties(sys, f, sys.types[f].allProperties);
      var enumLikeMethods := EnumLikeMethods(sys, f, sys.types[f].allMethods);
      anyOf := if enumLikeProps == [] then [] else [EnumOf(Names(enumLikeProps))];
      AlternativesStart(this, f, anyOf);
      hide *;
      var i := 0;
      while i < |enumLikeMethods|
        invariant 0 <= i <= |enumLikeMethods| && definitionStack == old(definitionStack)
        invariant AlternativesUpTo(f, old(definitions), old(definitionStack), i, anyOf)
      {
        anyOf := NextAlternative(f, i, enumLikeMethods[i], anyOf, old(definitions));
        i := i + 1;
      }
      AlternativesEnd(this, f, old(definitions), old(definitionStack), anyOf);
    }

    /** The enum-like properties and the first `n` enum-like methods have been tried. */
    ghost predicate AlternativesUpTo(f: Fqn, start: Definitions, stack: seq<Key>, n: nat, anyOf: seq<Schema>)
      reads this
    {
      && Called(start, stack, Some(AnyOf(anyOf))) && f in sys.types && sys.types[f].Class?
      && var ms := EnumLikeMethods(sys, f, sys.types[f].allMethods);
         n <= |ms| && anyOf == EnumLikeUpTo(sys, f, n, Keys(stack))
         && Tried(ms, EnumLikeProperties(sys, f, sys.types[f].allProperties) != [], n, anyOf != [],
                  start.Keys, definitions.Keys, Keys(stack))
    }

    /** One turn of the loop over the enum-like methods. */
    method NextAlternative(f: Fqn, ghost i: nat, m: Callable, anyOf: seq<Schema>, ghost start: Definitions)
        returns (anyOf': seq<Schema>)
      requires AlternativesUpTo(f, start, definitionStack, i, anyOf)
      requires var ms := EnumLikeMethods(sys, f, sys.types[f].allMethods); i < |ms| && ms[i] == m
      modifies this
      ensures AlternativesUpTo(f, start, old(definitionStack), i + 1, anyOf') && definitionStack == old(definitionStack)
      decreases AllKeys(sys) - Keys(definitionStack), 2, 1
    {
      ghost var before, stack := definitions, definitionStack;
      hide *;
      AlternativeKnown(this, f, start, stack, i, anyOf);
      anyOf' := AddEnumLikeMethod(m, anyOf);
      CalledFacts(this, before, stack, Some(AnyOf(anyOf')));
      AlternativeTried(this, f, start, before, stack, i, anyOf, anyOf');
    }

    /** One more enum-like method among the alternatives, unless its schema is under way. */
    method AddEnumLikeMethod(m: Callable, anyOf: seq<Schema>) returns (anyOf': seq<Schema>)
      requires Valid() && CallableClosed(sys, m) && KeyOf(m) in AllKeys(sys) && Built(Some(AnyOf(anyOf)), definitions)
      modifies this
      ensures Called(old(definitions), old(definitionStack), Some(AnyOf(anyOf')))
      ensures if KeyOf(m) in definitionStack then anyOf' == anyOf && KeyOf(m) !in old(definitions)
              else anyOf' == anyOf + [Call(m.name, m)] && KeyOf(m) in definitions
      decreases AllKeys(sys) - Keys(definitionStack), 2, 0
    {
      hide WellBuilt, Consistent, AllKeys, CallableClosed, Call;
      anyOf' := anyOf;
      var s := MethodSchema(m);
      AnyOfMore(anyOf, old(definitions).Keys, definitions.Keys);
      if s.Some? {
        // The second call finds the definition that the first one made.
        ghost var before := definitions;
        var again := MethodSchema(m);
        AnyOfMore(anyOf, before.Keys, definitions.Keys);
        CallBuilt(m.name, m, definitions.Keys);
        AnyOfAppend(anyOf, Call(m.name, m), definitions.Keys);
        anyOf' := anyOf + [Object([Field(m.name, again)], [])];
        MethodCall(m);
      } else {
        StackUndefined(sys, old(definitions), definitionStack);
      }
    }

    /** Define a type as the alternatives given. */
    method DefineAnyOf(f: Fqn, anyOf: seq<Schema>) returns (s: Option<Schema>)
      requires Valid() && f in sys.types && Built(Some(AnyOf(anyOf)), definitions)
               && AlternativesShape(sys, f, AnyOf(anyOf))
      requires TypeKey(f) !in definitionStack ==> Schematizable(sys, Named(f))
      modifies this
      ensures Called(old(definitions), old(definitionStack), s)
      ensures s.Some? <==> TypeKey(f) !in definitionStack
      ensures s.Some? ==> s == Some(Ref(TypeKey(f))) && TypeKey(f) in definitions
      ensures definitions == if s.Some? && TypeKey(f) !in old(definitions)
                             then old(definitions)[TypeKey(f) := AnyOf(anyOf)] else old(definitions)
    {
      var key := TypeKey(f);
      if key !in definitions {
        if key in definitionStack { return None; }
        ghost var stack := definitionStack;
        hide WellBuilt, DefinedAs, Consistent, AlternativesShape, Schematizable;
        InAllKeys(sys, f);
        AlternativesDefined(sys, f, AnyOf(anyOf));
        Enter(key);
        Leave(key, Some(AnyOf(anyOf)), stack);
        RefBuilt(key, definitions.Keys);
      }
      return Some(Ref(key));
    }

    method SchemaForPolymorphic(f: Fqn) returns (s: Option<Schema>)
      requires Valid() && f in sys.types && !sys.types[f].Enum?
      modifies this
      ensures Called(old(definitions), old(definitionStack), s)
      ensures s.Some? ==> s == Some(Ref(TypeKey(f)))
      ensures s.Some? ==> HasImplementation(sys, f, {}) && PolymorphicReady(sys, f, definitions.Keys)
      ensures s.None? ==> !HasImplementation(sys, f, Keys(definitionStack))
      ensures PolymorphicReady(sys, f, old(definitions).Keys) ==> s.Some?
      decreases AllKeys(sys) - Keys(definitionStack), 3
    {
      var anyOf := ImplementationAlternatives(f);
      if anyOf == [] { return None; }
      if TypeKey(f) !in definitionStack { ImplementationRule(sys, f); }
      s := DefineAnyOf(f, anyOf);
    }

    /** What the concrete implementations of a type offer. */
    method ImplementationAlternatives(f: Fqn) returns (anyOf: seq<Schema>)
      requires Valid() && f in sys.types && !sys.types[f].Enum?
      modifies this
      ensures Called(old(definitions), old(definitionStack), Some(AnyOf(anyOf)))
      ensures anyOf != [] ==> AlternativesShape(sys, f, AnyOf(anyOf))
      ensures AllListed(sys, Implementations(sys, f, sys.classes), anyOf, Keys(definitionStack))
      ensures anyOf != [] ==>
              exists x ::
                x in Implementations(sys, f, sys.classes) && Usable(sys, x, {})
                && UsableReady(sys, x, definitions.Keys)
      ensures anyOf == [] ==>
              !HasImplementation(sys, f, Keys(definitionStack)) && !PolymorphicReady(sys, f, old(definitions).Keys)
      decreases AllKeys(sys) - Keys(definitionStack), 2, 5
    {
      var xs := Implementations(sys, f, sys.classes);
      anyOf := [];
      assert WellBuilt(AnyOf(anyOf), definitions.Keys) && Closed(sys);
      assert forall j :: 0 <= j < |xs| ==> xs[j] in sys.types && sys.types[xs[j]].Class?;
      hide WellBuilt, Consistent, Closed, Derivable, Implementations, Usable, UsableReady, AllKeys, Kept, Offered,
           OfferedBy, Offers, OffersListed, HasImplementation, PolymorphicReady, AlternativesShape;
      OfferedNone(sys, xs, definitions.Keys, Keys(definitionStack));
      var i := 0;
      while i < |xs|
        invariant 0 <= i <= |xs|
        invariant Called(old(definitions), old(definitionStack), Some(AnyOf(anyOf)))
        invariant OfferedBy(sys, xs, anyOf) && AllListed(sys, xs[..i], anyOf, Keys(definitionStack))
        invariant Offered(sys, xs, i, anyOf != [], old(definitions).Keys, definitions.Keys, Keys(definitionStack))
      {
        ghost var before, found := definitions, anyOf != [];
        ghost var sofar := anyOf;
        anyOf := AddImplementation(xs[i], anyOf);
        OfferedByMore(sys, xs, xs[i], sofar, anyOf);
        ListedMore(sys, xs, i, sofar, anyOf, Keys(definitionStack));
        KeptTransitive(old(definitions), before, definitions);
        OfferedMore(sys, xs, i, found, old(definitions).Keys, before.Keys, definitions.Keys, Keys(definitionStack));
        i := i + 1;
      }
      assert xs[..i] == xs;
      if anyOf != [] { OfferedShape(sys, f, anyOf); }
      OfferedAll(sys, f, anyOf != [], old(definitions).Keys, definitions.Keys, Keys(definitionStack));
    }

    /** The alternatives that one implementation adds. */
    method AddImplementation(x: Fqn, anyOf: seq<Schema>) returns (anyOf': seq<Schema>)
      requires Valid() && x in sys.types && sys.types[x].Class? && Built(Some(AnyOf(anyOf)), definitions)
      modifies this
      ensures Called(old(definitions), old(definitionStack), Some(AnyOf(anyOf')))
      ensures if anyOf' == anyOf
              then !Usable(sys, x, Keys(definitionStack)) && !UsableReady(sys, x, old(definitions).Keys)
              else Usable(sys, x, {}) && UsableReady(sys, x, definitions.Keys)
      ensures anyOf <= anyOf' && forall i :: |anyOf| <= i < |anyOf'| ==> Offers(sys, x, anyOf'[i])
      ensures OffersListed(sys, x, anyOf', Keys(definitionStack))
      decreases AllKeys(sys) - Keys(definitionStack), 2, 4
    {
      hide WellBuilt, Consistent, Derivable, AllKeys, Usable, UsableReady, HasEnumLike, EnumLikeReady;
      var enumLike := SchemaForEnumLikeClass(x);
      AnyOfMore(anyOf, old(definitions).Keys, definitions.Keys);
      anyOf' := anyOf;
      if enumLike.Some? {
        AnyOfAppend(anyOf, enumLike.value, definitions.Keys);
        anyOf' := anyOf + [enumLike.value];
      }
      ghost var before := definitions;
      ghost var called;
      anyOf', called := AddInitializer(x, anyOf');
      CalledAgain(this, old(definitions), before, old(definitionStack), Some(AnyOf(anyOf')));
      StackUndefined(sys, old(definitions), definitionStack);
      UsableDecided(sys, x, enumLike.Some?, called, Keys(definitionStack), old(definitions).Keys, before.Keys,
                    definitions.Keys);
    }

    method AddInitializer(x: Fqn, anyOf: seq<Schema>) returns (anyOf': seq<Schema>, ghost called: bool)
      requires Valid() && x in sys.types && sys.types[x].Class? && Built(Some(AnyOf(anyOf)), definitions)
      modifies this
      ensures Called(old(definitions), old(definitionStack), Some(AnyOf(anyOf')))
      ensures called <==> sys.types[x].initializer.Some? && KeyOf(sys.types[x].initializer.value) !in definitionStack
      ensures called ==> KeyOf(sys.types[x].initializer.value) in definitions
      ensures anyOf' == anyOf + if called then [Call(x, sys.types[x].initializer.value)] else []
      decreases AllKeys(sys) - Keys(definitionStack), 2, 0
    {
      anyOf', called := anyOf, false;
      if sys.types[x].initializer.Some? {
        assert CallableClosed(sys, sys.types[x].initializer.value)
               && KeyOf(sys.types[x].initializer.value) in AllKeys(sys);
        hide WellBuilt, Consistent, Closed, AllKeys, CallableClosed;
        var methd := MethodSchema(sys.types[x].initializer.value);
        AnyOfMore(anyOf, old(definitions).Keys, definitions.Keys);
        if methd.Some? {
          called := true;
          CallBuilt(x, sys.types[x].initializer.value, definitions.Keys);
          AnyOfAppend(anyOf, Call(x, sys.types[x].initializer.value), definitions.Keys);
          anyOf' := anyOf + [Object([Field(x, methd)], [])];
        }
      }
    }

    method MethodSchema(m: Callable) returns (s: Option<Schema>)
      requires Valid() && CallableClosed(sys, m) && KeyOf(m) in AllKeys(sys)
      modifies this
      ensures Called(old(definitions), old(definitionStack), s)
      ensures s.Some? <==> KeyOf(m) !in definitionStack
      ensures s.Some? ==> s == Some(Ref(KeyOf(m))) && KeyOf(m) in definitions
      decreases AllKeys(sys) - Keys(definitionStack), 1
    {
      var key := KeyOf(m);
      if key !in definitions {
        if key in definitionStack { return None; }
        ghost var stack := definitionStack;
        hide WellBuilt, DefinedAs, Consistent, MethodShape, CallableClosed, AllKeys, Closed;
        Enter(key);
        var body := MethodBody(m);
        MethodDefined(sys, m, body, Keys(definitionStack));
        Leave(key, Some(body), stack);
        RefBuilt(key, definitions.Keys);
      }
      return Some(Ref(key));
    }

    /** An object with a property per parameter; a last parameter that is a struct is spread out. */
    method MethodBody(m: Callable) returns (s: Schema)
      requires Valid() && CallableClosed(sys, m)
      modifies this
      ensures Called(old(definitions), old(definitionStack), Some(s)) && MethodShape(sys, m, s, Keys(definitionStack))
      decreases AllKeys(sys) - Keys(definitionStack), 8, 2
    {
      var properties: seq<Field>, required: seq<string> := [], [];
      ghost var done: seq<Property>, spread := [], false;
      var i := 0;
      while i < |m.parameters|
        invariant 0 <= i <= |m.parameters|
        invariant Called(old(definitions), old(definitionStack), Some(Object(properties, required)))
        invariant AllClosed(sys, done) && ParametersFor(sys, done, properties, required, Keys(definitionStack))
        invariant done == if i < |m.parameters| then m.parameters[..i] else Arguments(sys, m, spread)
        invariant i == |m.parameters| ==> SpreadIfStruct(sys, m, spread, Keys(definitionStack))
      {
        var p := m.parameters[i];
        ghost var start := definitions;
        CalledFacts(this, old(definitions), old(definitionStack), Some(Object(properties, required)));
        ArgumentsNext(sys, m, i);
        hide Called, Describes, ParametersFor, Closed, Consistent, WellBuilt, AllKeys, Arguments, Keys, RefClosed,
             CallableClosed;
        if i == |m.parameters| - 1 && p.typ.Named? && IsDataType(sys, p.typ.fqn) {
          properties, required, done, spread := AddStruct(p.typ.fqn, properties, required, done);
        } else {
          properties, required, done := AddAll([p], properties, required, done);
        }
        CalledAgain(this, old(definitions), start, old(definitionStack), Some(Object(properties, required)));
        i := i + 1;
      }
      return Object(properties, required);
    }

    /** Keyword arguments: the properties of a struct that has a schema. */
    method AddStruct(f: Fqn, properties: seq<Field>, required: seq<string>, ghost done: seq<Property>)
        returns (properties': seq<Field>, required': seq<string>, ghost done': seq<Property>, ghost spread: bool)
      requires Valid() && IsDataType(sys, f) && Built(Some(Object(properties, required)), definitions)
      requires AllClosed(sys, done) && ParametersFor(sys, done, properties, required, Keys(definitionStack))
      modifies this
      ensures Called(old(definitions), old(definitionStack), Some(Object(properties', required')))
      ensures AllClosed(sys, done') && ParametersFor(sys, done', properties', required', Keys(definitionStack))
      ensures done' == done + if spread then sys.types[f].allProperties else []
      ensures Spread(sys, f, spread, Keys(definitionStack))
      decreases AllKeys(sys) - Keys(definitionStack), 8, 1
    {
      properties', required', done', spread := properties, required, done, false;
      assert AllClosed(sys, sys.types[f].allProperties);
      hide Describes, ParametersFor, Closed, AllKeys;
      var kwargs := SchemaForInterface(f);
      WellBuiltMore(Object(properties, required), old(definitions).Keys, definitions.Keys);
      if kwargs.Some? {
        ghost var before := definitions;
        properties', required', done' := AddAll(sys.types[f].allProperties, properties, required, done);
        spread := true;
        KeptTransitive(old(definitions), before, definitions);
      } else {
        assert done + [] == done;
      }
    }

    method AddAll(props: seq<Property>, properties: seq<Field>, required: seq<string>, ghost done: seq<Property>)
        returns (properties': seq<Field>, required': seq<string>, ghost done': seq<Property>)
      requires Valid() && AllClosed(sys, props) && Built(Some(Object(properties, required)), definitions)
      requires AllClosed(sys, done) && ParametersFor(sys, done, properties, required, Keys(definitionStack))
      modifies this
      ensures Called(old(definitions), old(definitionStack), Some(Object(properties', required')))
      ensures done' == done + props && AllClosed(sys, done')
              && ParametersFor(sys, done', properties', required', Keys(definitionStack))
      decreases AllKeys(sys) - Keys(definitionStack), 8, 0
    {
      properties', required', done' := properties, required, done;
      var j := 0;
      while j < |props|
        invariant 0 <= j <= |props|
        invariant Called(old(definitions), old(definitionStack), Some(Object(properties', required')))
        invariant done' == done + props[..j] && AllClosed(sys, done')
                  && ParametersFor(sys, done', properties', required', Keys(definitionStack))
      {
        ghost var before, names := properties', required';
        properties', required' := AddProperty(props[j], properties', required');
        ParametersForNext(sys, done', props[j], before, names, properties', required', Keys(definitionStack));
        done' := done' + [props[j]];
        j := j + 1;
      }
      assert props[..j] == props;
    }

    /** A required property without a schema is skipped, an optional one stays undefined. */
    method AddProperty(prop: Property, properties: seq<Field>, required: seq<string>)
        returns (properties': seq<Field>, required': seq<string>)
      requires Valid() && RefClosed(sys, prop.typ) && Built(Some(Object(properties, required)), definitions)
      modifies this
      ensures Called(old(definitions), old(definitionStack), Some(Object(properties', required')))
      ensures Added(sys, prop, properties, required, properties', required', Keys(definitionStack))
      decreases AllKeys(sys) - Keys(definitionStack), 7
    {
      properties', required' := properties, required;
      var param := SchemaForTypeReference(prop.typ);
      WellBuiltMore(Object(properties, required), old(definitions).Keys, definitions.Keys);
      if param.None? && !prop.optional { return; }
      properties' := properties + [Field(prop.name, param)];
      if !prop.optional { required' := required + [prop.name]; }
    }

  }

  /** A run for a method whose required parameter has no schema: the parameter is dropped. */
  method DroppedParameter() returns (s: Schema)
    ensures s == Object([], [])
    ensures !Schematizable(NO_SCHEMA, NEEDS_OPAQUE.parameters[0].typ)
    ensures !NEEDS_OPAQUE.parameters[0].optional
  {
    assert Closed(NO_SCHEMA) && CallableClosed(NO_SCHEMA, NEEDS_OPAQUE);
    hide MethodShape, Consistent, Schematizable;
    var context := new SchemaContext(NO_SCHEMA, map[]);
    s := context.MethodBody(NEEDS_OPAQUE);
    RequiredParameterDropped(s, Keys(context.definitionStack));
  }

  // ---------------------------------------------------------------- why it is right

  ghost predicate RequiredSchematizable(sys: System, f: Fqn)
    requires Closed(sys) && IsDataInterface(sys, f)
  {
    var ps := sys.types[f].allProperties;
    forall i :: 0 <= i < |ps| && !ps[i].optional ==> Schematizable(sys, ps[i].typ)
  }

  lemma UnionRule(sys: System, t: TypeRef, i: nat)
    requires Closed(sys) && RefClosed(sys, t) && t.UnionOf? && i < |t.types| && Schematizable(sys, t.types[i])
    ensures Schematizable(sys, t)
  {
    var n: nat :| Derivable(sys, t.types[i], {}, n);
    assert Derivable(sys, t, {}, n);
  }

  lemma InterfaceRule(sys: System, f: Fqn)
    requires Closed(sys) && IsDataInterface(sys, f) && RequiredSchematizable(sys, f)
    ensures Schematizable(sys, Named(f))
  {
    CommonHeight(sys, sys.types[f].allProperties, {});
    var n: nat :| AllRequired(sys, sys.types[f].allProperties, {}, n);
    assert Derivable(sys, Named(f), {}, n + 1);
  }

  ghost predicate HasEnumLikeMember(sys: System, f: Fqn) {
    && f in sys.types && sys.types[f].Class?
    && (EnumLikeProperties(sys, f, sys.types[f].allProperties) != []
        || EnumLikeMethods(sys, f, sys.types[f].allMethods) != [])
  }

  lemma EnumLikeRule(sys: System, f: Fqn)
    requires Closed(sys) && HasEnumLikeMember(sys, f)
    ensures HasEnumLike(sys, f, {}) && Schematizable(sys, Named(f))
  {
    var ms := EnumLikeMethods(sys, f, sys.types[f].allMethods);
    if ms != [] { assert ms[0] in ms; }
    assert Derivable(sys, Named(f), {}, 0);
  }

  lemma ImplementationRule(sys: System, f: Fqn)
    requires Closed(sys) && f in sys.types && !sys.types[f].Enum?
    requires exists x :: x in Implementations(sys, f, sys.classes) && Usable(sys, x, {})
    ensures HasImplementation(sys, f, {}) && Schematizable(sys, Named(f))
  {
    assert Derivable(sys, Named(f), {}, 0);
  }

  /** No rule makes `f` schematizable without what is under way. */
  lemma NoRuleApplies(sys: System, f: Fqn, stack: set<Key>)
    requires Closed(sys) && f in sys.types && !IsConstruct(sys, Named(f)) && !sys.types[f].Enum?
    requires IsDataInterface(sys, f) ==> Fails(sys, f, stack)
    requires !HasEnumLike(sys, f, stack) && !HasImplementation(sys, f, stack)
    ensures !SchematizableAvoiding(sys, Named(f), stack)
  {
    forall n: nat ensures !Derivable(sys, Named(f), stack, n) {
      if Derivable(sys, Named(f), stack, n) {
        NoNeedOfItself(sys, f, stack, n);
      }
    }
  }

  /** `t` had no schema at hand, and has none without what is under way. */
  ghost predicate NoSchemaFor(sys: System, t: TypeRef, stack: set<Key>, keys: set<Key>)
    requires Closed(sys) && RefClosed(sys, t)
  {
    !SchematizableAvoiding(sys, t, stack) && !Ready(sys, t, keys)
  }

  lemma UnionStart(ctx: SchemaContext, t: TypeRef)
    requires ctx.Valid() && t.UnionOf? && RefClosed(ctx.sys, t)
    ensures ctx.UnionUpTo(t, ctx.definitions, ctx.definitionStack, 0, [])
  {
    assert WellBuilt(AnyOf([]), ctx.definitions.Keys);
    ContextClosed(ctx);
    hide Consistent, WellBuilt, Keys, Closed;
  }

  lemma MemberKnown(ctx: SchemaContext, t: TypeRef, start: Definitions, stack: seq<Key>, i: nat, anyOf: seq<Schema>)
    requires ctx.UnionUpTo(t, start, stack, i, anyOf) && i < |t.types|
    ensures ctx.Valid() && ctx.definitionStack == stack && Kept(start, ctx.definitions)
            && Built(Some(AnyOf(anyOf)), ctx.definitions)
    ensures Closed(ctx.sys) && t.UnionOf? && RefClosed(ctx.sys, t) && RefClosed(ctx.sys, t.types[i]) && t.types[i] < t
    ensures forall j :: 0 <= j < |t.types| ==> RefClosed(ctx.sys, t.types[j])
    ensures anyOf != [] ==> Schematizable(ctx.sys, t) && Ready(ctx.sys, t, ctx.definitions.Keys)
    ensures OptionsFor(ctx.sys, t.types[..i], anyOf, Keys(stack))
    ensures anyOf == [] ==> forall j :: 0 <= j < i ==> NoSchemaFor(ctx.sys, t.types[j], Keys(stack), start.Keys)
    ensures Ready(ctx.sys, t.types[i], start.Keys) ==> Ready(ctx.sys, t.types[i], ctx.definitions.Keys)
  {
    ContextClosed(ctx);
    if Ready(ctx.sys, t.types[i], start.Keys) { ReadyMore(ctx.sys, t.types[i], start.Keys, ctx.definitions.Keys); }
    hide Consistent, WellBuilt, Keys, Closed, OptionsFor, NoSchemaFor, Schematizable, Ready;
  }

  lemma MemberTried(ctx: SchemaContext, t: TypeRef, start: Definitions, before: Definitions, stack: seq<Key>, i: nat,
                    x: Option<Schema>, anyOf: seq<Schema>)
    requires Closed(ctx.sys) && t.UnionOf? && i < |t.types| && RefClosed(ctx.sys, t)
    requires forall j :: 0 <= j < |t.types| ==> RefClosed(ctx.sys, t.types[j])
    requires Kept(start, before) && Built(Some(AnyOf(anyOf)), before) && ctx.Called(before, stack, x)
    requires anyOf != [] ==> Schematizable(ctx.sys, t) && Ready(ctx.sys, t, before.Keys)
    requires OptionsFor(ctx.sys, t.types[..i], anyOf, Keys(stack))
    requires anyOf == [] ==> forall j :: 0 <= j < i ==> NoSchemaFor(ctx.sys, t.types[j], Keys(stack), start.Keys)
    requires x.Some? ==> Describes(ctx.sys, t.types[i], x.value)
    requires x.Some? ==> Schematizable(ctx.sys, t.types[i]) && Ready(ctx.sys, t.types[i], ctx.definitions.Keys)
    requires x.None? ==>
             !SchematizableAvoiding(ctx.sys, t.types[i], Keys(stack)) && !Ready(ctx.sys, t.types[i], before.Keys)
    requires Ready(ctx.sys, t.types[i], start.Keys) ==> Ready(ctx.sys, t.types[i], before.Keys)
    ensures ctx.UnionUpTo(t, start, stack, i + 1, if x.Some? then anyOf + [x.value] else anyOf)
  {
    CalledFacts(ctx, before, stack, x);
    KeptTransitive(start, before, ctx.definitions);
    assert x.None? ==> NoSchemaFor(ctx.sys, t.types[i], Keys(stack), start.Keys);
    if x.Some? { MemberReady(ctx.sys, t, i, ctx.definitions.Keys); }
    if anyOf != [] { ReadyMore(ctx.sys, t, before.Keys, ctx.definitions.Keys); }
    hide Consistent, WellBuilt, Keys, OptionsFor, Schematizable, SchematizableAvoiding, Closed, Describes, Kept,
         Ready, NoSchemaFor, RefClosed;
    AnyOfMore(anyOf, before.Keys, ctx.definitions.Keys);
    OptionsForNext(ctx.sys, t.types, i, anyOf, x, Keys(stack));
    if x.Some? { AnyOfAppend(anyOf, x.value, ctx.definitions.Keys); }
  }

  lemma NoSchema(sys: System, t: TypeRef, stack: set<Key>, keys: set<Key>)
    requires Closed(sys) && RefClosed(sys, t) && NoSchemaFor(sys, t, stack, keys)
    ensures !SchematizableAvoiding(sys, t, stack) && !Ready(sys, t, keys)
  {
  }

  lemma MemberReady(sys: System, t: TypeRef, i: nat, keys: set<Key>)
    requires Closed(sys) && RefClosed(sys, t) && t.UnionOf? && i < |t.types| && RefClosed(sys, t.types[i])
    requires Schematizable(sys, t.types[i]) && Ready(sys, t.types[i], keys)
    ensures Schematizable(sys, t) && Ready(sys, t, keys)
  {
    UnionRule(sys, t, i);
  }

  lemma UnionEnd(ctx: SchemaContext, t: TypeRef, start: Definitions, stack: seq<Key>, anyOf: seq<Schema>)
    requires t.UnionOf? && ctx.UnionUpTo(t, start, stack, |t.types|, anyOf)
    ensures Closed(ctx.sys) && RefClosed(ctx.sys, t) && ctx.definitionStack == stack
    ensures forall i :: 0 <= i < |t.types| ==> RefClosed(ctx.sys, t.types[i])
    ensures if anyOf == [] then
              && ctx.Called(start, stack, None)
              && (forall i :: 0 <= i < |t.types| ==> !SchematizableAvoiding(ctx.sys, t.types[i], Keys(stack)))
              && !exists i :: 0 <= i < |t.types| && Ready(ctx.sys, t.types[i], start.Keys)
            else
              && ctx.Called(start, stack, Some(AnyOf(anyOf)))
              && Describes(ctx.sys, t, AnyOf(anyOf)) && Schematizable(ctx.sys, t)
              && Ready(ctx.sys, t, ctx.definitions.Keys)
              && OptionsFor(ctx.sys, t.types, anyOf, Keys(stack))
  {
    ContextClosed(ctx);
    assert t.types[..|t.types|] == t.types;
    if anyOf == [] {
      forall i | 0 <= i < |t.types|
        ensures !SchematizableAvoiding(ctx.sys, t.types[i], Keys(stack)) && !Ready(ctx.sys, t.types[i], start.Keys)
      {
        NoSchema(ctx.sys, t.types[i], Keys(stack), start.Keys);
      }
    } else {
      OptionsDescribed(ctx.sys, t.types, anyOf, Keys(stack));
      FirmListed(ctx.sys, t.types, anyOf, Keys(stack));
    }
    hide Consistent, WellBuilt, Keys, Closed, OptionsFor, NoSchemaFor, Schematizable, SchematizableAvoiding, Ready;
  }

  lemma InterfaceStart(ctx: SchemaContext, f: Fqn)
    requires ctx.Valid() && IsDataInterface(ctx.sys, f)
    ensures f in ctx.sys.types && ctx.sys.types[f].Interface?
    ensures ctx.ListedUpTo(f, ctx.definitions, ctx.definitionStack, 0, [], [])
  {
    assert WellBuilt(Object([], []), ctx.definitions.Keys);
    hide Consistent, WellBuilt, Keys;
    assert Closed(ctx.sys) by { ContextClosed(ctx); }
  }

  lemma ContextClosed(ctx: SchemaContext)
    requires ctx.Valid()
    ensures Closed(ctx.sys)
  {
  }

  lemma PropertyKnown(ctx: SchemaContext, f: Fqn, start: Definitions, stack: seq<Key>, i: nat, properties: seq<Field>,
                      required: seq<string>)
    requires ctx.ListedUpTo(f, start, stack, i, properties, required) && i < |ctx.sys.types[f].allProperties|
    ensures ctx.Valid() && ctx.definitionStack == stack && Kept(start, ctx.definitions)
    ensures Built(Some(Object(properties, required)), ctx.definitions)
    ensures Closed(ctx.sys) && f in ctx.sys.types && ctx.sys.types[f].Interface?
            && AllClosed(ctx.sys, ctx.sys.types[f].allProperties)
    ensures var props := ctx.sys.types[f].allProperties;
      && RefClosed(ctx.sys, props[i].typ) && AllClosed(ctx.sys, props[..i])
      && required == RequiredNames(props[..i]) && FieldsFor(ctx.sys, props[..i], properties, Keys(stack))
      && forall j :: 0 <= j < i && !props[j].optional ==> Schematizable(ctx.sys, props[j].typ)
    ensures IsDataInterface(ctx.sys, f)
  {
    ContextClosed(ctx);
    hide Consistent, WellBuilt, Keys, FieldsFor, RequiredNames, Schematizable, Closed;
  }

  /** After the evaluation of the schema of property `i`. */
  lemma PropertyTried(ctx: SchemaContext, f: Fqn, start: Definitions, before: Definitions, stack: seq<Key>, i: nat,
                      schema: Option<Schema>, properties: seq<Field>, required: seq<string>)
    requires Closed(ctx.sys) && IsDataInterface(ctx.sys, f) && AllClosed(ctx.sys, ctx.sys.types[f].allProperties)
    requires i < |ctx.sys.types[f].allProperties| && Kept(start, before) && ctx.Called(before, stack, schema)
    requires var props := ctx.sys.types[f].allProperties;
      && AllClosed(ctx.sys, props[..i]) && required == RequiredNames(props[..i])
      && FieldsFor(ctx.sys, props[..i], properties, Keys(stack)) && Built(Some(Object(properties, required)), before)
      && (forall j :: 0 <= j < i && !props[j].optional ==> Schematizable(ctx.sys, props[j].typ))
      && (schema.Some? ==> Describes(ctx.sys, props[i].typ, schema.value) && Schematizable(ctx.sys, props[i].typ))
      && (schema.None? ==> !SchematizableAvoiding(ctx.sys, props[i].typ, Keys(stack)))
    ensures ctx.Called(start, stack, None)
    ensures var p := ctx.sys.types[f].allProperties[i];
      if schema.Some? then
        ctx.ListedUpTo(f, start, stack, i + 1, properties + [Field(p.name, schema)],
                       if p.optional then required else required + [p.name])
      else if p.optional then ctx.ListedUpTo(f, start, stack, i + 1, properties, required)
      else forall n: nat :: !AllRequired(ctx.sys, ctx.sys.types[f].allProperties, Keys(stack), n)
  {
    var props := ctx.sys.types[f].allProperties;
    hide *;
    CalledFacts(ctx, before, stack, schema);
    CalledWith(ctx, start, before, stack, None);
    ObjectBuiltMore(properties, required, before, ctx.definitions);
    if schema.None? && !props[i].optional {
      NotAllRequired(ctx.sys, props, i, Keys(stack));
    } else {
      FieldsForNext(ctx.sys, props, i, properties, schema, Keys(stack));
      var more := if schema.Some? then properties + [Field(props[i].name, schema)] else properties;
      var names := if props[i].optional then required else required + [props[i].name];
      if schema.Some? { FieldBuilt(properties, required, props[i].name, schema.value, names, ctx.definitions); }
      CalledWith(ctx, start, before, stack, Some(Object(more, names)));
      ListedNow(ctx, f, start, stack, i, more, names);
    }
  }

  lemma CalledWith(ctx: SchemaContext, start: Definitions, before: Definitions, stack: seq<Key>, s: Option<Schema>)
    requires ctx.Valid() && ctx.definitionStack == stack && Kept(start, before) && Kept(before, ctx.definitions)
    requires Built(s, ctx.definitions) || s.None?
    ensures ctx.Called(start, stack, s)
  {
  }

  lemma ObjectBuiltMore(properties: seq<Field>, required: seq<string>, before: Definitions, after: Definitions)
    requires Built(Some(Object(properties, required)), before) && Kept(before, after)
    ensures Built(Some(Object(properties, required)), after)
  {
    ObjectMore(properties, required, before.Keys, after.Keys);
  }

  lemma FieldBuilt(properties: seq<Field>, required: seq<string>, name: string, s: Schema, names: seq<string>,
                   defs: Definitions)
    requires Built(Some(Object(properties, required)), defs) && Built(Some(s), defs)
    ensures Built(Some(Object(properties + [Field(name, Some(s))], names)), defs)
  {
    ObjectAppend(properties, required, name, s, defs.Keys);
  }

  lemma ListedNow(ctx: SchemaContext, f: Fqn, start: Definitions, stack: seq<Key>, i: nat, properties: seq<Field>,
                  required: seq<string>)
    requires ctx.Called(start, stack, Some(Object(properties, required))) && Closed(ctx.sys)
             && IsDataInterface(ctx.sys, f)
    requires i < |ctx.sys.types[f].allProperties| && AllClosed(ctx.sys, ctx.sys.types[f].allProperties)
    requires var props := ctx.sys.types[f].allProperties;
      && AllClosed(ctx.sys, props[..i + 1]) && required == RequiredNames(props[..i + 1])
      && FieldsFor(ctx.sys, props[..i + 1], properties, Keys(stack))
      && (forall j :: 0 <= j < i && !props[j].optional ==> Schematizable(ctx.sys, props[j].typ))
      && (!props[i].optional ==> Schematizable(ctx.sys, props[i].typ))
    ensures ctx.ListedUpTo(f, start, stack, i + 1, properties, required)
  {
    hide SchemaContext.Called, FieldsFor, RequiredNames, Schematizable, Closed;
  }

  lemma InterfaceEnd(ctx: SchemaContext, f: Fqn, start: Definitions, stack: seq<Key>, properties: seq<Field>,
                     required: seq<string>)
    requires f in ctx.sys.types && ctx.sys.types[f].Interface?
    requires ctx.ListedUpTo(f, start, stack, |ctx.sys.types[f].allProperties|, properties, required)
    ensures ctx.Called(start, stack, Some(Object(properties, required))) && ctx.definitionStack == stack
    ensures Closed(ctx.sys) && IsDataInterface(ctx.sys, f) && RequiredSchematizable(ctx.sys, f)
    ensures InterfaceShape(ctx.sys, f, Object(properties, required), Keys(stack))
  {
    var props := ctx.sys.types[f].allProperties;
    ContextClosed(ctx);
    assert props[..|props|] == props;
    hide Consistent, WellBuilt, Keys, FieldsFor, RequiredNames, Schematizable, Closed;
  }

  lemma AlternativesStart(ctx: SchemaContext, f: Fqn, anyOf: seq<Schema>)
    requires ctx.Valid() && f in ctx.sys.types && ctx.sys.types[f].Class?
    requires var ps := EnumLikeProperties(ctx.sys, f, ctx.sys.types[f].allProperties);
             anyOf == if ps == [] then [] else [EnumOf(Names(ps))]
    ensures ctx.AlternativesUpTo(f, ctx.definitions, ctx.definitionStack, 0, anyOf)
  {
    assert WellBuilt(AnyOf(anyOf), ctx.definitions.Keys);
    hide WellBuilt, Consistent, EnumLikeMethods, EnumLikeProperties, Tried, EnumLikeUpTo, Calls, Keys;
    var ps := EnumLikeProperties(ctx.sys, f, ctx.sys.types[f].allProperties);
    EnumLikeStarts(ctx.sys, f, Keys(ctx.definitionStack));
    TriedNone(EnumLikeMethods(ctx.sys, f, ctx.sys.types[f].allMethods), ps != [], ctx.definitions.Keys,
              Keys(ctx.definitionStack));
  }

  lemma AlternativeKnown(ctx: SchemaContext, f: Fqn, start: Definitions, stack: seq<Key>, i: nat, anyOf: seq<Schema>)
    requires ctx.AlternativesUpTo(f, start, stack, i, anyOf)
    requires i < |EnumLikeMethods(ctx.sys, f, ctx.sys.types[f].allMethods)|
    ensures var m := EnumLikeMethods(ctx.sys, f, ctx.sys.types[f].allMethods)[i];
      CallableClosed(ctx.sys, m) && KeyOf(m) in AllKeys(ctx.sys)
    ensures ctx.Valid() && ctx.definitionStack == stack && Built(Some(AnyOf(anyOf)), ctx.definitions)
    ensures f in ctx.sys.types && ctx.sys.types[f].Class? && Kept(start, ctx.definitions)
            && anyOf == EnumLikeUpTo(ctx.sys, f, i, Keys(stack))
    ensures Tried(EnumLikeMethods(ctx.sys, f, ctx.sys.types[f].allMethods),
                  EnumLikeProperties(ctx.sys, f, ctx.sys.types[f].allProperties) != [], i, anyOf != [],
                  start.Keys, ctx.definitions.Keys, Keys(stack))
  {
    assert Closed(ctx.sys);
    hide WellBuilt, EnumLikeMethods, EnumLikeProperties, Tried, EnumLikeUpTo, Keys, Closed, AllKeys, CallableClosed;
    MethodKnown(ctx.sys, f, EnumLikeMethods(ctx.sys, f, ctx.sys.types[f].allMethods)[i]);
  }

  /** After the turn for the enum-like method `i`, whose alternative is added unless it is under way. */
  lemma AlternativeTried(ctx: SchemaContext, f: Fqn, start: Definitions, before: Definitions, stack: seq<Key>, i: nat,
                         anyOf: seq<Schema>, anyOf': seq<Schema>)
    requires f in ctx.sys.types && ctx.sys.types[f].Class? && ctx.Called(before, stack, Some(AnyOf(anyOf')))
             && Kept(start, before)
    requires i < |EnumLikeMethods(ctx.sys, f, ctx.sys.types[f].allMethods)|
             && anyOf == EnumLikeUpTo(ctx.sys, f, i, Keys(stack))
    requires Tried(EnumLikeMethods(ctx.sys, f, ctx.sys.types[f].allMethods),
                   EnumLikeProperties(ctx.sys, f, ctx.sys.types[f].allProperties) != [], i, anyOf != [],
                   start.Keys, before.Keys, Keys(stack))
    requires var m := EnumLikeMethods(ctx.sys, f, ctx.sys.types[f].allMethods)[i];
             if KeyOf(m) in stack then anyOf' == anyOf && KeyOf(m) !in before
             else anyOf' == anyOf + [Call(m.name, m)] && KeyOf(m) in ctx.definitions
    ensures ctx.AlternativesUpTo(f, start, stack, i + 1, anyOf')
  {
    var ms := EnumLikeMethods(ctx.sys, f, ctx.sys.types[f].allMethods);
    var hasProps := EnumLikeProperties(ctx.sys, f, ctx.sys.types[f].allProperties) != [];
    EnumLikeNext(ctx.sys, f, i, Keys(stack));
    StackUndefined(ctx.sys, ctx.definitions, stack);
    CalledFacts(ctx, before, stack, Some(AnyOf(anyOf')));
    hide WellBuilt, Consistent, EnumLikeMethods, EnumLikeProperties, Tried, EnumLikeUpTo, Keys, Kept;
    TriedMore(ms, hasProps, i, anyOf != [], start, before, ctx.definitions, Keys(stack));
    KeptTransitive(start, before, ctx.definitions);
    CalledAgain(ctx, start, before, stack, Some(AnyOf(anyOf')));
  }

  lemma AlternativesEnd(ctx: SchemaContext, f: Fqn, start: Definitions, stack: seq<Key>, anyOf: seq<Schema>)
    requires f in ctx.sys.types && ctx.sys.types[f].Class?
    requires ctx.AlternativesUpTo(f, start, stack, |EnumLikeMethods(ctx.sys, f, ctx.sys.types[f].allMethods)|, anyOf)
    ensures ctx.Called(start, stack, Some(AnyOf(anyOf))) && ctx.definitionStack == stack
    ensures anyOf == EnumLikeOptions(ctx.sys, f, Keys(stack))
    ensures anyOf != [] ==>
              && HasEnumLikeMember(ctx.sys, f)
              && (TypeKey(f) in ctx.definitions ==> EnumLikeReady(ctx.sys, f, ctx.definitions.Keys))
              && (TypeKey(f) !in ctx.definitions ==> EnumLikeReady(ctx.sys, f, ctx.definitions.Keys + {TypeKey(f)}))
    ensures anyOf == [] ==> !HasEnumLike(ctx.sys, f, Keys(stack)) && !EnumLikeReady(ctx.sys, f, start.Keys)
  {
    hide WellBuilt, Consistent, EnumLikeMethods, EnumLikeProperties, Tried, EnumLikeUpTo, Keys, Kept,
         HasEnumLikeMember, HasEnumLike, EnumLikeReady;
    TriedAll(ctx.sys, f, anyOf != [], start.Keys, ctx.definitions.Keys, Keys(stack));
  }

  /** The first `n` enum-like methods have been tried; `found` tells whether there is an alternative. */
  ghost predicate Tried(ms: seq<Callable>, hasProps: bool, n: nat, found: bool, before: set<Key>, now: set<Key>,
                        stack: set<Key>)
  {
    && n <= |ms|
    && (found ==> hasProps || exists m :: m in ms && KeyOf(m) in now)
    && (!found ==> !hasProps && forall j :: 0 <= j < n ==> KeyOf(ms[j]) in stack && KeyOf(ms[j]) !in before)
  }

  lemma TriedNone(ms: seq<Callable>, hasProps: bool, now: set<Key>, stack: set<Key>)
    ensures Tried(ms, hasProps, 0, hasProps, now, now, stack)
  {
  }

  lemma TriedMore(ms: seq<Callable>, hasProps: bool, n: nat, found: bool, start: Definitions, before: Definitions,
                  now: Definitions, stack: set<Key>)
    requires n < |ms| && Tried(ms, hasProps, n, found, start.Keys, before.Keys, stack) && Kept(start, before)
             && Kept(before, now)
    ensures KeyOf(ms[n]) in stack && KeyOf(ms[n]) !in before ==>
            Tried(ms, hasProps, n + 1, found, start.Keys, now.Keys, stack)
    ensures KeyOf(ms[n]) in now ==> Tried(ms, hasProps, n + 1, true, start.Keys, now.Keys, stack)
  {
  }

  lemma TriedAll(sys: System, f: Fqn, found: bool, before: set<Key>, now: set<Key>, stack: set<Key>)
    requires f in sys.types && sys.types[f].Class?
    requires var ms := EnumLikeMethods(sys, f, sys.types[f].allMethods);
             Tried(ms, EnumLikeProperties(sys, f, sys.types[f].allProperties) != [], |ms|, found, before, now, stack)
    ensures found ==> HasEnumLikeMember(sys, f) && (TypeKey(f) in now ==> EnumLikeReady(sys, f, now))
                      && (TypeKey(f) !in now ==> EnumLikeReady(sys, f, now + {TypeKey(f)}))
    ensures !found ==> !HasEnumLike(sys, f, stack) && !EnumLikeReady(sys, f, before)
  {
  }

  lemma KeptTransitive(a: Definitions, b: Definitions, c: Definitions)
    requires Kept(a, b) && Kept(b, c)
    ensures Kept(a, c) && a.Keys <= b.Keys <= c.Keys
  {
  }

  /** The first `n` implementations have been asked; `found` tells whether there is an alternative. */
  ghost predicate Offered(sys: System, xs: seq<Fqn>, n: nat, found: bool, before: set<Key>, now: set<Key>,
                          stack: set<Key>)
  {
    && n <= |xs|
    && (found ==> exists x :: x in xs && Usable(sys, x, {}) && UsableReady(sys, x, now))
    && (!found ==> forall j :: 0 <= j < n ==> !Usable(sys, xs[j], stack) && !UsableReady(sys, xs[j], before))
  }

  lemma OfferedNone(sys: System, xs: seq<Fqn>, now: set<Key>, stack: set<Key>)
    ensures Offered(sys, xs, 0, false, now, now, stack)
  {
  }

  lemma OfferedMore(sys: System, xs: seq<Fqn>, n: nat, found: bool, start: set<Key>, before: set<Key>, now: set<Key>,
                    stack: set<Key>)
    requires n < |xs| && Offered(sys, xs, n, found, start, before, stack) && start <= before <= now
    ensures !Usable(sys, xs[n], stack) && !UsableReady(sys, xs[n], before) ==>
            Offered(sys, xs, n + 1, found, start, now, stack)
    ensures Usable(sys, xs[n], {}) && UsableReady(sys, xs[n], now) ==> Offered(sys, xs, n + 1, true, start, now, stack)
  {
    UsableReadyMore(sys, xs, start, before);
    UsableReadyMore(sys, xs, before, now);
    hide Usable, UsableReady;
  }

  lemma OfferedAll(sys: System, f: Fqn, found: bool, before: set<Key>, now: set<Key>, stack: set<Key>)
    requires Closed(sys) && f in sys.types && !sys.types[f].Enum?
    requires var xs := Implementations(sys, f, sys.classes); Offered(sys, xs, |xs|, found, before, now, stack)
    ensures found ==>
            exists x :: x in Implementations(sys, f, sys.classes) && Usable(sys, x, {}) && UsableReady(sys, x, now)
    ensures !found ==> !HasImplementation(sys, f, stack) && !PolymorphicReady(sys, f, before)
  {
    hide Usable, UsableReady;
  }

  lemma UsableReadyMore(sys: System, xs: seq<Fqn>, keys: set<Key>, more: set<Key>)
    requires keys <= more
    ensures forall x :: x in xs && UsableReady(sys, x, keys) ==> UsableReady(sys, x, more)
  {
  }

  lemma MethodKnown(sys: System, f: Fqn, m: Callable)
    requires Closed(sys) && f in sys.types && sys.types[f].Class?
    requires m in EnumLikeMethods(sys, f, sys.types[f].allMethods)
    ensures CallableClosed(sys, m) && KeyOf(m) in AllKeys(sys)
  {
    assert m in sys.types[f].allMethods;
  }

  lemma PushKey(stack: seq<Key>, key: Key)
    ensures Keys(stack + [key]) == Keys(stack) + {key}
  {
  }

  lemma InAllKeys(sys: System, f: Fqn)
    requires f in sys.types
    ensures TypeKey(f) in AllKeys(sys)
  {
  }

  lemma UnderWayFails(ctx: SchemaContext, f: Fqn)
    requires ctx.Valid() && IsDataInterface(ctx.sys, f) && TypeKey(f) in ctx.definitionStack
    ensures ctx.Called(ctx.definitions, ctx.definitionStack, None) && Closed(ctx.sys)
            && Fails(ctx.sys, f, Keys(ctx.definitionStack))
  {
  }

  lemma InterfaceAtHand(ctx: SchemaContext, f: Fqn)
    requires ctx.Valid() && f in ctx.sys.types && TypeKey(f) in ctx.definitions
    ensures ctx.Called(ctx.definitions, ctx.definitionStack, Some(Ref(TypeKey(f)))) && Closed(ctx.sys)
            && Schematizable(ctx.sys, Named(f))
  {
    hide DefinedAs, Schematizable, AllKeys;
    RefBuilt(TypeKey(f), ctx.definitions.Keys);
  }

  /** What is known when the body of an interface has been evaluated. */
  lemma BodyFound(ctx: SchemaContext, f: Fqn, before: Definitions, stack: seq<Key>, body: Option<Schema>)
    requires Closed(ctx.sys) && IsDataInterface(ctx.sys, f) && TypeKey(f) in stack && ctx.Called(before, stack, body)
    requires body.Some? ==> InterfaceShape(ctx.sys, f, body.value, Keys(stack)) && RequiredSchematizable(ctx.sys, f)
    ensures ctx.Valid() && ctx.definitionStack == stack && Kept(before, ctx.definitions)
    ensures body.Some? ==> WellBuilt(body.value, ctx.definitions.Keys) && DefinedAs(ctx.sys, TypeKey(f), body.value)
    ensures body.Some? ==> Schematizable(ctx.sys, Named(f))
  {
    CalledFacts(ctx, before, stack, body);
    if body.Some? {
      InterfaceRule(ctx.sys, f);
      InterfaceDefined(ctx.sys, f, body.value, Keys(stack));
    }
    hide Consistent, WellBuilt, DefinedAs, InterfaceShape, Schematizable, Closed;
  }

  lemma InterfaceDone(ctx: SchemaContext, f: Fqn, before: Definitions, made: Definitions, stack: seq<Key>,
                      body: Option<Schema>)
    requires ctx.Valid() && ctx.definitionStack == stack && IsDataInterface(ctx.sys, f) && Kept(before, made)
             && Kept(made, ctx.definitions)
    requires ctx.definitions == if body.Some? then made[TypeKey(f) := body.value] else made
    requires Closed(ctx.sys)
    requires body.None? ==>
             forall n: nat :: !AllRequired(ctx.sys, ctx.sys.types[f].allProperties, Keys(stack) + {TypeKey(f)}, n)
    ensures if body.Some? then ctx.Called(before, stack, Some(Ref(TypeKey(f)))) && TypeKey(f) in ctx.definitions
            else ctx.Called(before, stack, None) && Fails(ctx.sys, f, Keys(stack))
  {
    hide Consistent, AllRequired, Kept, Keys, Closed;
    KeptTransitive(before, made, ctx.definitions);
    if body.Some? { RefBuilt(TypeKey(f), ctx.definitions.Keys); }
  }

  lemma InterfaceDefined(sys: System, f: Fqn, s: Schema, avoid: set<Key>)
    requires Closed(sys) && TypeKey(f) in avoid && InterfaceShape(sys, f, s, avoid)
    ensures DefinedAs(sys, TypeKey(f), s)
  {
  }

  lemma AlternativesDefined(sys: System, f: Fqn, s: Schema)
    requires Closed(sys) && AlternativesShape(sys, f, s)
    ensures DefinedAs(sys, TypeKey(f), s)
  {
  }

  lemma MethodDefined(sys: System, m: Callable, s: Schema, avoid: set<Key>)
    requires Closed(sys) && KeyOf(m) in avoid && MethodShape(sys, m, s, avoid)
    ensures DefinedAs(sys, KeyOf(m), s)
  {
  }

  lemma RefBuilt(key: Key, keys: set<Key>)
    requires key in keys
    ensures WellBuilt(Ref(key), keys)
  {
  }

  lemma LastUnderWay(sys: System, defs: Definitions, stack: seq<Key>, key: Key)
    requires Consistent(sys, defs, stack + [key])
    ensures Consistent(sys, defs, stack) && key !in defs && (stack + [key])[..|stack|] == stack
  {
    hide WellBuilt, DefinedAs, AllKeys, Closed;
    assert key in stack + [key] && forall k :: k in stack ==> k in stack + [key];
  }

  /** Storing a schema under a key that was under way keeps the state consistent. */
  lemma DefineKeeps(sys: System, defs: Definitions, inside: seq<Key>, stack: seq<Key>, key: Key, s: Schema)
    requires Consistent(sys, defs, stack) || Consistent(sys, defs, inside)
    requires inside == stack + [key] && key !in stack && key !in defs && WellBuilt(s, defs.Keys)
    requires Closed(sys) && DefinedAs(sys, key, s)
    requires key.TypeKey? ==> key.fqn in sys.types && Closed(sys) && Schematizable(sys, Named(key.fqn))
    ensures Consistent(sys, defs[key := s], stack) && Kept(defs, defs[key := s])
  {
    hide DefinedAs;
    var after := defs[key := s];
    forall k | k in after && !k.Given? ensures WellBuilt(after[k], after.Keys) {
      WellBuiltMore(after[k], defs.Keys, after.Keys);
    }
    assert forall k :: k in stack ==> k in inside;
  }

  lemma CalledFacts(ctx: SchemaContext, before: Definitions, stack: seq<Key>, s: Option<Schema>)
    requires ctx.Called(before, stack, s)
    ensures ctx.Valid() && ctx.definitionStack == stack && Kept(before, ctx.definitions) && Built(s, ctx.definitions)
  {
  }

  lemma CalledAgain(ctx: SchemaContext, start: Definitions, before: Definitions, stack: seq<Key>, s: Option<Schema>)
    requires Kept(start, before) && ctx.Called(before, stack, s)
    ensures ctx.Called(start, stack, s)
  {
  }

  lemma ObjectMore(properties: seq<Field>, required: seq<string>, keys: set<Key>, more: set<Key>)
    requires WellBuilt(Object(properties, required), keys) && keys <= more
    ensures WellBuilt(Object(properties, required), more)
  {
    WellBuiltMore(Object(properties, required), keys, more);
  }

  lemma ObjectAppend(properties: seq<Field>, required: seq<string>, name: string, schema: Schema, keys: set<Key>)
    requires WellBuilt(Object(properties, required), keys) && WellBuilt(schema, keys)
    ensures forall r :: WellBuilt(Object(properties + [Field(name, Some(schema))], r), keys)
  {
  }

  lemma AnyOfAppend(options: seq<Schema>, s: Schema, keys: set<Key>)
    requires WellBuilt(AnyOf(options), keys) && WellBuilt(s, keys)
    ensures WellBuilt(AnyOf(options + [s]), keys)
  {
  }

  lemma MethodCall(m: Callable)
    ensures Call(m.name, m) == Object([Field(m.name, Some(Ref(KeyOf(m))))], [])
  {
  }

  lemma CallBuilt(name: string, m: Callable, keys: set<Key>)
    requires KeyOf(m) in keys
    ensures WellBuilt(Call(name, m), keys)
  {
  }

  lemma NotAllRequired(sys: System, ps: seq<Property>, i: nat, avoid: set<Key>)
    requires Closed(sys) && AllClosed(sys, ps) && i < |ps| && !ps[i].optional
             && !SchematizableAvoiding(sys, ps[i].typ, avoid)
    ensures forall n: nat :: !AllRequired(sys, ps, avoid, n)
  {
    forall n: nat ensures !AllRequired(sys, ps, avoid, n) {
      assert !Derivable(sys, ps[i].typ, avoid, n);
    }
  }

  /** What is under way is not defined. */
  lemma StackUndefined(sys: System, defs: Definitions, stack: seq<Key>)
    requires Consistent(sys, defs, stack)
    ensures forall k :: k in Keys(stack) <==> k in stack
    ensures Keys(stack) !! defs.Keys
  {
  }

  lemma UsableDecided(sys: System, x: Fqn, enumLike: bool, called: bool, stack: set<Key>, start: set<Key>,
                      before: set<Key>, now: set<Key>)
    requires x in sys.types && sys.types[x].Class? && before <= now && stack !! start
    requires if enumLike then HasEnumLike(sys, x, {}) && EnumLikeReady(sys, x, before)
             else !HasEnumLike(sys, x, stack) && !EnumLikeReady(sys, x, start)
    requires called <==> sys.types[x].initializer.Some? && KeyOf(sys.types[x].initializer.value) !in stack
    requires called ==> KeyOf(sys.types[x].initializer.value) in now
    ensures if enumLike || called then Usable(sys, x, {}) && UsableReady(sys, x, now)
            else !Usable(sys, x, stack) && !UsableReady(sys, x, start)
  {
  }

  lemma ArgumentsNext(sys: System, m: Callable, i: nat)
    requires i < |m.parameters|
    ensures m.parameters[..i + 1] == m.parameters[..i] + [m.parameters[i]]
    ensures i + 1 == |m.parameters| && m.parameters[i].typ.Named? && IsDataType(sys, m.parameters[i].typ.fqn) ==>
      forall spread ::
          Arguments(sys, m, spread)
          == m.parameters[..i] + if spread then sys.types[m.parameters[i].typ.fqn].allProperties else []
    ensures i + 1 == |m.parameters| && !(m.parameters[i].typ.Named? && IsDataType(sys, m.parameters[i].typ.fqn)) ==>
      forall spread :: Arguments(sys, m, spread) == m.parameters[..i] + [m.parameters[i]]
  {
  }

  lemma AnyOfMore(options: seq<Schema>, keys: set<Key>, more: set<Key>)
    requires WellBuilt(AnyOf(options), keys) && keys <= more
    ensures WellBuilt(AnyOf(options), more)
  {
    WellBuiltMore(AnyOf(options), keys, more);
  }
}
