/** The types a jsii assembly declares, and which of them can be given a JSON schema. */
module JsiiTypes {
  import opened Options

  type Fqn = string

  /** A reference to a type. `Void` is one that leads to nothing. */
  datatype TypeRef =
    | Primitive(name: string)
    | ArrayOf(elem: TypeRef)
    | MapOf(elem: TypeRef)
    | UnionOf(types: seq<TypeRef>)
    | Named(fqn: Fqn)
    | Void

  /** A property of an interface or class, or a parameter of a method. */
  datatype Property = Property(name: string, typ: TypeRef, optional: bool, isStatic: bool)

  /** A method or initializer; `parent` is the class that declares it. */
  datatype Callable = Callable(parent: Fqn, name: string, parameters: seq<Property>, isStatic: bool, returns_: TypeRef)

  /** `extends_` names every type of the same kind it extends, itself included; `implements_`
      names every interface that an interface of the class extends. */
  datatype Type =
    | Interface(allMethods: seq<Callable>, allProperties: seq<Property>, isData: bool, extends_: set<Fqn>)
    | Class(isAbstract: bool, initializer: Option<Callable>, allProperties: seq<Property>, allMethods: seq<Callable>,
            extends_: set<Fqn>, implements_: set<Fqn>)
    | Enum(members: seq<string>)

  datatype System = System(types: map<Fqn, Type>, classes: seq<Fqn>)

  /** The name a definition is stored under: that of a type, that of a method of a type, or one
      that was there before anything is generated. */
  datatype Key = TypeKey(fqn: Fqn) | MethodKey(parent: Fqn, name: string) | Given(definition: string)

  function KeyOf(m: Callable): Key {
    MethodKey(m.parent, m.name)
  }

  /** Every type that is mentioned is declared, and `classes` lists classes. */
  ghost predicate Closed(sys: System) {
    && (forall f :: f in sys.classes ==> f in sys.types && sys.types[f].Class?)
    && (forall f ::
        f in sys.types && !sys.types[f].Enum? ==>
        forall i :: 0 <= i < |sys.types[f].allProperties| ==> RefClosed(sys, sys.types[f].allProperties[i].typ))
    && (forall f ::
        f in sys.types && !sys.types[f].Enum? ==>
        forall i :: 0 <= i < |sys.types[f].allMethods| ==> CallableClosed(sys, sys.types[f].allMethods[i]))
    && (forall f ::
        f in sys.types && sys.types[f].Class? && sys.types[f].initializer.Some? ==>
        CallableClosed(sys, sys.types[f].initializer.value))
  }

  ghost predicate RefClosed(sys: System, t: TypeRef) {
    match t
    case ArrayOf(e) => RefClosed(sys, e)
    case MapOf(e) => RefClosed(sys, e)
    case UnionOf(ts) => forall i :: 0 <= i < |ts| ==> RefClosed(sys, ts[i])
    case Named(f) => f in sys.types
    case _ => true
  }

  ghost predicate CallableClosed(sys: System, m: Callable) {
    RefClosed(sys, m.returns_) && forall i :: 0 <= i < |m.parameters| ==> RefClosed(sys, m.parameters[i].typ)
  }

  function Extends(sys: System, f: Fqn, base: Fqn): bool {
    f in sys.types && !sys.types[f].Enum? && base in sys.types[f].extends_
  }

  /** Interfaces that extend IConstruct and classes that extend Construct. */
  predicate IsConstructType(sys: System, f: Fqn) {
    f in sys.types && match sys.types[f]
      case Interface(_, _, _, bases) => "constructs.IConstruct" in bases
      case Class(_, _, _, _, bases, _) => "constructs.Construct" in bases
      case Enum(_) => false
  }

  predicate IsConstruct(sys: System, t: TypeRef) {
    match t
    case ArrayOf(e) => IsConstruct(sys, e)
    case MapOf(e) => IsConstruct(sys, e)
    case UnionOf(ts) => exists i :: 0 <= i < |ts| && IsConstruct(sys, ts[i])
    case Named(f) => IsConstructType(sys, f)
    case _ => false
  }

  /** A static member whose type extends the class it belongs to. */
  predicate IsEnumLike(sys: System, cls: Fqn, isStatic: bool, t: TypeRef) {
    isStatic && t.Named? && Extends(sys, t.fqn, cls)
  }

  /** Some elements of `s` are left out, and the others are in the same order. */
  ghost predicate LeavesOut<T>(s: seq<T>, r: seq<T>) {
    r == [] || (s != [] && ((r[0] == s[0] && LeavesOut(s[1..], r[1..])) || LeavesOut(s[1..], r)))
  }

  function EnumLikeMethods(sys: System, cls: Fqn, ms: seq<Callable>): (r: seq<Callable>)
    ensures forall m :: m in r <==> m in ms && IsEnumLike(sys, cls, m.isStatic, m.returns_)
  {
    if ms == [] then []
    else (if IsEnumLike(sys, cls, ms[0].isStatic, ms[0].returns_) then [ms[0]] else [])
         + EnumLikeMethods(sys, cls, ms[1..])
  }

  function EnumLikeProperties(sys: System, cls: Fqn, ps: seq<Property>): (r: seq<Property>)
    ensures forall p :: p in r <==> p in ps && IsEnumLike(sys, cls, p.isStatic, p.typ)
  {
    if ps == [] then []
    else (if IsEnumLike(sys, cls, ps[0].isStatic, ps[0].typ) then [ps[0]] else [])
         + EnumLikeProperties(sys, cls, ps[1..])
  }

  /** Class `x` is concrete and is, extends or implements `base`. */
  predicate Implements(sys: System, x: Fqn, base: Fqn)
    requires base in sys.types && x in sys.types && sys.types[x].Class?
  {
    && !sys.types[x].isAbstract
    && match sys.types[base]
       case Class(_, _, _, _, _, _) => base in sys.types[x].extends_
       case Interface(_, _, _, _) => base in sys.types[x].implements_
       case Enum(_) => false
  }

  function Implementations(sys: System, base: Fqn, classes: seq<Fqn>): (r: seq<Fqn>)
    requires base in sys.types && forall x :: x in classes ==> x in sys.types && sys.types[x].Class?
    ensures forall x :: x in r <==> x in classes && Implements(sys, x, base)
  {
    if classes == [] then []
    else
      assert classes[0] in classes;
      (if Implements(sys, classes[0], base) then [classes[0]] else []) + Implementations(sys, base, classes[1..])
  }

  lemma LeavesOutNext<T>(s: seq<T>, r: seq<T>)
    requires s != [] && LeavesOut(s[1..], r)
    ensures LeavesOut(s, [] + r) && LeavesOut(s, [s[0]] + r)
  {
    assert [] + r == r;
    assert ([s[0]] + r)[1..] == r;
  }

  /** Enum-like members are in the order in which the class lists them. */
  lemma {:induction false} EnumLikeInOrder(sys: System, cls: Fqn, ms: seq<Callable>, ps: seq<Property>)
    ensures LeavesOut(ms, EnumLikeMethods(sys, cls, ms)) && LeavesOut(ps, EnumLikeProperties(sys, cls, ps))
    decreases |ms| + |ps|
  {
    if ms != [] {
      EnumLikeInOrder(sys, cls, ms[1..], ps);
      LeavesOutNext(ms, EnumLikeMethods(sys, cls, ms[1..]));
    } else if ps != [] {
      EnumLikeInOrder(sys, cls, ms, ps[1..]);
      LeavesOutNext(ps, EnumLikeProperties(sys, cls, ps[1..]));
    }
  }

  lemma {:induction false} ImplementationsInOrder(sys: System, base: Fqn, classes: seq<Fqn>)
    requires base in sys.types && forall x :: x in classes ==> x in sys.types && sys.types[x].Class?
    ensures LeavesOut(classes, Implementations(sys, base, classes))
  {
    if classes != [] {
      assert classes[0] in classes;
      ImplementationsInOrder(sys, base, classes[1..]);
      LeavesOutNext(classes, Implementations(sys, base, classes[1..]));
    }
  }
}
