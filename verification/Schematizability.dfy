/** Which types have a JSON schema, as the least set of types closed under rules that mention no
    order of evaluation, no stack and no memo. */
module Schematizability {
  import opened Options
  import opened JsiiTypes

  ghost predicate IsDataInterface(sys: System, f: Fqn) {
    f in sys.types && sys.types[f].Interface? && sys.types[f].allMethods == []
  }

  /** Class `x` has an enum-like property, or an enum-like method that is not to be avoided. */
  ghost predicate HasEnumLike(sys: System, x: Fqn, avoid: set<Key>) {
    && x in sys.types && sys.types[x].Class? && TypeKey(x) !in avoid
    && (EnumLikeProperties(sys, x, sys.types[x].allProperties) != []
        || exists m :: m in EnumLikeMethods(sys, x, sys.types[x].allMethods) && KeyOf(m) !in avoid)
  }

  /** Some concrete implementation of `f` is enum-like or has an initializer. */
  ghost predicate HasImplementation(sys: System, f: Fqn, avoid: set<Key>)
    requires Closed(sys)
  {
    && f in sys.types && !sys.types[f].Enum? && TypeKey(f) !in avoid
    && exists x :: x in Implementations(sys, f, sys.classes) && Usable(sys, x, avoid)
  }

  ghost predicate Usable(sys: System, x: Fqn, avoid: set<Key>) {
    x in sys.types && sys.types[x].Class?
    && (HasEnumLike(sys, x, avoid)
        || (sys.types[x].initializer.Some? && KeyOf(sys.types[x].initializer.value) !in avoid))
  }

  /** There is a derivation of height at most `n` that uses no key of `avoid`. */
  ghost predicate Derivable(sys: System, t: TypeRef, avoid: set<Key>, n: nat)
    requires Closed(sys) && RefClosed(sys, t)
    decreases n, t
  {
    IsConstruct(sys, t) ||
    match t
    case Primitive(_) => true
    case ArrayOf(e) => Derivable(sys, e, avoid, n)
    case MapOf(e) => Derivable(sys, e, avoid, n)
    case UnionOf(ts) => exists i :: 0 <= i < |ts| && Derivable(sys, ts[i], avoid, n)
    case Named(f) =>
      || sys.types[f].Enum?
      || (n > 0 && IsDataInterface(sys, f) && TypeKey(f) !in avoid
          && AllRequired(sys, sys.types[f].allProperties, avoid, n - 1))
      || HasEnumLike(sys, f, avoid)
      || HasImplementation(sys, f, avoid)
    case Void => false
  }

  /** Every required property has a derivation. */
  ghost predicate AllRequired(sys: System, ps: seq<Property>, avoid: set<Key>, n: nat)
    requires Closed(sys) && forall i :: 0 <= i < |ps| ==> RefClosed(sys, ps[i].typ)
    decreases n
  {
    forall i :: 0 <= i < |ps| && !ps[i].optional ==> Derivable(sys, ps[i].typ, avoid, n)
  }

  ghost predicate SchematizableAvoiding(sys: System, t: TypeRef, avoid: set<Key>)
    requires Closed(sys) && RefClosed(sys, t)
  {
    exists n: nat :: Derivable(sys, t, avoid, n)
  }

  ghost predicate Schematizable(sys: System, t: TypeRef)
    requires Closed(sys) && RefClosed(sys, t)
  {
    SchematizableAvoiding(sys, t, {})
  }

  /** A data interface is under way, or its required properties need what is under way. */
  ghost predicate Fails(sys: System, f: Fqn, stack: set<Key>)
    requires Closed(sys) && IsDataInterface(sys, f)
  {
    TypeKey(f) in stack || forall n: nat :: !AllRequired(sys, sys.types[f].allProperties, stack + {TypeKey(f)}, n)
  }

  lemma {:induction false} DerivableHigher(sys: System, t: TypeRef, avoid: set<Key>, n: nat, m: nat)
    requires Closed(sys) && RefClosed(sys, t) && n <= m && Derivable(sys, t, avoid, n)
    ensures Derivable(sys, t, avoid, m)
    decreases n, t
  {
    match t
    case Primitive(_) =>
    case ArrayOf(e) => if !IsConstruct(sys, t) { DerivableHigher(sys, e, avoid, n, m); }
    case MapOf(e) => if !IsConstruct(sys, t) { DerivableHigher(sys, e, avoid, n, m); }
    case UnionOf(ts) =>
      if !IsConstruct(sys, t) {
        var i :| 0 <= i < |ts| && Derivable(sys, ts[i], avoid, n);
        DerivableHigher(sys, ts[i], avoid, n, m);
      }
    case Named(f) =>
      if n > 0 && IsDataInterface(sys, f) && AllRequired(sys, sys.types[f].allProperties, avoid, n - 1) {
        forall i | 0 <= i < |sys.types[f].allProperties| && !sys.types[f].allProperties[i].optional
          ensures Derivable(sys, sys.types[f].allProperties[i].typ, avoid, m - 1)
        {
          DerivableHigher(sys, sys.types[f].allProperties[i].typ, avoid, n - 1, m - 1);
        }
        assert AllRequired(sys, sys.types[f].allProperties, avoid, m - 1);
      }
    case Void =>
  }

  /** Avoiding a data interface that has no derivation of this height anyway changes nothing. */
  lemma {:induction false} Cut(sys: System, t: TypeRef, avoid: set<Key>, f: Fqn, n: nat)
    requires Closed(sys) && RefClosed(sys, t) && IsDataInterface(sys, f)
    requires Derivable(sys, t, avoid, n) && !Derivable(sys, Named(f), avoid, n)
    ensures Derivable(sys, t, avoid + {TypeKey(f)}, n)
    decreases n, t
  {
    match t
    case Primitive(_) =>
    case ArrayOf(e) => if !IsConstruct(sys, t) { Cut(sys, e, avoid, f, n); }
    case MapOf(e) => if !IsConstruct(sys, t) { Cut(sys, e, avoid, f, n); }
    case UnionOf(ts) =>
      if !IsConstruct(sys, t) {
        var i :| 0 <= i < |ts| && Derivable(sys, ts[i], avoid, n);
        Cut(sys, ts[i], avoid, f, n);
      }
    case Named(g) =>
      if n > 0 && IsDataInterface(sys, g) && TypeKey(g) !in avoid
         && AllRequired(sys, sys.types[g].allProperties, avoid, n - 1)
      {
        if Derivable(sys, Named(f), avoid, n - 1) { DerivableHigher(sys, Named(f), avoid, n - 1, n); }
        CutProperties(sys, sys.types[g].allProperties, avoid, f, n - 1);
      } else if HasImplementation(sys, g, avoid) {
        var x :| x in Implementations(sys, g, sys.classes) && Usable(sys, x, avoid);
        assert Usable(sys, x, avoid + {TypeKey(f)});
      }
    case Void =>
  }

  lemma {:induction false} CutProperties(sys: System, ps: seq<Property>, avoid: set<Key>, f: Fqn, n: nat)
    requires Closed(sys) && IsDataInterface(sys, f) && forall i :: 0 <= i < |ps| ==> RefClosed(sys, ps[i].typ)
    requires AllRequired(sys, ps, avoid, n) && !Derivable(sys, Named(f), avoid, n)
    ensures AllRequired(sys, ps, avoid + {TypeKey(f)}, n)
    decreases n
  {
    hide Closed, RefClosed, Derivable, IsDataInterface;
    forall i | 0 <= i < |ps| && !ps[i].optional ensures Derivable(sys, ps[i].typ, avoid + {TypeKey(f)}, n) {
      Cut(sys, ps[i].typ, avoid, f, n);
    }
  }

  /** A data interface that no other rule makes schematizable does not need itself: its required
      properties are schematizable without it. So cutting the cycle loses nothing. */
  lemma {:induction false} NoNeedOfItself(sys: System, f: Fqn, avoid: set<Key>, n: nat)
    requires Closed(sys) && IsDataInterface(sys, f)
    requires Derivable(sys, Named(f), avoid, n)
    requires !IsConstruct(sys, Named(f)) && !HasImplementation(sys, f, avoid)
    ensures exists m: nat :: AllRequired(sys, sys.types[f].allProperties, avoid + {TypeKey(f)}, m)
    decreases n
  {
    assert n > 0;
    if Derivable(sys, Named(f), avoid, n - 1) {
      NoNeedOfItself(sys, f, avoid, n - 1);
    } else {
      forall i | 0 <= i < |sys.types[f].allProperties| && !sys.types[f].allProperties[i].optional
        ensures Derivable(sys, sys.types[f].allProperties[i].typ, avoid + {TypeKey(f)}, n - 1)
      {
        Cut(sys, sys.types[f].allProperties[i].typ, avoid, f, n - 1);
      }
      assert AllRequired(sys, sys.types[f].allProperties, avoid + {TypeKey(f)}, n - 1);
    }
  }

  /** Derivations of some height for each of finitely many properties have a common height. */
  lemma {:induction false} CommonHeight(sys: System, ps: seq<Property>, avoid: set<Key>)
    requires Closed(sys) && forall i :: 0 <= i < |ps| ==> RefClosed(sys, ps[i].typ)
    requires forall i :: 0 <= i < |ps| && !ps[i].optional ==> SchematizableAvoiding(sys, ps[i].typ, avoid)
    ensures exists n: nat :: AllRequired(sys, ps, avoid, n)
    decreases |ps|
  {
    if ps == [] {
      assert AllRequired(sys, ps, avoid, 0);
    } else {
      var init := ps[..|ps| - 1];
      var last := ps[|ps| - 1];
      CommonHeight(sys, init, avoid);
      var n: nat :| AllRequired(sys, init, avoid, n);
      var m: nat := n;
      if !last.optional { m :| Derivable(sys, last.typ, avoid, m); }
      var top := if n < m then m else n;
      forall i | 0 <= i < |ps| && !ps[i].optional ensures Derivable(sys, ps[i].typ, avoid, top) {
        if i < |init| {
          assert ps[i] == init[i];
          DerivableHigher(sys, ps[i].typ, avoid, n, top);
        } else {
          DerivableHigher(sys, last.typ, avoid, m, top);
        }
      }
      assert AllRequired(sys, ps, avoid, top);
    }
  }
}
