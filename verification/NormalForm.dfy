/** The fixpoint the hoister stops at. */
module NormalForm {
  import opened Options
  import opened PackageTree
  import opened Hoisting

  /** No move, no de-duplication and no cleanup applies to `p`, whose container is `c`: every
      child clashes with a different version in `c`, and `dependencies` is not empty. */
  ghost predicate Settled<M>(p: Package<M>, c: Container<M>)
    decreases p
  {
    match p.dependencies
    case None => true
    case Some(inner) =>
      && inner.entries != map[]
      && forall d :: d in inner.entries ==> Stuck(d, inner, c)
  }

  ghost predicate Stuck<M>(d: string, inner: Container<M>, c: Container<M>)
    requires d in inner.entries
    decreases inner
  {
    d in c.entries && c.entries[d].version != inner.entries[d].version && Settled(inner.entries[d], inner)
  }

  ghost predicate Normal<M>(c: Container<M>) {
    forall k :: k in c.entries ==> Settled(c.entries[k], c)
  }

  lemma MoveChildrenUpUnlessSettled<M>(c: Container<M>, n: string)
    requires WellFormed(c) && n in c.entries
    ensures MoveChildrenUp(c, n).changed <==> !Settled(c.entries[n], c)
    decreases c.entries[n], 1
  {
    match c.entries[n].dependencies
    case None =>
    case Some(snapshot) =>
      assert WellFormedPackage(c.entries[n]) && WellFormed(snapshot);
      PushEachUnlessStuck(c, n, snapshot.order, snapshot);
      PushEachLoad(c, n, snapshot.order, snapshot);
      assert forall d :: d in snapshot.entries <==> d in snapshot.order;
      hide PushEach, Stuck, WellFormed, WellFormedPackage, Load, LoadAll, Count, CountAll;
  }

  lemma PushEachUnlessStuck<M>(c: Container<M>, n: string, names: seq<string>, snapshot: Container<M>)
    requires Pending(c, n, names, snapshot)
    ensures PushEach(c, n, names, snapshot).changed
            <==> exists d :: d in names && !Stuck(d, c.entries[n].dependencies.value, c)
    decreases snapshot, 0, |names|
  {
    if names != [] {
      var first := PushOne(c, n, names[0], snapshot);
      PushOneUnlessStuck(c, n, names[0], snapshot);
      PushOneLoad(c, n, names[0], snapshot);
      if !first.changed {
        PushEachUnlessStuck(c, n, names[1..], snapshot);
        assert forall d :: d in names <==> d == names[0] || d in names[1..];
      } else {
        assert names[0] in names;
      }
    }
  }

  lemma PushOneUnlessStuck<M>(c: Container<M>, n: string, d: string, snapshot: Container<M>)
    requires Pending(c, n, [d], snapshot)
    ensures PushOne(c, n, d, snapshot).changed <==> !Stuck(d, c.entries[n].dependencies.value, c)
    decreases snapshot, 0, 0
  {
    PendingChild(c, n, d, snapshot);
    var siblings := c.entries[n].dependencies.value;
    if d in c.entries && c.entries[d].version != snapshot.entries[d].version {
      MoveChildrenUpUnlessSettled(siblings, d);
    }
  }

  lemma SimplifyEachUnlessSettled<M>(c: Container<M>, names: seq<string>)
    requires WellFormed(c) && forall k :: k in names ==> k in c.entries
    ensures SimplifyEach(c, names).changed <==> exists k :: k in names && !Settled(c.entries[k], c)
    decreases |names|
  {
    if names != [] {
      MoveChildrenUpUnlessSettled(c, names[0]);
      MoveChildrenUpLoad(c, names[0]);
      if !MoveChildrenUp(c, names[0]).changed {
        SimplifyEachUnlessSettled(c, names[1..]);
        assert forall k :: k in names <==> k == names[0] || k in names[1..];
      } else {
        assert names[0] in names;
      }
    }
  }

  /** The run ends in normal form, and a tree in normal form is left alone. */
  lemma {:induction false} HoistNormalizes<M>(c: Container<M>)
    requires WellFormed(c)
    ensures Normal(Hoist(c))
    ensures Hoist(c) == c <==> Normal(c)
    decreases LoadAll(c)
  {
    SimplifyEachLoad(c, c.order);
    SimplifyEachUnlessSettled(c, c.order);
    assert forall k :: k in c.order <==> k in c.entries;
    if Simplify(c).changed {
      HoistNormalizes(Simplify(c).container);
    }
  }

  /** Hoisting a second time changes nothing. */
  lemma HoistIdempotent<M>(c: Container<M>)
    requires WellFormed(c)
    ensures Hoist(Hoist(c)) == Hoist(c)
  {
    HoistNormalizes(c);
    HoistNormalizes(Hoist(c));
  }

  /** Every name used anywhere below `c`, `c` included. */
  ghost function Names<M>(c: Container<M>): set<string> {
    c.entries.Keys + set k, d | k in c.entries && d in NamesBelow(c.entries[k]) :: d
  }

  ghost function NamesBelow<M>(p: Package<M>): set<string> {
    match p.dependencies case None => {} case Some(c) => Names(c)
  }

  lemma SettledNames<M>(p: Package<M>, c: Container<M>)
    requires Settled(p, c)
    ensures NamesBelow(p) <= c.entries.Keys
    decreases p
  {
    if p.dependencies.Some? {
      var inner := p.dependencies.value;
      forall k | k in inner.entries ensures NamesBelow(inner.entries[k]) <= inner.entries.Keys {
        assert Stuck(k, inner, c);
        SettledNames(inner.entries[k], inner);
      }
      forall k | k in inner.entries ensures k in c.entries { assert Stuck(k, inner, c); }
    }
  }

  /** After hoisting, every name in the tree also has an entry at the root. */
  lemma HoistedNamesAtRoot<M>(c: Container<M>)
    requires WellFormed(c)
    ensures Names(Hoist(c)) == Hoist(c).entries.Keys
  {
    HoistNormalizes(c);
    var h := Hoist(c);
    forall k | k in h.entries ensures NamesBelow(h.entries[k]) <= h.entries.Keys {
      SettledNames(h.entries[k], h);
    }
  }

  lemma SimplifyEachKeepsRoot<M>(c: Container<M>, names: seq<string>)
    requires WellFormed(c) && forall k :: k in names ==> k in c.entries
    ensures forall k :: k in c.entries ==>
              SameButDependencies(SimplifyEach(c, names).container.entries[k], c.entries[k])
    decreases |names|
  {
    if names != [] {
      SimplifyEachKeepsRoot(MoveChildrenUp(c, names[0]).container, names[1..]);
    }
  }

  /** The entries the root starts with keep their versions. */
  lemma {:induction false} HoistKeepsRoot<M>(c: Container<M>)
    requires WellFormed(c)
    ensures forall k :: k in c.entries ==> SameButDependencies(Hoist(c).entries[k], c.entries[k])
    decreases LoadAll(c)
  {
    SimplifyEachLoad(c, c.order);
    SimplifyEachKeepsRoot(c, c.order);
    if Simplify(c).changed {
      HoistKeepsRoot(Simplify(c).container);
    }
  }
}
