/** What a shrinkwrap tree means: which package each require finds, looking in a package's own
    `dependencies`, then in the record the package sits in, then upwards. */
module Resolution {
  import opened Options
  import opened PackageTree
  import opened Hoisting

  /** Every name required in the tree is in `dependencies` on its own level or higher, where
      `scope` holds the names available above. */
  ghost predicate Resolvable<M>(p: Package<M>, scope: set<string>) {
    match p.dependencies
    case None => p.needs <= scope
    case Some(c) => p.needs <= scope + c.entries.Keys && AllResolvable(c, scope)
  }

  ghost predicate AllResolvable<M>(c: Container<M>, scope: set<string>) {
    forall k :: k in c.entries ==> Resolvable(c.entries[k], scope + c.entries.Keys)
  }

  lemma ResolvableMonotone<M>(p: Package<M>, scope: set<string>, wider: set<string>)
    requires Resolvable(p, scope) && scope <= wider
    ensures Resolvable(p, wider)
  {
    if p.dependencies.Some? {
      AllResolvableMonotone(p.dependencies.value, scope, wider);
    }
  }

  lemma AllResolvableMonotone<M>(c: Container<M>, scope: set<string>, wider: set<string>)
    requires AllResolvable(c, scope) && scope <= wider
    ensures AllResolvable(c, wider)
  {
    forall k | k in c.entries ensures Resolvable(c.entries[k], wider + c.entries.Keys) {
      ResolvableMonotone(c.entries[k], scope + c.entries.Keys, wider + c.entries.Keys);
    }
  }

  lemma MoveChildrenUpKeepsResolvable<M>(c: Container<M>, n: string, scope: set<string>)
    requires WellFormed(c) && n in c.entries
    requires AllResolvable(c, scope)
    ensures AllResolvable(MoveChildrenUp(c, n).container, scope)
    decreases c.entries[n], 1
  {
    match c.entries[n].dependencies
    case None =>
    case Some(snapshot) =>
      assert WellFormedPackage(c.entries[n]) && WellFormed(snapshot);
      // While the loop runs, the snapshot's names count as available although some are not yet.
      var wider := scope + snapshot.entries.Keys;
      AllResolvableMonotone(c, scope, wider);
      assert AllResolvable(snapshot, scope + c.entries.Keys);
      PushEachKeepsResolvable(c, n, snapshot.order, snapshot, wider);
      MoveChildrenUpSteps(c, n, snapshot);
      var pushed := PushEach(c, n, snapshot.order, snapshot).container;
      assert forall k :: k in snapshot.entries ==> k in snapshot.order;
      CleanupResolvable(pushed, n, snapshot.entries.Keys, scope);
  }

  /** With all names of the snapshot in the record, nothing else need be available. */
  lemma CleanupResolvable<M>(c: Container<M>, n: string, names: set<string>, scope: set<string>)
    requires AllResolvable(c, scope + names) && names <= c.entries.Keys && n in c.entries
             && c.entries[n].dependencies.Some?
    ensures AllResolvable(c, scope)
    ensures c.entries[n].dependencies.value.entries == map[] ==>
              AllResolvable(Update(c, n, c.entries[n].(dependencies := None)), scope)
  {
    assert scope + names + c.entries.Keys == scope + c.entries.Keys;
    if c.entries[n].dependencies.value.entries == map[] {
      assert Resolvable(c.entries[n].(dependencies := None), scope + c.entries.Keys);
      UpdateKeepsResolvable(c, n, c.entries[n].(dependencies := None), scope);
    }
  }

  /** Provided the snapshot's names count as available, a whole loop over it keeps every
      require resolvable, and ends with all of them in the parent's container. */
  lemma PushEachKeepsResolvable<M>(c: Container<M>, n: string, names: seq<string>, snapshot: Container<M>,
                                   scope: set<string>)
    requires Pending(c, n, names, snapshot)
    requires snapshot.entries.Keys <= scope
    requires AllResolvable(c, scope)
    requires AllResolvable(snapshot, scope + c.entries.Keys)
    ensures AllResolvable(PushEach(c, n, names, snapshot).container, scope)
    ensures forall k :: k in names ==> k in PushEach(c, n, names, snapshot).container.entries
    decreases snapshot, 0, |names|
  {
    if names != [] {
      PushOneKeepsResolvable(c, n, names[0], snapshot, scope);
      var first := PushOne(c, n, names[0], snapshot).container;
      AllResolvableMonotone(snapshot, scope + c.entries.Keys, scope + first.entries.Keys);
      PushEachKeepsResolvable(first, n, names[1..], snapshot, scope);
    }
  }

  lemma PushOneKeepsResolvable<M>(c: Container<M>, n: string, d: string, snapshot: Container<M>, scope: set<string>)
    requires Pending(c, n, [d], snapshot)
    requires snapshot.entries.Keys <= scope
    requires AllResolvable(c, scope)
    requires AllResolvable(snapshot, scope + c.entries.Keys)
    ensures AllResolvable(PushOne(c, n, d, snapshot).container, scope)
    ensures d in PushOne(c, n, d, snapshot).container.entries
    decreases snapshot, 0, 0
  {
    PendingChild(c, n, d, snapshot);
    var parent := c.entries[n];
    var siblings := parent.dependencies.value;
    var child := siblings.entries[d];
    if d !in c.entries || c.entries[d].version == child.version {
      DeleteKeepsResolvable(parent, d, scope + c.entries.Keys);
      UpdateKeepsResolvable(c, n, parent.(dependencies := Some(Delete(siblings, d))), scope);
      if d !in c.entries {
        var without, moved := TakenOut(c, n, d), Moved(c, n, d);
        var inner := scope + c.entries.Keys + snapshot.entries.Keys;
        assert Resolvable(child, inner);
        ResolvableMonotone(child, inner, scope + moved.entries.Keys);
        forall k | k in without.entries ensures Resolvable(moved.entries[k], scope + moved.entries.Keys) {
          ResolvableMonotone(without.entries[k], scope + without.entries.Keys, scope + moved.entries.Keys);
        }
        MoveChildrenUpKeepsResolvable(moved, d, scope);
      }
    } else {
      MoveChildrenUpKeepsResolvable(siblings, d, scope + c.entries.Keys);
      UpdateKeepsResolvable(c, n, parent.(dependencies := Some(MoveChildrenUp(siblings, d).container)), scope);
    }
  }

  lemma UpdateKeepsResolvable<M>(c: Container<M>, n: string, p: Package<M>, scope: set<string>)
    requires n in c.entries && AllResolvable(c, scope) && Resolvable(p, scope + c.entries.Keys)
    ensures AllResolvable(Update(c, n, p), scope)
  {
    assert Update(c, n, p).entries.Keys == c.entries.Keys;
  }

  /** A package may lose the child `d` from sight when `d` is available further up. */
  lemma DeleteKeepsResolvable<M>(p: Package<M>, d: string, outer: set<string>)
    requires p.dependencies.Some? && d in p.dependencies.value.entries && d in outer
    requires Resolvable(p, outer)
    ensures Resolvable(p.(dependencies := Some(Delete(p.dependencies.value, d))), outer)
  {
    var siblings := p.dependencies.value;
    assert outer + Delete(siblings, d).entries.Keys == outer + siblings.entries.Keys;
  }

  lemma SimplifyEachKeepsResolvable<M>(c: Container<M>, names: seq<string>, scope: set<string>)
    requires WellFormed(c) && forall k :: k in names ==> k in c.entries
    requires AllResolvable(c, scope)
    ensures AllResolvable(SimplifyEach(c, names).container, scope)
    decreases |names|
  {
    if names != [] {
      MoveChildrenUpKeepsResolvable(c, names[0], scope);
      SimplifyEachKeepsResolvable(MoveChildrenUp(c, names[0]).container, names[1..], scope);
    }
  }

  /** Hoisting never leaves a require unresolved. */
  lemma {:induction false} HoistKeepsResolvable<M>(c: Container<M>, scope: set<string>)
    requires WellFormed(c) && AllResolvable(c, scope)
    ensures AllResolvable(Hoist(c), scope)
    decreases LoadAll(c)
  {
    SimplifyEachKeepsResolvable(c, c.order, scope);
    SimplifyEachLoad(c, c.order);
    if Simplify(c).changed {
      HoistKeepsResolvable(Simplify(c).container, scope);
    }
  }
}
