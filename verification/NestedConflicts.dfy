/** Trees that hoisting can flatten without changing a version: built trees in which no package
    that has several versions holds one that has several versions. */
module NestedConflicts {
  import opened Options
  import opened PackageTree
  import opened Hoisting
  import opened Resolution
  import opened NormalForm
  import opened Lookups
  import opened VersionPreservation
  import opened ErasedNeeds

  /** Nothing from `p` down requires anything, and nothing below it is named in `ks`. */
  ghost predicate Bare<M>(p: Package<M>, ks: set<string>)
    decreases p
  {
    p.needs == {} && (p.dependencies.Some? ==> AllBare(p.dependencies.value, ks))
  }

  ghost predicate AllBare<M>(c: Container<M>, ks: set<string>)
    decreases c
  {
    forall k :: k in c.entries ==> k !in ks && Bare(c.entries[k], ks)
  }

  /** The package `p`, called `name`, and each below it have what they require in their own
      `dependencies`; one named in `ks` is bare. */
  ghost predicate Own<M>(name: string, p: Package<M>, ks: set<string>)
    decreases p
  {
    && p.needs <= ks && (name in ks ==> Bare(p, ks))
    && p.needs <= (if p.dependencies.Some? then p.dependencies.value.entries.Keys else {})
    && (p.dependencies.Some? ==> AllOwn(p.dependencies.value, ks))
  }

  ghost predicate AllOwn<M>(c: Container<M>, ks: set<string>)
    decreases c
  {
    forall k :: k in c.entries ==> Own(k, c.entries[k], ks)
  }

  /** A package of the root may also find what it requires in the root. */
  ghost predicate Rooted<M>(name: string, c: Container<M>, ks: set<string>)
    requires name in c.entries
  {
    var p := c.entries[name];
    && p.needs <= ks && (name in ks ==> Bare(p, ks))
    && p.needs <= c.entries.Keys + (if p.dependencies.Some? then p.dependencies.value.entries.Keys else {})
    && (p.dependencies.Some? ==> AllOwn(p.dependencies.value, ks))
  }

  /** Names outside `ks` have one version. */
  ghost predicate SingleOutside<M>(c: Container<M>, ks: set<string>) {
    forall i, j :: i in Items(c) && j in Items(c) && i.name == j.name && i.name !in ks ==> i.version == j.version
  }

  /** What the run keeps true of the root. */
  ghost predicate Sorted<M>(c: Container<M>, ks: set<string>) {
    WellFormed(c) && SingleOutside(c, ks) && forall k :: k in c.entries ==> Rooted(k, c, ks)
  }

  lemma BareChildren<M>(p: Package<M>, ks: set<string>)
    requires Bare(p, ks) && p.dependencies.Some?
    ensures AllBare(p.dependencies.value, ks)
    ensures forall k :: k in p.dependencies.value.entries ==> k !in ks && Bare(p.dependencies.value.entries[k], ks)
  {
    assert AllBare(p.dependencies.value, ks);
  }

  lemma {:induction false} BareOwn<M>(name: string, p: Package<M>, ks: set<string>)
    requires Bare(p, ks)
    ensures Own(name, p, ks) && Free(p) == {}
    decreases p
  {
    if p.dependencies.Some? {
      var c := p.dependencies.value;
      forall k | k in c.entries
        ensures Own(k, c.entries[k], ks) && Free(c.entries[k]) == {}
      {
        BareOwn(k, c.entries[k], ks);
      }
    }
  }

  lemma {:induction false} OwnFree<M>(name: string, p: Package<M>, ks: set<string>)
    requires Own(name, p, ks)
    ensures Free(p) == {}
    decreases p
  {
    if p.dependencies.Some? {
      var c := p.dependencies.value;
      forall k | k in c.entries ensures Free(c.entries[k]) == {} { OwnFree(k, c.entries[k], ks); }
    }
  }

  lemma RootedFree<M>(c: Container<M>, k: string, ks: set<string>)
    requires k in c.entries && Rooted(k, c, ks)
    ensures Free(c.entries[k]) <= c.entries.Keys
  {
    var p := c.entries[k];
    if p.dependencies.Some? {
      var q := p.dependencies.value;
      forall j | j in q.entries ensures Free(q.entries[j]) == {} { OwnFree(j, q.entries[j], ks); }
    }
  }

  // ---------------------------------------------------------------- inside a package that stays

  /** `b` is bare in a record whose packages look for nothing in it. */
  ghost predicate Still<M>(q: Container<M>, b: string, ks: set<string>) {
    && WellFormed(q) && b in q.entries && Bare(q.entries[b], ks)
    && forall k :: k in q.entries ==> Free(q.entries[k]) == {}
  }

  /** Whatever is new in the record is bare, and so is `b`. */
  ghost predicate BareGrowth<M>(q: Container<M>, b: string, r: Container<M>, ks: set<string>) {
    && Still(r, b, ks)
    && (forall k :: k in q.entries ==> k in r.entries)
    && (forall k :: k in q.entries && k != b ==> r.entries[k] == q.entries[k])
    && (forall k :: k in r.entries && k !in q.entries ==> k !in ks && Bare(r.entries[k], ks))
  }

  lemma BareGrowthTransitive<M>(q: Container<M>, b: string, r: Container<M>, s: Container<M>, ks: set<string>)
    requires BareGrowth(q, b, r, ks) && BareGrowth(r, b, s, ks)
    ensures BareGrowth(q, b, s, ks)
  {
  }

  lemma {:induction false} BareUp<M>(q: Container<M>, b: string, env: Env, needs: set<string>, ks: set<string>)
    requires Still(q, b, ks) && needs <= ks
    ensures SafeUp(q, b, env, needs) && BareGrowth(q, b, MoveChildrenUp(q, b).container, ks)
    decreases q.entries[b], 1
  {
    match q.entries[b].dependencies
    case None =>
    case Some(snapshot) =>
      assert WellFormedPackage(q.entries[b]) && WellFormed(snapshot);
      BareEach(q, b, snapshot.order, snapshot, env, needs, ks);
      MoveChildrenUpSteps(q, b, snapshot);
      BareCleanup(q, b, PushEach(q, b, snapshot.order, snapshot).container, ks);
  }

  lemma BareCleanup<M>(q: Container<M>, b: string, r: Container<M>, ks: set<string>)
    requires BareGrowth(q, b, r, ks)
    ensures BareGrowth(q, b, Update(r, b, r.entries[b].(dependencies := None)), ks)
  {
    BareOwn(b, r.entries[b].(dependencies := None), ks);
  }

  lemma {:induction false} BareEach<M>(q: Container<M>, b: string, names: seq<string>, snapshot: Container<M>,
                                       env: Env, needs: set<string>, ks: set<string>)
    requires Pending(q, b, names, snapshot) && Still(q, b, ks) && needs <= ks
    ensures SafeEach(q, b, names, snapshot, env, needs)
            && BareGrowth(q, b, PushEach(q, b, names, snapshot).container, ks)
    decreases snapshot, 0, |names|
  {
    if names == [] {
      PushEachDone(q, b, snapshot);
    } else {
      PushEachFirst(q, b, names, snapshot);
      BareOne(q, b, names[0], snapshot, env, needs, ks);
      var first := PushOne(q, b, names[0], snapshot).container;
      BareEach(first, b, names[1..], snapshot, env, needs, ks);
      BareGrowthTransitive(q, b, first, PushEach(first, b, names[1..], snapshot).container, ks);
    }
  }

  lemma {:induction false} BareOne<M>(q: Container<M>, b: string, e: string, snapshot: Container<M>, env: Env,
                                      needs: set<string>, ks: set<string>)
    requires Pending(q, b, [e], snapshot) && Still(q, b, ks) && needs <= ks
    ensures SafeOne(q, b, e, snapshot, env, needs) && BareGrowth(q, b, PushOne(q, b, e, snapshot).container, ks)
    decreases snapshot, 0, 0
  {
    PendingChild(q, b, e, snapshot);
    var p := q.entries[b];
    var inner := p.dependencies.value;
    var child := inner.entries[e];
    BareChildren(p, ks);
    BareOwn(e, child, ks);
    BareTakenOut(q, b, e, ks);
    if e !in q.entries {
      var moved := Moved(q, b, e);
      BareMoved(q, b, e, ks);
      BareUp(moved, e, env, needs, ks);
      BareAfterMove(q, b, e, MoveChildrenUp(moved, e).container, ks);
    } else if q.entries[e].version != child.version {
      forall k | k in inner.entries ensures Free(inner.entries[k]) == {} { BareOwn(k, inner.entries[k], ks); }
      BareUp(inner, e, env + Versions(q), p.needs, ks);
      BareInside(q, b, e, MoveChildrenUp(inner, e).container, ks);
    }
  }

  lemma BareTakenOut<M>(q: Container<M>, b: string, e: string, ks: set<string>)
    requires Still(q, b, ks) && Child(q, b, e)
    ensures BareGrowth(q, b, TakenOut(q, b, e), ks)
  {
    assert WellFormedPackage(q.entries[b]);
    assert WellFormed(TakenOut(q, b, e));
    BareChildren(q.entries[b], ks);
    assert AllBare(Delete(q.entries[b].dependencies.value, e), ks);
    assert Bare(TakenOut(q, b, e).entries[b], ks);
    BareOwn(b, TakenOut(q, b, e).entries[b], ks);
  }

  lemma BareMoved<M>(q: Container<M>, b: string, e: string, ks: set<string>)
    requires Still(q, b, ks) && Child(q, b, e) && e !in q.entries
    ensures Still(Moved(q, b, e), e, ks) && Bare(Moved(q, b, e).entries[b], ks)
  {
    BareTakenOut(q, b, e, ks);
    var child := q.entries[b].dependencies.value.entries[e];
    BareChildren(q.entries[b], ks);
    assert WellFormedPackage(q.entries[b]) && WellFormed(q.entries[b].dependencies.value);
    assert WellFormedPackage(child);
    BareOwn(e, child, ks);
  }

  lemma BareAfterMove<M>(q: Container<M>, b: string, e: string, r: Container<M>, ks: set<string>)
    requires Still(q, b, ks) && Child(q, b, e) && e !in q.entries && e != b
    requires BareGrowth(Moved(q, b, e), e, r, ks) && Bare(Moved(q, b, e).entries[b], ks)
    requires e !in ks
    ensures BareGrowth(q, b, r, ks)
  {
    var moved := Moved(q, b, e);
    forall k | k in q.entries && k != b
      ensures r.entries[k] == q.entries[k]
    {
      assert moved.entries[k] == q.entries[k];
    }
    assert r.entries[b] == moved.entries[b];
  }

  lemma BareInside<M>(q: Container<M>, b: string, e: string, r: Container<M>, ks: set<string>)
    requires Still(q, b, ks) && Child(q, b, e) && BareGrowth(q.entries[b].dependencies.value, e, r, ks)
    ensures BareGrowth(q, b, Update(q, b, q.entries[b].(dependencies := Some(r))), ks)
  {
    var inner := q.entries[b].dependencies.value;
    BareChildren(q.entries[b], ks);
    forall k | k in r.entries ensures k !in ks && Bare(r.entries[k], ks) {
      if k in inner.entries && k != e { assert r.entries[k] == inner.entries[k]; }
    }
    BareOwn(b, q.entries[b].(dependencies := Some(r)), ks);
  }

  // ---------------------------------------------------------------- at the root

  lemma MovedItems<M>(c: Container<M>, n: string, d: string)
    requires Child(c, n, d)
    ensures Items(Moved(c, n, d)) <= Items(c) && Items(TakenOut(c, n, d)) <= Items(c)
  {
    DeleteItems(c, n, d);
    var parent := c.entries[n];
    var siblings := parent.dependencies.value;
    assert ItemsOf(d, siblings.entries[d]) <= Items(siblings) <= ItemsOf(n, parent) <= Items(c);
    assert Items(Moved(c, n, d)) <= Items(TakenOut(c, n, d)) + ItemsOf(d, siblings.entries[d]);
  }

  lemma FewerItems<M>(c: Container<M>, r: Container<M>, ks: set<string>)
    requires SingleOutside(c, ks) && Items(r) <= Items(c)
    ensures SingleOutside(r, ks)
  {
  }

  lemma ChildOwn<M>(c: Container<M>, n: string, d: string, ks: set<string>)
    requires Sorted(c, ks) && Child(c, n, d)
    ensures var q := c.entries[n].dependencies.value;
      && WellFormed(q) && WellFormedPackage(q.entries[d]) && Own(d, q.entries[d], ks) && AllOwn(Delete(q, d), ks)
      && (n in ks ==> AllBare(Delete(q, d), ks))
      && WellFormed(TakenOut(c, n, d)) && (d !in c.entries ==> WellFormed(Moved(c, n, d)))
  {
    var p := c.entries[n];
    assert WellFormedPackage(p) && Rooted(n, c, ks);
    if n in ks { BareChildren(p, ks); }
  }

  lemma SortedTakenOut<M>(c: Container<M>, n: string, d: string, ks: set<string>)
    requires Sorted(c, ks) && Child(c, n, d)
    ensures WellFormed(TakenOut(c, n, d))
    ensures d in c.entries ==> Sorted(TakenOut(c, n, d), ks)
    ensures d !in c.entries ==> Sorted(Moved(c, n, d), ks)
  {
    ChildOwn(c, n, d, ks);
    MovedItems(c, n, d);
    var r := if d in c.entries then TakenOut(c, n, d) else Moved(c, n, d);
    FewerItems(c, r, ks);
    hide WellFormed, WellFormedPackage, SingleOutside, Own, Bare, AllOwn, AllBare, Items;
    forall k | k in r.entries ensures Rooted(k, r, ks) {
      RootedTakenOut(c, n, d, r, k, ks);
    }
  }

  lemma RootedTakenOut<M>(c: Container<M>, n: string, d: string, r: Container<M>, k: string, ks: set<string>)
    requires Sorted(c, ks) && Child(c, n, d) && k in r.entries
    requires r == if d in c.entries then TakenOut(c, n, d) else Moved(c, n, d)
    ensures Rooted(k, r, ks)
  {
    ChildOwn(c, n, d, ks);
    SortedAt(c, n, ks);
    if k in c.entries { SortedAt(c, k, ks); }
    TakenOutParts(c, n, d, r);
    hide *;
    var rest := Delete(c.entries[n].dependencies.value, d);
    if k == n {
      if n in ks {
        RootedBare(c, n, ks);
        StillBare(c.entries[n], rest, ks);
      }
      RootedWith(c, n, d, r, ks);
    } else if k in c.entries {
      RootedStill(c, k, d, r, ks);
    } else {
      OwnRooted(r, d, ks);
    }
  }

  lemma SortedAt<M>(c: Container<M>, k: string, ks: set<string>)
    requires Sorted(c, ks) && k in c.entries
    ensures Rooted(k, c, ks)
  {
    hide WellFormed, SingleOutside, Rooted;
  }

  lemma TakenOutParts<M>(c: Container<M>, n: string, d: string, r: Container<M>)
    requires n in c.entries && c.entries[n].dependencies.Some? && d in c.entries[n].dependencies.value.entries
    requires r == if d in c.entries then TakenOut(c, n, d) else Moved(c, n, d)
    ensures r.entries.Keys == c.entries.Keys + {d}
    ensures r.entries[n] == c.entries[n].(dependencies := Some(Delete(c.entries[n].dependencies.value, d)))
    ensures forall k :: k in c.entries && k != n ==> r.entries[k] == c.entries[k]
    ensures d !in c.entries ==> r.entries[d] == c.entries[n].dependencies.value.entries[d]
  {
  }

  lemma RootedBare<M>(c: Container<M>, n: string, ks: set<string>)
    requires n in c.entries && Rooted(n, c, ks) && n in ks
    ensures c.entries[n].needs == {}
  {
  }

  lemma RootedStill<M>(c: Container<M>, k: string, d: string, r: Container<M>, ks: set<string>)
    requires k in c.entries && Rooted(k, c, ks) && k in r.entries && r.entries[k] == c.entries[k]
    requires r.entries.Keys == c.entries.Keys + {d}
    ensures Rooted(k, r, ks)
  {
    hide AllOwn, Bare;
  }

  lemma RootedWith<M>(c: Container<M>, n: string, d: string, r: Container<M>, ks: set<string>)
    requires n in c.entries && Rooted(n, c, ks) && c.entries[n].dependencies.Some? && n in r.entries
    requires r.entries.Keys == c.entries.Keys + {d}
    requires var rest := Delete(c.entries[n].dependencies.value, d);
      && r.entries[n] == c.entries[n].(dependencies := Some(rest)) && AllOwn(rest, ks)
      && (n in ks ==> Bare(r.entries[n], ks))
    ensures Rooted(n, r, ks)
  {
    hide AllOwn, Bare;
  }

  lemma StillBare<M>(p: Package<M>, rest: Container<M>, ks: set<string>)
    requires p.needs == {} && AllBare(rest, ks)
    ensures Bare(p.(dependencies := Some(rest)), ks)
  {
  }

  lemma OwnRooted<M>(c: Container<M>, name: string, ks: set<string>)
    requires name in c.entries && Own(name, c.entries[name], ks)
    ensures Rooted(name, c, ks)
  {
  }

  lemma {:induction false} RootUp<M>(c: Container<M>, n: string, ks: set<string>)
    requires Sorted(c, ks) && n in c.entries
    ensures SafeUp(c, n, map[], {}) && Sorted(MoveChildrenUp(c, n).container, ks)
    decreases c.entries[n], 1
  {
    match c.entries[n].dependencies
    case None =>
    case Some(snapshot) =>
      assert WellFormedPackage(c.entries[n]) && WellFormed(snapshot);
      RootEach(c, n, snapshot.order, snapshot, ks);
      MoveChildrenUpSteps(c, n, snapshot);
      RootCleanup(PushEach(c, n, snapshot.order, snapshot).container, n, ks);
      MoveChildrenUpItems(c, n);
  }

  lemma RootCleanup<M>(c: Container<M>, n: string, ks: set<string>)
    requires Sorted(c, ks) && n in c.entries && c.entries[n].dependencies.Some?
    ensures c.entries[n].dependencies.value.entries == map[] ==>
            Sorted(Update(c, n, c.entries[n].(dependencies := None)), ks)
  {
    var p := c.entries[n];
    var less := p.(dependencies := None);
    var r := Update(c, n, less);
    assert WellFormed(r) by { assert WellFormedPackage(less); }
    assert Items(r) <= Items(c) by {
      assert ItemsOf(n, less) <= ItemsOf(n, p) <= Items(c);
      UpdateItems(c, n, less);
    }
    if p.dependencies.value.entries == map[] {
      FewerItems(c, r, ks);
      assert n in ks ==> Bare(less, ks) by { assert Rooted(n, c, ks); }
      hide WellFormed, SingleOutside, AllOwn, Bare, Items;
      forall k | k in r.entries ensures Rooted(k, r, ks) { assert Rooted(k, c, ks); }
    }
  }

  lemma {:induction false} RootEach<M>(c: Container<M>, n: string, names: seq<string>, snapshot: Container<M>,
                                       ks: set<string>)
    requires Pending(c, n, names, snapshot) && Sorted(c, ks)
    ensures SafeEach(c, n, names, snapshot, map[], {}) && Sorted(PushEach(c, n, names, snapshot).container, ks)
    decreases snapshot, 0, |names|
  {
    if names == [] {
      PushEachDone(c, n, snapshot);
    } else {
      PushEachFirst(c, n, names, snapshot);
      RootOne(c, n, names[0], snapshot, ks);
      RootEach(PushOne(c, n, names[0], snapshot).container, n, names[1..], snapshot, ks);
    }
  }

  lemma {:induction false} RootOne<M>(c: Container<M>, n: string, d: string, snapshot: Container<M>, ks: set<string>)
    requires Pending(c, n, [d], snapshot) && Sorted(c, ks)
    ensures SafeOne(c, n, d, snapshot, map[], {}) && Sorted(PushOne(c, n, d, snapshot).container, ks)
    decreases snapshot, 0, 0
  {
    PendingChild(c, n, d, snapshot);
    var siblings := c.entries[n].dependencies.value;
    SortedTakenOut(c, n, d, ks);
    if d !in c.entries {
      RootMovable(c, n, d, ks);
      RootUp(Moved(c, n, d), d, ks);
    } else if c.entries[d].version != siblings.entries[d].version {
      ConflictContested(c, n, d, ks);
      BareUp(siblings, d, map[] + Versions(c), c.entries[n].needs, ks);
      PushOneItems(c, n, d, snapshot);
      RootAfterConflict(c, n, d, MoveChildrenUp(siblings, d).container, ks);
    }
  }

  lemma RootMovable<M>(c: Container<M>, n: string, d: string, ks: set<string>)
    requires Sorted(c, ks) && Child(c, n, d) && d !in c.entries
    ensures Movable(c, n, d, map[], {})
  {
    var q := c.entries[n].dependencies.value;
    assert Rooted(n, c, ks) && Own(d, q.entries[d], ks);
    OwnFree(d, q.entries[d], ks);
    forall k | k in c.entries ensures d !in Free(c.entries[k]) { RootedFree(c, k, ks); }
  }

  /** A name that clashes has several versions, so what clashes holds nothing that does. */
  lemma ConflictContested<M>(c: Container<M>, n: string, d: string, ks: set<string>)
    requires Sorted(c, ks) && Child(c, n, d) && d in c.entries
    requires c.entries[d].version != c.entries[n].dependencies.value.entries[d].version
    ensures d in ks && n !in ks && c.entries[n].needs <= ks
    ensures Still(c.entries[n].dependencies.value, d, ks)
  {
    var p := c.entries[n];
    var q := p.dependencies.value;
    assert WellFormedPackage(p) && Rooted(n, c, ks);
    EntryItems(c, d);
    EntryItems(c, n);
    EntryItems(q, d);
    assert ItemAt(d, c.entries[d]) in Items(c) && ItemAt(d, q.entries[d]) in Items(c);
    if n in ks { BareChildren(p, ks); }
    forall k | k in q.entries ensures Free(q.entries[k]) == {} { OwnFree(k, q.entries[k], ks); }
    assert Own(d, q.entries[d], ks);
  }

  lemma RootAfterConflict<M>(c: Container<M>, n: string, d: string, r: Container<M>, ks: set<string>)
    requires Sorted(c, ks) && Child(c, n, d) && n !in ks && BareGrowth(c.entries[n].dependencies.value, d, r, ks)
    requires var after := Update(c, n, c.entries[n].(dependencies := Some(r))); Items(after) <= Items(c)
    ensures Sorted(Update(c, n, c.entries[n].(dependencies := Some(r))), ks)
  {
    var p := c.entries[n];
    var q := p.dependencies.value;
    var after := Update(c, n, p.(dependencies := Some(r)));
    FewerItems(c, after, ks);
    assert Rooted(n, c, ks);
    forall k | k in r.entries ensures Own(k, r.entries[k], ks) {
      if k in q.entries && k != d { assert Own(k, q.entries[k], ks); } else { BareOwn(k, r.entries[k], ks); }
    }
    hide Own, Bare;
    forall k | k in after.entries ensures Rooted(k, after, ks) {
      assert Rooted(k, c, ks);
    }
  }

  // ---------------------------------------------------------------- whole runs

  lemma {:induction false} RootPass<M>(c: Container<M>, names: seq<string>, ks: set<string>)
    requires Sorted(c, ks) && forall k :: k in names ==> k in c.entries
    ensures SafePass(c, names) && Sorted(SimplifyEach(c, names).container, ks)
    decreases |names|
  {
    if names != [] {
      RootUp(c, names[0], ks);
      RootPass(MoveChildrenUp(c, names[0]).container, names[1..], ks);
    }
  }

  lemma {:induction false} RootRun<M>(c: Container<M>, ks: set<string>)
    requires Sorted(c, ks)
    ensures SafeRun(c)
    decreases LoadAll(c)
  {
    RootPass(c, c.order, ks);
    SimplifyEachLoad(c, c.order);
    if Simplify(c).changed { RootRun(Simplify(c).container, ks); }
  }

  // ---------------------------------------------------------------- the condition on the tree

  /** Every package has all it requires in its own `dependencies`, as the tree is built. */
  ghost predicate Supplied<M>(p: Package<M>)
    decreases p
  {
    && p.needs <= (if p.dependencies.Some? then p.dependencies.value.entries.Keys else {})
    && (p.dependencies.Some? ==> AllSupplied(p.dependencies.value))
  }

  ghost predicate AllSupplied<M>(c: Container<M>)
    decreases c
  {
    forall k :: k in c.entries ==> Supplied(c.entries[k])
  }

  /** The names that have several versions in the tree. */
  ghost function Contested<M>(c: Container<M>): set<string> {
    set i, j | i in Items(c) && j in Items(c) && i.name == j.name && i.version != j.version :: i.name
  }

  /** No package named in `ks` holds another one, at any depth. */
  ghost predicate NoneNested<M>(c: Container<M>, ks: set<string>)
    decreases c
  {
    forall k :: k in c.entries ==>
      && (k in ks ==> NamesBelow(c.entries[k]) !! ks)
      && (c.entries[k].dependencies.Some? ==> NoneNested(c.entries[k].dependencies.value, ks))
  }

  lemma {:induction false} SuppliedBare<M>(p: Package<M>, ks: set<string>)
    requires Supplied(p) && NamesBelow(p) !! ks
    ensures Bare(Erased(p, ks), ks)
    decreases p
  {
    if p.dependencies.Some? {
      var c := p.dependencies.value;
      assert AllSupplied(c) && NamesBelow(p) == Names(c) && c.entries.Keys <= Names(c);
      ErasedEntry(c, ks);
      forall k | k in c.entries ensures k !in ks && Bare(Erased(c.entries[k], ks), ks) {
        assert NamesBelow(c.entries[k]) <= Names(c);
        SuppliedBare(c.entries[k], ks);
      }
    }
  }

  lemma {:induction false} SuppliedOwn<M>(c: Container<M>, ks: set<string>)
    requires AllSupplied(c) && NoneNested(c, ks)
    ensures AllOwn(ErasedAll(c, ks), ks)
    decreases c
  {
    ErasedEntry(c, ks);
    forall k | k in c.entries ensures Own(k, Erased(c.entries[k], ks), ks) {
      var p := c.entries[k];
      assert Supplied(p);
      if k in ks { SuppliedBare(p, ks); }
      if p.dependencies.Some? {
        assert AllSupplied(p.dependencies.value);
        ErasedEntry(p.dependencies.value, ks);
        SuppliedOwn(p.dependencies.value, ks);
      }
    }
  }

  lemma {:induction false} ErasedItems<M>(c: Container<M>, ks: set<string>, i: Item<M>)
    requires i in Items(ErasedAll(c, ks))
    ensures exists j :: j in Items(c) && j.name == i.name && j.version == i.version
    decreases c
  {
    ErasedEntry(c, ks);
    var k :| k in c.entries && i in ItemsOf(k, Erased(c.entries[k], ks));
    var p := c.entries[k];
    EntryItems(c, k);
    if p.dependencies.Some? && i in Items(ErasedAll(p.dependencies.value, ks)) {
      ErasedItems(p.dependencies.value, ks, i);
    } else {
      assert i == ItemAt(k, Erased(p, ks)) && ItemAt(k, p) in Items(c);
    }
  }

  lemma ErasedSorted<M>(c: Container<M>)
    requires WellFormed(c) && AllSupplied(c) && NoneNested(c, Contested(c))
    ensures Sorted(ErasedAll(c, Contested(c)), Contested(c))
  {
    var ks := Contested(c);
    var e := ErasedAll(c, ks);
    ErasedWellFormed(c, ks);
    SuppliedOwn(c, ks);
    forall i, j | i in Items(e) && j in Items(e) && i.name == j.name && i.name !in ks ensures i.version == j.version {
      ErasedItems(c, ks, i);
      ErasedItems(c, ks, j);
    }
    hide Own, Bare;
    forall k | k in e.entries ensures Rooted(k, e, ks) {
      assert Own(k, e.entries[k], ks);
      OwnRooted(e, k, ks);
    }
  }

  lemma {:induction false} SuppliedResolvable<M>(c: Container<M>, scope: set<string>)
    requires AllSupplied(c)
    ensures AllResolvable(c, scope)
    decreases c
  {
    forall k | k in c.entries ensures Resolvable(c.entries[k], scope + c.entries.Keys) {
      var p := c.entries[k];
      assert Supplied(p);
      if p.dependencies.Some? {
        assert AllSupplied(p.dependencies.value);
        SuppliedResolvable(p.dependencies.value, scope + c.entries.Keys);
      }
    }
  }

  /** If no package with several versions holds a package with several versions, every require of
      every surviving package finds the version that it found in the tree as it was built. */
  lemma UnnestedConflictsKeepVersions<M>(c: Container<M>)
    requires WellFormed(c) && AllSupplied(c) && NoneNested(c, Contested(c))
    ensures AllLookups(Hoist(c), map[]) <= AllLookups(c, map[])
  {
    var ks := Contested(c);
    var empty: Env := map[];
    ErasedSorted(c);
    RootRun(ErasedAll(c, ks), ks);
    SafeRunKeepsVersions(ErasedAll(c, ks));
    HoistErased(c, ks);
    SuppliedResolvable(c, {});
    forall l | l in AllLookups(Hoist(c), empty) ensures l in AllLookups(c, empty) {
      if l.name in ks {
        LookupsErased(Hoist(c), empty, ks, l);
        LookupsErased(c, empty, ks, l);
      } else {
        UncontestedKept(c, l);
      }
    }
  }

  lemma UncontestedKept<M>(c: Container<M>, l: Lookup<M>)
    requires WellFormed(c) && AllResolvable(c, {}) && l in AllLookups(Hoist(c), map[]) && l.name !in Contested(c)
    ensures l in AllLookups(c, map[])
  {
    var empty: Env := map[];
    var h := Hoist(c);
    assert empty.Keys == {};
    HoistItems(c);
    HoistKeepsResolvable(c, {});
    ResolvableFinds(c, empty);
    ResolvableFinds(h, empty);
    LookupsStayInside(h, empty, l);
    var i :| i in Items(h) && i.meta == l.who && l.name in i.needs;
    hide *;
    ItemsAreLookedUp(c, empty, i, l.name);
    var l' :| l' in AllLookups(c, empty) && l'.who == i.meta && l'.name == l.name;
    LookupsStayInside(c, empty, l');
    SameFound(c, h, l, l');
    assert l' == l;
  }

  lemma SameFound<M>(c: Container<M>, h: Container<M>, l: Lookup<M>, l': Lookup<M>)
    requires Items(h) <= Items(c) && l'.name == l.name && l.name !in Contested(c)
    requires l.found.Some? && l'.found.Some? && Known(h, map[], l) && Known(c, map[], l')
    ensures l'.found == l.found
  {
    hide Items, Contested;
    var x :| x in Items(h) && x.name == l.name && x.version == l.found.value;
    var y :| y in Items(c) && y.name == l.name && y.version == l'.found.value;
    OneVersion(c, x, y);
  }

  lemma OneVersion<M>(c: Container<M>, x: Item<M>, y: Item<M>)
    requires x in Items(c) && y in Items(c) && x.name == y.name && x.name !in Contested(c)
    ensures x.version == y.version
  {
    hide Items;
  }

  // ---------------------------------------------------------------- a run that is not safe

  /** `y` holds `e`, which requires `f`, and `f`. */
  function TwoSiblings(): Container<int> {
    Container(["y"], map["y" := Package("1", {}, 0, Some(Siblings()))])
  }

  function Siblings(): Container<int> {
    Container(["e", "f"], map["e" := Package("1", {"f"}, 1, None), "f" := Package("1", {}, 2, None)])
  }

  /** A run whose very first move is not `Movable` is not safe. */
  lemma FirstMoveUnsafe<M>(c: Container<M>, n: string, d: string, q: Container<M>)
    requires WellFormed(c) && n in c.entries && c.entries[n].dependencies == Some(q) && Child(c, n, d)
    requires c.order != [] && c.order[0] == n && q.order != [] && q.order[0] == d
    requires d !in c.entries && !Movable(c, n, d, map[], {})
    ensures !SafeRun(c)
  {
    hide Movable;
    MoveChildrenUpSteps(c, n, q);
    PushEachFirst(c, n, q.order, q);
    assert !SafeOne(c, n, d, q, map[], {});
    assert !SafeEach(c, n, q.order, q, map[], {});
    assert !SafeUp(c, n, map[], {});
    assert !SafePass(c, c.order);
  }

  lemma FirstMoveExample()
    ensures var c, q := TwoSiblings(), Siblings();
      && c.order == ["y"] && q.order == ["e", "f"] && "y" in c.entries && c.entries["y"].dependencies == Some(q)
      && "e" in q.entries && "f" in q.entries && "e" !in c.entries && "f" !in c.entries
      && Free(q.entries["e"]) == {"f"}
  {
    assert "e" != "f" && "y" != "e" && "y" != "f" by { assert "e"[0] == 'e' && "f"[0] == 'f' && "y"[0] == 'y'; }
    assert Siblings().entries["e"] == Package("1", {"f"}, 1, None);
  }

  lemma MoveNeedsSibling<M>(c: Container<M>, n: string, d: string, k: string)
    requires Child(c, n, d) && k in c.entries[n].dependencies.value.entries && k != d && k !in c.entries
    requires k in Free(c.entries[n].dependencies.value.entries[d])
    ensures !Movable(c, n, d, map[], {})
  {
    hide Free;
  }

  /** `SafeRun` is not necessary: `e` moves up before its sibling `f`, and finds it again in the end. */
  lemma SafeRunNotNecessary()
    ensures var c := TwoSiblings();
      && WellFormed(c) && !SafeRun(c) && AllLookups(Hoist(c), map[]) <= AllLookups(c, map[])
  {
    TwoSiblingsFormed();
    FirstMoveExample();
    var c, q := TwoSiblings(), Siblings();
    assert Child(c, "y", "e") by { hide WellFormed, TwoSiblings, Siblings; }
    hide *;
    OneVersionPerNameFlattens(c);
    MoveNeedsSibling(c, "y", "e", "f") by { assert "e"[0] != "f"[0]; }
    FirstMoveUnsafe(c, "y", "e", q);
  }

  lemma TwoSiblingsFormed()
    ensures WellFormed(TwoSiblings()) && AllResolvable(TwoSiblings(), {}) && OneVersionPerName(TwoSiblings())
  {
    var c, q := TwoSiblings(), Siblings();
    assert "e" != "f" by { assert "e"[0] == 'e' && "f"[0] == 'f'; }
    assert NoDuplicates(["e", "f"]) by { assert ["e", "f"][1..] == ["f"] && ["f"][1..] == []; }
    assert NoDuplicates(["y"]) by { assert ["y"][1..] == []; }
    assert WellFormed(q);
    assert AllResolvable(q, {} + c.entries.Keys);
    forall i | i in Items(c) ensures i.version == "1" {
      assert i in ItemsOf("y", c.entries["y"]);
      if i in Items(q) {
        assert i in ItemsOf("e", q.entries["e"]) || i in ItemsOf("f", q.entries["f"]);
      }
    }
  }
}
