/** The hoister as it runs: on package objects whose `dependencies` records are updated in place. */
module HoistingInPlace {
  import opened Options
  import opened PackageTree
  import opened Hoisting
  import opened KeyOrder

  /** A JavaScript record of packages. */
  class Record {
    var order: seq<string>
    var entries: map<string, PackageLockPackage>

    constructor ()
      ensures order == [] && entries == map[]
    {
      order, entries := [], map[];
    }

    /** A new entry goes last. */
    method Add(key: string, value: PackageLockPackage)
      requires key !in entries
      modifies this
      ensures order == old(order) + [key] && entries == old(entries)[key := value]
    {
      order := order + [key];
      entries := entries[key := value];
    }

    /** The entry is gone, if there was one; the others keep their order. */
    method Remove(key: string)
      modifies this
      ensures order == Without(old(order), key) && entries == old(entries) - {key}
      ensures forall a, b :: old(order) == a + [key] + b && key !in a ==> order == a + b
    {
      forall a, b | order == a + [key] + b && key !in a ensures Without(order, key) == a + b { CutOut(a, key, b); }
      order := Without(order, key);
      entries := entries - {key};
    }
  }

  class PackageLockPackage {
    const version: string
    const needs: set<string>
    var dependencies: Record?

    constructor (version: string, needs: set<string>, dependencies: Record?)
      ensures this.version == version && this.needs == needs && this.dependencies == dependencies
    {
      this.version, this.needs, this.dependencies := version, needs, dependencies;
    }
  }

  // ---------------------------------------------------------------- the tree the objects form

  /** The objects behind a package of the abstract tree. */
  datatype Handle = Handle(pkg: PackageLockPackage, record: Record?)

  type Tree = Container<Handle>

  ghost function Objects(p: Package<Handle>): set<object>
    decreases p
  {
    match p.dependencies
    case None => {p.meta.pkg}
    case Some(c) => {p.meta.pkg} + (if p.meta.record != null then {p.meta.record} else {}) + ObjectsIn(c)
  }

  ghost function ObjectsIn(c: Tree): set<object>
    decreases c
  {
    set k, o | k in c.entries && o in Objects(c.entries[k]) :: o
  }

  /** No object occurs in two places of the tree. */
  ghost predicate Apart(p: Package<Handle>)
    decreases p
  {
    match p.dependencies
    case None => true
    case Some(c) =>
        p.meta.pkg !in ObjectsIn(c) && (p.meta.record != null ==> p.meta.record !in ObjectsIn(c)) && ApartIn(c)
  }

  ghost predicate ApartIn(c: Tree)
    decreases c
  {
    && (forall k :: k in c.entries ==> Apart(c.entries[k]))
    && (forall j, k :: j in c.entries && k in c.entries && j != k ==> Objects(c.entries[j]) !! Objects(c.entries[k]))
  }

  /** The fields of the objects of `p` are what the abstract package says. */
  ghost predicate PackageHolds(p: Package<Handle>)
    reads Objects(p)
    decreases p
  {
    match p.dependencies
    case None => FieldsHold(p) && p.meta.pkg.dependencies == null
    case Some(c) =>
      && FieldsHold(p)
      && p.meta.record != null && p.meta.pkg.dependencies == p.meta.record
      && Holds(p.meta.record, c)
  }

  ghost predicate FieldsHold(p: Package<Handle>) {
    p.meta.pkg.version == p.version && p.meta.pkg.needs == p.needs
  }

  ghost predicate AllHold(c: Tree)
    reads ObjectsIn(c)
    decreases c, 0
  {
    forall k :: k in c.entries ==> PackageHolds(c.entries[k])
  }

  /** The record lists the packages of `c`, in order. */
  ghost predicate Lists(r: Record, c: Tree)
    reads r
  {
    && r.order == c.order
    && r.entries.Keys == c.entries.Keys
    && forall k :: k in c.entries ==> r.entries[k] == c.entries[k].meta.pkg
  }

  /** The record and everything in it are what the abstract tree says. */
  ghost predicate Holds(r: Record, c: Tree)
    reads r, ObjectsIn(c)
    decreases c, 1
  {
    Lists(r, c) && AllHold(c)
  }

  /** `r` stands above the tree `c`, and nothing in the tree is shared. */
  ghost predicate Owned(r: Record, c: Tree) {
    WellFormed(c) && ApartIn(c) && r !in ObjectsIn(c)
  }

  // ---------------------------------------------------------------- hoisting shares no object

  ghost predicate StaysApart(c: Tree, r: Tree) {
    ApartIn(r) && ObjectsIn(r) <= ObjectsIn(c)
  }

  lemma UpdateApart(c: Tree, n: string, p: Package<Handle>)
    requires n in c.entries && ApartIn(c) && Apart(p) && Objects(p) <= Objects(c.entries[n])
    ensures StaysApart(c, Update(c, n, p))
  {
  }

  lemma TakenOutApart(c: Tree, n: string, d: string)
    requires Child(c, n, d) && ApartIn(c)
    ensures var p := c.entries[n]; var q := p.dependencies.value;
            var less := p.(dependencies := Some(Delete(q, d)));
            && Apart(less) && Objects(less) <= Objects(p) && Objects(q.entries[d]) <= Objects(p)
            && Objects(less) !! Objects(q.entries[d])
    ensures StaysApart(c, TakenOut(c, n, d))
  {
    var p := c.entries[n];
    var q := p.dependencies.value;
    var less := p.(dependencies := Some(Delete(q, d)));
    assert Apart(p) && ApartIn(q) && Apart(q.entries[d]);
    assert ObjectsIn(Delete(q, d)) <= ObjectsIn(q);
    assert ObjectsIn(Delete(q, d)) !! Objects(q.entries[d]);
    assert ApartIn(Delete(q, d));
    UpdateApart(c, n, less);
  }

  lemma MovedApart(c: Tree, n: string, d: string)
    requires Child(c, n, d) && ApartIn(c) && d !in c.entries
    ensures StaysApart(c, Moved(c, n, d))
  {
    TakenOutApart(c, n, d);
    var p := c.entries[n];
    var q := p.dependencies.value;
    var without := TakenOut(c, n, d);
    assert Apart(p) && ApartIn(q) && Apart(q.entries[d]);
    forall k | k in without.entries ensures Objects(without.entries[k]) !! Objects(q.entries[d]) {
      if k != n { assert Objects(c.entries[k]) !! Objects(p); }
    }
  }

  lemma MoveChildrenUpApart(c: Tree, n: string)
    requires WellFormed(c) && n in c.entries && ApartIn(c)
    ensures StaysApart(c, MoveChildrenUp(c, n).container)
    decreases c.entries[n], 1
  {
    match c.entries[n].dependencies
    case None =>
    case Some(snapshot) =>
      assert WellFormedPackage(c.entries[n]) && WellFormed(snapshot);
      PushEachApart(c, n, snapshot.order, snapshot);
      var pushed := PushEach(c, n, snapshot.order, snapshot).container;
      var left := pushed.entries[n];
      if left.dependencies.value.entries == map[] {
        UpdateApart(pushed, n, left.(dependencies := None));
      }
  }

  lemma PushEachApart(c: Tree, n: string, names: seq<string>, snapshot: Tree)
    requires Pending(c, n, names, snapshot) && ApartIn(c)
    ensures StaysApart(c, PushEach(c, n, names, snapshot).container)
    decreases snapshot, 0, |names|
  {
    if names != [] {
      PushOneApart(c, n, names[0], snapshot);
      PushEachApart(PushOne(c, n, names[0], snapshot).container, n, names[1..], snapshot);
    }
  }

  lemma PushOneApart(c: Tree, n: string, d: string, snapshot: Tree)
    requires Pending(c, n, [d], snapshot) && ApartIn(c)
    ensures StaysApart(c, PushOne(c, n, d, snapshot).container)
    decreases snapshot, 0, 0
  {
    PendingChild(c, n, d, snapshot);
    var siblings := c.entries[n].dependencies.value;
    TakenOutApart(c, n, d);
    if d !in c.entries {
      MovedApart(c, n, d);
      MoveChildrenUpApart(Moved(c, n, d), d);
    } else if c.entries[d].version != siblings.entries[d].version {
      assert Apart(c.entries[n]) && ApartIn(siblings);
      MoveChildrenUpApart(siblings, d);
      UpdateApart(c, n, c.entries[n].(dependencies := Some(MoveChildrenUp(siblings, d).container)));
    }
  }

  // ---------------------------------------------------------------- the run

  /** What a tree of objects says about the package under `n`. */
  lemma Inside(r: Record, c: Tree, n: string)
    requires Owned(r, c) && AllHold(c) && n in c.entries
    ensures var p := c.entries[n];
            && p.meta.pkg in Objects(p) && Objects(p) <= ObjectsIn(c)
            && (forall k :: k in c.entries ==> Objects(c.entries[k]) <= ObjectsIn(c))
            && (forall k :: k in c.entries && k != n ==> Objects(c.entries[k]) !! Objects(p))
            && p.meta.pkg.version == p.version && p.meta.pkg.needs == p.needs
            && (p.dependencies.None? ==> p.meta.pkg.dependencies == null)
            && (p.dependencies.Some? ==>
                  && p.meta.record != null && p.meta.pkg.dependencies == p.meta.record
                  && p.meta.record in Objects(p) && p.meta.pkg !in ObjectsIn(p.dependencies.value)
                  && ObjectsIn(p.dependencies.value) <= Objects(p)
                  && Owned(p.meta.record, p.dependencies.value) && Holds(p.meta.record, p.dependencies.value)
                  && AllHold(p.dependencies.value))
  {
    var p := c.entries[n];
    assert WellFormedPackage(p) && Apart(p) && Objects(p) <= ObjectsIn(c) && PackageHolds(p);
  }

  lemma AllocatedIn(c: Tree)
    ensures forall o :: o in ObjectsIn(c) ==> allocated(o)
    decreases c
  {
    forall k | k in c.entries ensures forall o :: o in Objects(c.entries[k]) ==> allocated(o) {
      Allocated(c.entries[k]);
    }
  }

  lemma Allocated(p: Package<Handle>)
    ensures forall o :: o in Objects(p) ==> allocated(o)
    decreases p
  {
    if p.dependencies.Some? { AllocatedIn(p.dependencies.value); }
  }

  twostate predicate Unchanged(p: Package<Handle>)
    reads Objects(p)
  {
    forall o :: o in Objects(p) ==> old(allocated(o)) && unchanged(o)
  }

  /** Entries of `c` of which no object changed still are what the abstract tree says. */
  twostate lemma StillHold(c: Tree)
    ensures forall k :: k in c.entries && Unchanged(c.entries[k]) ==>
              PackageHolds(c.entries[k]) == old(PackageHolds(c.entries[k]))
  {
  }

  lemma UpdatedHolds(r: Record, c: Tree, n: string, p: Package<Handle>)
    requires Lists(r, c) && n in c.entries && p.meta.pkg == c.entries[n].meta.pkg && PackageHolds(p)
    requires forall k :: k in c.entries && k != n ==> PackageHolds(c.entries[k])
    ensures Holds(r, Update(c, n, p))
  {
    hide PackageHolds, Objects, ObjectsIn;
  }

  lemma TakenOutHolds(r: Record, c: Tree, n: string, d: string)
    requires Lists(r, c) && Child(c, n, d) && AllHold(TakenOut(c, n, d))
    ensures Holds(r, TakenOut(c, n, d))
  {
    hide PackageHolds, Objects, ObjectsIn, WellFormed;
  }

  lemma MovedHolds(r: Record, c: Tree, n: string, d: string)
    requires Child(c, n, d) && d !in c.entries
    requires AllHold(TakenOut(c, n, d)) && PackageHolds(c.entries[n].dependencies.value.entries[d])
    requires r.order == c.order + [d] && r.entries.Keys == c.entries.Keys + {d}
    requires forall k :: k in c.entries ==> r.entries[k] == c.entries[k].meta.pkg
    requires r.entries[d] == c.entries[n].dependencies.value.entries[d].meta.pkg
    ensures Holds(r, Moved(c, n, d))
  {
    hide PackageHolds, Objects, ObjectsIn, WellFormed;
  }

  lemma DeletedHolds(r: Record, siblings: Tree, d: string)
    requires AllHold(siblings) && r.order == Without(siblings.order, d) && r.entries.Keys == siblings.entries.Keys - {d}
    requires forall k :: k in siblings.entries && k != d ==> r.entries[k] == siblings.entries[k].meta.pkg
    ensures Holds(r, Delete(siblings, d))
  {
    hide PackageHolds, Objects, ObjectsIn;
  }

  lemma TakenOutAllHold(c: Tree, n: string, d: string)
    requires Child(c, n, d) && FieldsHold(c.entries[n])
    requires forall k :: k in c.entries && k != n ==> PackageHolds(c.entries[k])
    requires var p := c.entries[n];
             p.meta.record != null && p.meta.pkg.dependencies == p.meta.record
               && Holds(p.meta.record, Delete(p.dependencies.value, d))
    ensures AllHold(TakenOut(c, n, d))
  {
    var less := c.entries[n].(dependencies := Some(Delete(c.entries[n].dependencies.value, d)));
    assert PackageHolds(less);
    hide PackageHolds, Objects, ObjectsIn, Holds;
  }

  /** `parent`, the package under `n`, loses the child `depName`, which itself is not touched. */
  method DeleteChild(parent: PackageLockPackage, depName: string, ghost r: Record, ghost c: Tree, ghost n: string)
    requires Owned(r, c) && AllHold(c) && Child(c, n, depName) && c.entries[n].meta.pkg == parent
    modifies parent.dependencies
    ensures AllHold(TakenOut(c, n, depName))
    ensures PackageHolds(c.entries[n].dependencies.value.entries[depName])
  {
    Inside(r, c, n);
    ghost var siblings := c.entries[n].dependencies.value;
    AllocatedIn(c);
    hide WellFormed, WellFormedPackage, ApartIn, Apart, PackageHolds;
    parent.dependencies.Remove(depName);
    forall k | k in c.entries && k != n ensures Unchanged(c.entries[k]) {
      assert Objects(c.entries[k]) <= ObjectsIn(c) && Objects(c.entries[k]) !! Objects(c.entries[n]);
    }
    forall k | k in siblings.entries ensures Unchanged(siblings.entries[k]) {
      assert Objects(siblings.entries[k]) <= ObjectsIn(siblings) <= ObjectsIn(c);
    }
    StillHold(c);
    StillHold(siblings);
    hide Objects, ObjectsIn;
    DeletedHolds(parent.dependencies, siblings, depName);
    TakenOutAllHold(c, n, depName);
  }

  /** The child `depName` moves from `parent.dependencies` into `parentContainer`. */
  method MoveChild(parent: PackageLockPackage, parentContainer: Record, depName: string,
                   depPackage: PackageLockPackage, ghost c: Tree, ghost n: string)
    requires Owned(parentContainer, c) && Holds(parentContainer, c) && AllHold(c) && Child(c, n, depName)
    requires depName !in c.entries && c.entries[n].meta.pkg == parent
    requires c.entries[n].dependencies.value.entries[depName].meta.pkg == depPackage
    modifies parentContainer, parent.dependencies
    ensures Holds(parentContainer, Moved(c, n, depName))
  {
    hide WellFormed, WellFormedPackage, ApartIn, Apart, Objects, ObjectsIn, PackageHolds;
    AllocatedIn(c);
    Inside(parentContainer, c, n);
    parentContainer.Add(depName, depPackage);
    forall k | k in c.entries ensures Unchanged(c.entries[k]) {
      assert Objects(c.entries[k]) <= ObjectsIn(c);
    }
    StillHold(c);
    DeleteChild(parent, depName, parentContainer, c, n);
    MovedHolds(parentContainer, c, n, depName);
  }

  lemma PushOneCases(c: Tree, n: string, d: string, snapshot: Tree, s: Step<Handle>)
    requires Pending(c, n, [d], snapshot) && s == PushOne(c, n, d, snapshot)
    ensures Child(c, n, d) && d in snapshot.entries && c.entries[n].dependencies.value.entries[d] == snapshot.entries[d]
    ensures d !in c.entries ==>
            WellFormed(Moved(c, n, d)) && s == Step(MoveChildrenUp(Moved(c, n, d), d).container, true)
    ensures d in c.entries && c.entries[d].version == c.entries[n].dependencies.value.entries[d].version ==>
              s == Step(TakenOut(c, n, d), true)
    ensures d in c.entries && c.entries[d].version != c.entries[n].dependencies.value.entries[d].version ==>
              && WellFormed(c.entries[n].dependencies.value)
              && var r := MoveChildrenUp(c.entries[n].dependencies.value, d);
              s == Step(Update(c, n, c.entries[n].(dependencies := Some(r.container))), r.changed)
  {
    PendingChild(c, n, d, snapshot);
  }

  lemma SameMeta(c: Tree, r: Tree, n: string)
    requires Grows(c, r, n) && n in c.entries
    ensures WellFormed(r)
    ensures forall k :: k in c.entries ==> k in r.entries && r.entries[k].meta == c.entries[k].meta
  {
  }

  /** A record that holds the tree `c` ends up holding the hoisted tree, without any new object. */
  method HoistDependencies(packageLockDeps: Record, ghost c: Tree)
    requires Owned(packageLockDeps, c) && Holds(packageLockDeps, c)
    modifies packageLockDeps, ObjectsIn(c)
    ensures Owned(packageLockDeps, Hoist(c)) && Holds(packageLockDeps, Hoist(c))
    ensures old(packageLockDeps.order) <= packageLockDeps.order
  {
    HoistInOrder(c);
    ghost var cur := c;
    var didChange := true;
    while didChange
      invariant Owned(packageLockDeps, cur) && Holds(packageLockDeps, cur) && ObjectsIn(cur) <= ObjectsIn(c)
      invariant if didChange then Hoist(cur) == Hoist(c) else cur == Hoist(c)
      decreases LoadAll(cur), didChange
    {
      SimplifyEachLoad(cur, cur.order);
      SimplifyEachApart(cur, cur.order);
      didChange := SimplifyInPlace(packageLockDeps, cur);
      cur := Simplify(cur).container;
    }
  }

  lemma SimplifyEachApart(c: Tree, names: seq<string>)
    requires WellFormed(c) && ApartIn(c) && forall k :: k in names ==> k in c.entries
    ensures StaysApart(c, SimplifyEach(c, names).container)
    decreases |names|
  {
    if names != [] {
      MoveChildrenUpApart(c, names[0]);
      SimplifyEachApart(MoveChildrenUp(c, names[0]).container, names[1..]);
    }
  }

  /** Where a pass over the names of `c` is after the first `i`: the tree is `cur` by now. */
  ghost predicate SimplifiedUpTo(c: Tree, i: nat, cur: Tree, didChange: bool) {
    && WellFormed(c) && WellFormed(cur) && ApartIn(cur) && ObjectsIn(cur) <= ObjectsIn(c) && i <= |c.order|
    && (forall k :: k in c.order ==> k in c.entries && k in cur.entries && cur.entries[k].meta == c.entries[k].meta)
    && var rest := SimplifyEach(cur, c.order[i..]);
       Simplify(c) == Step(rest.container, didChange || rest.changed)
  }

  lemma SimplifiedStarts(c: Tree)
    requires WellFormed(c) && ApartIn(c)
    ensures SimplifiedUpTo(c, 0, c, false)
  {
    assert c.order[0..] == c.order;
  }

  lemma SimplifiedNext(c: Tree, i: nat, cur: Tree, didChange: bool)
    requires SimplifiedUpTo(c, i, cur, didChange) && i < |c.order|
    ensures c.order[i] in cur.entries && WellFormed(cur)
    ensures var s := MoveChildrenUp(cur, c.order[i]);
      && SimplifiedUpTo(c, i + 1, s.container, didChange || s.changed)
      && WellFormed(s.container) && ApartIn(s.container) && ObjectsIn(s.container) <= ObjectsIn(cur)
      && ObjectsIn(s.container) <= ObjectsIn(c)
  {
    var n := c.order[i];
    RestOf(c, i, cur, didChange);
    SimplifyEachFirst(cur, c.order[i..]);
    MoveChildrenUpApart(cur, n);
    SameMeta(cur, MoveChildrenUp(cur, n).container, n);
    hide *;
    SimplifiedTo(c, i + 1, MoveChildrenUp(cur, n).container, didChange || MoveChildrenUp(cur, n).changed);
  }

  lemma RestOf(c: Tree, i: nat, cur: Tree, didChange: bool)
    requires SimplifiedUpTo(c, i, cur, didChange) && i < |c.order|
    ensures c.order[i] in c.order && c.order[i..][0] == c.order[i] && c.order[i..][1..] == c.order[i + 1..]
    ensures WellFormed(cur) && ApartIn(cur) && forall k :: k in c.order[i..] ==> k in cur.entries
  {
    assert forall k :: k in c.order[i..] ==> k in c.order;
    hide WellFormed, ApartIn, SimplifyEach;
  }

  lemma SimplifiedTo(c: Tree, i: nat, cur: Tree, didChange: bool)
    requires WellFormed(c) && WellFormed(cur) && ApartIn(cur) && ObjectsIn(cur) <= ObjectsIn(c) && i <= |c.order|
    requires forall k :: k in c.order ==> k in c.entries && k in cur.entries && cur.entries[k].meta == c.entries[k].meta
    requires forall k :: k in c.order[i..] ==> k in cur.entries
    requires var rest := SimplifyEach(cur, c.order[i..]); Simplify(c) == Step(rest.container, didChange || rest.changed)
    ensures SimplifiedUpTo(c, i, cur, didChange)
  {
  }

  lemma SimplifyEachFirst(c: Tree, names: seq<string>)
    requires WellFormed(c) && names != [] && forall k :: k in names ==> k in c.entries
    ensures var first := MoveChildrenUp(c, names[0]);
      && WellFormed(first.container) && (forall k :: k in names[1..] ==> k in first.container.entries)
      && var rest := SimplifyEach(first.container, names[1..]);
         SimplifyEach(c, names) == Step(rest.container, first.changed || rest.changed)
  {
    hide MoveChildrenUp;
  }

  lemma SimplifiedEnds(c: Tree, cur: Tree, didChange: bool)
    requires SimplifiedUpTo(c, |c.order|, cur, didChange)
    ensures Simplify(c) == Step(cur, didChange)
  {
    assert c.order[|c.order|..] == [];
  }

  lemma SimplifiedMeta(c: Tree, i: nat, cur: Tree, didChange: bool, k: string)
    requires SimplifiedUpTo(c, i, cur, didChange) && k in c.order
    ensures k in c.entries && k in cur.entries && cur.entries[k].meta == c.entries[k].meta
  {
  }

  /** One turn of the pass, for the package called `name`. */
  method SimplifyOne(package: PackageLockPackage, dependencies: Record, ghost name: string, changedSoFar: bool,
                     ghost c: Tree, ghost i: nat, ghost cur: Tree) returns (didChange: bool, ghost next: Tree)
    requires Owned(dependencies, cur) && Holds(dependencies, cur)
    requires SimplifiedUpTo(c, i, cur, changedSoFar) && i < |c.order| && c.order[i] == name
    requires name in cur.entries && cur.entries[name].meta.pkg == package
    modifies dependencies, ObjectsIn(cur)
    ensures Owned(dependencies, next) && Holds(dependencies, next) && ObjectsIn(next) <= ObjectsIn(c)
    ensures SimplifiedUpTo(c, i + 1, next, didChange)
  {
    hide *;
    SimplifiedNext(c, i, cur, changedSoFar);
    OwnedNext(dependencies, cur, MoveChildrenUp(cur, name).container);
    var changed := MoveUpInPlace(package, dependencies, cur, name);
    didChange := changedSoFar || changed;
    next := MoveChildrenUp(cur, name).container;
  }

  lemma OwnedNext(r: Record, cur: Tree, next: Tree)
    requires Owned(r, cur) && WellFormed(next) && ApartIn(next) && ObjectsIn(next) <= ObjectsIn(cur)
    ensures Owned(r, next)
  {
  }

  lemma OrderHeld(r: Record, c: Tree)
    requires Owned(r, c) && Holds(r, c)
    ensures r.order == c.order
    ensures forall k :: k in c.order ==> k in r.entries && k in c.entries && r.entries[k] == c.entries[k].meta.pkg
  {
  }

  /** One pass over the root packages as they are when it starts. */
  method SimplifyInPlace(dependencies: Record, ghost c: Tree) returns (didChange: bool)
    requires Owned(dependencies, c) && Holds(dependencies, c)
    modifies dependencies, ObjectsIn(c)
    ensures Holds(dependencies, Simplify(c).container) && didChange == Simplify(c).changed
  {
    OrderHeld(dependencies, c);
    OwnedParts(dependencies, c);
    hide *;
    var names, packages := dependencies.order, dependencies.entries;
    ghost var cur := c;
    didChange := false;
    SimplifiedStarts(c);
    var i := 0;
    while i < |names|
      invariant 0 <= i <= |names| && Owned(dependencies, cur) && Holds(dependencies, cur)
                && ObjectsIn(cur) <= ObjectsIn(c)
      invariant SimplifiedUpTo(c, i, cur, didChange)
    {
      SimplifiedMeta(c, i, cur, didChange, names[i]);
      didChange, cur := SimplifyOne(packages[names[i]], dependencies, names[i], didChange, c, i, cur);
      i := i + 1;
    }
    SimplifiedEnds(c, cur, didChange);
  }

  lemma OwnedParts(r: Record, c: Tree)
    requires Owned(r, c)
    ensures WellFormed(c) && ApartIn(c)
  {
  }

  /** What `parent`, the package under `n`, holds is pushed into the record it lives in, and a
      record that is left empty is dropped. */
  method MoveUpInPlace(parent: PackageLockPackage, parentContainer: Record, ghost c: Tree, ghost n: string)
    returns (didChange: bool)
    requires Owned(parentContainer, c) && Holds(parentContainer, c)
    requires n in c.entries && c.entries[n].meta.pkg == parent
    modifies parentContainer, ObjectsIn(c)
    ensures Holds(parentContainer, MoveChildrenUp(c, n).container) && didChange == MoveChildrenUp(c, n).changed
    decreases c.entries[n], 1
  {
    didChange := false;
    Inside(parentContainer, c, n);
    if parent.dependencies == null { return; }
    ghost var snapshot := c.entries[n].dependencies.value;
    MoveChildrenUpSteps(c, n, snapshot);
    PushEachApart(c, n, snapshot.order, snapshot);
    hide WellFormed, WellFormedPackage, ApartIn, Apart, Objects, ObjectsIn, PackageHolds, MoveChildrenUp, PushEach;
    didChange := PushAllInPlace(parent, parentContainer, c, n, snapshot);
    ghost var pushed := PushEach(c, n, snapshot.order, snapshot).container;
    var cleaned := Cleanup(parent, parentContainer, pushed, n);
    didChange := didChange || cleaned;
  }

  /** Where the loop over the snapshot is after the first `i` children: the tree is `cur` by now. */
  ghost predicate PushedUpTo(c: Tree, n: string, snapshot: Tree, i: nat, cur: Tree, didChange: bool) {
    && Pending(c, n, snapshot.order, snapshot) && i <= |snapshot.order|
    && Pending(cur, n, snapshot.order[i..], snapshot)
    && ApartIn(cur) && ObjectsIn(cur) <= ObjectsIn(c) && cur.entries[n].meta == c.entries[n].meta
    && var rest := PushEach(cur, n, snapshot.order[i..], snapshot);
       PushEach(c, n, snapshot.order, snapshot) == Step(rest.container, didChange || rest.changed)
  }

  lemma PushedStarts(c: Tree, n: string, snapshot: Tree)
    requires Pending(c, n, snapshot.order, snapshot) && ApartIn(c)
    ensures PushedUpTo(c, n, snapshot, 0, c, false)
  {
    assert snapshot.order[0..] == snapshot.order;
  }

  lemma PushedNext(c: Tree, n: string, snapshot: Tree, i: nat, cur: Tree, didChange: bool)
    requires PushedUpTo(c, n, snapshot, i, cur, didChange) && i < |snapshot.order|
    ensures Pending(cur, n, [snapshot.order[i]], snapshot) && n in c.entries && n in cur.entries
    ensures cur.entries[n].meta == c.entries[n].meta && snapshot.order[i] in snapshot.entries
    ensures var s := PushOne(cur, n, snapshot.order[i], snapshot);
      && PushedUpTo(c, n, snapshot, i + 1, s.container, didChange || s.changed)
      && WellFormed(s.container) && ApartIn(s.container) && ObjectsIn(s.container) <= ObjectsIn(cur)
      && ObjectsIn(s.container) <= ObjectsIn(c)
  {
    var names := snapshot.order;
    assert names[i..][0] == names[i] && names[i..][1..] == names[i + 1..];
    PushEachFirst(cur, n, names[i..], snapshot);
    PushOneApart(cur, n, names[i], snapshot);
    PendingChild(cur, n, names[i], snapshot);
    hide ApartIn, ObjectsIn, PushOne, PushEach;
  }

  lemma PushedEnds(c: Tree, n: string, snapshot: Tree, cur: Tree, didChange: bool)
    requires PushedUpTo(c, n, snapshot, |snapshot.order|, cur, didChange)
    ensures PushEach(c, n, snapshot.order, snapshot) == Step(cur, didChange)
    ensures n in c.entries && n in cur.entries && cur.entries[n].meta == c.entries[n].meta
  {
    assert snapshot.order[|snapshot.order|..] == [];
    PushEachDone(cur, n, snapshot);
  }

  lemma SnapshotHeld(r: Record, c: Tree, n: string, snapshot: Tree)
    requires Owned(r, c) && Holds(r, c) && Pending(c, n, snapshot.order, snapshot)
             && c.entries[n].dependencies == Some(snapshot)
    ensures n in c.entries && WellFormed(c) && ApartIn(c) && c.entries[n].meta.pkg.dependencies != null
    ensures var d := c.entries[n].meta.pkg.dependencies;
      && d.order == snapshot.order
      && forall k ::
           k in snapshot.order ==>
           k in d.entries && k in snapshot.entries && d.entries[k] == snapshot.entries[k].meta.pkg
  {
    Inside(r, c, n);
    OrderHeld(c.entries[n].meta.record, snapshot);
    OwnedParts(r, c);
  }

  /** The loop over the children that `parent` has when it starts. */
  method PushAllInPlace(parent: PackageLockPackage, parentContainer: Record, ghost c: Tree, ghost n: string,
                        ghost snapshot: Tree)
      returns (didChange: bool)
    requires Owned(parentContainer, c) && Holds(parentContainer, c)
    requires Pending(c, n, snapshot.order, snapshot) && c.entries[n].meta.pkg == parent
             && c.entries[n].dependencies == Some(snapshot)
    modifies parentContainer, ObjectsIn(c)
    ensures var s := PushEach(c, n, snapshot.order, snapshot);
            Holds(parentContainer, s.container) && s.container.entries[n].meta == c.entries[n].meta
              && didChange == s.changed
    decreases snapshot, 0, 2
  {
    hide *;
    SnapshotHeld(parentContainer, c, n, snapshot);
    var names, packages := parent.dependencies.order, parent.dependencies.entries;
    ghost var cur := c;
    didChange := false;
    PushedStarts(c, n, snapshot);
    var i := 0;
    while i < |names|
      invariant 0 <= i <= |names| && Owned(parentContainer, cur) && Holds(parentContainer, cur)
                && ObjectsIn(cur) <= ObjectsIn(c)
      invariant PushedUpTo(c, n, snapshot, i, cur, didChange)
    {
      didChange,
          cur := PushTurn(parent, parentContainer, names[i], packages[names[i]], didChange, c, n, snapshot, i, cur);
      i := i + 1;
    }
    PushedEnds(c, n, snapshot, cur, didChange);
  }

  /** One turn of that loop, when the tree has become `cur`. */
  method PushTurn(parent: PackageLockPackage, parentContainer: Record, depName: string,
                  depPackage: PackageLockPackage, changedSoFar: bool, ghost c: Tree, ghost n: string,
                  ghost snapshot: Tree, ghost i: nat, ghost cur: Tree)
      returns (didChange: bool, ghost next: Tree)
    requires Owned(parentContainer, cur) && Holds(parentContainer, cur)
    requires PushedUpTo(c, n, snapshot, i, cur, changedSoFar) && i < |snapshot.order| && snapshot.order[i] == depName
    requires n in c.entries && c.entries[n].meta.pkg == parent
    requires depName in snapshot.entries && snapshot.entries[depName].meta.pkg == depPackage
    modifies parentContainer, ObjectsIn(cur)
    ensures Owned(parentContainer, next) && Holds(parentContainer, next) && ObjectsIn(next) <= ObjectsIn(c)
    ensures PushedUpTo(c, n, snapshot, i + 1, next, didChange)
    decreases snapshot, 0, 1
  {
    hide *;
    PushedNext(c, n, snapshot, i, cur, changedSoFar);
    OwnedNext(parentContainer, cur, PushOne(cur, n, depName, snapshot).container);
    var changed := PushInPlace(parent, parentContainer, depName, depPackage, cur, n, snapshot);
    didChange := changedSoFar || changed;
    next := PushOne(cur, n, depName, snapshot).container;
  }

  /** One turn of the loop, for the child `depPackage` called `depName`. */
  method PushInPlace(parent: PackageLockPackage, parentContainer: Record, depName: string,
                     depPackage: PackageLockPackage, ghost c: Tree, ghost n: string, ghost snapshot: Tree)
    returns (didChange: bool)
    requires Owned(parentContainer, c) && Holds(parentContainer, c)
    requires Pending(c, n, [depName], snapshot) && c.entries[n].meta.pkg == parent
    requires depName in snapshot.entries && snapshot.entries[depName].meta.pkg == depPackage
    modifies parentContainer, ObjectsIn(c)
    ensures Holds(parentContainer, PushOne(c, n, depName, snapshot).container)
    ensures didChange == PushOne(c, n, depName, snapshot).changed
    decreases snapshot, 0, 0
  {
    PushOneCases(c, n, depName, snapshot, PushOne(c, n, depName, snapshot));
    VersionsHold(parentContainer, c, n, depName);
    hide WellFormed, WellFormedPackage, ApartIn, Apart, Objects, ObjectsIn, PackageHolds, MoveChildrenUp, PushOne,
         Pending;
    if depName !in parentContainer.entries {
      PushMoved(parent, parentContainer, depName, depPackage, c, n);
      didChange := true;
    } else if parentContainer.entries[depName].version == depPackage.version {
      DeleteChild(parent, depName, parentContainer, c, n);
      TakenOutHolds(parentContainer, c, n, depName);
      didChange := true;
    } else {
      didChange := PushInside(parent, depName, depPackage, parentContainer, c, n);
    }
  }

  lemma VersionsHold(r: Record, c: Tree, n: string, d: string)
    requires Owned(r, c) && Holds(r, c) && Child(c, n, d)
    ensures var p := c.entries[n];
            && p.meta.record != null && p.meta.pkg.dependencies == p.meta.record && p.meta.record in ObjectsIn(c)
            && ObjectsIn(p.dependencies.value) <= ObjectsIn(c)
            && p.dependencies.value.entries[d].meta.pkg.version == p.dependencies.value.entries[d].version
    ensures d in c.entries ==> r.entries[d].version == c.entries[d].version
  {
    Inside(r, c, n);
    Inside(c.entries[n].meta.record, c.entries[n].dependencies.value, d);
    if d in c.entries { Inside(r, c, d); }
  }

  /** `depPackage` is new to `parentContainer`, so it moves there and pushes its own children. */
  method PushMoved(parent: PackageLockPackage, parentContainer: Record, depName: string,
                   depPackage: PackageLockPackage, ghost c: Tree, ghost n: string)
    requires Owned(parentContainer, c) && Holds(parentContainer, c) && Child(c, n, depName) && depName !in c.entries
    requires WellFormed(Moved(c, n, depName)) && c.entries[n].meta.pkg == parent
    requires c.entries[n].dependencies.value.entries[depName].meta.pkg == depPackage
    modifies parentContainer, ObjectsIn(c)
    ensures Holds(parentContainer, MoveChildrenUp(Moved(c, n, depName), depName).container)
    decreases c.entries[n].dependencies.value.entries[depName], 2
  {
    Inside(parentContainer, c, n);
    MovedApart(c, n, depName);
    hide WellFormed, WellFormedPackage, ApartIn, Apart, Objects, ObjectsIn, PackageHolds, MoveChildrenUp;
    MoveChild(parent, parentContainer, depName, depPackage, c, n);
    var _ := MoveUpInPlace(depPackage, parentContainer, Moved(c, n, depName), depName);
  }

  /** `depPackage` clashes, so it stays, and its children move into `parent.dependencies`. */
  method PushInside(parent: PackageLockPackage, depName: string, depPackage: PackageLockPackage, ghost r: Record,
                    ghost c: Tree, ghost n: string) returns (didChange: bool)
    requires Owned(r, c) && Holds(r, c)
    requires Child(c, n, depName) && c.entries[n].meta.pkg == parent && WellFormed(c.entries[n].dependencies.value)
    requires c.entries[n].dependencies.value.entries[depName].meta.pkg == depPackage
    modifies parent.dependencies, ObjectsIn(c.entries[n].dependencies.value)
    ensures var s := MoveChildrenUp(c.entries[n].dependencies.value, depName);
            && Holds(r, Update(c, n, c.entries[n].(dependencies := Some(s.container))))
            && didChange == s.changed
    decreases c.entries[n].dependencies.value.entries[depName], 2
  {
    Inside(r, c, n);
    AllocatedIn(c);
    hide MoveChildrenUp, WellFormed, WellFormedPackage, ApartIn, Apart, Objects, ObjectsIn, PackageHolds;
    ghost var p := c.entries[n];
    ghost var siblings := p.dependencies.value;
    didChange := MoveUpInPlace(depPackage, parent.dependencies, siblings, depName);
    ghost var r' := MoveChildrenUp(siblings, depName).container;
    forall k | k in c.entries && k != n ensures Unchanged(c.entries[k]) {
      assert Objects(c.entries[k]) <= ObjectsIn(c) && Objects(c.entries[k]) !! Objects(c.entries[n]);
    }
    StillHold(c);
    HeldWith(p, r');
    UpdatedHolds(r, c, n, p.(dependencies := Some(r')));
  }

  lemma HeldWith(p: Package<Handle>, c: Tree)
    requires FieldsHold(p) && p.meta.record != null && p.meta.pkg.dependencies == p.meta.record
             && Holds(p.meta.record, c)
    ensures PackageHolds(p.(dependencies := Some(c)))
  {
  }

  /** `parent` gives up a record that nothing is left in. */
  method Cleanup(parent: PackageLockPackage, ghost r: Record, ghost c: Tree, ghost n: string) returns (didChange: bool)
    requires Owned(r, c) && Holds(r, c)
    requires n in c.entries && c.entries[n].meta.pkg == parent && c.entries[n].dependencies.Some?
    modifies parent
    ensures didChange == (c.entries[n].dependencies.value.entries == map[])
    ensures Holds(r, if didChange then Update(c, n, c.entries[n].(dependencies := None)) else c)
  {
    Inside(r, c, n);
    AllocatedIn(c);
    didChange := parent.dependencies.entries == map[];
    if didChange {
      parent.dependencies := null;
      assert PackageHolds(c.entries[n].(dependencies := None));
      hide WellFormed, WellFormedPackage, ApartIn, Apart, Objects, ObjectsIn, PackageHolds;
      forall k | k in c.entries && k != n ensures Unchanged(c.entries[k]) {
        assert Objects(c.entries[k]) <= ObjectsIn(c) && Objects(c.entries[k]) !! Objects(c.entries[n]);
      }
      StillHold(c);
      UpdatedHolds(r, c, n, c.entries[n].(dependencies := None));
    }
  }
}
