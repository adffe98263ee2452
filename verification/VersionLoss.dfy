/** A family of runs that change the version a package finds. */
module VersionLoss {
  import opened Options
  import opened PackageTree
  import opened Hoisting
  import opened Lookups
  import opened NormalForm
  import opened Resolution

  function Leaf(meta: int, version: string): Package<int> {
    Package(version, {}, meta, None)
  }

  /** Package `b` at version `w`, which requires `d`, with the given `dependencies`. */
  function Nested(d: string, w: string, dependencies: Option<Container<int>>): Package<int> {
    Package(w, {d}, 3, dependencies)
  }

  /** Package `a`, which requires `d` and `b`. */
  function Outer(b: string, d: string, v: string, dependencies: Container<int>): Package<int> {
    Package(v, {d, b}, 1, Some(dependencies))
  }

  function OnlyD(d: string, w: string): Container<int> {
    Container([d], map[d := Leaf(4, w)])
  }

  function OnlyB(b: string, d: string, w: string): Container<int> {
    Container([b], map[b := Nested(d, w, Some(OnlyD(d, w)))])
  }

  function DThenB(b: string, d: string, v: string, w: string): Container<int> {
    Container([d, b], map[d := Leaf(2, v), b := Nested(d, w, Some(OnlyD(d, w)))])
  }

  function Refilled(b: string, d: string, w: string): Container<int> {
    Container([b, d], map[b := Nested(d, w, None), d := Leaf(4, w)])
  }

  /** The root: `a` with the given `dependencies`, then `b` and `d` at version `v`. */
  function Root(a: string, b: string, d: string, v: string, dependencies: Container<int>): Container<int> {
    Container([a, b, d], map[a := Outer(b, d, v, dependencies), b := Leaf(5, v), d := Leaf(6, v)])
  }

  ghost predicate Distinct(a: string, b: string, d: string, v: string, w: string) {
    a != b && b != d && d != a && v != w
  }

  lemma TreesWellFormed(a: string, b: string, d: string, v: string, w: string)
    requires Distinct(a, b, d, v, w)
    ensures WellFormed(OnlyD(d, w)) && WellFormed(OnlyB(b, d, w)) && WellFormed(DThenB(b, d, v, w))
    ensures WellFormed(Refilled(b, d, w))
  {
    assert NoDuplicates([d]) by { assert [d][1..] == []; }
    assert WellFormed(OnlyD(d, w)) by {
      assert OnlyD(d, w).entries[d] == Leaf(4, w);
    }
    assert WellFormedPackage(Nested(d, w, Some(OnlyD(d, w))));
    assert NoDuplicates([b, d]) by { assert [b, d][1..] == [d]; }
    assert NoDuplicates([d, b]) by { assert [d, b][1..] == [b]; }
  }

  lemma RootWellFormed(a: string, b: string, d: string, v: string, w: string, dependencies: Container<int>)
    requires Distinct(a, b, d, v, w) && WellFormed(dependencies)
    ensures WellFormed(Root(a, b, d, v, dependencies))
  {
    assert NoDuplicates([a, b, d]) by {
      assert [a, b, d][1..] == [b, d];
      assert NoDuplicates([b, d]) by { assert [b, d][1..] == [d]; }
    }
    assert WellFormedPackage(Outer(b, d, v, dependencies));
  }

  /** With d's slot empty, the nested d@w moves next to b@w. */
  lemma RefillsSlot(b: string, d: string, v: string, w: string)
    requires b != d
    requires WellFormed(OnlyB(b, d, w)) && WellFormed(OnlyD(d, w))
    ensures MoveChildrenUp(OnlyB(b, d, w), b) == Step(Refilled(b, d, w), true)
  {
    var c := OnlyB(b, d, w);
    var snapshot := OnlyD(d, w);
    assert c.entries[b].dependencies == Some(snapshot);
    assert Pending(c, b, [d], snapshot);
    var emptied := Container([], map[]);
    assert Delete(snapshot, d) == emptied;
    var moved := Container([b, d], map[b := Nested(d, w, Some(emptied)), d := Leaf(4, w)]);
    assert Append(Update(c, b, Nested(d, w, Some(emptied))), d, Leaf(4, w)) == moved;
    assert PushOne(c, b, d, snapshot) == Step(moved, true);
    assert [d][1..] == [];
    assert PushEach(c, b, [d], snapshot) == Step(moved, true);
    assert Update(moved, b, Nested(d, w, None)) == Refilled(b, d, w);
  }

  /** a's d@v goes as a duplicate of the root's. */
  lemma DropsDuplicate(a: string, b: string, d: string, v: string, w: string, c: Container<int>, start: Container<int>)
    requires Distinct(a, b, d, v, w)
    requires c == Root(a, b, d, v, start) && start == DThenB(b, d, v, w)
    requires Pending(c, a, [d], start)
    ensures PushOne(c, a, d, start) == Step(Root(a, b, d, v, OnlyB(b, d, w)), true)
  {
    RootUpdate(a, b, d, v, start, OnlyB(b, d, w));
    assert Delete(start, d) == OnlyB(b, d, w) by {
      assert [d, b][1..] == [b];
      assert start.entries - {d} == OnlyB(b, d, w).entries;
    }
    DuplicateStep(c, a, d, start, Root(a, b, d, v, OnlyB(b, d, w)));
  }

  lemma DuplicateStep<M>(c: Container<M>, n: string, d: string, snapshot: Container<M>, after: Container<M>)
    requires Pending(c, n, [d], snapshot)
    requires d in c.entries && d in snapshot.entries && c.entries[d].version == snapshot.entries[d].version
    requires after == TakenOut(c, n, d)
    ensures PushOne(c, n, d, snapshot) == Step(after, true)
  {
    PendingChild(c, n, d, snapshot);
  }

  lemma ConflictStep<M>(c: Container<M>, n: string, d: string, snapshot: Container<M>, siblings: Container<M>,
                        r: Container<M>, after: Container<M>)
    requires Pending(c, n, [d], snapshot)
    requires d in c.entries && d in snapshot.entries && c.entries[d].version != snapshot.entries[d].version
    requires c.entries[n].dependencies == Some(siblings) && WellFormed(siblings) && d in siblings.entries
    requires MoveChildrenUp(siblings, d) == Step(r, true)
    requires after == Update(c, n, c.entries[n].(dependencies := Some(r)))
    ensures PushOne(c, n, d, snapshot) == Step(after, true)
  {
  }

  lemma RootUpdate(a: string, b: string, d: string, v: string, x: Container<int>, y: Container<int>)
    requires a != b && b != d && d != a
    ensures var c := Root(a, b, d, v, x);
            && a in c.entries && c.entries[a] == Outer(b, d, v, x)
            && b in c.entries && c.entries[b].version == v && d in c.entries && c.entries[d].version == v
            && Update(c, a, c.entries[a].(dependencies := Some(y))) == Root(a, b, d, v, y)
  {
  }

  /** b@w stays, and its d@w takes the slot. */
  lemma KeepsConflict(a: string, b: string, d: string, v: string, w: string, c: Container<int>, start: Container<int>)
    requires Distinct(a, b, d, v, w)
    requires c == Root(a, b, d, v, OnlyB(b, d, w)) && start == DThenB(b, d, v, w)
    requires Pending(c, a, [b], start)
    requires WellFormed(OnlyB(b, d, w)) && WellFormed(OnlyD(d, w))
    ensures PushOne(c, a, b, start) == Step(Root(a, b, d, v, Refilled(b, d, w)), true)
  {
    RootUpdate(a, b, d, v, OnlyB(b, d, w), Refilled(b, d, w));
    RefillsSlot(b, d, v, w);
    ConflictStep(c, a, b, start, OnlyB(b, d, w), Refilled(b, d, w), Root(a, b, d, v, Refilled(b, d, w)));
  }

  lemma ReplacesVersion(a: string, b: string, d: string, v: string, w: string)
    requires Distinct(a, b, d, v, w)
    requires WellFormed(Root(a, b, d, v, DThenB(b, d, v, w)))
    ensures MoveChildrenUp(Root(a, b, d, v, DThenB(b, d, v, w)), a) == Step(Root(a, b, d, v, Refilled(b, d, w)), true)
  {
    var start := DThenB(b, d, v, w);
    var c, c1, c2 := Root(a, b, d, v, start), Root(a, b, d, v, OnlyB(b, d, w)), Root(a, b, d, v, Refilled(b, d, w));
    RootPending(a, b, d, v, w);
    DropsDuplicate(a, b, d, v, w, c, start);
    KeepsConflict(a, b, d, v, w, c1, start);
    assert [d, b][1..] == [b] && [b][1..] == [];
    assert PushEach(c1, a, [b], start) == Step(c2, true);
    assert PushEach(c, a, [d, b], start) == Step(c2, true);
  }

  lemma RootPending(a: string, b: string, d: string, v: string, w: string)
    requires Distinct(a, b, d, v, w)
    ensures WellFormed(OnlyB(b, d, w)) && WellFormed(OnlyD(d, w))
    ensures Pending(Root(a, b, d, v, DThenB(b, d, v, w)), a, [d], DThenB(b, d, v, w))
    ensures Pending(Root(a, b, d, v, DThenB(b, d, v, w)), a, [d, b], DThenB(b, d, v, w))
    ensures Pending(Root(a, b, d, v, OnlyB(b, d, w)), a, [b], DThenB(b, d, v, w))
  {
    TreesWellFormed(a, b, d, v, w);
    RootWellFormed(a, b, d, v, w, OnlyB(b, d, w));
    RootWellFormed(a, b, d, v, w, DThenB(b, d, v, w));
    assert NoDuplicates([d, b]) by { assert [d, b][1..] == [b]; }
  }

  lemma RootNormal(a: string, b: string, d: string, v: string, w: string)
    requires Distinct(a, b, d, v, w)
    ensures Normal(Root(a, b, d, v, Refilled(b, d, w)))
  {
    var c := Root(a, b, d, v, Refilled(b, d, w));
    forall k | k in c.entries ensures Settled(c.entries[k], c) {
      if k == a {
        var inner := Refilled(b, d, w);
        assert b in inner.entries && inner.entries != map[];
        assert Stuck(b, inner, c) && Stuck(d, inner, c);
      }
    }
  }

  lemma HoistedRoot(a: string, b: string, d: string, v: string, w: string)
    requires Distinct(a, b, d, v, w)
    ensures WellFormed(Root(a, b, d, v, DThenB(b, d, v, w)))
    ensures Hoist(Root(a, b, d, v, DThenB(b, d, v, w))) == Root(a, b, d, v, Refilled(b, d, w))
  {
    TreesWellFormed(a, b, d, v, w);
    RootWellFormed(a, b, d, v, w, DThenB(b, d, v, w));
    RootWellFormed(a, b, d, v, w, Refilled(b, d, w));
    ReplacesVersion(a, b, d, v, w);
    var c, r := Root(a, b, d, v, DThenB(b, d, v, w)), Root(a, b, d, v, Refilled(b, d, w));
    assert SimplifyEach(r, [b, d]) == Step(r, false) by {
      assert [b, d][1..] == [d] && [d][1..] == [];
      assert SimplifyEach(r, [d]) == Step(r, false);
    }
    assert [a, b, d][1..] == [b, d];
    assert Simplify(c) == Step(r, true);
    RootNormal(a, b, d, v, w);
    HoistNormalizes(r);
  }

  /** Versions are not preserved in general: whatever the names and versions, a@v requires d and
      finds d@v in this tree, whose every require is resolvable, and finds d@w once it is hoisted. */
  lemma HoistLosesVersion(a: string, b: string, d: string, v: string, w: string)
    requires Distinct(a, b, d, v, w)
    ensures var c := Root(a, b, d, v, DThenB(b, d, v, w));
            && WellFormed(c) && AllResolvable(c, {})
            && (forall l :: l in AllLookups(c, map[]) && l.who == 1 && l.name == d ==> l.found == Some(v))
            && Lookup(1, d, Some(w)) in AllLookups(Hoist(c), map[])
            && !(AllLookups(Hoist(c), map[]) <= AllLookups(c, map[]))
  {
    HoistedRoot(a, b, d, v, w);
    var c, r := Root(a, b, d, v, DThenB(b, d, v, w)), Root(a, b, d, v, Refilled(b, d, w));
    var empty: Env := map[];
    AFindsOther(a, b, d, v, w);
    forall l | l in AllLookups(c, empty) && l.who == 1 && l.name == d ensures l.found == Some(v) {
      OnlyAFinds(a, b, d, v, w, l);
    }
    RootResolvable(a, b, d, v, w);
  }

  lemma AFindsOther(a: string, b: string, d: string, v: string, w: string)
    requires Distinct(a, b, d, v, w)
    ensures Lookup(1, d, Some(w)) in AllLookups(Root(a, b, d, v, Refilled(b, d, w)), map[])
  {
    var r := Root(a, b, d, v, Refilled(b, d, w));
    var empty: Env := map[];
    var env := empty + Versions(r);
    var p := Outer(b, d, v, Refilled(b, d, w));
    assert a in r.entries && r.entries[a] == p;
    assert d in p.needs && Find(Inside(p, env), d) == Some(w);
    assert Lookup(1, d, Some(w)) in LookupsOf(p, env);
  }

  lemma RootResolvable(a: string, b: string, d: string, v: string, w: string)
    requires Distinct(a, b, d, v, w)
    ensures AllResolvable(Root(a, b, d, v, DThenB(b, d, v, w)), {})
  {
    var c := Root(a, b, d, v, DThenB(b, d, v, w));
    var start := DThenB(b, d, v, w);
    var scope := {} + c.entries.Keys;
    assert b in c.entries && d in c.entries && b in scope && d in scope;
    assert Resolvable(Nested(d, w, Some(OnlyD(d, w))), scope + start.entries.Keys);
    assert AllResolvable(start, scope);
    assert c.entries[a] == Outer(b, d, v, start);
  }

  lemma OnlyAFinds(a: string, b: string, d: string, v: string, w: string, l: Lookup<int>)
    requires Distinct(a, b, d, v, w)
    requires l in AllLookups(Root(a, b, d, v, DThenB(b, d, v, w)), map[]) && l.who == 1 && l.name == d
    ensures l.found == Some(v)
  {
    var c := Root(a, b, d, v, DThenB(b, d, v, w));
    var empty: Env := map[];
    var env := empty + Versions(c);
    var k :| k in c.entries && l in LookupsOf(c.entries[k], env);
    if k == a {
      if l in AllLookups(DThenB(b, d, v, w), env) { NoneBelow(b, d, v, w, env, l); }
      assert c.entries[a] == Outer(b, d, v, DThenB(b, d, v, w));
      assert Find(Inside(c.entries[a], env), d) == Some(v);
    }
  }

  lemma NoneBelow(b: string, d: string, v: string, w: string, env: Env, l: Lookup<int>)
    requires b != d && l in AllLookups(DThenB(b, d, v, w), env)
    ensures l.who != 1
  {
    var inner := DThenB(b, d, v, w);
    var j :| j in inner.entries && l in LookupsOf(inner.entries[j], env + Versions(inner));
    assert LookupsOf(Leaf(2, v), env + Versions(inner)) == {};
    assert AllLookups(OnlyD(d, w), env + Versions(inner)) == {};
  }
}
