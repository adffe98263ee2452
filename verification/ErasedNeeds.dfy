/** Looking at the requires of some names only: hoisting does not care what packages require. */
module ErasedNeeds {
  import opened Options
  import opened PackageTree
  import opened Hoisting
  import opened Lookups

  /** The package, and those below it, with requires of names in `ks` only. */
  function Erased<M>(p: Package<M>, ks: set<string>): Package<M>
    decreases p
  {
    Package(p.version, p.needs * ks, p.meta,
            match p.dependencies case None => None case Some(c) => Some(ErasedAll(c, ks)))
  }

  function ErasedAll<M>(c: Container<M>, ks: set<string>): Container<M>
    decreases c
  {
    Container(c.order, map k | k in c.entries :: Erased(c.entries[k], ks))
  }

  lemma ErasedEntry<M>(c: Container<M>, ks: set<string>)
    ensures ErasedAll(c, ks).entries.Keys == c.entries.Keys && ErasedAll(c, ks).order == c.order
    ensures forall k :: k in c.entries ==> ErasedAll(c, ks).entries[k] == Erased(c.entries[k], ks)
  {
  }

  lemma {:induction false} ErasedWellFormed<M>(c: Container<M>, ks: set<string>)
    requires WellFormed(c)
    ensures WellFormed(ErasedAll(c, ks))
    decreases c
  {
    forall k | k in c.entries ensures WellFormedPackage(Erased(c.entries[k], ks)) {
      assert WellFormedPackage(c.entries[k]);
      if c.entries[k].dependencies.Some? { ErasedWellFormed(c.entries[k].dependencies.value, ks); }
    }
  }

  lemma ErasedUpdate<M>(c: Container<M>, n: string, p: Package<M>, ks: set<string>)
    ensures ErasedAll(Update(c, n, p), ks) == Update(ErasedAll(c, ks), n, Erased(p, ks))
  {
    assert ErasedAll(Update(c, n, p), ks).entries == Update(ErasedAll(c, ks), n, Erased(p, ks)).entries;
  }

  lemma ErasedDelete<M>(c: Container<M>, d: string, ks: set<string>)
    ensures ErasedAll(Delete(c, d), ks) == Delete(ErasedAll(c, ks), d)
  {
    assert ErasedAll(Delete(c, d), ks).entries == Delete(ErasedAll(c, ks), d).entries;
  }

  lemma ErasedAppend<M>(c: Container<M>, d: string, p: Package<M>, ks: set<string>)
    ensures ErasedAll(Append(c, d, p), ks) == Append(ErasedAll(c, ks), d, Erased(p, ks))
  {
    assert ErasedAll(Append(c, d, p), ks).entries == Append(ErasedAll(c, ks), d, Erased(p, ks)).entries;
  }

  lemma ErasedTakenOut<M>(c: Container<M>, n: string, d: string, ks: set<string>)
    requires n in c.entries && c.entries[n].dependencies.Some? && d in c.entries[n].dependencies.value.entries
    ensures n in ErasedAll(c, ks).entries && ErasedAll(c, ks).entries[n].dependencies.Some?
    ensures d in ErasedAll(c, ks).entries[n].dependencies.value.entries
    ensures ErasedAll(TakenOut(c, n, d), ks) == TakenOut(ErasedAll(c, ks), n, d)
    ensures ErasedAll(Moved(c, n, d), ks) == Moved(ErasedAll(c, ks), n, d)
  {
    var p := c.entries[n];
    var q := p.dependencies.value;
    ErasedEntry(c, ks);
    ErasedEntry(q, ks);
    ErasedDelete(q, d, ks);
    ErasedUpdate(c, n, p.(dependencies := Some(Delete(q, d))), ks);
    ErasedAppend(TakenOut(c, n, d), d, q.entries[d], ks);
  }

  ghost predicate SameStep<M>(r: Step<M>, s: Step<M>, ks: set<string>) {
    s == Step(ErasedAll(r.container, ks), r.changed)
  }

  lemma {:induction false} MoveChildrenUpErased<M>(c: Container<M>, n: string, ks: set<string>)
    requires WellFormed(c) && n in c.entries
    ensures WellFormed(ErasedAll(c, ks)) && n in ErasedAll(c, ks).entries
    ensures SameStep(MoveChildrenUp(c, n), MoveChildrenUp(ErasedAll(c, ks), n), ks)
    decreases c.entries[n], 1
  {
    ErasedWellFormed(c, ks);
    ErasedEntry(c, ks);
    match c.entries[n].dependencies
    case None =>
    case Some(snapshot) =>
      assert WellFormedPackage(c.entries[n]) && WellFormed(snapshot);
      ErasedEntry(snapshot, ks);
      MoveChildrenUpSteps(c, n, snapshot);
      MoveChildrenUpSteps(ErasedAll(c, ks), n, ErasedAll(snapshot, ks));
      PushEachErased(c, n, snapshot.order, snapshot, ks);
      CleanedErased(PushEach(c, n, snapshot.order, snapshot).container, n, ks);
  }

  lemma CleanedErased<M>(pushed: Container<M>, n: string, ks: set<string>)
    requires n in pushed.entries && pushed.entries[n].dependencies.Some?
    ensures var left := pushed.entries[n];
      && n in ErasedAll(pushed, ks).entries && ErasedAll(pushed, ks).entries[n] == Erased(left, ks)
      && (left.dependencies.value.entries == map[] <==> Erased(left, ks).dependencies.value.entries == map[])
      && ErasedAll(Update(pushed, n, left.(dependencies := None)), ks)
         == Update(ErasedAll(pushed, ks), n, Erased(left, ks).(dependencies := None))
  {
    var left := pushed.entries[n];
    ErasedEntry(pushed, ks);
    ErasedEntry(left.dependencies.value, ks);
    ErasedUpdate(pushed, n, left.(dependencies := None), ks);
    if Erased(left, ks).dependencies.value.entries == map[] {
      assert left.dependencies.value.entries.Keys == {};
    }
  }

  lemma PendingErased<M>(c: Container<M>, n: string, names: seq<string>, snapshot: Container<M>, ks: set<string>)
    requires Pending(c, n, names, snapshot)
    ensures Pending(ErasedAll(c, ks), n, names, ErasedAll(snapshot, ks))
  {
    ErasedWellFormed(c, ks);
    ErasedEntry(c, ks);
    ErasedEntry(snapshot, ks);
    ErasedEntry(c.entries[n].dependencies.value, ks);
  }

  lemma {:induction false} PushEachErased<M>(c: Container<M>, n: string, names: seq<string>, snapshot: Container<M>,
                                             ks: set<string>)
    requires Pending(c, n, names, snapshot)
    ensures Pending(ErasedAll(c, ks), n, names, ErasedAll(snapshot, ks))
    ensures SameStep(PushEach(c, n, names, snapshot), PushEach(ErasedAll(c, ks), n, names, ErasedAll(snapshot, ks)), ks)
    decreases snapshot, 0, |names|
  {
    PendingErased(c, n, names, snapshot, ks);
    if names == [] {
      PushEachDone(c, n, snapshot);
      PushEachDone(ErasedAll(c, ks), n, ErasedAll(snapshot, ks));
    } else {
      PushEachFirst(c, n, names, snapshot);
      PushEachFirst(ErasedAll(c, ks), n, names, ErasedAll(snapshot, ks));
      PushOneErased(c, n, names[0], snapshot, ks);
      PushEachErased(PushOne(c, n, names[0], snapshot).container, n, names[1..], snapshot, ks);
    }
  }

  lemma {:induction false} PushOneErased<M>(c: Container<M>, n: string, d: string, snapshot: Container<M>,
                                            ks: set<string>)
    requires Pending(c, n, [d], snapshot)
    ensures Pending(ErasedAll(c, ks), n, [d], ErasedAll(snapshot, ks))
    ensures SameStep(PushOne(c, n, d, snapshot), PushOne(ErasedAll(c, ks), n, d, ErasedAll(snapshot, ks)), ks)
    decreases snapshot, 0, 0
  {
    PendingErased(c, n, [d], snapshot, ks);
    PendingChild(c, n, d, snapshot);
    PendingChild(ErasedAll(c, ks), n, d, ErasedAll(snapshot, ks));
    ErasedEntry(c, ks);
    var siblings := c.entries[n].dependencies.value;
    ErasedEntry(siblings, ks);
    ErasedTakenOut(c, n, d, ks);
    if d !in c.entries {
      MoveChildrenUpErased(Moved(c, n, d), d, ks);
    } else if c.entries[d].version != siblings.entries[d].version {
      MoveChildrenUpErased(siblings, d, ks);
      ErasedUpdate(c, n, c.entries[n].(dependencies := Some(MoveChildrenUp(siblings, d).container)), ks);
    }
  }

  lemma {:induction false} SimplifyEachErased<M>(c: Container<M>, names: seq<string>, ks: set<string>)
    requires WellFormed(c) && forall k :: k in names ==> k in c.entries
    ensures WellFormed(ErasedAll(c, ks)) && forall k :: k in names ==> k in ErasedAll(c, ks).entries
    ensures SameStep(SimplifyEach(c, names), SimplifyEach(ErasedAll(c, ks), names), ks)
    decreases |names|
  {
    ErasedWellFormed(c, ks);
    if names != [] {
      MoveChildrenUpErased(c, names[0], ks);
      SimplifyEachErased(MoveChildrenUp(c, names[0]).container, names[1..], ks);
    }
  }

  /** Hoisting does the same to a tree whatever its packages require. */
  lemma {:induction false} HoistErased<M>(c: Container<M>, ks: set<string>)
    requires WellFormed(c)
    ensures WellFormed(ErasedAll(c, ks)) && Hoist(ErasedAll(c, ks)) == ErasedAll(Hoist(c), ks)
    decreases LoadAll(c)
  {
    SimplifyEachErased(c, c.order, ks);
    SimplifyEachLoad(c, c.order);
    if Simplify(c).changed { HoistErased(Simplify(c).container, ks); }
  }

  lemma SameVersions<M>(c: Container<M>, ks: set<string>)
    ensures Versions(ErasedAll(c, ks)) == Versions(c)
  {
    ErasedEntry(c, ks);
    forall k | k in c.entries ensures Versions(ErasedAll(c, ks))[k] == Versions(c)[k] {}
  }

  /** The lookups left are those of names in `ks`, and they find what they found. */
  lemma {:induction false} LookupsErased<M>(c: Container<M>, env: Env, ks: set<string>, l: Lookup<M>)
    ensures l in AllLookups(ErasedAll(c, ks), env) <==> l in AllLookups(c, env) && l.name in ks
    decreases c
  {
    var e := ErasedAll(c, ks);
    SameVersions(c, ks);
    var inner := env + Versions(c);
    forall k | k in c.entries
      ensures l in LookupsOf(e.entries[k], inner) <==> l in LookupsOf(c.entries[k], inner) && l.name in ks
    {
      PackageLookupsErased(c.entries[k], inner, ks, l);
    }
  }

  lemma {:induction false} PackageLookupsErased<M>(p: Package<M>, env: Env, ks: set<string>, l: Lookup<M>)
    ensures l in LookupsOf(Erased(p, ks), env) <==> l in LookupsOf(p, env) && l.name in ks
    decreases p
  {
    assert Inside(Erased(p, ks), env) == Inside(p, env) by {
      if p.dependencies.Some? { SameVersions(p.dependencies.value, ks); }
    }
    if p.dependencies.Some? {
      LookupsErased(p.dependencies.value, env, ks, l);
    }
  }
}
