/** When moving and de-duplicating packages keeps every require at the version it found before. */
module VersionPreservation {
  import opened Options
  import opened PackageTree
  import opened Hoisting
  import opened Lookups

  /** The names a package and those below it look up in the records above it. */
  ghost function Free<M>(p: Package<M>): set<string>
    decreases p
  {
    match p.dependencies
    case None => p.needs
    case Some(c) => p.needs - c.entries.Keys + FreeIn(c)
  }

  ghost function FreeIn<M>(c: Container<M>): set<string>
    decreases c
  {
    (set k, d | k in c.entries && d in Free(c.entries[k]) :: d) - c.entries.Keys
  }

  /** Each package from `p` down finds the same versions below `e` as it does below `e'`. */
  ghost predicate Agree<M>(p: Package<M>, e: Env, e': Env)
    decreases p
  {
    && (forall k :: k in p.needs ==> Find(Inside(p, e), k) == Find(Inside(p, e'), k))
    && (p.dependencies.Some? ==> AllAgree(p.dependencies.value, e, e'))
  }

  ghost predicate AllAgree<M>(c: Container<M>, e: Env, e': Env)
    decreases c
  {
    forall k :: k in c.entries ==> Agree(c.entries[k], e + Versions(c), e' + Versions(c))
  }

  ghost predicate AgreeOn(names: set<string>, e: Env, e': Env) {
    forall k :: k in names ==> Find(e, k) == Find(e', k)
  }

  lemma {:induction false} AgreeIffFree<M>(p: Package<M>, e: Env, e': Env)
    ensures Agree(p, e, e') <==> AgreeOn(Free(p), e, e')
    decreases p
  {
    match p.dependencies
    case None =>
      assert Inside(p, e) == e && Inside(p, e') == e';
    case Some(c) =>
      AllAgreeIffFree(c, e, e');
      NeedsOutside(p, c, e, e');
      AgreeOnBoth(p.needs - c.entries.Keys, FreeIn(c), e, e');
      hide AllAgree, FreeIn, Inside, Find;
  }

  lemma NeedsOutside<M>(p: Package<M>, c: Container<M>, e: Env, e': Env)
    requires p.dependencies == Some(c)
    ensures AgreeOn(p.needs, Inside(p, e), Inside(p, e')) <==> AgreeOn(p.needs - c.entries.Keys, e, e')
  {
    assert forall k :: k !in c.entries ==> Find(Inside(p, e), k) == Find(e, k) && Find(Inside(p, e'), k) == Find(e', k);
    assert forall k :: k in c.entries ==> Find(Inside(p, e), k) == Find(Inside(p, e'), k);
  }

  lemma AgreeOnBoth(a: set<string>, b: set<string>, e: Env, e': Env)
    ensures AgreeOn(a + b, e, e') <==> AgreeOn(a, e, e') && AgreeOn(b, e, e')
  {
    hide Find;
  }

  lemma {:induction false} AllAgreeIffFree<M>(c: Container<M>, e: Env, e': Env)
    ensures AllAgree(c, e, e') <==> AgreeOn(FreeIn(c), e, e')
    decreases c
  {
    forall k | k in c.entries
      ensures Agree(c.entries[k], e + Versions(c), e' + Versions(c))
              <==> AgreeOn(Free(c.entries[k]) - c.entries.Keys, e, e')
    {
      AgreeIffFree(c.entries[k], e + Versions(c), e' + Versions(c));
      assert forall d ::
               d !in c.entries ==> Find(e + Versions(c), d) == Find(e, d) && Find(e' + Versions(c), d) == Find(e', d);
      assert forall d :: d in c.entries ==> Find(e + Versions(c), d) == Find(e' + Versions(c), d);
    }
    if AgreeOn(FreeIn(c), e, e') {
      forall k | k in c.entries ensures Agree(c.entries[k], e + Versions(c), e' + Versions(c)) {
        assert Free(c.entries[k]) - c.entries.Keys <= FreeIn(c);
      }
    }
    if AllAgree(c, e, e') {
      forall d | d in FreeIn(c) ensures Find(e, d) == Find(e', d) {
        var k :| k in c.entries && d in Free(c.entries[k]);
        assert Agree(c.entries[k], e + Versions(c), e' + Versions(c));
        assert d in Free(c.entries[k]) - c.entries.Keys;
      }
    }
  }

  lemma {:induction false} AgreeLookups<M>(p: Package<M>, e: Env, e': Env)
    requires Agree(p, e, e')
    ensures LookupsOf(p, e) == LookupsOf(p, e')
    decreases p
  {
    assert forall k ::
             k in p.needs ==> Lookup(p.meta, k, Find(Inside(p, e), k)) == Lookup(p.meta, k, Find(Inside(p, e'), k));
    assert (set k | k in p.needs :: Lookup(p.meta, k, Find(Inside(p, e), k)))
        == (set k | k in p.needs :: Lookup(p.meta, k, Find(Inside(p, e'), k)));
    if p.dependencies.Some? {
      var c := p.dependencies.value;
      forall k | k in c.entries
        ensures LookupsOf(c.entries[k], e + Versions(c)) == LookupsOf(c.entries[k], e' + Versions(c))
      {
        AgreeLookups(c.entries[k], e + Versions(c), e' + Versions(c));
      }
    }
  }

  // ---------------------------------------------------------------- one move

  /** Every package that sees `c` finds after the move of `d` what it found before. The owner of
      `c` requires `needs`; `env` holds what is above `c`. */
  ghost predicate MoveKeeps<M>(c: Container<M>, n: string, d: string, env: Env, needs: set<string>)
    requires Child(c, n, d)
  {
    var before, after := env + Versions(c), env + Versions(Moved(c, n, d));
    var p := c.entries[n];
    var q := p.dependencies.value;
    && AgreeOn(needs, before, after)
    && (forall k :: k in c.entries && k != n ==> Agree(c.entries[k], before, after))
    && AgreeOn(p.needs, before + Versions(q), after + Versions(Delete(q, d)))
    && (forall k :: k in q.entries && k != d ==>
          Agree(q.entries[k], before + Versions(q), after + Versions(Delete(q, d))))
    && Agree(q.entries[d], before + Versions(q), after)
  }

  /** The condition to check before moving `d` up into `c`: those who now get `d` from `c` found
      that version already, and the package that moves does not depend on siblings that stay. */
  ghost predicate Movable<M>(c: Container<M>, n: string, d: string, env: Env, needs: set<string>)
    requires Child(c, n, d)
  {
    var q := c.entries[n].dependencies.value;
    var child := q.entries[d];
    && (d in needs ==> Find(env, d) == Some(child.version))
    && (forall k :: k in c.entries && k != n && d in Free(c.entries[k]) ==> Find(env, d) == Some(child.version))
    && (forall k :: k in q.entries && k != d && k in Free(child) ==>
          Find(env + Versions(c), k) == Some(q.entries[k].version))
  }

  lemma MovedVersions<M>(c: Container<M>, n: string, d: string)
    requires Child(c, n, d) && d !in c.entries
    ensures var q := c.entries[n].dependencies.value;
            && d !in Versions(c) && d in Versions(q) && Versions(q)[d] == q.entries[d].version
            && Versions(Moved(c, n, d)) == Versions(c)[d := q.entries[d].version]
            && Versions(Delete(q, d)) == Versions(q) - {d}
            && forall k :: k in q.entries <==> k in Versions(q)
  {
    var r := Moved(c, n, d);
    forall k ensures k in Versions(r) <==> k in c.entries || k == d {}
  }

  lemma MovedSees<M>(c: Container<M>, n: string, d: string, env: Env, k: string)
    requires Child(c, n, d) && d !in c.entries
    ensures var before, after := env + Versions(c), env + Versions(Moved(c, n, d));
            var q := c.entries[n].dependencies.value;
            && Find(after, k) == (if k == d then Some(q.entries[d].version) else Find(before, k))
            && Find(before + Versions(q), k) == (if k in q.entries then Some(Versions(q)[k]) else Find(before, k))
            && Find(after + Versions(Delete(q, d)), k) == Find(before + Versions(q), k)
            && Find(before, d) == Find(env, d)
  {
    MovedVersions(c, n, d);
    hide Child, Moved, Versions, Delete;
  }

  lemma OthersKept<M>(c: Container<M>, n: string, d: string, env: Env, p: Package<M>)
    requires Child(c, n, d) && d !in c.entries
    ensures var v := c.entries[n].dependencies.value.entries[d].version;
            Agree(p, env + Versions(c), env + Versions(Moved(c, n, d))) <==> (d in Free(p) ==> Find(env, d) == Some(v))
  {
    var before, after := env + Versions(c), env + Versions(Moved(c, n, d));
    AgreeIffFree(p, before, after);
    forall k ensures Find(after, k) ==
        (if k == d then Some(c.entries[n].dependencies.value.entries[d].version) else Find(before, k))
      ensures Find(before, d) == Find(env, d)
    {
      MovedSees(c, n, d, env, k);
    }
    hide Agree, Moved, Find, Child, Free, Versions;
  }

  lemma SiblingsKept<M>(c: Container<M>, n: string, d: string, env: Env, p: Package<M>)
    requires Child(c, n, d) && d !in c.entries
    ensures var q := c.entries[n].dependencies.value;
            Agree(p, env + Versions(c) + Versions(q), env + Versions(Moved(c, n, d)) + Versions(Delete(q, d)))
  {
    var q := c.entries[n].dependencies.value;
    var before, after := env + Versions(c) + Versions(q), env + Versions(Moved(c, n, d)) + Versions(Delete(q, d));
    AgreeIffFree(p, before, after);
    forall k ensures Find(after, k) == Find(before, k) { MovedSees(c, n, d, env, k); }
    hide Agree, Moved, Find, Child, Free, Versions, Delete;
  }

  lemma ChildKept<M>(c: Container<M>, n: string, d: string, env: Env)
    requires Child(c, n, d) && d !in c.entries
    ensures var q := c.entries[n].dependencies.value;
            Agree(q.entries[d], env + Versions(c) + Versions(q), env + Versions(Moved(c, n, d))) <==>
            forall k :: k in q.entries && k != d && k in Free(q.entries[d]) ==>
              Find(env + Versions(c), k) == Some(q.entries[k].version)
  {
    var q := c.entries[n].dependencies.value;
    var before, after := env + Versions(c), env + Versions(Moved(c, n, d));
    AgreeIffFree(q.entries[d], before + Versions(q), after);
    forall k | k in q.entries ensures k in Versions(q) && Versions(q)[k] == q.entries[k].version {}
    forall k
      ensures Find(after, k) == (if k == d then Some(q.entries[d].version) else Find(before, k))
      ensures Find(before + Versions(q), k) == (if k in q.entries then Some(Versions(q)[k]) else Find(before, k))
    {
      MovedSees(c, n, d, env, k);
    }
    hide Agree, Moved, Find, Child, Free, Versions;
  }

  /** Moving a package up keeps every require at its version if and only if `Movable`. */
  lemma MoveKeepsIffMovable<M>(c: Container<M>, n: string, d: string, env: Env, needs: set<string>)
    requires Child(c, n, d) && d !in c.entries
    ensures MoveKeeps(c, n, d, env, needs) <==> Movable(c, n, d, env, needs)
  {
    var before, after := env + Versions(c), env + Versions(Moved(c, n, d));
    var q := c.entries[n].dependencies.value;
    forall k
      ensures Find(after, k) == (if k == d then Some(q.entries[d].version) else Find(before, k))
      ensures Find(after + Versions(Delete(q, d)), k) == Find(before + Versions(q), k)
      ensures Find(before, d) == Find(env, d)
    {
      MovedSees(c, n, d, env, k);
    }
    forall k | k in c.entries
      ensures Agree(c.entries[k], before, after) <==>
              (d in Free(c.entries[k]) ==> Find(env, d) == Some(q.entries[d].version))
    {
      OthersKept(c, n, d, env, c.entries[k]);
    }
    forall k | k in q.entries
      ensures Agree(q.entries[k], before + Versions(q), after + Versions(Delete(q, d)))
    {
      SiblingsKept(c, n, d, env, q.entries[k]);
    }
    ChildKept(c, n, d, env);
    hide Agree, Moved, Find, Child, Free, Versions, Delete;
  }

  // ---------------------------------------------------------------- whole runs

  /** Rewriting `c` to `r` loses no version: whatever package survives finds what it found, and
      so does the package that owns the container. */
  ghost predicate Keeps<M>(c: Container<M>, r: Container<M>, env: Env, needs: set<string>) {
    && AllLookups(r, env) <= AllLookups(c, env)
    && AgreeOn(needs, env + Versions(c), env + Versions(r))
  }

  /** Lookups below a package are among those of the package. */
  lemma LookupsBelow<M>(p: Package<M>, env: Env)
    requires p.dependencies.Some?
    ensures AllLookups(p.dependencies.value, env) <= LookupsOf(p, env)
  {
  }

  lemma LookupsAt<M>(c: Container<M>, k: string, env: Env)
    requires k in c.entries
    ensures LookupsOf(c.entries[k], env + Versions(c)) <= AllLookups(c, env)
  {
  }

  lemma LookupsFrom<M>(r: Container<M>, env: Env, ls: set<Lookup<M>>)
    requires forall k :: k in r.entries ==> LookupsOf(r.entries[k], env + Versions(r)) <= ls
    ensures AllLookups(r, env) <= ls
  {
  }

  /** A package with other dependencies, if these lose no version and it finds what it found. */
  lemma LookupsInside<M>(p: Package<M>, p': Package<M>, e: Env, e': Env)
    requires p.dependencies.Some? && p'.dependencies.Some? && p'.needs == p.needs && p'.meta == p.meta
    requires AgreeOn(p.needs, Inside(p, e), Inside(p', e'))
    requires AllLookups(p'.dependencies.value, e') <= AllLookups(p.dependencies.value, e)
    ensures LookupsOf(p', e') <= LookupsOf(p, e)
  {
    forall k | k in p.needs
      ensures Lookup(p.meta, k, Find(Inside(p', e'), k)) == Lookup(p.meta, k, Find(Inside(p, e), k))
    {}
    hide Inside, Find, AllLookups;
  }

  lemma TakenOutVersions<M>(c: Container<M>, n: string, d: string)
    requires Child(c, n, d)
    requires d in c.entries && c.entries[d].version == c.entries[n].dependencies.value.entries[d].version
    ensures var q, r := c.entries[n].dependencies.value, TakenOut(c, n, d);
            && r.entries.Keys == c.entries.Keys && r.entries[n] == c.entries[n].(dependencies := Some(Delete(q, d)))
            && (forall k :: k in c.entries && k != n ==> r.entries[k] == c.entries[k])
            && Delete(q, d).entries == q.entries - {d}
            && Versions(r) == Versions(c)
            && forall env: Env :: env + Versions(c) + Versions(Delete(q, d)) == env + Versions(c) + Versions(q)
  {
  }

  /** A de-duplication always keeps every require of every surviving package at its version. */
  lemma DeduplicationKeeps<M>(c: Container<M>, n: string, d: string, env: Env, needs: set<string>)
    requires Child(c, n, d)
    requires d in c.entries && c.entries[d].version == c.entries[n].dependencies.value.entries[d].version
    ensures Keeps(c, TakenOut(c, n, d), env, needs)
  {
    var p, r := c.entries[n], TakenOut(c, n, d);
    var q, rest, outer := p.dependencies.value, Delete(p.dependencies.value, d), env + Versions(c);
    TakenOutVersions(c, n, d);
    assert n in c.entries && p.dependencies.Some? && outer + Versions(rest) == outer + Versions(q);
    assert Inside(r.entries[n], outer) == Inside(p, outer);
    hide *;
    AgreeSame(p.needs, Inside(p, outer));
    AgreeSame(needs, outer);
    forall k | k in rest.entries ensures LookupsOf(rest.entries[k], outer + Versions(rest)) <= AllLookups(q, outer) {
      LookupsAt(q, k, outer);
    }
    LookupsFrom(rest, outer, AllLookups(q, outer));
    LookupsInside(p, r.entries[n], outer, outer);
    forall k | k in r.entries ensures LookupsOf(r.entries[k], env + Versions(r)) <= AllLookups(c, env) {
      LookupsAt(c, k, env);
    }
    LookupsFrom(r, env, AllLookups(c, env));
    KeepsIf(c, r, env, needs);
  }

  lemma AgreeSame(names: set<string>, env: Env)
    ensures AgreeOn(names, env, env)
  {
  }

  lemma KeepsIf<M>(c: Container<M>, r: Container<M>, env: Env, needs: set<string>)
    requires AllLookups(r, env) <= AllLookups(c, env) && AgreeOn(needs, env + Versions(c), env + Versions(r))
    ensures Keeps(c, r, env, needs)
  {
  }

  lemma MovedEntries<M>(c: Container<M>, n: string, d: string)
    requires Child(c, n, d) && d !in c.entries
    ensures var q, r := c.entries[n].dependencies.value, Moved(c, n, d);
            && r.entries.Keys == c.entries.Keys + {d} && r.entries[d] == q.entries[d]
            && r.entries[n] == c.entries[n].(dependencies := Some(Delete(q, d)))
            && (forall k :: k in c.entries && k != n ==> r.entries[k] == c.entries[k])
            && Delete(q, d).entries == q.entries - {d}
            && n in c.entries && c.entries[n].dependencies.Some? && d in q.entries
  {
  }

  lemma InsideOwn<M>(p: Package<M>, c: Container<M>, env: Env)
    requires p.dependencies == Some(c)
    ensures Inside(p, env) == env + Versions(c)
  {
  }

  lemma MoveKeepsLookups<M>(c: Container<M>, n: string, d: string, env: Env, needs: set<string>)
    requires Child(c, n, d) && d !in c.entries && MoveKeeps(c, n, d, env, needs)
    ensures Keeps(c, Moved(c, n, d), env, needs)
  {
    var before, after := env + Versions(c), env + Versions(Moved(c, n, d));
    var p, r := c.entries[n], Moved(c, n, d);
    var q, rest := p.dependencies.value, Delete(p.dependencies.value, d);
    MovedEntries(c, n, d);
    hide Agree, AgreeOn, Child, Moved, Delete, Versions, LookupsOf, AllLookups, Keeps;
    assert AgreeOn(needs, before, after) && AgreeOn(p.needs, before + Versions(q), after + Versions(rest));
    forall k | k in rest.entries ensures LookupsOf(rest.entries[k], after + Versions(rest)) <= AllLookups(q, before) {
      AgreeLookups(q.entries[k], before + Versions(q), after + Versions(rest));
      LookupsAt(q, k, before);
    }
    AgreeLookups(q.entries[d], before + Versions(q), after);
    hide *;
    LookupsAt(q, d, before);
    LookupsFrom(rest, after, AllLookups(q, before));
    InsideOwn(p, q, before);
    InsideOwn(r.entries[n], rest, after);
    LookupsInside(p, r.entries[n], before, after);
    LookupsBelow(p, before);
    LookupsAt(c, n, env);
    MovedOthers(c, n, d, env, needs);
    LookupsFrom(r, env, AllLookups(c, env));
    KeepsIf(c, r, env, needs);
  }

  lemma MovedOthers<M>(c: Container<M>, n: string, d: string, env: Env, needs: set<string>)
    requires Child(c, n, d) && d !in c.entries && MoveKeeps(c, n, d, env, needs)
    ensures forall k :: k in c.entries && k != n ==>
              LookupsOf(c.entries[k], env + Versions(Moved(c, n, d))) <= AllLookups(c, env)
  {
    var before, after := env + Versions(c), env + Versions(Moved(c, n, d));
    hide Agree, AgreeOn, Child, Moved, Delete, Versions, LookupsOf, AllLookups;
    forall k | k in c.entries && k != n ensures LookupsOf(c.entries[k], after) <= AllLookups(c, env) {
      AgreeLookups(c.entries[k], before, after);
      LookupsAt(c, k, env);
    }
  }

  /** Every move of `MoveChildrenUp(c, n)` is `Movable` when it is made. */
  ghost predicate SafeUp<M>(c: Container<M>, n: string, env: Env, needs: set<string>)
    requires WellFormed(c) && n in c.entries
    decreases c.entries[n], 1
  {
    match c.entries[n].dependencies
    case None => true
    case Some(snapshot) =>
      assert WellFormedPackage(c.entries[n]) && WellFormed(snapshot);
      SafeEach(c, n, snapshot.order, snapshot, env, needs)
  }

  ghost predicate SafeEach<M>(c: Container<M>, n: string, names: seq<string>, snapshot: Container<M>, env: Env,
                              needs: set<string>)
    requires Pending(c, n, names, snapshot)
    decreases snapshot, 0, |names|
  {
    names == [] ||
    (&& SafeOne(c, n, names[0], snapshot, env, needs)
     && SafeEach(PushOne(c, n, names[0], snapshot).container, n, names[1..], snapshot, env, needs))
  }

  ghost predicate SafeOne<M>(c: Container<M>, n: string, d: string, snapshot: Container<M>, env: Env,
                             needs: set<string>)
    requires Pending(c, n, [d], snapshot)
    decreases snapshot, 0, 0
  {
    PendingChild(c, n, d, snapshot);
    var siblings := c.entries[n].dependencies.value;
    if d !in c.entries then
      Movable(c, n, d, env, needs) && SafeUp(Moved(c, n, d), d, env, needs)
    else
      c.entries[d].version == siblings.entries[d].version
      || SafeUp(siblings, d, env + Versions(c), c.entries[n].needs)
  }

  lemma KeepsTransitive<M>(a: Container<M>, b: Container<M>, c: Container<M>, env: Env, needs: set<string>)
    requires Keeps(a, b, env, needs) && Keeps(b, c, env, needs)
    ensures Keeps(a, c, env, needs)
  {
  }

  lemma SafeUpKeeps<M>(c: Container<M>, n: string, env: Env, needs: set<string>)
    requires WellFormed(c) && n in c.entries && SafeUp(c, n, env, needs)
    ensures Keeps(c, MoveChildrenUp(c, n).container, env, needs)
    decreases c.entries[n], 1
  {
    match c.entries[n].dependencies
    case None =>
    case Some(snapshot) =>
      assert WellFormedPackage(c.entries[n]) && WellFormed(snapshot);
      SafeEachKeeps(c, n, snapshot.order, snapshot, env, needs);
      CleanupKeeps(c, n, PushEach(c, n, snapshot.order, snapshot).container, env, needs);
  }

  lemma CleanupKeeps<M>(c: Container<M>, n: string, pushed: Container<M>, env: Env, needs: set<string>)
    requires Keeps(c, pushed, env, needs)
    requires n in pushed.entries && pushed.entries[n].dependencies.Some?
    ensures pushed.entries[n].dependencies.value.entries == map[] ==>
              Keeps(c, Update(pushed, n, pushed.entries[n].(dependencies := None)), env, needs)
  {
    var left := pushed.entries[n];
    if left.dependencies.value.entries == map[] {
      var cleaned := Update(pushed, n, left.(dependencies := None));
      assert Versions(cleaned) == Versions(pushed);
      var outer := env + Versions(pushed);
      assert outer + Versions(left.dependencies.value) == outer;
      assert LookupsOf(cleaned.entries[n], outer) <= LookupsOf(left, outer);
    }
  }

  lemma SafeEachFirst<M>(c: Container<M>, n: string, names: seq<string>, snapshot: Container<M>, env: Env,
                         needs: set<string>)
    requires names != [] && Pending(c, n, names, snapshot) && SafeEach(c, n, names, snapshot, env, needs)
    ensures Pending(c, n, [names[0]], snapshot) && SafeOne(c, n, names[0], snapshot, env, needs)
    ensures var first := PushOne(c, n, names[0], snapshot).container;
            && Pending(first, n, names[1..], snapshot) && SafeEach(first, n, names[1..], snapshot, env, needs)
            && PushEach(c, n, names, snapshot).container == PushEach(first, n, names[1..], snapshot).container
  {
    PushEachFirst(c, n, names, snapshot);
  }

  lemma SafeEachKeeps<M>(c: Container<M>, n: string, names: seq<string>, snapshot: Container<M>, env: Env,
                         needs: set<string>)
    requires Pending(c, n, names, snapshot) && SafeEach(c, n, names, snapshot, env, needs)
    ensures Keeps(c, PushEach(c, n, names, snapshot).container, env, needs)
    decreases snapshot, 0, |names|
  {
    if names != [] {
      SafeEachFirst(c, n, names, snapshot, env, needs);
      SafeOneKeeps(c, n, names[0], snapshot, env, needs);
      var first := PushOne(c, n, names[0], snapshot).container;
      SafeEachKeeps(first, n, names[1..], snapshot, env, needs);
      KeepsTransitive(c, first, PushEach(first, n, names[1..], snapshot).container, env, needs);
    }
  }

  lemma SafeOneKeeps<M>(c: Container<M>, n: string, d: string, snapshot: Container<M>, env: Env, needs: set<string>)
    requires Pending(c, n, [d], snapshot) && SafeOne(c, n, d, snapshot, env, needs)
    ensures Keeps(c, PushOne(c, n, d, snapshot).container, env, needs)
    decreases snapshot, 0, 0
  {
    PendingChild(c, n, d, snapshot);
    var p := c.entries[n];
    var siblings := p.dependencies.value;
    if d !in c.entries {
      MoveKeepsIffMovable(c, n, d, env, needs);
      MoveKeepsLookups(c, n, d, env, needs);
      SafeUpKeeps(Moved(c, n, d), d, env, needs);
      KeepsTransitive(c, Moved(c, n, d), MoveChildrenUp(Moved(c, n, d), d).container, env, needs);
    } else if c.entries[d].version == siblings.entries[d].version {
      DeduplicationKeeps(c, n, d, env, needs);
    } else {
      SafeUpKeeps(siblings, d, env + Versions(c), p.needs);
      InsideKeeps(c, n, MoveChildrenUp(siblings, d).container, env, needs);
    }
  }

  lemma InsideKeeps<M>(c: Container<M>, n: string, r: Container<M>, env: Env, needs: set<string>)
    requires n in c.entries && c.entries[n].dependencies.Some?
    requires Keeps(c.entries[n].dependencies.value, r, env + Versions(c), c.entries[n].needs)
    ensures Keeps(c, Update(c, n, c.entries[n].(dependencies := Some(r))), env, needs)
  {
    var p := c.entries[n];
    var after := Update(c, n, p.(dependencies := Some(r)));
    var outer := env + Versions(c);
    assert Versions(after) == Versions(c);
    InsideOwn(p, p.dependencies.value, outer);
    InsideOwn(after.entries[n], r, outer);
    LookupsInside(p, after.entries[n], outer, outer);
    forall k | k in after.entries ensures LookupsOf(after.entries[k], outer) <= AllLookups(c, env) {
      LookupsAt(c, k, env);
    }
  }

  ghost predicate SafePass<M>(c: Container<M>, names: seq<string>)
    requires WellFormed(c) && forall k :: k in names ==> k in c.entries
    decreases |names|
  {
    names == [] || (SafeUp(c, names[0], map[], {}) && SafePass(MoveChildrenUp(c, names[0]).container, names[1..]))
  }

  /** Every move of the whole run is `Movable` when it is made. */
  ghost predicate SafeRun<M>(c: Container<M>)
    requires WellFormed(c)
    decreases LoadAll(c)
  {
    SimplifyEachLoad(c, c.order);
    SafePass(c, c.order) && (Simplify(c).changed ==> SafeRun(Simplify(c).container))
  }

  lemma SafePassKeeps<M>(c: Container<M>, names: seq<string>)
    requires WellFormed(c) && (forall k :: k in names ==> k in c.entries) && SafePass(c, names)
    ensures Keeps(c, SimplifyEach(c, names).container, map[], {})
    decreases |names|
  {
    if names != [] {
      SafeUpKeeps(c, names[0], map[], {});
      var first := MoveChildrenUp(c, names[0]).container;
      SafePassKeeps(first, names[1..]);
      KeepsTransitive(c, first, SimplifyEach(first, names[1..]).container, map[], {});
    }
  }

  /** A run whose every move passes the check `Movable` changes no version anyone finds. */
  lemma {:induction false} SafeRunKeepsVersions<M>(c: Container<M>)
    requires WellFormed(c) && SafeRun(c)
    ensures AllLookups(Hoist(c), map[]) <= AllLookups(c, map[])
    decreases LoadAll(c)
  {
    SimplifyEachLoad(c, c.order);
    SafePassKeeps(c, c.order);
    if Simplify(c).changed {
      SafeRunKeepsVersions(Simplify(c).container);
    }
  }
}
