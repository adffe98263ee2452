/** From package manifests to a hoisted shrinkwrap: `dependenciesFor` builds the tree of package
    objects, and hoisting rewrites it. */
module Shrinkwrap {
  import opened Options
  import opened PackageTree
  import opened Hoisting
  import opened Resolution
  import opened Lookups
  import opened NestedConflicts
  import opened HoistingInPlace

  type Dir = string

  /** A `dependencies` field of package.json: names in order, with a version range each. */
  datatype Ranges = Ranges(order: seq<string>, range: map<string, string>)

  datatype PackageJson = PackageJson(name: string, version: string, dependencies: Ranges)

  /** What the file system and yarn.lock say. `located` is `require.resolve`: the directory of the
      package that a name leads to from a directory. `locked` maps `name@range` to a version. */
  datatype World = World(located: map<(Dir, string), Dir>, manifests: map<Dir, PackageJson>,
                         locked: map<string, string>)

  datatype Error = NotFound(name: string) | WrongName(name: string, found: string)

  datatype Result<T> = Ok(value: T) | Err(error: Error)

  /** `ranks` shows that no package depends on itself, directly or through others. */
  ghost predicate Acyclic(w: World, ranks: map<Dir, nat>) {
    && (forall d, n ::
        (d, n) in w.located ==> d in ranks && w.located[(d, n)] in ranks && ranks[w.located[(d, n)]] < ranks[d])
    && forall d :: d in w.manifests ==> Listed(w.manifests[d].dependencies)
  }

  ghost predicate Listed(r: Ranges) {
    NoDuplicates(r.order) && forall k :: k in r.order <==> k in r.range
  }

  ghost function Rank(ranks: map<Dir, nat>, d: Dir): nat {
    if d in ranks then ranks[d] else 0
  }

  /** `name` leads from `dir` to a package that goes by that name. */
  predicate Leads(w: World, dir: Dir, name: string) {
    && (dir, name) in w.located && w.located[(dir, name)] in w.manifests
    && w.manifests[w.located[(dir, name)]].name == name
  }

  /** `name` leads from `dir` to no package, or to one that goes by another name. */
  ghost predicate Misses(w: World, dir: Dir, name: string, e: Error) {
    if (dir, name) !in w.located || w.located[(dir, name)] !in w.manifests then e == NotFound(name)
    else
      var found := w.manifests[w.located[(dir, name)]].name;
      found != name && e == WrongName(name, found)
  }

  /** Where a name leads to, which must be a package of that name. */
  function Locate(w: World, dir: Dir, name: string): (r: Result<Dir>)
    ensures r.Ok? <==> Leads(w, dir, name)
    ensures r.Ok? ==> (dir, name) in w.located && r.value == w.located[(dir, name)] && r.value in w.manifests
    ensures r.Err? ==> Misses(w, dir, name, r.error)
  {
    if (dir, name) !in w.located || w.located[(dir, name)] !in w.manifests then Err(NotFound(name))
    else if w.manifests[w.located[(dir, name)]].name != name
         then Err(WrongName(name, w.manifests[w.located[(dir, name)]].name))
    else Ok(w.located[(dir, name)])
  }

  function Version(w: World, name: string, range: string, p: PackageJson): string {
    var key := name + "@" + range;
    if key in w.locked then w.locked[key] else p.version
  }

  /** Everything `deps` leads to from `dir`, however far, can be found. */
  ghost predicate Complete(w: World, ranks: map<Dir, nat>, deps: Ranges, dir: Dir)
    requires Acyclic(w, ranks)
    decreases Rank(ranks, dir)
  {
    forall k :: k in deps.range ==>
      && Leads(w, dir, k)
      && Complete(w, ranks, w.manifests[w.located[(dir, k)]].dependencies, w.located[(dir, k)])
  }

  /** The first names of `deps` lead to packages that can be built. */
  ghost predicate CompleteUpTo(w: World, ranks: map<Dir, nat>, deps: Ranges, dir: Dir, i: nat)
    requires Acyclic(w, ranks) && i <= |deps.order|
  {
    forall k :: k in deps.order[..i] ==>
      Leads(w, dir, k) && Complete(w, ranks, w.manifests[w.located[(dir, k)]].dependencies, w.located[(dir, k)])
  }

  /** The error is that of the first name in depth-first order that leads to no package of that name. */
  ghost predicate Blames(w: World, ranks: map<Dir, nat>, deps: Ranges, dir: Dir, e: Error)
    requires Acyclic(w, ranks)
    decreases Rank(ranks, dir)
  {
    exists i :: 0 <= i < |deps.order| && CompleteUpTo(w, ranks, deps, dir, i)
      && (Misses(w, dir, deps.order[i], e)
          || (Leads(w, dir, deps.order[i])
              && Blames(w, ranks, w.manifests[w.located[(dir, deps.order[i])]].dependencies,
                        w.located[(dir, deps.order[i])], e)))
  }

  /** `c` holds, for each of `deps`, the package it leads to with that package's own tree. */
  ghost predicate Built<M>(w: World, deps: Ranges, dir: Dir, c: Container<M>)
    decreases c
  {
    c.order == deps.order && c.entries.Keys == deps.range.Keys
    && forall k ::
         k in c.entries ==>
         k in deps.range && Leads(w, dir, k) && BuiltPackage(w, k, deps.range[k], w.located[(dir, k)], c.entries[k])
  }

  ghost predicate BuiltPackage<M>(w: World, name: string, range: string, dir: Dir, p: Package<M>)
    requires dir in w.manifests
    decreases p
  {
    var m := w.manifests[dir];
    && p.version == Version(w, name, range, m)
    && p.needs == m.dependencies.range.Keys
    && match p.dependencies
       case None => m.dependencies.range == map[]
       case Some(c) => m.dependencies.range != map[] && Built(w, m.dependencies, dir, c)
  }

  /** The version of an entry is the one that yarn.lock has for its name and range, or else that of
      the manifest; what the manifest depends on is required, and is there below the entry. */
  lemma BuiltEntry<M>(w: World, deps: Ranges, dir: Dir, c: Container<M>, k: string)
    requires Built(w, deps, dir, c) && k in deps.range
    ensures k in c.entries && (dir, k) in w.located && w.located[(dir, k)] in w.manifests
    ensures var p, m := c.entries[k], w.manifests[w.located[(dir, k)]];
      && m.name == k
      && p.version == (if k + "@" + deps.range[k] in w.locked then w.locked[k + "@" + deps.range[k]] else m.version)
      && (forall d :: d in p.needs <==> d in m.dependencies.range)
      && (p.dependencies.Some? <==> exists d :: d in m.dependencies.range)
      && (p.dependencies.Some? ==> p.dependencies.value.order == m.dependencies.order
                                   && Built(w, m.dependencies, w.located[(dir, k)], p.dependencies.value))
  {
    assert k in c.entries;
    var m := w.manifests[w.located[(dir, k)]];
    assert m.dependencies.range == map[] <==> m.dependencies.range.Keys == {};
    var p := c.entries[k];
    if p.dependencies.Some? { assert Built(w, m.dependencies, w.located[(dir, k)], p.dependencies.value); }
  }

  /** Before hoisting each package has all it requires in its own `dependencies`. */
  lemma BuiltResolvable<M>(w: World, deps: Ranges, dir: Dir, c: Container<M>, scope: set<string>)
    requires Built(w, deps, dir, c)
    ensures AllResolvable(c, scope)
    decreases c
  {
    forall k | k in c.entries ensures Resolvable(c.entries[k], scope + c.entries.Keys) {
      var p := c.entries[k];
      var at := w.located[(dir, k)];
      assert BuiltPackage(w, k, deps.range[k], at, p);
      if p.dependencies.Some? {
        BuiltResolvable(w, w.manifests[at].dependencies, at, p.dependencies.value, scope + c.entries.Keys);
      }
    }
  }

  lemma BuiltSupplied<M>(w: World, deps: Ranges, dir: Dir, c: Container<M>)
    requires Built(w, deps, dir, c)
    ensures AllSupplied(c)
    decreases c
  {
    forall k | k in c.entries ensures Supplied(c.entries[k]) {
      var p := c.entries[k];
      var at := w.located[(dir, k)];
      assert BuiltPackage(w, k, deps.range[k], at, p);
      if p.dependencies.Some? { BuiltSupplied(w, w.manifests[at].dependencies, at, p.dependencies.value); }
    }
  }

  // ---------------------------------------------------------------- building the objects

  /** The record `r` and the objects below it form the tree `c`. */
  ghost predicate Owns(r: Record, c: Tree)
    reads r, ObjectsIn(c)
  {
    Owned(r, c) && Holds(r, c)
  }

  /** The objects of `p` form the package `p`. */
  ghost predicate Sound(p: Package<Handle>)
    reads Objects(p)
  {
    PackageHolds(p) && Apart(p) && WellFormedPackage(p)
  }

  lemma AppendOwned(r: Record, c: Tree, name: string, p: Package<Handle>)
    requires Owned(r, c) && name !in c.entries && WellFormedPackage(p) && Apart(p)
    requires Objects(p) !! ObjectsIn(c) && r !in Objects(p)
    ensures Owned(r, Append(c, name, p)) && ObjectsIn(Append(c, name, p)) <= ObjectsIn(c) + Objects(p)
  {
    forall k | k in c.entries ensures Objects(c.entries[k]) !! Objects(p) {
      assert Objects(c.entries[k]) <= ObjectsIn(c);
    }
  }

  lemma AppendHolds(r: Record, c: Tree, name: string, p: Package<Handle>)
    requires name !in c.entries && AllHold(c) && PackageHolds(p)
    requires r.order == c.order + [name] && r.entries.Keys == c.entries.Keys + {name}
    requires forall k :: k in c.entries ==> r.entries[k] == c.entries[k].meta.pkg
    requires r.entries[name] == p.meta.pkg
    ensures Holds(r, Append(c, name, p))
  {
    hide PackageHolds, Objects, ObjectsIn;
  }

  method EmptyRecord() returns (ret: Record, ghost c: Tree)
    ensures fresh(ret) && c == Container([], map[]) && ObjectsIn(c) == {} && Owns(ret, c)
  {
    ret := new Record();
    c := Container([], map[]);
    assert WellFormed(c) && ApartIn(c) && Holds(ret, c);
  }

  /** One more package in the record, in objects of its own. */
  method AddPackage(ret: Record, name: string, pkg: PackageLockPackage, ghost c: Tree, ghost p: Package<Handle>)
    requires Owns(ret, c) && name !in c.entries && Sound(p) && p.meta.pkg == pkg
    requires Objects(p) !! ObjectsIn(c) && ret !in Objects(p)
    modifies ret
    ensures Owns(ret, Append(c, name, p)) && ObjectsIn(Append(c, name, p)) <= ObjectsIn(c) + Objects(p)
  {
    AllocatedIn(c);
    Allocated(p);
    AppendOwned(ret, c, name, p);
    ret.Add(name, pkg);
    AppendHolds(ret, c, name, p);
  }

  /** The entry for a package with its dependencies already built. */
  method NewPackage(w: World, depName: string, range: string, depDir: Dir, dependencies: Record, ghost c: Tree)
      returns (pkg: PackageLockPackage, ghost p: Package<Handle>)
    requires depDir in w.manifests
    requires Owns(dependencies, c) && Built(w, w.manifests[depDir].dependencies, depDir, c)
    ensures fresh(pkg) && p.meta.pkg == pkg && Sound(p) && Objects(p) <= {pkg, dependencies} + ObjectsIn(c)
    ensures BuiltPackage(w, depName, range, depDir, p)
  {
    AllocatedIn(c);
    hide Version, Objects, ObjectsIn, WellFormed, ApartIn, Built, Holds, Lists, AllHold;
    var depPkgJson := w.manifests[depDir];
    var needs := depPkgJson.dependencies.range.Keys;
    var version := Version(w, depName, range, depPkgJson);
    var empty := depPkgJson.dependencies.range == map[];
    pkg := new PackageLockPackage(version, needs, if empty then null else dependencies);
    p := Package(version, needs, Handle(pkg, dependencies), if empty then None else Some(c));
    NewSound(pkg, version, needs, dependencies, c, empty);
  }

  lemma NewSound(pkg: PackageLockPackage, version: string, needs: set<string>, record: Record, c: Tree, empty: bool)
    requires Owns(record, c) && pkg.version == version && pkg.needs == needs
             && pkg.dependencies == (if empty then null else record)
    requires pkg !in ObjectsIn(c)
    ensures var p := Package(version, needs, Handle(pkg, record), if empty then None else Some(c));
      Sound(p) && Objects(p) <= {pkg, record} + ObjectsIn(c)
  {
    hide ObjectsIn, ApartIn, WellFormed, Holds;
  }

  /** What is built after looking at the first names of `deps`. */
  ghost predicate BuiltUpTo(w: World, deps: Ranges, dir: Dir, i: nat, c: Tree)
    requires i <= |deps.order|
  {
    c.order == deps.order[..i] && (forall k :: k in c.entries <==> k in deps.order[..i])
    && forall k ::
         k in c.entries ==>
         k in deps.range && Leads(w, dir, k) && BuiltPackage(w, k, deps.range[k], w.located[(dir, k)], c.entries[k])
  }

  lemma BuiltOneMore(w: World, deps: Ranges, dir: Dir, i: nat, c: Tree, p: Package<Handle>)
    requires i < |deps.order| && Listed(deps) && deps.order[i] in deps.range && BuiltUpTo(w, deps, dir, i, c)
    requires Leads(w, dir, deps.order[i])
    requires BuiltPackage(w, deps.order[i], deps.range[deps.order[i]], w.located[(dir, deps.order[i])], p)
    ensures deps.order[i] !in c.entries
    ensures BuiltUpTo(w, deps, dir, i + 1, Append(c, deps.order[i], p))
  {
    hide BuiltPackage;
    Later(deps.order, i);
  }

  lemma BuiltEnds(w: World, deps: Ranges, dir: Dir, c: Tree)
    requires Listed(deps) && BuiltUpTo(w, deps, dir, |deps.order|, c)
    ensures Built(w, deps, dir, c)
  {
    assert deps.order[..|deps.order|] == deps.order;
    hide BuiltPackage;
  }

  lemma NothingYet(w: World, ranks: map<Dir, nat>, deps: Ranges, dir: Dir, c: Tree)
    requires Acyclic(w, ranks) && c == Container([], map[])
    ensures BuiltUpTo(w, deps, dir, 0, c) && CompleteUpTo(w, ranks, deps, dir, 0)
  {
  }

  lemma Later(names: seq<string>, i: nat)
    requires NoDuplicates(names) && i < |names|
    ensures names[i] !in names[..i]
  {
    if i > 0 {
      Later(names[1..], i - 1);
      assert names[..i] == [names[0]] + names[1..][..i - 1];
    }
  }

  lemma CompleteEnds(w: World, ranks: map<Dir, nat>, deps: Ranges, dir: Dir)
    requires Acyclic(w, ranks) && Listed(deps)
    ensures CompleteUpTo(w, ranks, deps, dir, |deps.order|) <==> Complete(w, ranks, deps, dir)
  {
    assert deps.order[..|deps.order|] == deps.order;
  }

  lemma CompleteOneMore(w: World, ranks: map<Dir, nat>, deps: Ranges, dir: Dir, i: nat)
    requires Acyclic(w, ranks) && Listed(deps) && i < |deps.order| && CompleteUpTo(w, ranks, deps, dir, i)
    ensures var k := deps.order[i];
            (Leads(w, dir, k) && Complete(w, ranks, w.manifests[w.located[(dir, k)]].dependencies, w.located[(dir, k)]))
            <==> CompleteUpTo(w, ranks, deps, dir, i + 1)
    ensures Complete(w, ranks, deps, dir) ==> CompleteUpTo(w, ranks, deps, dir, i + 1)
    ensures deps.order[i] in deps.range
    ensures (dir, deps.order[i]) in w.located ==> Rank(ranks, w.located[(dir, deps.order[i])]) < Rank(ranks, dir)
  {
    assert deps.order[..i + 1] == deps.order[..i] + [deps.order[i]];
  }

  lemma BlamedHere(w: World, ranks: map<Dir, nat>, deps: Ranges, dir: Dir, i: nat, e: Error)
    requires Acyclic(w, ranks) && i < |deps.order| && CompleteUpTo(w, ranks, deps, dir, i)
    requires Misses(w, dir, deps.order[i], e)
    ensures Blames(w, ranks, deps, dir, e)
  {
    hide Acyclic, CompleteUpTo, Misses;
  }

  lemma BlamedBelow(w: World, ranks: map<Dir, nat>, deps: Ranges, dir: Dir, i: nat, e: Error)
    requires Acyclic(w, ranks) && i < |deps.order| && CompleteUpTo(w, ranks, deps, dir, i)
    requires Leads(w, dir, deps.order[i])
    requires Blames(w, ranks, w.manifests[w.located[(dir, deps.order[i])]].dependencies,
                    w.located[(dir, deps.order[i])], e)
    ensures Blames(w, ranks, deps, dir, e)
  {
    hide CompleteUpTo, Misses;
  }

  lemma ListedManifest(w: World, ranks: map<Dir, nat>, dir: Dir)
    requires Acyclic(w, ranks) && dir in w.manifests
    ensures Listed(w.manifests[dir].dependencies)
  {
  }

  /** One entry of the tree: the package that `depName` leads to, with everything below it. */
  method DependencyFor(w: World, ghost ranks: map<Dir, nat>, depName: string, range: string, depDir: Dir)
      returns (result: Result<PackageLockPackage>, ghost built: Option<Package<Handle>>)
    requires Acyclic(w, ranks) && depDir in w.manifests
    ensures result.Ok? <==> Complete(w, ranks, w.manifests[depDir].dependencies, depDir)
    ensures result.Err? ==> Blames(w, ranks, w.manifests[depDir].dependencies, depDir, result.error)
    ensures result.Ok? ==>
            built.Some? && built.value.meta.pkg == result.value && fresh(Objects(built.value)) && Sound(built.value)
    ensures result.Ok? ==> BuiltPackage(w, depName, range, depDir, built.value)
    decreases Rank(ranks, depDir), 1
  {
    hide *;
    ListedManifest(w, ranks, depDir);
    var depPkgJson := w.manifests[depDir];
    var inner;
    ghost var t;
    inner, t := DependenciesFor(w, ranks, depPkgJson.dependencies, depDir);
    if inner.Err? {
      return Err(inner.error), None;
    }
    var pkg;
    ghost var p;
    pkg, p := NewPackage(w, depName, range, depDir, inner.value, t);
    return Ok(pkg), Some(p);
  }

  /** Build the tree of package objects below a package at `rootDir` that depends on `deps`. */
  method DependenciesFor(w: World, ghost ranks: map<Dir, nat>, deps: Ranges, rootDir: Dir)
      returns (result: Result<Record>, ghost c: Tree)
    requires Acyclic(w, ranks) && Listed(deps)
    ensures result.Ok? <==> Complete(w, ranks, deps, rootDir)
    ensures result.Err? ==> Blames(w, ranks, deps, rootDir, result.error)
    ensures result.Ok? ==> fresh(result.value) && fresh(ObjectsIn(c)) && Owns(result.value, c)
    ensures result.Ok? ==> Built(w, deps, rootDir, c)
    decreases Rank(ranks, rootDir), 0
  {
    hide Objects, ObjectsIn, Sound, Owns, Built, BuiltUpTo, BuiltPackage, Acyclic, Complete, CompleteUpTo, Listed,
         WellFormed, ApartIn, Leads, Locate, AllHold, NoDuplicates, Misses, Blames;
    CompleteEnds(w, ranks, deps, rootDir);
    var ret;
    ret, c := EmptyRecord();
    NothingYet(w, ranks, deps, rootDir, c);
    var i := 0;
    while i < |deps.order|
      invariant 0 <= i <= |deps.order|
      invariant fresh(ret) && fresh(ObjectsIn(c)) && Owns(ret, c)
      invariant BuiltUpTo(w, deps, rootDir, i, c)
      invariant CompleteUpTo(w, ranks, deps, rootDir, i)
    {
      var depName := deps.order[i];
      CompleteOneMore(w, ranks, deps, rootDir, i);
      var located := Locate(w, rootDir, depName);
      if located.Err? {
        BlamedHere(w, ranks, deps, rootDir, i, located.error);
        return Err(located.error), c;
      }
      AllocatedIn(c);
      var dep;
      ghost var built;
      dep, built := DependencyFor(w, ranks, depName, deps.range[depName], located.value);
      if dep.Err? {
        BlamedBelow(w, ranks, deps, rootDir, i, dep.error);
        return Err(dep.error), c;
      }
      BuiltOneMore(w, deps, rootDir, i, c, built.value);
      AddPackage(ret, depName, dep.value, c, built.value);
      c := Append(c, depName, built.value);
      i := i + 1;
    }
    BuiltEnds(w, deps, rootDir, c);
    result := Ok(ret);
  }

  // ---------------------------------------------------------------- the shrinkwrap

  /** generateShrinkwrap without files: build the tree of a package and hoist it. Whatever can be
      found becomes a lock file in which every require is found on its own level or higher, and at
      the version it was built with unless packages with several versions are nested. */
  method GenerateShrinkwrap(w: World, ghost ranks: map<Dir, nat>, deps: Ranges, rootDir: Dir, hoist: bool)
      returns (result: Result<Record>, ghost built: Tree)
    requires Acyclic(w, ranks) && Listed(deps)
    ensures result.Ok? <==> Complete(w, ranks, deps, rootDir)
    ensures result.Err? ==> Blames(w, ranks, deps, rootDir, result.error)
    ensures result.Ok? ==> WellFormed(built) && Built(w, deps, rootDir, built)
    ensures result.Ok? ==>
              var final := if hoist then Hoist(built) else built;
              && Owns(result.value, final) && AllResolvable(final, {})
              && (NoneNested(built, Contested(built)) ==> AllLookups(final, map[]) <= AllLookups(built, map[]))
  {
    result, built := DependenciesFor(w, ranks, deps, rootDir);
    if result.Ok? {
      BuiltResolvable(w, deps, rootDir, built, {});
      BuiltSupplied(w, deps, rootDir, built);
      hide *;
      if hoist {
        HoistKeepsResolvable(built, {});
        if NoneNested(built, Contested(built)) { UnnestedConflictsKeepVersions(built); }
        HoistDependencies(result.value, built);
      }
    }
  }
}
