/** Which version every require in a tree finds, and what hoisting does to it. */
module Lookups {
  import opened Options
  import opened PackageTree
  import opened Hoisting
  import opened Resolution
  import opened NormalForm

  // ---------------------------------------------------------------- what the tree contains

  /** A package as it occurs in the tree, apart from where it sits. */
  datatype Item<M> = Item(name: string, version: string, needs: set<string>, meta: M)

  function ItemAt<M>(name: string, p: Package<M>): Item<M> {
    Item(name, p.version, p.needs, p.meta)
  }

  ghost function ItemsOf<M>(name: string, p: Package<M>): set<Item<M>>
    decreases p
  {
    {ItemAt(name, p)}
    + match p.dependencies case None => {} case Some(c) => Items(c)
  }

  ghost function Items<M>(c: Container<M>): set<Item<M>>
    decreases c
  {
    set k, i | k in c.entries && i in ItemsOf(k, c.entries[k]) :: i
  }

  lemma EntryItems<M>(c: Container<M>, k: string)
    requires k in c.entries
    ensures ItemAt(k, c.entries[k]) in Items(c)
    ensures c.entries[k].dependencies.Some? ==> Items(c.entries[k].dependencies.value) <= Items(c)
  {
    assert ItemsOf(k, c.entries[k]) <= Items(c);
  }

  lemma UpdateItems<M>(c: Container<M>, n: string, p: Package<M>)
    requires n in c.entries && ItemsOf(n, p) <= Items(c)
    ensures Items(Update(c, n, p)) <= Items(c)
  {
  }

  lemma DeleteItems<M>(c: Container<M>, n: string, d: string)
    requires n in c.entries && c.entries[n].dependencies.Some?
    ensures Items(TakenOut(c, n, d)) <= Items(c)
  {
    var p := c.entries[n];
    var rest := Delete(p.dependencies.value, d);
    assert Items(rest) <= Items(p.dependencies.value);
    assert ItemsOf(n, p.(dependencies := Some(rest))) <= ItemsOf(n, p);
    UpdateItems(c, n, p.(dependencies := Some(rest)));
  }

  lemma MoveChildrenUpItems<M>(c: Container<M>, n: string)
    requires WellFormed(c) && n in c.entries
    ensures Items(MoveChildrenUp(c, n).container) <= Items(c)
    decreases c.entries[n], 1
  {
    match c.entries[n].dependencies
    case None =>
    case Some(snapshot) =>
      assert WellFormedPackage(c.entries[n]) && WellFormed(snapshot);
      PushEachItems(c, n, snapshot.order, snapshot);
      var pushed := PushEach(c, n, snapshot.order, snapshot).container;
      var left := pushed.entries[n];
      assert ItemsOf(n, left.(dependencies := None)) <= ItemsOf(n, left);
      UpdateItems(pushed, n, left.(dependencies := None));
  }

  lemma PushEachItems<M>(c: Container<M>, n: string, names: seq<string>, snapshot: Container<M>)
    requires Pending(c, n, names, snapshot)
    ensures Items(PushEach(c, n, names, snapshot).container) <= Items(c)
    decreases snapshot, 0, |names|
  {
    if names != [] {
      PushOneItems(c, n, names[0], snapshot);
      PushEachItems(PushOne(c, n, names[0], snapshot).container, n, names[1..], snapshot);
    }
  }

  lemma PushOneItems<M>(c: Container<M>, n: string, d: string, snapshot: Container<M>)
    requires Pending(c, n, [d], snapshot)
    ensures Items(PushOne(c, n, d, snapshot).container) <= Items(c)
    decreases snapshot, 0, 0
  {
    PendingChild(c, n, d, snapshot);
    var parent := c.entries[n];
    var siblings := parent.dependencies.value;
    if d !in c.entries || c.entries[d].version == siblings.entries[d].version {
      DeleteItems(c, n, d);
      if d !in c.entries {
        var child := siblings.entries[d];
        assert ItemsOf(d, child) <= Items(siblings) <= ItemsOf(n, parent) <= Items(c);
        assert Items(Moved(c, n, d)) <= Items(TakenOut(c, n, d)) + ItemsOf(d, child);
        MoveChildrenUpItems(Moved(c, n, d), d);
      }
    } else {
      MoveChildrenUpItems(siblings, d);
      var kept := parent.(dependencies := Some(MoveChildrenUp(siblings, d).container));
      assert ItemsOf(n, kept) <= ItemsOf(n, parent);
      UpdateItems(c, n, kept);
    }
  }

  lemma SimplifyEachItems<M>(c: Container<M>, names: seq<string>)
    requires WellFormed(c) && forall k :: k in names ==> k in c.entries
    ensures Items(SimplifyEach(c, names).container) <= Items(c)
    decreases |names|
  {
    if names != [] {
      MoveChildrenUpItems(c, names[0]);
      SimplifyEachItems(MoveChildrenUp(c, names[0]).container, names[1..]);
    }
  }

  /** Hoisting invents no package: each one in the result occurs in the input, under the same
      name, with the same version, requires and other fields. */
  lemma {:induction false} HoistItems<M>(c: Container<M>)
    requires WellFormed(c)
    ensures Items(Hoist(c)) <= Items(c)
    decreases LoadAll(c)
  {
    SimplifyEachItems(c, c.order);
    SimplifyEachLoad(c, c.order);
    if Simplify(c).changed {
      HoistItems(Simplify(c).container);
    }
  }

  // ---------------------------------------------------------------- what the tree means

  /** The versions available to a package from the records above it. */
  type Env = map<string, string>

  function Versions<M>(c: Container<M>): Env {
    map k | k in c.entries :: c.entries[k].version
  }

  /** What a package itself sees: its own `dependencies` come before everything above. */
  function Inside<M>(p: Package<M>, env: Env): Env {
    match p.dependencies case None => env case Some(c) => env + Versions(c)
  }

  function Find(env: Env, name: string): Option<string> {
    if name in env then Some(env[name]) else None
  }

  /** Package `who` requires `name` and finds the version `found`, if any. */
  datatype Lookup<M> = Lookup(who: M, name: string, found: Option<string>)

  ghost function LookupsOf<M>(p: Package<M>, env: Env): set<Lookup<M>>
    decreases p
  {
    (set k | k in p.needs :: Lookup(p.meta, k, Find(Inside(p, env), k)))
    + match p.dependencies case None => {} case Some(c) => AllLookups(c, env)
  }

  ghost function AllLookups<M>(c: Container<M>, env: Env): set<Lookup<M>>
    decreases c
  {
    set k, l | k in c.entries && l in LookupsOf(c.entries[k], env + Versions(c)) :: l
  }

  lemma ResolvableFinds<M>(c: Container<M>, env: Env)
    requires AllResolvable(c, env.Keys)
    ensures forall l :: l in AllLookups(c, env) ==> l.found.Some?
    decreases c
  {
    forall k, l | k in c.entries && l in LookupsOf(c.entries[k], env + Versions(c)) ensures l.found.Some? {
      assert (env + Versions(c)).Keys == env.Keys + c.entries.Keys;
      PackageFinds(c.entries[k], env + Versions(c));
    }
  }

  lemma PackageFinds<M>(p: Package<M>, env: Env)
    requires Resolvable(p, env.Keys)
    ensures forall l :: l in LookupsOf(p, env) ==> l.found.Some?
    decreases p
  {
    if p.dependencies.Some? {
      ResolvableFinds(p.dependencies.value, env);
    }
  }

  /** The lookup is made by a package of the tree. */
  ghost predicate Made<M>(c: Container<M>, l: Lookup<M>) {
    exists i :: i in Items(c) && i.meta == l.who && l.name in i.needs
  }

  /** What the lookup finds is in the tree or in the records above. */
  ghost predicate Known<M>(c: Container<M>, env: Env, l: Lookup<M>) {
    l.found.Some? ==>
      || (l.name in env && env[l.name] == l.found.value)
      || exists i :: i in Items(c) && i.name == l.name && i.version == l.found.value
  }

  lemma KnownHere<M>(c: Container<M>, env: Env, l: Lookup<M>)
    requires l.found == Find(env + Versions(c), l.name)
    ensures Known(c, env, l)
  {
    if l.name in c.entries {
      EntryItems(c, l.name);
      assert ItemAt(l.name, c.entries[l.name]) in Items(c);
    }
  }

  lemma KnownUp<M>(c: Container<M>, q: Container<M>, env: Env, l: Lookup<M>)
    requires Items(q) <= Items(c) && Known(q, env + Versions(c), l)
    ensures Known(c, env, l)
  {
    if l.found.Some? && l.name in c.entries {
      EntryItems(c, l.name);
      assert ItemAt(l.name, c.entries[l.name]) in Items(c);
    }
  }

  /** A lookup is made by a package of the tree, and finds one of the tree or of the records above. */
  lemma LookupsStayInside<M>(c: Container<M>, env: Env, l: Lookup<M>)
    requires l in AllLookups(c, env)
    ensures Made(c, l) && Known(c, env, l)
    decreases c
  {
    var k :| k in c.entries && l in LookupsOf(c.entries[k], env + Versions(c));
    var p := c.entries[k];
    EntryItems(c, k);
    if p.dependencies.Some? && l in AllLookups(p.dependencies.value, env + Versions(c)) {
      LookupsStayInside(p.dependencies.value, env + Versions(c), l);
      KnownUp(c, p.dependencies.value, env, l);
    } else {
      OwnLookup(c, k, env, l);
    }
  }

  lemma OwnLookup<M>(c: Container<M>, k: string, env: Env, l: Lookup<M>)
    requires k in c.entries && l in LookupsOf(c.entries[k], env + Versions(c))
    requires c.entries[k].dependencies.Some? ==> l !in AllLookups(c.entries[k].dependencies.value, env + Versions(c))
    ensures Made(c, l) && Known(c, env, l)
  {
    var p := c.entries[k];
    assert l.who == p.meta && l.name in p.needs && l.found == Find(Inside(p, env + Versions(c)), l.name);
    hide LookupsOf, AllLookups, Items;
    EntryItems(c, k);
    assert ItemAt(k, p) in Items(c);
    match p.dependencies
    case None => KnownHere(c, env, l);
    case Some(q) =>
      KnownHere(q, env + Versions(c), l);
      KnownUp(c, q, env, l);
  }

  /** Every require of every package of the tree is looked up. */
  lemma ItemsAreLookedUp<M>(c: Container<M>, env: Env, i: Item<M>, name: string)
    requires i in Items(c) && name in i.needs
    ensures exists l :: l in AllLookups(c, env) && l.who == i.meta && l.name == name
    decreases c
  {
    var k :| k in c.entries && i in ItemsOf(k, c.entries[k]);
    var p := c.entries[k];
    var inner := env + Versions(c);
    if p.dependencies.Some? && i in Items(p.dependencies.value) {
      ItemsAreLookedUp(p.dependencies.value, inner, i, name);
      var l :| l in AllLookups(p.dependencies.value, inner) && l.who == i.meta && l.name == name;
      assert l in LookupsOf(p, inner);
      assert l in AllLookups(c, env);
    } else {
      var l := Lookup(p.meta, name, Find(Inside(p, inner), name));
      assert l in LookupsOf(p, inner);
      assert l in AllLookups(c, env);
    }
  }

  // ---------------------------------------------------------------- names with one version

  /** A name of which the whole input tree has one version is found, after hoisting, at that
      version by every package that requires it. */
  lemma SingleVersionNamesKept<M>(c: Container<M>, name: string, version: string)
    requires WellFormed(c) && AllResolvable(c, {})
    requires forall i :: i in Items(c) && i.name == name ==> i.version == version
    ensures forall l :: l in AllLookups(Hoist(c), map[]) && l.name == name ==> l.found == Some(version)
  {
    HoistKeepsResolvable(c, {});
    HoistItems(c);
    var empty: Env := map[];
    assert empty.Keys == {};
    ResolvableFinds(Hoist(c), empty);
    forall l | l in AllLookups(Hoist(c), empty) && l.name == name ensures l.found == Some(version) {
      LookupsStayInside(Hoist(c), empty, l);
    }
  }

  ghost predicate OneVersionPerName<M>(c: Container<M>) {
    forall i, j :: i in Items(c) && j in Items(c) && i.name == j.name ==> i.version == j.version
  }

  /** If every name has one version, the result is flat and every require finds what it found. */
  lemma OneVersionPerNameFlattens<M>(c: Container<M>)
    requires WellFormed(c) && AllResolvable(c, {}) && OneVersionPerName(c)
    ensures forall k :: k in Hoist(c).entries ==> Hoist(c).entries[k].dependencies.None?
    ensures AllLookups(Hoist(c), map[]) <= AllLookups(c, map[])
  {
    var h := Hoist(c);
    HoistItems(c);
    HoistNormalizes(c);
    forall k | k in h.entries ensures h.entries[k].dependencies.None? {
      NormalMeansFlat(h, k);
    }
    var empty: Env := map[];
    assert empty.Keys == {};
    HoistKeepsResolvable(c, {});
    ResolvableFinds(c, empty);
    ResolvableFinds(h, empty);
    forall l | l in AllLookups(h, empty) ensures l in AllLookups(c, empty) {
      LookupsStayInside(h, empty, l);
      var i :| i in Items(h) && i.meta == l.who && l.name in i.needs;
      ItemsAreLookedUp(c, empty, i, l.name);
      var l' :| l' in AllLookups(c, empty) && l'.who == i.meta && l'.name == l.name;
      LookupsStayInside(c, empty, l');
      assert l' == l;
    }
  }

  lemma NormalMeansFlat<M>(h: Container<M>, k: string)
    requires Normal(h) && OneVersionPerName(h) && k in h.entries
    ensures h.entries[k].dependencies.None?
  {
    var p := h.entries[k];
    assert Settled(p, h);
    if p.dependencies.Some? {
      var inner := p.dependencies.value;
      var d :| d in inner.entries;
      assert Stuck(d, inner, h);
      EntryItems(inner, d);
      EntryItems(h, d);
      EntryItems(h, k);
      assert false;
    }
  }
}
