/** The in-memory shrinkwrap tree: packages that hold ordered records of packages. */
module PackageTree {
  import opened Options

  /** A package lock entry. `meta` stands for the fields the hoister carries along unread
      (resolved, integrity, bundled, dev, optional); `needs` holds the names of the
      `requires` record. An absent `dependencies` field differs from an empty one. */
  datatype Package<M> = Package(version: string, needs: set<string>, meta: M,
                                dependencies: Option<Container<M>>)

  /** A JavaScript record of packages: its entries and its keys in insertion order. */
  datatype Container<M> = Container(order: seq<string>, entries: map<string, Package<M>>)

  ghost predicate NoDuplicates(names: seq<string>) {
    names != [] ==> names[0] !in names[1..] && NoDuplicates(names[1..])
  }

  /** Every record in the tree lists each of its keys exactly once. */
  ghost predicate WellFormed<M>(c: Container<M>) {
    && NoDuplicates(c.order)
    && (forall k :: k in c.order <==> k in c.entries)
    && (forall k :: k in c.entries ==> WellFormedPackage(c.entries[k]))
  }

  ghost predicate WellFormedPackage<M>(p: Package<M>) {
    p.dependencies.Some? ==> WellFormed(p.dependencies.value)
  }

  function Without(names: seq<string>, d: string): (r: seq<string>)
    ensures NoDuplicates(names) ==> NoDuplicates(r) && forall k :: k in r <==> k in names && k != d
    ensures forall k :: k in r ==> k in names
  {
    if names == [] then []
    else if names[0] == d then names[1..]
    else
      var r := [names[0]] + Without(names[1..], d);
      assert r[1..] == Without(names[1..], d);
      r
  }

  lemma NoDuplicatesAppend(names: seq<string>, d: string)
    requires NoDuplicates(names) && d !in names
    ensures NoDuplicates(names + [d])
  {
    if names != [] {
      assert (names + [d])[1..] == names[1..] + [d];
      NoDuplicatesAppend(names[1..], d);
    }
  }

  /** `c` without the entry `d`; the other keys keep their order. */
  function Delete<M>(c: Container<M>, d: string): (r: Container<M>)
    ensures WellFormed(c) ==> WellFormed(r)
  {
    Container(Without(c.order, d), c.entries - {d})
  }

  /** `c` with `p` under the new key `d`, which goes last. */
  function Append<M>(c: Container<M>, d: string, p: Package<M>): (r: Container<M>)
    ensures WellFormed(c) && d !in c.entries && WellFormedPackage(p) ==> WellFormed(r)
  {
    assert NoDuplicates(c.order) && d !in c.order ==> NoDuplicates(c.order + [d]) by {
      if NoDuplicates(c.order) && d !in c.order { NoDuplicatesAppend(c.order, d); }
    }
    Container(c.order + [d], c.entries[d := p])
  }

  /** The package stored under `n` changes in place; the key keeps its position. */
  function Update<M>(c: Container<M>, n: string, p: Package<M>): (r: Container<M>)
    ensures WellFormed(c) && n in c.entries && WellFormedPackage(p) ==> WellFormed(r)
  {
    c.(entries := c.entries[n := p])
  }
}
