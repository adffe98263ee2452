/** The shrinkwrap hoister as functions on values. */
module Hoisting {
  import opened Options
  import opened PackageTree

  /** A container after an in-place rewrite, and whether `didChange` was set on the way. */
  datatype Step<M> = Step(container: Container<M>, changed: bool)

  /** Names in use are only ever added, and nothing but the package under `n` is rewritten. */
  ghost predicate Grows<M>(c: Container<M>, r: Container<M>, n: string) {
    && WellFormed(r)
    && (forall k :: k in c.entries ==> k in r.entries)
    && (forall k :: k in c.entries && k != n ==> r.entries[k] == c.entries[k])
    && (n in c.entries ==> SameButDependencies(r.entries[n], c.entries[n]))
  }

  ghost predicate SameButDependencies<M>(p: Package<M>, q: Package<M>) {
    p.version == q.version && p.needs == q.needs && p.meta == q.meta
  }

  /** Push the children of the package under `n` into `c`, the container it lives in. */
  function MoveChildrenUp<M>(c: Container<M>, n: string): (r: Step<M>)
    requires WellFormed(c) && n in c.entries
    ensures Grows(c, r.container, n)
    decreases c.entries[n], 1
  {
    match c.entries[n].dependencies
    case None => Step(c, false)
    case Some(snapshot) =>
      assert WellFormedPackage(c.entries[n]) && WellFormed(snapshot);
      var pushed := PushEach(c, n, snapshot.order, snapshot);
      var left := pushed.container.entries[n];
      if left.dependencies.value.entries == map[] then
        Step(Update(pushed.container, n, left.(dependencies := None)), true)
      else
        pushed
  }

  /** What is still to visit of the snapshot is untouched in the package under `n`. */
  ghost predicate Pending<M>(c: Container<M>, n: string, names: seq<string>, snapshot: Container<M>) {
    && WellFormed(c) && n in c.entries && c.entries[n].dependencies.Some?
    && NoDuplicates(names)
    && (forall k :: k in names ==>
        && k in snapshot.entries && k in c.entries[n].dependencies.value.entries
        && c.entries[n].dependencies.value.entries[k] == snapshot.entries[k])
  }

  /** The loop over the snapshot of the children of the package under `n`. */
  function PushEach<M>(c: Container<M>, n: string, names: seq<string>, snapshot: Container<M>): (r: Step<M>)
    requires Pending(c, n, names, snapshot)
    ensures Grows(c, r.container, n) && r.container.entries[n].dependencies.Some?
    decreases snapshot, 0, |names|
  {
    if names == [] then Step(c, false)
    else
      var first := PushOne(c, n, names[0], snapshot);
      assert Pending(first.container, n, names[1..], snapshot);
      var rest := PushEach(first.container, n, names[1..], snapshot);
      Step(rest.container, first.changed || rest.changed)
  }

  /** `d` is a child of the package under `n`. */
  ghost predicate Child<M>(c: Container<M>, n: string, d: string) {
    && WellFormed(c) && n in c.entries && c.entries[n].dependencies.Some?
    && d in c.entries[n].dependencies.value.entries
  }

  /** `c` with the child `d` of the package under `n` deleted. */
  function TakenOut<M>(c: Container<M>, n: string, d: string): (r: Container<M>)
    requires n in c.entries && c.entries[n].dependencies.Some?
  {
    Update(c, n, c.entries[n].(dependencies := Some(Delete(c.entries[n].dependencies.value, d))))
  }

  /** `c` with the child `d` of the package under `n` moved up, before its own children are pushed. */
  function Moved<M>(c: Container<M>, n: string, d: string): (r: Container<M>)
    requires n in c.entries && c.entries[n].dependencies.Some? && d in c.entries[n].dependencies.value.entries
  {
    Append(TakenOut(c, n, d), d, c.entries[n].dependencies.value.entries[d])
  }

  lemma PendingChild<M>(c: Container<M>, n: string, d: string, snapshot: Container<M>)
    requires Pending(c, n, [d], snapshot)
    ensures Child(c, n, d) && d in snapshot.entries && c.entries[n].dependencies.value.entries[d] == snapshot.entries[d]
    ensures WellFormed(c.entries[n].dependencies.value)
    ensures WellFormedPackage(c.entries[n].dependencies.value.entries[d])
    ensures WellFormed(TakenOut(c, n, d))
    ensures d !in c.entries ==> WellFormed(Moved(c, n, d))
  {
    assert d in [d];
    assert WellFormedPackage(c.entries[n]);
  }

  function PushOne<M>(c: Container<M>, n: string, d: string, snapshot: Container<M>): (r: Step<M>)
    requires Pending(c, n, [d], snapshot)
    ensures Grows(c, r.container, n) && r.container.entries[n].dependencies.Some?
    ensures forall k :: k in c.entries[n].dependencies.value.entries && k != d ==>
      && k in r.container.entries[n].dependencies.value.entries
      && r.container.entries[n].dependencies.value.entries[k] == c.entries[n].dependencies.value.entries[k]
    decreases snapshot, 0, 0
  {
    PendingChild(c, n, d, snapshot);
    var siblings := c.entries[n].dependencies.value;
    if d !in c.entries then
      // The name is free in `c`.
      Step(MoveChildrenUp(Moved(c, n, d), d).container, true)
    else if c.entries[d].version == siblings.entries[d].version then
      // `c` has that name at the same version, so every lookup finds the same there.
      Step(TakenOut(c, n, d), true)
    else
      // The name is taken by another version, which `d` must go on hiding.
      var r := MoveChildrenUp(siblings, d);
      Step(Update(c, n, c.entries[n].(dependencies := Some(r.container))), r.changed)
  }

  /** MoveChildrenUp is the loop over the snapshot and then the cleanup. */
  lemma MoveChildrenUpSteps<M>(c: Container<M>, n: string, snapshot: Container<M>)
    requires WellFormed(c) && n in c.entries && c.entries[n].dependencies == Some(snapshot)
    ensures Pending(c, n, snapshot.order, snapshot)
    ensures var pushed := PushEach(c, n, snapshot.order, snapshot);
            var left := pushed.container.entries[n];
            MoveChildrenUp(c, n) == if left.dependencies.value.entries == map[]
                                    then Step(Update(pushed.container, n, left.(dependencies := None)), true)
                                    else pushed
  {
    assert WellFormedPackage(c.entries[n]) && WellFormed(snapshot);
  }

  lemma PushEachDone<M>(c: Container<M>, n: string, snapshot: Container<M>)
    requires Pending(c, n, [], snapshot)
    ensures PushEach(c, n, [], snapshot) == Step(c, false)
  {
  }

  /** A loop over the snapshot is its first turn and then the loop over the rest. */
  lemma PushEachFirst<M>(c: Container<M>, n: string, names: seq<string>, snapshot: Container<M>)
    requires names != [] && Pending(c, n, names, snapshot)
    ensures Pending(c, n, [names[0]], snapshot)
    ensures var first := PushOne(c, n, names[0], snapshot);
            && Pending(first.container, n, names[1..], snapshot)
            && first.container.entries[n].meta == c.entries[n].meta
            && var rest := PushEach(first.container, n, names[1..], snapshot);
            PushEach(c, n, names, snapshot) == Step(rest.container, first.changed || rest.changed)
  {
  }

  /** One pass of the do-while loop: every root package pushes its children into the root. */
  function Simplify<M>(c: Container<M>): (r: Step<M>)
    requires WellFormed(c)
    ensures WellFormed(r.container) && c.entries.Keys <= r.container.entries.Keys
  {
    SimplifyEach(c, c.order)
  }

  function SimplifyEach<M>(c: Container<M>, names: seq<string>): (r: Step<M>)
    requires WellFormed(c) && forall k :: k in names ==> k in c.entries
    ensures WellFormed(r.container) && c.entries.Keys <= r.container.entries.Keys
    decreases |names|
  {
    if names == [] then Step(c, false)
    else
      var first := MoveChildrenUp(c, names[0]);
      var rest := SimplifyEach(first.container, names[1..]);
      Step(rest.container, first.changed || rest.changed)
  }

  /** hoistDependencies: simplify until a pass changes nothing. */
  function Hoist<M>(c: Container<M>): (r: Container<M>)
    requires WellFormed(c)
    ensures WellFormed(r) && c.entries.Keys <= r.entries.Keys
    decreases LoadAll(c)
  {
    var pass := Simplify(c);
    SimplifyEachLoad(c, c.order);
    if pass.changed then Hoist(pass.container) else pass.container
  }

  // ---------------------------------------------------------------- termination

  ghost function Total(names: seq<string>, w: map<string, nat>): nat {
    if names == [] then 0
    else (if names[0] in w then w[names[0]] else 0) + Total(names[1..], w)
  }

  /** How many packages there are in the tree. */
  ghost function Count<M>(p: Package<M>): nat {
    1 + match p.dependencies case None => 0 case Some(c) => CountAll(c)
  }

  ghost function CountAll<M>(c: Container<M>): nat
    decreases c, 1
  {
    Total(c.order, Counts(c))
  }

  ghost function Counts<M>(c: Container<M>): map<string, nat>
    decreases c, 0
  {
    map k | k in c.entries :: Count(c.entries[k])
  }

  /** The sum of all package depths plus the number of packages that have `dependencies`. */
  ghost function Load<M>(p: Package<M>): nat {
    match p.dependencies case None => 0 case Some(c) => 1 + LoadAll(c) + CountAll(c)
  }

  ghost function LoadAll<M>(c: Container<M>): nat
    decreases c, 1
  {
    Total(c.order, Loads(c))
  }

  ghost function Loads<M>(c: Container<M>): map<string, nat>
    decreases c, 0
  {
    map k | k in c.entries :: Load(c.entries[k])
  }

  lemma TotalAgrees(names: seq<string>, w: map<string, nat>, w': map<string, nat>)
    requires forall k :: k in names ==> (k in w <==> k in w') && (k in w ==> w[k] == w'[k])
    ensures Total(names, w) == Total(names, w')
  {
  }

  lemma TotalAppend(names: seq<string>, d: string, w: map<string, nat>)
    requires d in w
    ensures Total(names + [d], w) == Total(names, w) + w[d]
  {
    if names == [] {
      assert names + [d] == [d];
      assert Total([d], w) == w[d] + Total([], w);
    } else {
      assert (names + [d])[1..] == names[1..] + [d];
      TotalAppend(names[1..], d, w);
    }
  }

  lemma TotalWithout(names: seq<string>, d: string, w: map<string, nat>)
    requires d in names && d in w
    ensures Total(Without(names, d), w) + w[d] == Total(names, w)
  {
    if names[0] != d {
      TotalWithout(names[1..], d, w);
      assert ([names[0]] + Without(names[1..], d))[1..] == Without(names[1..], d);
    }
  }

  lemma TotalUpdate(names: seq<string>, n: string, w: map<string, nat>, v: nat)
    requires NoDuplicates(names) && n in names && n in w
    ensures Total(names, w[n := v]) + w[n] == Total(names, w) + v
  {
    if names[0] == n {
      TotalAgrees(names[1..], w, w[n := v]);
    } else {
      TotalUpdate(names[1..], n, w, v);
    }
  }

  lemma UpdateTotals<M>(c: Container<M>, n: string, p: Package<M>)
    requires WellFormed(c) && n in c.entries
    ensures LoadAll(Update(c, n, p)) + Load(c.entries[n]) == LoadAll(c) + Load(p)
    ensures CountAll(Update(c, n, p)) + Count(c.entries[n]) == CountAll(c) + Count(p)
  {
    var r := Update(c, n, p);
    assert Loads(r) == Loads(c)[n := Load(p)];
    assert Counts(r) == Counts(c)[n := Count(p)];
    TotalUpdate(c.order, n, Loads(c), Load(p));
    TotalUpdate(c.order, n, Counts(c), Count(p));
  }

  lemma DeleteTotals<M>(c: Container<M>, d: string)
    requires WellFormed(c) && d in c.entries
    ensures LoadAll(Delete(c, d)) + Load(c.entries[d]) == LoadAll(c)
    ensures CountAll(Delete(c, d)) + Count(c.entries[d]) == CountAll(c)
  {
    var r := Delete(c, d);
    TotalAgrees(r.order, Loads(r), Loads(c));
    TotalAgrees(r.order, Counts(r), Counts(c));
    TotalWithout(c.order, d, Loads(c));
    TotalWithout(c.order, d, Counts(c));
  }

  lemma AppendTotals<M>(c: Container<M>, d: string, p: Package<M>)
    requires WellFormed(c) && d !in c.entries
    ensures LoadAll(Append(c, d, p)) == LoadAll(c) + Load(p)
    ensures CountAll(Append(c, d, p)) == CountAll(c) + Count(p)
  {
    var r := Append(c, d, p);
    TotalAgrees(c.order, Loads(r), Loads(c));
    TotalAgrees(c.order, Counts(r), Counts(c));
    TotalAppend(c.order, d, Loads(r));
    TotalAppend(c.order, d, Counts(r));
  }

  /** A step sets `didChange` exactly when it lowers the load, and otherwise changes nothing. */
  ghost predicate Lowers<M>(c: Container<M>, r: Step<M>) {
    && CountAll(r.container) <= CountAll(c)
    && (if r.changed then LoadAll(r.container) < LoadAll(c) else r.container == c)
  }

  lemma MoveChildrenUpLoad<M>(c: Container<M>, n: string)
    requires WellFormed(c) && n in c.entries
    ensures Lowers(c, MoveChildrenUp(c, n))
    decreases c.entries[n], 1
  {
    match c.entries[n].dependencies
    case None =>
    case Some(snapshot) =>
      assert WellFormedPackage(c.entries[n]) && WellFormed(snapshot);
      PushEachLoad(c, n, snapshot.order, snapshot);
      var pushed := PushEach(c, n, snapshot.order, snapshot);
      var left := pushed.container.entries[n];
      UpdateTotals(pushed.container, n, left.(dependencies := None));
  }

  lemma PushEachLoad<M>(c: Container<M>, n: string, names: seq<string>, snapshot: Container<M>)
    requires Pending(c, n, names, snapshot)
    ensures Lowers(c, PushEach(c, n, names, snapshot))
    decreases snapshot, 0, |names|
  {
    if names != [] {
      PushOneLoad(c, n, names[0], snapshot);
      PushEachLoad(PushOne(c, n, names[0], snapshot).container, n, names[1..], snapshot);
    }
  }

  lemma TakenOutTotals<M>(c: Container<M>, n: string, d: string)
    requires Child(c, n, d)
    ensures var child := c.entries[n].dependencies.value.entries[d];
            && LoadAll(TakenOut(c, n, d)) + Load(child) < LoadAll(c)
            && CountAll(TakenOut(c, n, d)) + Count(child) == CountAll(c)
  {
    var parent := c.entries[n];
    assert WellFormedPackage(parent);
    DeleteTotals(parent.dependencies.value, d);
    UpdateTotals(c, n, parent.(dependencies := Some(Delete(parent.dependencies.value, d))));
  }

  lemma MovedTotals<M>(c: Container<M>, n: string, d: string)
    requires Child(c, n, d) && d !in c.entries
    ensures LoadAll(Moved(c, n, d)) < LoadAll(c) && CountAll(Moved(c, n, d)) == CountAll(c)
  {
    assert WellFormedPackage(c.entries[n]);
    assert WellFormed(TakenOut(c, n, d));
    TakenOutTotals(c, n, d);
    AppendTotals(TakenOut(c, n, d), d, c.entries[n].dependencies.value.entries[d]);
  }

  lemma PushOneLoad<M>(c: Container<M>, n: string, d: string, snapshot: Container<M>)
    requires Pending(c, n, [d], snapshot)
    ensures Lowers(c, PushOne(c, n, d, snapshot))
    decreases snapshot, 0, 0
  {
    PendingChild(c, n, d, snapshot);
    var siblings := c.entries[n].dependencies.value;
    if d !in c.entries {
      MovedTotals(c, n, d);
      MoveChildrenUpLoad(Moved(c, n, d), d);
    } else if c.entries[d].version == siblings.entries[d].version {
      TakenOutTotals(c, n, d);
    } else {
      MoveChildrenUpLoad(siblings, d);
      InsideLoad(c, n, MoveChildrenUp(siblings, d));
    }
  }

  lemma InsideLoad<M>(c: Container<M>, n: string, s: Step<M>)
    requires WellFormed(c) && n in c.entries && c.entries[n].dependencies.Some?
    requires Lowers(c.entries[n].dependencies.value, s)
    ensures Lowers(c, Step(Update(c, n, c.entries[n].(dependencies := Some(s.container))), s.changed))
  {
    var kept := c.entries[n].(dependencies := Some(s.container));
    UpdateTotals(c, n, kept);
    if !s.changed { assert Update(c, n, kept).entries == c.entries; }
  }

  lemma SimplifyEachLoad<M>(c: Container<M>, names: seq<string>)
    requires WellFormed(c) && forall k :: k in names ==> k in c.entries
    ensures Lowers(c, SimplifyEach(c, names))
    decreases |names|
  {
    if names != [] {
      MoveChildrenUpLoad(c, names[0]);
      SimplifyEachLoad(MoveChildrenUp(c, names[0]).container, names[1..]);
    }
  }
}
